/**
 * What the scaffolder does to the world, as a trace: console lines, directory
 * and file creation, and child processes. A call ends by returning, by
 * throwing an `Error`, or by `Deno.exit`.
 */
module Effects {

  import opened Wrappers
  import Manifest

  datatype Stream = Out | Err

  /** What a file is written with: text, or the manifest object written as JSON. */
  datatype Content = Text(text: string) | Json(manifest: Manifest.PackageJson)

  /** A child process: the executable, its arguments and its working directory. */
  datatype Invocation = Invocation(command: string, args: seq<string>, cwd: Option<string>)

  datatype Effect =
    | Log(stream: Stream, line: string)    // console.log (Out), console.error (Err)
    | EnsureDir(path: string)              // fs.ensureDir: the directory and its parents
    | EnsureFile(path: string)             // fs.ensureFile
    | WriteFile(path: string, content: Content)
    | Spawn(invocation: Invocation)

  predicate IsFsEffect(e: Effect) {
    e.EnsureDir? || e.EnsureFile? || e.WriteFile?
  }

  function PathOf(e: Effect): string
    requires IsFsEffect(e)
  {
    match e
    case EnsureDir(p) => p
    case EnsureFile(p) => p
    case WriteFile(p, _) => p
  }

  /** How a call ends: it returns a value, throws an error with a message, or the process exits. */
  datatype Completion<T> = Return(value: T) | Throw(message: string) | Exit(code: int)

  /** The effects of a call, in order, and how it ended. */
  datatype Run<T> = Run(effects: seq<Effect>, done: Completion<T>)

  /** A completion that did not return, carried over to another result type. */
  function Abrupt<T, U>(c: Completion<T>): Completion<U>
    requires !c.Return?
  {
    match c
    case Throw(m) => Throw(m)
    case Exit(n) => Exit(n)
  }

  /** `await first; await rest`: the second call runs only when the first returned. */
  function Then<T>(first: Run<()>, rest: Run<T>): Run<T> {
    if first.done.Return? then Run(first.effects + rest.effects, rest.done)
    else Run(first.effects, Abrupt(first.done))
  }

  /** A sequence of awaited steps. */
  function Sequence(steps: seq<Run<()>>): Run<()>
    decreases |steps|
  {
    if steps == [] then Run([], Return(()))
    else Then(steps[0], Sequence(steps[1..]))
  }

  function Concat(steps: seq<Run<()>>): seq<Effect>
    decreases |steps|
  {
    if steps == [] then [] else steps[0].effects + Concat(steps[1..])
  }

  /** The index of the first step that does not return, or the number of steps. */
  function FirstStop(steps: seq<Run<()>>): (n: nat)
    ensures n <= |steps|
    ensures forall i | 0 <= i < n :: steps[i].done.Return?
    ensures n < |steps| ==> !steps[n].done.Return?
    decreases |steps|
  {
    if steps == [] then 0
    else if !steps[0].done.Return? then 0
    else 1 + FirstStop(steps[1..])
  }

  /**
   * The steps run in order and the first one that does not return ends the
   * sequence: its effects are those of the steps up to and including that one,
   * and it ends as that step ended; when every step returns, so does the
   * sequence, with all their effects.
   */
  lemma {:induction false} SequenceRunsInOrder(steps: seq<Run<()>>)
    ensures var n := FirstStop(steps);
      if n == |steps| then Sequence(steps) == Run(Concat(steps), Return(()))
      else Sequence(steps) == Run(Concat(steps[..n + 1]), steps[n].done)
    decreases |steps|
  {
    if steps != [] {
      SequenceRunsInOrder(steps[1..]);
      var n := FirstStop(steps);
      if n == 0 {
        assert steps[..1] == [steps[0]];
        assert Concat([steps[0]]) == steps[0].effects + Concat([]);
      } else if n < |steps| {
        assert FirstStop(steps[1..]) == n - 1;
        assert steps[..n + 1][1..] == steps[1..][..n];
      }
    }
  }

  /** Whether the sequence returns depends on every step returning. */
  lemma SequenceReturnsIffEveryStepReturns(steps: seq<Run<()>>)
    ensures Sequence(steps).done.Return? <==> forall i | 0 <= i < |steps| :: steps[i].done.Return?
  {
    SequenceRunsInOrder(steps);
  }

  lemma {:induction false} ConcatAppend(a: seq<Run<()>>, b: seq<Run<()>>)
    ensures Concat(a + b) == Concat(a) + Concat(b)
    decreases |a|
  {
    if a == [] {
      assert a + b == b;
    } else {
      assert (a + b)[1..] == a[1..] + b;
      ConcatAppend(a[1..], b);
    }
  }

  /** Every effect of the concatenation comes from one of the steps. */
  lemma {:induction false} InConcat(steps: seq<Run<()>>, e: Effect)
    requires e in Concat(steps)
    ensures exists i | 0 <= i < |steps| :: e in steps[i].effects
    decreases |steps|
  {
    if e !in steps[0].effects {
      InConcat(steps[1..], e);
      var i :| 0 <= i < |steps[1..]| && e in steps[1..][i].effects;
      assert steps[1..][i] == steps[i + 1];
    }
  }

  /** `p` is `q` or one of its ancestor directories. */
  predicate Covers(p: string, q: string) {
    p == q || (|p| < |q| && q[..|p| + 1] == p + "/")
  }

  /** After the effects, `p` exists because something at or below it was created. */
  predicate Created(effects: seq<Effect>, p: string) {
    exists i | 0 <= i < |effects| :: IsFsEffect(effects[i]) && Covers(p, PathOf(effects[i]))
  }

  /** The line an effect writes to one stream, if any. */
  function LineOf(e: Effect, s: Stream): seq<string> {
    if e.Log? && e.stream == s then [e.line] else []
  }

  function SpawnOf(e: Effect): seq<Invocation> {
    if e.Spawn? then [e.invocation] else []
  }

  /** The lines written to one stream, in order. */
  function Lines(effects: seq<Effect>, s: Stream): seq<string>
    decreases |effects|
  {
    if effects == [] then [] else LineOf(effects[0], s) + Lines(effects[1..], s)
  }

  /** The child processes started, in order. */
  function Spawns(effects: seq<Effect>): seq<Invocation>
    decreases |effects|
  {
    if effects == [] then [] else SpawnOf(effects[0]) + Spawns(effects[1..])
  }

  lemma {:induction false} LinesAppend(a: seq<Effect>, b: seq<Effect>, s: Stream)
    ensures Lines(a + b, s) == Lines(a, s) + Lines(b, s)
    decreases |a|
  {
    if a == [] {
      assert a + b == b;
    } else {
      assert (a + b)[1..] == a[1..] + b;
      LinesAppend(a[1..], b, s);
      assert Lines(a + b, s) == LineOf(a[0], s) + Lines(a[1..] + b, s);
    }
  }

  lemma {:induction false} SpawnsAppend(a: seq<Effect>, b: seq<Effect>)
    ensures Spawns(a + b) == Spawns(a) + Spawns(b)
    decreases |a|
  {
    if a == [] {
      assert a + b == b;
    } else {
      assert (a + b)[1..] == a[1..] + b;
      SpawnsAppend(a[1..], b);
      assert Spawns(a + b) == SpawnOf(a[0]) + Spawns(a[1..] + b);
    }
  }

  lemma Single(e: Effect)
    ensures Lines([e], Out) == LineOf(e, Out) && Lines([e], Err) == LineOf(e, Err) && Spawns([e]) == SpawnOf(e)
  {
    assert [e][1..] == [];
  }

  /** No effect touches the filesystem. */
  predicate FsFree(effects: seq<Effect>) {
    forall i | 0 <= i < |effects| :: !IsFsEffect(effects[i])
  }

  /** Every file or directory the effects create lies at or below `root`. */
  predicate Inside(effects: seq<Effect>, root: string) {
    forall i | 0 <= i < |effects| && IsFsEffect(effects[i]) :: Covers(root, PathOf(effects[i]))
  }

  lemma CoversChild(root: string, rel: string)
    requires |rel| > 0 && rel[0] == '/'
    ensures Covers(root, root + rel)
  {
    assert (root + rel)[..|root| + 1] == root + "/";
  }

  lemma InsideAppend(a: seq<Effect>, b: seq<Effect>, root: string)
    requires Inside(a, root) && Inside(b, root)
    ensures Inside(a + b, root)
  {
    forall i | 0 <= i < |a + b| && IsFsEffect((a + b)[i]) ensures Covers(root, PathOf((a + b)[i])) {
      if i >= |a| {
        assert (a + b)[i] == b[i - |a|];
      }
    }
  }

  lemma {:induction false} InsideConcat(steps: seq<Run<()>>, root: string)
    requires forall i | 0 <= i < |steps| :: Inside(steps[i].effects, root)
    ensures Inside(Concat(steps), root)
    decreases |steps|
  {
    if steps != [] {
      assert forall i | 0 <= i < |steps[1..]| :: steps[1..][i] == steps[i + 1];
      InsideConcat(steps[1..], root);
      InsideAppend(steps[0].effects, Concat(steps[1..]), root);
    }
  }

  /** A sequence of steps that each stay inside `root` stays inside it, wherever it stops. */
  lemma InsideSequence(steps: seq<Run<()>>, root: string)
    requires forall i | 0 <= i < |steps| :: Inside(steps[i].effects, root)
    ensures Inside(Sequence(steps).effects, root)
  {
    SequenceRunsInOrder(steps);
    var n := FirstStop(steps);
    if n < |steps| {
      assert forall i | 0 <= i < |steps[..n + 1]| :: steps[..n + 1][i] == steps[i];
      InsideConcat(steps[..n + 1], root);
    } else {
      InsideConcat(steps, root);
    }
  }

  lemma {:induction false} SpawnsConcat(steps: seq<Run<()>>)
    ensures Spawns(Concat(steps)) == if steps == [] then [] else Spawns(steps[0].effects) + Spawns(Concat(steps[1..]))
  {
    if steps != [] {
      SpawnsAppend(steps[0].effects, Concat(steps[1..]));
    }
  }

  /** A sequence of steps none of which starts a child starts none. */
  lemma {:induction false} NoSpawnsConcat(steps: seq<Run<()>>)
    requires forall i | 0 <= i < |steps| :: Spawns(steps[i].effects) == []
    ensures Spawns(Concat(steps)) == []
    decreases |steps|
  {
    if steps != [] {
      assert forall i | 0 <= i < |steps[1..]| :: steps[1..][i] == steps[i + 1];
      NoSpawnsConcat(steps[1..]);
      SpawnsConcat(steps);
    }
  }

  lemma NoSpawnsSequence(steps: seq<Run<()>>)
    requires forall i | 0 <= i < |steps| :: Spawns(steps[i].effects) == []
    ensures Spawns(Sequence(steps).effects) == []
  {
    SequenceRunsInOrder(steps);
    var n := FirstStop(steps);
    if n < |steps| {
      assert forall i | 0 <= i < |steps[..n + 1]| :: steps[..n + 1][i] == steps[i];
      NoSpawnsConcat(steps[..n + 1]);
    } else {
      NoSpawnsConcat(steps);
    }
  }

  lemma FsFreeInside(effects: seq<Effect>, root: string)
    requires FsFree(effects)
    ensures Inside(effects, root)
  {
  }

  /** Effects none of which is a spawn start no child. */
  lemma {:induction false} NoSpawns(effects: seq<Effect>)
    requires forall i | 0 <= i < |effects| :: !effects[i].Spawn?
    ensures Spawns(effects) == []
    decreases |effects|
  {
    if effects != [] {
      NoSpawns(effects[1..]);
    }
  }

  /** A sequence of steps none of which exits does not exit. */
  lemma SequenceNeverExits(steps: seq<Run<()>>)
    requires forall i | 0 <= i < |steps| :: !steps[i].done.Exit?
    ensures !Sequence(steps).done.Exit?
  {
    SequenceRunsInOrder(steps);
  }

  lemma FsFreeAppend(a: seq<Effect>, b: seq<Effect>)
    requires FsFree(a) && FsFree(b)
    ensures FsFree(a + b)
  {
    forall i | 0 <= i < |a + b| ensures !IsFsEffect((a + b)[i]) {
      if i >= |a| {
        assert (a + b)[i] == b[i - |a|];
      }
    }
  }

  /** Steps with one effect each: their effects, in order, are those effects. */
  lemma {:induction false} ConcatSingles(steps: seq<Run<()>>)
    requires forall i | 0 <= i < |steps| :: |steps[i].effects| == 1
    ensures |Concat(steps)| == |steps|
    ensures forall i | 0 <= i < |steps| :: Concat(steps)[i] == steps[i].effects[0]
    decreases |steps|
  {
    if steps != [] {
      ConcatSingles(steps[1..]);
      assert Concat(steps) == steps[0].effects + Concat(steps[1..]);
      forall i | 0 < i < |steps| ensures Concat(steps)[i] == steps[i].effects[0] {
        assert Concat(steps)[i] == Concat(steps[1..])[i - 1];
        assert steps[1..][i - 1] == steps[i];
      }
    }
  }
}
