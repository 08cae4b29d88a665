/**
 * Running a child process with uniform logging: the boolean outcome, the
 * choice of console lines, and the variant that exits on failure.
 */
module Commands {

  import opened Wrappers
  import opened Text
  import opened Effects

  datatype CommandOptions = CommandOptions(
    cwd: Option<string>,
    successMsg: Option<string>,
    errorMsg: Option<string>,
    silent: Option<bool>)

  /** What awaiting `output()` yields: the child's exit status, or a rejection when it cannot be started. */
  datatype Child = Exited(code: int) | Rejected(message: string)

  /** `silent = false` as the default in the destructuring of the options. */
  function Silent(options: CommandOptions): bool {
    if options.silent.Some? then options.silent.value else false
  }

  /** An optional string used as a condition: set and not empty. */
  predicate Truthy(s: Option<string>) {
    s.Some? && s.value != ""
  }

  const CheckMark := "✅"
  const CrossMark := "❌"

  function RunningLine(command: string, args: seq<string>): string {
    "\nRunning: " + command + " " + Join(args, " ")
  }

  function SuccessLine(message: string): string {
    CheckMark + " " + message
  }

  /** `errorMsg || ...`: the given error message when truthy, otherwise one naming the command and the code. */
  function FailureLine(command: string, code: int, errorMsg: Option<string>): string {
    if Truthy(errorMsg) then errorMsg.value
    else CrossMark + " " + command + " failed with exit code " + IntToString(code)
  }

  /**
   * `executeCommand(command, args, options)`, the child process given by an
   * oracle from invocations to outcomes. It returns true exactly when the
   * child exits with 0, and rethrows when the child cannot be started. Unless
   * silent, the Running line comes first; the spawn is always the only child.
   */
  function ExecuteCommand(command: string, args: seq<string>, options: CommandOptions,
                          children: Invocation -> Child): (r: Run<bool>)
    ensures var inv := Invocation(command, args, options.cwd);
      && (children(inv).Exited? ==> r.done == Return(children(inv).code == 0))
      && (children(inv).Rejected? ==> r.done == Throw(children(inv).message))
      && Spawns(r.effects) == [inv]
      && FsFree(r.effects)
      && (Silent(options) ==> r.effects == [Spawn(inv)])
      && (!Silent(options) ==> |r.effects| >= 2 && r.effects[0] == Log(Out, RunningLine(command, args)) && r.effects[1] == Spawn(inv))
    ensures var inv := Invocation(command, args, options.cwd);
      Lines(r.effects, Out) ==
        (if Silent(options) then [] else [RunningLine(command, args)]) +
        (if children(inv) == Exited(0) && !Silent(options) && Truthy(options.successMsg)
         then [SuccessLine(options.successMsg.value)] else [])
    ensures var inv := Invocation(command, args, options.cwd);
      Lines(r.effects, Err) ==
        (if children(inv).Exited? && children(inv).code != 0 && !Silent(options)
         then [FailureLine(command, children(inv).code, options.errorMsg)] else [])
  {
    var inv := Invocation(command, args, options.cwd);
    var running := if Silent(options) then [] else [Log(Out, RunningLine(command, args))];
    var start := running + [Spawn(inv)];
    var tail :=
      if children(inv) == Exited(0) && !Silent(options) && Truthy(options.successMsg)
      then [Log(Out, SuccessLine(options.successMsg.value))]
      else if children(inv).Exited? && children(inv).code != 0 && !Silent(options)
      then [Log(Err, FailureLine(command, children(inv).code, options.errorMsg))]
      else [];
    CommandStreams(running, Spawn(inv), tail);
    var done := match children(inv)
      case Rejected(m) => Throw(m)
      case Exited(code) => Return(code == 0);
    Run(start + tail, done)
  }

  /** Streams and spawns of a list of at most one effect. */
  lemma AtMostOne(effects: seq<Effect>)
    requires |effects| <= 1
    ensures |effects| == 1 ==> Lines(effects, Out) == LineOf(effects[0], Out) && Lines(effects, Err) == LineOf(effects[0], Err) && Spawns(effects) == SpawnOf(effects[0])
  {
    if |effects| == 1 {
      assert effects == [effects[0]];
      Single(effects[0]);
    }
  }

  /** Streams and spawns of the three parts of a command's effects. */
  lemma CommandStreams(running: seq<Effect>, spawn: Effect, tail: seq<Effect>)
    requires spawn.Spawn? && |running| <= 1 && |tail| <= 1
    ensures var all := running + [spawn] + tail;
      && Lines(all, Out) == Lines(running, Out) + Lines(tail, Out)
      && Lines(all, Err) == Lines(running, Err) + Lines(tail, Err)
      && Spawns(all) == Spawns(running) + [spawn.invocation] + Spawns(tail)
    ensures |running| == 1 ==> Lines(running, Out) == LineOf(running[0], Out) && Lines(running, Err) == LineOf(running[0], Err) && Spawns(running) == SpawnOf(running[0])
    ensures |tail| == 1 ==> Lines(tail, Out) == LineOf(tail[0], Out) && Lines(tail, Err) == LineOf(tail[0], Err) && Spawns(tail) == SpawnOf(tail[0])
  {
    var head := running + [spawn];
    LinesAppend(head, tail, Out);
    LinesAppend(head, tail, Err);
    SpawnsAppend(head, tail);
    LinesAppend(running, [spawn], Out);
    LinesAppend(running, [spawn], Err);
    SpawnsAppend(running, [spawn]);
    Single(spawn);
    AtMostOne(running);
    AtMostOne(tail);
  }

  /**
   * `executeCommandOrExit`: the same effects; the process exits with status 1,
   * never with the child's own code, exactly when the command reported false.
   */
  function ExecuteCommandOrExit(command: string, args: seq<string>, options: CommandOptions,
                                children: Invocation -> Child): (r: Run<()>)
    ensures var c := ExecuteCommand(command, args, options, children);
      && r.effects == c.effects
      && (r.done == Exit(1) <==> c.done == Return(false))
      && (r.done.Return? <==> c.done == Return(true))
      && (r.done.Exit? ==> r.done.code == 1)
      && (c.done.Throw? ==> r.done == Throw(c.done.message))
  {
    var c := ExecuteCommand(command, args, options, children);
    match c.done
    case Return(ok) => Run(c.effects, if ok then Return(()) else Exit(1))
    case Throw(m) => Run(c.effects, Throw(m))
    case Exit(n) => Run(c.effects, Exit(n))
  }

  /** What a step built from `executeCommandOrExit` does, in terms of its one child. */
  lemma OrExitShape(command: string, args: seq<string>, options: CommandOptions,
                    children: Invocation -> Child)
    ensures var r := ExecuteCommandOrExit(command, args, options, children);
      var inv := Invocation(command, args, options.cwd);
      && FsFree(r.effects) && Spawns(r.effects) == [inv]
      && (r.done.Exit? ==> r.done.code == 1)
      && (r.done.Return? <==> children(inv) == Exited(0))
  {
  }
}
