/**
 * The running process as `createNpmPackageProject` sees it: the configuration
 * fixed when the program loaded, the outside world, and the trace of effects
 * performed so far, which each awaited step extends.
 */
module Host {

  import opened Wrappers
  import Config
  import opened Effects
  import opened PackageCreation
  import PackageAction

  /** The first `k + 1` steps' effects are the first `k` steps' effects followed by step `k`'s. */
  lemma ConcatSnoc(steps: seq<Run<()>>, k: nat)
    requires k < |steps|
    ensures Concat(steps[..k + 1]) == Concat(steps[..k]) + steps[k].effects
  {
    assert steps[..k + 1] == steps[..k] + [steps[k]];
    ConcatAppend(steps[..k], [steps[k]]);
    assert Concat([steps[k]]) == steps[k].effects + Concat([]);
  }

  /** When step `k` is the first that does not return, the sequence ends there, as that step ended. */
  lemma StoppedAt(steps: seq<Run<()>>, k: nat)
    requires k < |steps| && !steps[k].done.Return?
    requires forall j | 0 <= j < k :: steps[j].done.Return?
    ensures Sequence(steps) == Run(Concat(steps[..k + 1]), steps[k].done)
  {
    SequenceRunsInOrder(steps);
    assert FirstStop(steps) == k;
  }

  /** When every step returns, so does the sequence, with all their effects. */
  lemma AllReturned(steps: seq<Run<()>>)
    requires forall j | 0 <= j < |steps| :: steps[j].done.Return?
    ensures Sequence(steps) == Run(Concat(steps), Return(()))
  {
    SequenceRunsInOrder(steps);
    assert FirstStop(steps) == |steps|;
  }

  class Process {
    /** The environment as it was when the program loaded. */
    const loadEnv: Config.Env
    /** `defaultConfig`, read from that environment once; nothing changes it afterwards. */
    const config: Config.TWSConfig := Config.DefaultConfig(loadEnv)
    /** What the filesystem holds for templates and what each child process does. */
    const world: World
    /** The paths that already exist when the action starts. */
    const existing: set<string>
    /** Every effect performed so far, in order. */
    var trace: seq<Effect>

    constructor (env: Config.Env, world: World, existing: set<string>)
      ensures loadEnv == env
      ensures this.world == world && this.existing == existing && trace == []
    {
      loadEnv := env;
      this.world := world;
      this.existing := existing;
      trace := [];
    }

    /** `getConfig()`: the configuration read from the environment at load. */
    function GetConfig(): (c: Config.TWSConfig)
      ensures c == Config.DefaultConfig(loadEnv)
    {
      config
    }

    /** One `console.log` or `console.error`. */
    method Emit(e: Effect)
      modifies this
      ensures trace == old(trace) + [e]
    {
      trace := trace + [e];
    }

    /** `await step`: its effects happen, and it ends as it ends. */
    method Perform(step: Run<()>) returns (c: Completion<()>)
      modifies this
      ensures trace == old(trace) + step.effects && c == step.done
    {
      trace := trace + step.effects;
      c := step.done;
    }

    /**
     * The `catch` block: a thrown error is reported and the process exits with
     * status 1; an exit already under way is not caught.
     */
    method Catch(c: Completion<()>) returns (r: Completion<()>)
      requires !c.Return?
      modifies this
      ensures c.Throw? ==> trace == old(trace) + [Log(Err, PackageAction.CatchLine(c.message))] && r == Exit(1)
      ensures c.Exit? ==> trace == old(trace) && r == c
    {
      if c.Throw? {
        Emit(Log(Err, PackageAction.CatchLine(c.message)));
        r := Exit(1);
      } else {
        r := c;
      }
    }

    /**
     * `await steps[k]` once the steps before it have returned: the trace grows
     * by its effects, and when it does not return the sequence ends with it.
     */
    method Await(step: Run<()>, ghost steps: seq<Run<()>>, k: nat, ghost start: seq<Effect>)
      returns (c: Completion<()>)
      requires k < |steps| && step == steps[k]
      requires forall j | 0 <= j < k :: steps[j].done.Return?
      requires trace == start + Concat(steps[..k])
      modifies this
      ensures trace == start + Concat(steps[..k + 1]) && c == step.done
      ensures c.Return? ==> forall j | 0 <= j < k + 1 :: steps[j].done.Return?
      ensures !c.Return? ==> Sequence(steps) == Run(Concat(steps[..k + 1]), c)
    {
      c := Perform(step);
      ConcatSnoc(steps, k);
      if !c.Return? {
        StoppedAt(steps, k);
      }
    }

    /** The seven awaited steps, one after the other, up to the first that does not return. */
    method RunSteps(steps: seq<Run<()>>) returns (c: Completion<()>)
      requires |steps| == 7
      modifies this
      ensures trace == old(trace) + Sequence(steps).effects && c == Sequence(steps).done
    {
      ghost var start := trace;
      assert steps[..0] == [];
      c := Await(steps[0], steps, 0, start);
      if !c.Return? { return; }
      c := Await(steps[1], steps, 1, start);
      if !c.Return? { return; }
      c := Await(steps[2], steps, 2, start);
      if !c.Return? { return; }
      c := Await(steps[3], steps, 3, start);
      if !c.Return? { return; }
      c := Await(steps[4], steps, 4, start);
      if !c.Return? { return; }
      c := Await(steps[5], steps, 5, start);
      if !c.Return? { return; }
      c := Await(steps[6], steps, 6, start);
      if !c.Return? { return; }
      assert steps[..7] == steps;
      AllReturned(steps);
      c := Return(());
    }

    /**
     * The `try` block once the name is valid: the header, the seven steps,
     * then the summary when they all returned or the `catch` block when one
     * threw.
     */
    method RunPipeline(header: Effect, steps: seq<Run<()>>, summary: seq<Effect>)
      returns (c: Completion<()>)
      requires |steps| == 7
      modifies this
      ensures var r := PackageAction.Conclude(header, Sequence(steps), summary);
        trace == old(trace) + r.effects && c == r.done
    {
      Emit(header);
      c := RunSteps(steps);
      if c.Return? {
        trace := trace + summary;
        c := Return(());
      } else {
        c := Catch(c);
      }
    }

    /**
     * `createNpmPackageProject(packageName)`: the header, validation, the
     * package path under the configured root, the seven steps, then the
     * summary; a thrown error is caught, reported, and ends the process with
     * status 1. Whether the package path exists is read from `existing`.
     * Validation is pure, so it is computed before the header is logged.
     */
    method CreateNpmPackageProject(packageName: string) returns (c: Completion<()>)
      modifies this
      ensures var r := PackageAction.CreateNpmPackageProject(config, world, packageName,
                                                             PackagePath(config, packageName) in existing);
        trace == old(trace) + r.effects && c == r.done
    {
      var header := Log(Out, PackageAction.HeaderLine(packageName));
      var validation := ValidatePackageName(packageName);
      if !validation.Return? {
        Emit(header);
        c := Catch(Throw(validation.message));
        return;
      }
      var validatedName := validation.value;
      var cfg := GetConfig();
      var packagePath := PackagePath(cfg, validatedName);
      var steps := [DirectoryStep(packagePath, packagePath in existing),
                    ManifestStep(cfg, packagePath, validatedName),
                    TemplateFilesStep(cfg, world, packagePath, validatedName),
                    SourceFilesStep(packagePath),
                    GitStep(cfg, world, packagePath, validatedName),
                    InstallStep(world, packagePath),
                    FormatStep(world, packagePath)];
      var summary := PackageAction.Summary(cfg, validatedName);
      assert PackageAction.CreateNpmPackageProject(config, world, packageName, packagePath in existing)
          == PackageAction.Conclude(header, Sequence(steps), summary);
      c := RunPipeline(header, steps, summary);
    }
  }
}
