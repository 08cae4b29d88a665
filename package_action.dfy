/**
 * The `create npm package` action: print a header, validate the name, run the
 * seven steps in order, print the summary; an error thrown anywhere is caught,
 * reported, and ends the process with status 1.
 */
module PackageAction {

  import opened Wrappers
  import Config
  import opened Effects
  import opened Commands
  import Manifest
  import opened PackageCreation

  function HeaderLine(name: string): string {
    "\n\U{1F680} Creating npm package: " + name + "\n"
  }

  function CatchLine(message: string): string {
    "\n" + CrossMark + " Failed to create package: " + message
  }

  /** The closing report, printed after the last step. */
  function Summary(config: Config.TWSConfig, name: string): seq<Effect> {
    var path := PackagePath(config, name);
    [Log(Out, "\n" + CheckMark + " Successfully created npm package '" + name + "'!"),
     Log(Out, "\n\U{1F4C1} Location: " + path),
     Log(Out, "\n\U{1F517} Next steps:"),
     Log(Out, "   1. cd " + path),
     Log(Out, "   2. gh repo create " + config.author.githubUsername + "/" + name + " --public --push"),
     Log(Out, "   3. Start coding in src/utils.ts"),
     Log(Out, "   4. Run 'npm run dev' to start testing")]
  }

  /**
   * What follows the steps: the summary when they all returned; the caught
   * error's line and exit status 1 when one threw; nothing more when one exited.
   */
  function Conclude(header: Effect, body: Run<()>, summary: seq<Effect>): Run<()> {
    match body.done
    case Return(_) => Run([header] + body.effects + summary, Return(()))
    case Throw(m) => Run([header] + body.effects + [Log(Err, CatchLine(m))], Exit(1))
    case Exit(n) => Run([header] + body.effects, Exit(n))
  }

  /** The seven awaited steps of the action in source order, then what follows them. */
  function Pipeline(header: Effect, directory: Run<()>, manifest: Run<()>, templates: Run<()>, sources: Run<()>,
                    git: Run<()>, install: Run<()>, format: Run<()>, summary: seq<Effect>): Run<()> {
    Conclude(header, Sequence([directory, manifest, templates, sources, git, install, format]), summary)
  }

  /**
   * `createNpmPackageProject(name)`. `present` is whether the package path
   * exists when the directory step looks. A thrown error from validation or
   * from any step is caught, reported and turned into exit status 1; an exit
   * inside a step ends the process there.
   */
  function CreateNpmPackageProject(config: Config.TWSConfig, world: World, name: string, present: bool): Run<()> {
    var header := Log(Out, HeaderLine(name));
    match ValidatePackageName(name)
    case Throw(m) => Run([header, Log(Err, CatchLine(m))], Exit(1))
    case Exit(n) => Run([header], Exit(n))
    case Return(validated) =>
      var path := PackagePath(config, validated);
      Pipeline(header,
               DirectoryStep(path, present),
               ManifestStep(config, path, validated),
               TemplateFilesStep(config, world, path, validated),
               SourceFilesStep(path),
               GitStep(config, world, path, validated),
               InstallStep(world, path),
               FormatStep(world, path),
               Summary(config, validated))
  }

  predicate ExitsWithOne(r: Run<()>) {
    r.done.Exit? ==> r.done.code == 1
  }

  /**
   * The steps run strictly in order. When all seven return, the effects are the
   * header, the steps' effects and the summary, and the pipeline returns.
   * Otherwise the first step that does not return is the last to run; a throw
   * adds the caught error's line; when every step exits only with status 1,
   * the pipeline then exits with status 1.
   */
  lemma PipelineRunsInOrder(header: Effect, s0: Run<()>, s1: Run<()>, s2: Run<()>, s3: Run<()>,
                            s4: Run<()>, s5: Run<()>, s6: Run<()>, summary: seq<Effect>)
    requires ExitsWithOne(s0) && ExitsWithOne(s1) && ExitsWithOne(s2) && ExitsWithOne(s3)
    requires ExitsWithOne(s4) && ExitsWithOne(s5) && ExitsWithOne(s6)
    ensures var r := Pipeline(header, s0, s1, s2, s3, s4, s5, s6, summary);
      var steps := [s0, s1, s2, s3, s4, s5, s6];
      var n := FirstStop(steps);
      && (n == 7 ==> r == Run([header] + Concat(steps) + summary, Return(())))
      && (n < 7 ==>
            && r.done == Exit(1)
            && r.effects == [header] + Concat(steps[..n + 1]) +
                 (if steps[n].done.Throw? then [Log(Err, CatchLine(steps[n].done.message))] else []))
  {
    var steps := [s0, s1, s2, s3, s4, s5, s6];
    SequenceRunsInOrder(steps);
    var n := FirstStop(steps);
    if n < 7 {
      assert ExitsWithOne(steps[n]);
    }
  }

  /** The pipeline returns exactly when every step returns, and otherwise exits with status 1. */
  lemma PipelineOutcome(header: Effect, s0: Run<()>, s1: Run<()>, s2: Run<()>, s3: Run<()>,
                        s4: Run<()>, s5: Run<()>, s6: Run<()>, summary: seq<Effect>)
    requires ExitsWithOne(s0) && ExitsWithOne(s1) && ExitsWithOne(s2) && ExitsWithOne(s3)
    requires ExitsWithOne(s4) && ExitsWithOne(s5) && ExitsWithOne(s6)
    ensures var r := Pipeline(header, s0, s1, s2, s3, s4, s5, s6, summary);
      && (r.done == Return(()) || r.done == Exit(1))
      && (r.done.Return? <==> (s0.done.Return? && s1.done.Return? && s2.done.Return? && s3.done.Return? &&
                                s4.done.Return? && s5.done.Return? && s6.done.Return?))
  {
    PipelineRunsInOrder(header, s0, s1, s2, s3, s4, s5, s6, summary);
    var steps := [s0, s1, s2, s3, s4, s5, s6];
    var n := FirstStop(steps);
    if n < 7 {
      assert !steps[n].done.Return?;
    } else {
      assert steps[0].done.Return? && steps[1].done.Return? && steps[2].done.Return? && steps[3].done.Return?;
      assert steps[4].done.Return? && steps[5].done.Return? && steps[6].done.Return?;
    }
  }

  /** When the header and the summary touch no file, the pipeline creates nothing its steps do not. */
  lemma PipelineInside(header: Effect, s0: Run<()>, s1: Run<()>, s2: Run<()>, s3: Run<()>,
                       s4: Run<()>, s5: Run<()>, s6: Run<()>, summary: seq<Effect>, root: string)
    requires !IsFsEffect(header) && FsFree(summary)
    requires Inside(s0.effects, root) && Inside(s1.effects, root) && Inside(s2.effects, root) && Inside(s3.effects, root)
    requires Inside(s4.effects, root) && Inside(s5.effects, root) && Inside(s6.effects, root)
    ensures Inside(Pipeline(header, s0, s1, s2, s3, s4, s5, s6, summary).effects, root)
  {
    var steps := [s0, s1, s2, s3, s4, s5, s6];
    InsideSequence(steps, root);
    var body := Sequence(steps);
    FsFreeInside([header], root);
    FsFreeInside(summary, root);
    InsideAppend([header], body.effects, root);
    InsideAppend([header] + body.effects, summary, root);
    if body.done.Throw? {
      FsFreeInside([Log(Err, CatchLine(body.done.message))], root);
      InsideAppend([header] + body.effects, [Log(Err, CatchLine(body.done.message))], root);
    }
  }

  /** When every step returns, the children are the steps' children in step order. */
  lemma PipelineSpawns(header: Effect, s0: Run<()>, s1: Run<()>, s2: Run<()>, s3: Run<()>,
                       s4: Run<()>, s5: Run<()>, s6: Run<()>, summary: seq<Effect>)
    requires !header.Spawn? && Spawns(summary) == []
    requires s0.done.Return? && s1.done.Return? && s2.done.Return? && s3.done.Return?
    requires s4.done.Return? && s5.done.Return? && s6.done.Return?
    ensures Spawns(Pipeline(header, s0, s1, s2, s3, s4, s5, s6, summary).effects) ==
      Spawns(s0.effects) + (Spawns(s1.effects) + (Spawns(s2.effects) + (Spawns(s3.effects) +
      (Spawns(s4.effects) + (Spawns(s5.effects) + Spawns(s6.effects))))))
  {
    var steps := [s0, s1, s2, s3, s4, s5, s6];
    SequenceRunsInOrder(steps);
    assert FirstStop(steps) == 7;
    Single(header);
    SpawnsAppend([header], Concat(steps));
    SpawnsAppend([header] + Concat(steps), summary);
    SpawnsOfSeven(steps);
  }

  lemma SpawnsOfSeven(steps: seq<Run<()>>)
    requires |steps| == 7
    ensures Spawns(Concat(steps)) == Spawns(steps[0].effects) + (Spawns(steps[1].effects) + (Spawns(steps[2].effects) +
      (Spawns(steps[3].effects) + (Spawns(steps[4].effects) + (Spawns(steps[5].effects) + Spawns(steps[6].effects))))))
  {
    var t1, t2, t3, t4, t5, t6 := steps[1..], steps[2..], steps[3..], steps[4..], steps[5..], steps[6..];
    assert t1[1..] == t2 && t2[1..] == t3 && t3[1..] == t4 && t4[1..] == t5 && t5[1..] == t6 && t6[1..] == [];
    SpawnsConcat(steps);
    SpawnsConcat(t1);
    SpawnsConcat(t2);
    SpawnsConcat(t3);
    SpawnsConcat(t4);
    SpawnsConcat(t5);
    SpawnsConcat(t6);
    SpawnsConcat([]);
    assert Spawns(Concat(t6)) == Spawns(steps[6].effects);
  }

  /** The children the action may start, all in the package directory. */
  function GitInit(path: string): Invocation {
    Invocation("git", ["init"], Some(path))
  }

  function GitRemote(config: Config.TWSConfig, path: string, name: string): Invocation {
    Invocation("git", RemoteArgs(config, name), Some(path))
  }

  function NpmInstall(path: string): Invocation {
    Invocation("npm", ["install", "--save-dev"] + DevDependencies, Some(path))
  }

  function NpmFormat(path: string): Invocation {
    Invocation("npm", ["run", "format"], Some(path))
  }

  lemma FileStepsExitWithOne(config: Config.TWSConfig, world: World, path: string, name: string, present: bool)
    ensures ExitsWithOne(DirectoryStep(path, present)) && ExitsWithOne(ManifestStep(config, path, name))
    ensures ExitsWithOne(TemplateFilesStep(config, world, path, name)) && ExitsWithOne(SourceFilesStep(path))
  {
  }

  lemma ProcessStepsExitWithOne(config: Config.TWSConfig, world: World, path: string, name: string)
    ensures ExitsWithOne(GitStep(config, world, path, name)) && ExitsWithOne(InstallStep(world, path))
    ensures ExitsWithOne(FormatStep(world, path))
  {
  }

  /** The action never lets an error escape: it returns or exits with status 1. */
  lemma OutcomeIsReturnOrExitOne(config: Config.TWSConfig, world: World, name: string, present: bool)
    ensures var r := CreateNpmPackageProject(config, world, name, present);
      r.done == Return(()) || r.done == Exit(1)
  {
    if IsValidPackageName(name) {
      var path := PackagePath(config, name);
      FileStepsExitWithOne(config, world, path, name, present);
      ProcessStepsExitWithOne(config, world, path, name);
      PipelineOutcome(Log(Out, HeaderLine(name)),
                      DirectoryStep(path, present),
                      ManifestStep(config, path, name),
                      TemplateFilesStep(config, world, path, name),
                      SourceFilesStep(path),
                      GitStep(config, world, path, name),
                      InstallStep(world, path),
                      FormatStep(world, path),
                      Summary(config, name));
    }
  }

  /** A first step that exits ends the pipeline there: nothing after it runs. */
  lemma PipelineFirstStepExits(header: Effect, s0: Run<()>, s1: Run<()>, s2: Run<()>, s3: Run<()>,
                               s4: Run<()>, s5: Run<()>, s6: Run<()>, summary: seq<Effect>, effects: seq<Effect>, code: int)
    requires s0 == Run(effects, Exit(code))
    ensures Pipeline(header, s0, s1, s2, s3, s4, s5, s6, summary) == Run([header] + effects, Exit(code))
  {
    var steps := [s0, s1, s2, s3, s4, s5, s6];
    SequenceRunsInOrder(steps);
    assert FirstStop(steps) == 0;
    assert steps[..1] == [s0];
    assert Concat([s0]) == s0.effects + Concat([]);
  }

  /** A first step that returns puts its effects right after the header. */
  lemma PipelineStartsWithFirstStep(header: Effect, s0: Run<()>, s1: Run<()>, s2: Run<()>, s3: Run<()>,
                                    s4: Run<()>, s5: Run<()>, s6: Run<()>, summary: seq<Effect>)
    requires s0.done.Return?
    ensures var r := Pipeline(header, s0, s1, s2, s3, s4, s5, s6, summary);
      |r.effects| > |s0.effects| && r.effects[..|s0.effects| + 1] == [header] + s0.effects
  {
    var steps := [s0, s1, s2, s3, s4, s5, s6];
    var body := Then(s0, Sequence(steps[1..]));
    assert Sequence(steps) == body;
    assert body.effects == s0.effects + Sequence(steps[1..]).effects;
    var r := Pipeline(header, s0, s1, s2, s3, s4, s5, s6, summary);
    assert r.effects[..|s0.effects| + 1] == ([header] + s0.effects + Sequence(steps[1..]).effects)[..|s0.effects| + 1];
  }

  lemma FileStepsReturn(config: Config.TWSConfig, world: World, path: string, name: string, present: bool)
    ensures DirectoryStep(path, present).done.Return? <==> !present
    ensures ManifestStep(config, path, name).done.Return? && SourceFilesStep(path).done.Return?
    ensures TemplateFilesStep(config, world, path, name).done.Return? <==> TemplatesPresent(world)
  {
    TemplateFilesNeedAllTemplates(config, world, path, name);
  }

  lemma ProcessStepsReturn(config: Config.TWSConfig, world: World, path: string, name: string)
    ensures GitStep(config, world, path, name).done.Return? <==>
      world.children(GitInit(path)) == Exited(0) && world.children(GitRemote(config, path, name)) == Exited(0)
    ensures InstallStep(world, path).done.Return? <==> world.children(NpmInstall(path)) == Exited(0)
    ensures FormatStep(world, path).done.Return? <==> world.children(NpmFormat(path)).Exited?
  {
  }

  lemma StepsStayInside(config: Config.TWSConfig, world: World, path: string, name: string, present: bool)
    ensures Inside(DirectoryStep(path, present).effects, path) && Inside(ManifestStep(config, path, name).effects, path)
    ensures Inside(TemplateFilesStep(config, world, path, name).effects, path) && Inside(SourceFilesStep(path).effects, path)
    ensures Inside(GitStep(config, world, path, name).effects, path) && Inside(InstallStep(world, path).effects, path)
    ensures Inside(FormatStep(world, path).effects, path)
  {
    FsFreeInside(GitStep(config, world, path, name).effects, path);
    FsFreeInside(InstallStep(world, path).effects, path);
    FsFreeInside(FormatStep(world, path).effects, path);
  }

  /**
   * The action returns exactly when the name is valid, the package path is
   * not there yet, all four templates can be read, both git commands and the
   * install exit with 0, and the formatter runs at all.
   */
  lemma ReturnsExactlyWhen(config: Config.TWSConfig, world: World, name: string, present: bool)
    ensures var path := PackagePath(config, name);
      CreateNpmPackageProject(config, world, name, present).done.Return? <==>
        (&& IsValidPackageName(name) && !present && TemplatesPresent(world)
         && world.children(GitInit(path)) == Exited(0)
         && world.children(GitRemote(config, path, name)) == Exited(0)
         && world.children(NpmInstall(path)) == Exited(0)
         && world.children(NpmFormat(path)).Exited?)
  {
    if IsValidPackageName(name) {
      var path := PackagePath(config, name);
      FileStepsExitWithOne(config, world, path, name, present);
      ProcessStepsExitWithOne(config, world, path, name);
      FileStepsReturn(config, world, path, name, present);
      ProcessStepsReturn(config, world, path, name);
      PipelineOutcome(Log(Out, HeaderLine(name)),
                      DirectoryStep(path, present),
                      ManifestStep(config, path, name),
                      TemplateFilesStep(config, world, path, name),
                      SourceFilesStep(path),
                      GitStep(config, world, path, name),
                      InstallStep(world, path),
                      FormatStep(world, path),
                      Summary(config, name));
    }
  }

  /** An invalid name is reported after the header and nothing else happens: no file, no child, exit status 1. */
  lemma InvalidNameStopsFirst(config: Config.TWSConfig, world: World, name: string, present: bool)
    requires !IsValidPackageName(name)
    ensures var r := CreateNpmPackageProject(config, world, name, present);
      && r == Run([Log(Out, HeaderLine(name)), Log(Err, CatchLine(InvalidNameMessage))], Exit(1))
      && FsFree(r.effects) && Spawns(r.effects) == []
  {
    LogsOnly(Log(Out, HeaderLine(name)), Log(Err, CatchLine(InvalidNameMessage)), PackagePath(config, name));
  }

  /** A package directory that is already there stops the run before anything is created or started. */
  lemma ExistingDirectoryAborts(config: Config.TWSConfig, world: World, name: string)
    requires IsValidPackageName(name)
    ensures CreateNpmPackageProject(config, world, name, true) ==
      Run([Log(Out, HeaderLine(name))] + [Log(Err, DirectoryExistsMessage)], Exit(1))
  {
    var path := PackagePath(config, name);
    PipelineFirstStepExits(Log(Out, HeaderLine(name)),
                           DirectoryStep(path, true),
                           ManifestStep(config, path, name),
                           TemplateFilesStep(config, world, path, name),
                           SourceFilesStep(path),
                           GitStep(config, world, path, name),
                           InstallStep(world, path),
                           FormatStep(world, path),
                           Summary(config, name), [Log(Err, DirectoryExistsMessage)], 1);
  }

  /** The summary only logs. */
  lemma SummaryOnlyLogs(config: Config.TWSConfig, name: string)
    ensures FsFree(Summary(config, name)) && Spawns(Summary(config, name)) == []
  {
    NoSpawns(Summary(config, name));
  }

  lemma LogsOnly(a: Effect, b: Effect, root: string)
    requires a.Log? && b.Log?
    ensures FsFree([a, b]) && Inside([a, b], root) && Spawns([a, b]) == []
  {
    NoSpawns([a, b]);
  }
}
