/**
 * Scaffolding an npm package: name validation, the seven steps that build the
 * package directory, and the action that validates the name, runs the steps
 * in order and reports the outcome.
 */
module PackageCreation {

  import opened Wrappers
  import opened Text
  import Config
  import opened Templates
  import Manifest
  import opened Effects
  import opened Commands

  /** The character class `[a-zA-Z0-9-_]`: ASCII letters, digits, `-` and `_`. */
  predicate IsNameChar(c: char) {
    ('a' <= c <= 'z') || ('A' <= c <= 'Z') || ('0' <= c <= '9') || c == '-' || c == '_'
  }

  /** Every character is in the class, checked from the left. */
  function AllNameChars(s: string): (ok: bool)
    ensures ok <==> forall i | 0 <= i < |s| :: IsNameChar(s[i])
    decreases |s|
  {
    if s == [] then true
    else if !IsNameChar(s[0]) then false
    else var rest := AllNameChars(s[1..]);
      assert forall i | 1 <= i < |s| :: s[i] == s[1..][i - 1];
      rest
  }

  /** The regular expression `/^([a-zA-Z0-9-_]+)$/`: one or more characters of the class, and nothing else. */
  predicate IsValidPackageName(name: string) {
    |name| > 0 && AllNameChars(name)
  }

  const InvalidNameText := "Invalid package name"
  const InvalidNameMessage := CrossMark + " " + InvalidNameText + ". Use only letters, numbers, dashes, and underscores."

  /** `validatePackageName`: the name itself when it matches, otherwise a thrown error. */
  function ValidatePackageName(name: string): (c: Completion<string>)
    ensures c.Return? <==> |name| > 0 && forall i | 0 <= i < |name| :: IsNameChar(name[i])
    ensures c.Return? ==> c.value == name
    ensures !c.Return? ==> c == Throw(InvalidNameMessage)
  {
    if IsValidPackageName(name) then Return(name) else Throw(InvalidNameMessage)
  }

  /** Validating an accepted name again accepts it again, unchanged. */
  lemma ValidationIsIdempotent(name: string)
    requires ValidatePackageName(name).Return?
    ensures ValidatePackageName(ValidatePackageName(name).value) == Return(name)
  {
  }

  /** The names the unit tests accept. */
  lemma AcceptedExamples()
    ensures ValidatePackageName("my-package") == Return("my-package")
    ensures ValidatePackageName("my_package") == Return("my_package")
  {
    Accepts("my-package");
    Accepts("my_package");
  }

  /** The other names the unit tests accept. */
  lemma MoreAcceptedExamples()
    ensures ValidatePackageName("mypackage123") == Return("mypackage123")
    ensures ValidatePackageName("a") == Return("a")
  {
    Accepts("mypackage123");
    Accepts("a");
  }

  /** The edge cases the unit tests accept. */
  lemma AcceptedEdgeCases()
    ensures ValidatePackageName("a-b-c-d") == Return("a-b-c-d")
    ensures ValidatePackageName("a_b_c_d") == Return("a_b_c_d")
    ensures ValidatePackageName("package123") == Return("package123")
  {
    Accepts("a-b-c-d");
    Accepts("a_b_c_d");
    Accepts("package123");
  }

  lemma Accepts(name: string)
    requires |name| > 0 && forall i | 0 <= i < |name| :: IsNameChar(name[i])
    ensures ValidatePackageName(name) == Return(name)
  {
  }

  /** The names the unit tests reject, each with the invalid-name error. */
  lemma RejectedExamples()
    ensures ValidatePackageName("") == Throw(InvalidNameMessage)
    ensures ValidatePackageName("my package") == Throw(InvalidNameMessage)
    ensures ValidatePackageName("my@package") == Throw(InvalidNameMessage)
    ensures ValidatePackageName("my.package") == Throw(InvalidNameMessage)
  {
    assert !IsNameChar("my package"[2]);
    assert !IsNameChar("my@package"[2]);
    assert !IsNameChar("my.package"[2]);
  }

  /** The rejection's message contains `Invalid package name`. */
  lemma RejectionMentionsInvalidName()
    ensures OccursAt(InvalidNameMessage, InvalidNameText, 2) && InvalidNameText == "Invalid package name"
  {
    var front := CrossMark + " ";
    var rest := ". Use only letters, numbers, dashes, and underscores.";
    assert InvalidNameMessage == front + InvalidNameText + rest;
    assert |front| == 2 && |InvalidNameText| == 20;
    assert (front + InvalidNameText + rest)[2..22] == InvalidNameText;
  }

  /** `${repositoriesRoot}/${name}`. */
  function PackagePath(config: Config.TWSConfig, name: string): string {
    config.paths.repositoriesRoot + "/" + name
  }

  /**
   * What the steps read from outside the modelled state: the directory of the
   * shipped templates and their contents by path, the outcome of each child
   * process, and the current year.
   */
  datatype World = World(
    templatesDir: string,
    templates: map<string, string>,
    children: Invocation -> Child,
    year: nat)

  /** A step that only logs one line and returns. */
  function Say(line: string): Run<()> {
    Run([Log(Out, line)], Return(()))
  }

  const DirectoryExistsMessage := CrossMark + " Directory already exists."

  /**
   * `createDirectoryStructure`: when the path is present, an error line and exit
   * status 1 and nothing created; otherwise `src` and `.github/workflows`
   * under it.
   */
  function DirectoryStep(path: string, present: bool): (r: Run<()>)
    ensures present ==> r == Run([Log(Err, DirectoryExistsMessage)], Exit(1))
    ensures !present ==> (r.done.Return? && Created(r.effects, path + "/src") &&
      Created(r.effects, path + "/.github/workflows") && Created(r.effects, path))
    ensures Inside(r.effects, path) && Spawns(r.effects) == []
  {
    if present then NoSpawns([Log(Err, DirectoryExistsMessage)]); Run([Log(Err, DirectoryExistsMessage)], Exit(1))
    else
      var r := Run([EnsureDir(path + "/src"), EnsureDir(path + "/.github/workflows"),
                    Log(Out, CheckMark + " Created directory structure")], Return(()));
      assert Covers(path, path + "/src") by {
        assert (path + "/src")[..|path| + 1] == path + "/";
      }
      assert Covers(path + "/src", PathOf(r.effects[0]));
      assert Covers(path + "/.github/workflows", PathOf(r.effects[1]));
      CoversChild(path, "/.github/workflows");
      NoSpawns(r.effects);
      r
  }

  /** `createPackageJson`: the manifest written as JSON to `package.json`. */
  function ManifestStep(config: Config.TWSConfig, path: string, name: string): (r: Run<()>)
    ensures r.done.Return? && Inside(r.effects, path) && Spawns(r.effects) == []
    ensures |r.effects| > 0 && r.effects[0] == WriteFile(path + "/package.json", Json(Manifest.CreatePackageJson(config, name)))
  {
    CoversChild(path, "/package.json");
    var effects := [WriteFile(path + "/package.json", Json(Manifest.CreatePackageJson(config, name))),
                    Log(Out, CheckMark + " Created package.json")];
    NoSpawns(effects);
    Run(effects, Return(()))
  }

  /** The error `Deno.readTextFile` rejects with when the file is missing. */
  function NotFoundMessage(path: string): string {
    "No such file or directory (os error 2): readfile '" + path + "'"
  }

  /**
   * `processTemplate(path, vars)` on the shipped templates: the file's text
   * filled with the entries of the variables, `$` patterns in the values
   * expanded as `replaceAll` does, or the read error.
   */
  function ProcessTemplate(templates: map<string, string>, path: string, vars: TemplateVars): (c: Completion<string>)
    ensures path in templates ==> c == Return(Fill(templates[path], Entries(vars)))
    ensures path !in templates ==> c == Throw(NotFoundMessage(path))
  {
    if path in templates then Return(Fill(templates[path], Entries(vars)))
    else Throw(NotFoundMessage(path))
  }

  /**
   * With configured values free of `$`, a template is filled by inserting the
   * values literally, so every property of Render holds of what is written.
   */
  lemma ProcessTemplateOfPlainValues(templates: map<string, string>, path: string, vars: TemplateVars)
    requires path in templates && DollarFree(Entries(vars))
    ensures ProcessTemplate(templates, path, vars) == Return(Render(templates[path], Entries(vars)))
  {
    FillIsRender(templates[path], Entries(vars));
  }

  /** One template processed and written to `path + dest`. */
  function TemplateFile(world: World, path: string, vars: TemplateVars, source: string, dest: string): (r: Run<()>)
    requires |dest| > 0 && dest[0] == '/'
    ensures Inside(r.effects, path) && Spawns(r.effects) == [] && !r.done.Exit?
    ensures r.done.Return? <==> world.templatesDir + source in world.templates
    ensures r.done.Return? ==>
      r.effects == [WriteFile(path + dest, Text(Fill(world.templates[world.templatesDir + source], Entries(vars))))]
  {
    CoversChild(path, dest);
    assert forall e :: Spawns([e]) == SpawnOf(e) by {
      forall e ensures Spawns([e]) == SpawnOf(e) {
        Single(e);
      }
    }
    match ProcessTemplate(world.templates, world.templatesDir + source, vars)
    case Return(text) => Run([WriteFile(path + dest, Text(text))], Return(()))
    case Throw(m) => Run([], Throw(m))
    case Exit(n) => Run([], Exit(n))
  }

  /** `createTemplateFiles`: the four templates in source order, then a line. */
  function TemplateFilesStep(config: Config.TWSConfig, world: World, path: string, name: string): (r: Run<()>)
    ensures Inside(r.effects, path) && Spawns(r.effects) == [] && !r.done.Exit?
  {
    var steps := TemplateSteps(world, path, CreateTemplateVars(config, name, world.year));
    InsideSequence(steps, path);
    NoSpawnsSequence(steps);
    SequenceNeverExits(steps);
    Sequence(steps)
  }

  /** The five runs the template step sequences: four templates by name and destination, then the line. */
  function TemplateSteps(world: World, path: string, vars: TemplateVars): (steps: seq<Run<()>>)
    ensures |steps| == 5
    ensures forall i | 0 <= i < 5 :: Inside(steps[i].effects, path) && Spawns(steps[i].effects) == [] && !steps[i].done.Exit?
  {
    var line := [Log(Out, CheckMark + " Created template files")];
    NoSpawns(line);
    [TemplateFile(world, path, vars, "LICENSE.txt", "/LICENSE"),
     TemplateFile(world, path, vars, "README.md", "/README.md"),
     TemplateFile(world, path, vars, "tsconfig.json", "/tsconfig.json"),
     TemplateFile(world, path, vars, "publish.yml", "/.github/workflows/publish.yml"),
     Run(line, Return(()))]
  }

  const IndexSource := "export { add } from \"./utils.js\";\n"
  const UtilsSource := "export function add(a: number, b: number): number {\n  return a + b;\n}\n"
  const TestSource :=
    "import { add } from \"./utils.js\";\nimport { test, expect } from \"vitest\";\n\ntest(\"add\", () => {\n  expect(add(1, 2)).toBe(3);\n});\n"

  /** `createSourceFiles`: three fixed files under `src`, then one line; it always returns. */
  function SourceFilesStep(path: string): (r: Run<()>)
    ensures r.done.Return? && Inside(r.effects, path) && Spawns(r.effects) == []
  {
    CoversChild(path, "/src/index.ts");
    CoversChild(path, "/src/utils.ts");
    CoversChild(path, "/src/utils.test.ts");
    var effects := [WriteFile(path + "/src/index.ts", Text(IndexSource)),
                    WriteFile(path + "/src/utils.ts", Text(UtilsSource)),
                    WriteFile(path + "/src/utils.test.ts", Text(TestSource)),
                    Log(Out, CheckMark + " Created source files")];
    NoSpawns(effects);
    Run(effects, Return(()))
  }

  /**
   * The source files are written, in this order and with these texts, into
   * the `src` directory the directory step made; then the line is logged.
   */
  lemma SourceFilesWritten(path: string)
    ensures var r := SourceFilesStep(path);
      && |r.effects| == 4
      && r.effects[0] == WriteFile(path + "/src/index.ts", Text(IndexSource))
      && r.effects[1] == WriteFile(path + "/src/utils.ts", Text(UtilsSource))
      && r.effects[2] == WriteFile(path + "/src/utils.test.ts", Text(TestSource))
      && r.effects[3] == Log(Out, CheckMark + " Created source files")
      && forall i | 0 <= i < 3 :: Covers(path + "/src", PathOf(r.effects[i]))
  {
    SourceNames();
    CoversChild(path + "/src", "/index.ts");
    CoversChild(path + "/src", "/utils.ts");
    CoversChild(path + "/src", "/utils.test.ts");
    ConcatAssoc(path, "/src", "/index.ts");
    ConcatAssoc(path, "/src", "/utils.ts");
    ConcatAssoc(path, "/src", "/utils.test.ts");
  }

  lemma SourceNames()
    ensures "/src" + "/index.ts" == "/src/index.ts"
    ensures "/src" + "/utils.ts" == "/src/utils.ts"
    ensures "/src" + "/utils.test.ts" == "/src/utils.test.ts"
  {
  }

  function InPackage(path: string, successMsg: string): CommandOptions {
    CommandOptions(Some(path), Some(successMsg), None, None)
  }

  function RemoteArgs(config: Config.TWSConfig, name: string): seq<string> {
    ["remote", "add", "origin", Manifest.RemoteUrl(config.author.githubUsername, name)]
  }

  /**
   * `setupGitRepository`: `git init` in the package, then, only if that
   * succeeded, `git remote add origin` with the plain `https` address; a
   * failure of either exits with status 1.
   */
  function GitStep(config: Config.TWSConfig, world: World, path: string, name: string): (r: Run<()>)
    ensures var init := Invocation("git", ["init"], Some(path));
      var remote := Invocation("git", RemoteArgs(config, name), Some(path));
      && FsFree(r.effects)
      && Spawns(r.effects) == [init] + (if world.children(init) == Exited(0) then [remote] else [])
      && (r.done.Exit? ==> r.done.code == 1)
      && (r.done.Return? <==> world.children(init) == Exited(0) && world.children(remote) == Exited(0))
  {
    var first := ExecuteCommandOrExit("git", ["init"], InPackage(path, "Initialized git repository"), world.children);
    var second := ExecuteCommandOrExit("git", RemoteArgs(config, name), InPackage(path, "Added remote origin"), world.children);
    OrExitShape("git", ["init"], InPackage(path, "Initialized git repository"), world.children);
    OrExitShape("git", RemoteArgs(config, name), InPackage(path, "Added remote origin"), world.children);
    SpawnsAppend(first.effects, second.effects);
    FsFreeAppend(first.effects, second.effects);
    Then(first, second)
  }

  const DevDependencies: seq<string> := ["typescript", "prettier", "vitest", "@changesets/cli"]

  /** `installDependencies`: one `npm install --save-dev` of a fixed list, exiting on failure. */
  function InstallStep(world: World, path: string): (r: Run<()>)
    ensures var inv := Invocation("npm", ["install", "--save-dev"] + DevDependencies, Some(path));
      && FsFree(r.effects)
      && Spawns(r.effects) == [inv]
      && (r.done.Exit? ==> r.done.code == 1)
      && (r.done.Return? <==> world.children(inv) == Exited(0))
  {
    ExecuteCommandOrExit("npm", ["install", "--save-dev"] + DevDependencies,
                         InPackage(path, "Dependencies installed"), world.children)
  }

  const FormatWarning := "⚠️  Prettier formatting failed, but continuing..."

  function FormatOptions(path: string): CommandOptions {
    CommandOptions(Some(path), Some("Code formatted with Prettier"), Some(FormatWarning), None)
  }

  /**
   * `formatCode`: formatting is allowed to fail. It never exits, it returns
   * whenever the child ran, whatever its status, and a failure prints the
   * warning twice, on standard error and on standard output.
   */
  function FormatStep(world: World, path: string): (r: Run<()>)
    ensures var inv := Invocation("npm", ["run", "format"], Some(path));
      && !r.done.Exit?
      && (r.done.Return? <==> world.children(inv).Exited?)
      && Spawns(r.effects) == [inv]
      && FsFree(r.effects)
      && (world.children(inv).Exited? && world.children(inv).code != 0 ==>
            Lines(r.effects, Err) == [FormatWarning] && |Lines(r.effects, Out)| > 0 && Lines(r.effects, Out)[|Lines(r.effects, Out)| - 1] == FormatWarning)
  {
    var c := ExecuteCommand("npm", ["run", "format"], FormatOptions(path), world.children);
    match c.done
    case Return(ok) =>
      var extra := if ok then [] else [Log(Out, FormatWarning)];
      LinesAppend(c.effects, extra, Out);
      LinesAppend(c.effects, extra, Err);
      SpawnsAppend(c.effects, extra);
      Single(Log(Out, FormatWarning));
      FsFreeAppend(c.effects, extra);
      Run(c.effects + extra, Return(()))
    case Throw(m) => Run(c.effects, Throw(m))
    case Exit(n) => Run(c.effects, Exit(n))
  }

  /** The four templates, read from the templates directory. */
  predicate TemplatesPresent(world: World) {
    && world.templatesDir + "LICENSE.txt" in world.templates
    && world.templatesDir + "README.md" in world.templates
    && world.templatesDir + "tsconfig.json" in world.templates
    && world.templatesDir + "publish.yml" in world.templates
  }

  /** The template step returns exactly when all four templates can be read. */
  lemma TemplateFilesNeedAllTemplates(config: Config.TWSConfig, world: World, path: string, name: string)
    ensures TemplateFilesStep(config, world, path, name).done.Return? <==> TemplatesPresent(world)
  {
    var vars := CreateTemplateVars(config, name, world.year);
    var steps := TemplateSteps(world, path, vars);
    SequenceReturnsIffEveryStepReturns(steps);
    assert steps[0] == TemplateFile(world, path, vars, "LICENSE.txt", "/LICENSE");
    assert steps[1] == TemplateFile(world, path, vars, "README.md", "/README.md");
    assert steps[2] == TemplateFile(world, path, vars, "tsconfig.json", "/tsconfig.json");
    assert steps[3] == TemplateFile(world, path, vars, "publish.yml", "/.github/workflows/publish.yml");
  }

  /** When the templates are there, each filled template is written to its destination, in source order. */
  lemma TemplateFilesWritten(config: Config.TWSConfig, world: World, path: string, name: string)
    requires TemplatesPresent(world)
    ensures var vars := CreateTemplateVars(config, name, world.year);
      var t := world.templates;
      var dir := world.templatesDir;
      TemplateFilesStep(config, world, path, name) == Run([
        WriteFile(path + "/LICENSE", Text(Fill(t[dir + "LICENSE.txt"], Entries(vars)))),
        WriteFile(path + "/README.md", Text(Fill(t[dir + "README.md"], Entries(vars)))),
        WriteFile(path + "/tsconfig.json", Text(Fill(t[dir + "tsconfig.json"], Entries(vars)))),
        WriteFile(path + "/.github/workflows/publish.yml", Text(Fill(t[dir + "publish.yml"], Entries(vars)))),
        Log(Out, CheckMark + " Created template files")], Return(()))
  {
    var vars := CreateTemplateVars(config, name, world.year);
    var steps := TemplateSteps(world, path, vars);
    TemplateStepsWrite(world, path, vars);
    SequenceRunsInOrder(steps);
    assert FirstStop(steps) == 5;
    ConcatSingles(steps);
  }

  /** With the templates there, each of the five runs returns after exactly one effect: its write, or the line. */
  lemma TemplateStepsWrite(world: World, path: string, vars: TemplateVars)
    requires TemplatesPresent(world)
    ensures var steps := TemplateSteps(world, path, vars);
      var t := world.templates;
      var dir := world.templatesDir;
      && (forall i | 0 <= i < 5 :: steps[i].done == Return(()) && |steps[i].effects| == 1)
      && steps[0].effects[0] == WriteFile(path + "/LICENSE", Text(Fill(t[dir + "LICENSE.txt"], Entries(vars))))
      && steps[1].effects[0] == WriteFile(path + "/README.md", Text(Fill(t[dir + "README.md"], Entries(vars))))
      && steps[2].effects[0] == WriteFile(path + "/tsconfig.json", Text(Fill(t[dir + "tsconfig.json"], Entries(vars))))
      && steps[3].effects[0] == WriteFile(path + "/.github/workflows/publish.yml", Text(Fill(t[dir + "publish.yml"], Entries(vars))))
      && steps[4].effects[0] == Log(Out, CheckMark + " Created template files")
  {
  }
}
