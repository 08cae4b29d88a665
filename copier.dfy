/**
 * Creating a project by handing over to `npx create-react-router@latest`: the
 * shared shape (echo the project name, echo the command, start `npx`, report
 * success or failure from the exit status), the plain copier that takes a
 * template directory, and the CMS copier that fixes it.
 */
module ProjectCopy {

  import opened Wrappers
  import opened Text
  import opened Effects
  import opened Commands

  const CreateReactRouter := "create-react-router@latest"
  const CreatedLine := CheckMark + " Project created successfully!"
  const NotCreatedLine := CrossMark + " Failed to create project"

  function ProjectNameLine(projectName: string): string {
    "\nProject name: " + projectName + "\n"
  }

  /** `Running command: "npx <args joined by ' '>"`. */
  function RunningCommandLine(shown: seq<string>): string {
    "Running command: \"npx " + Join(shown, " ") + "\""
  }

  /** The report of an exit status: the success line on 0, the failure line on standard error otherwise. */
  function OutcomeLine(code: int): (e: Effect)
    ensures e == Log(Out, CreatedLine) <==> code == 0
    ensures e == Log(Err, NotCreatedLine) <==> code != 0
  {
    if code == 0 then Log(Out, CreatedLine) else Log(Err, NotCreatedLine)
  }

  /**
   * Log the header, log the echo line, start `npx` with `args`, await it and
   * report its exit status. A child that cannot be started rejects the call.
   */
  function RunNpx(header: string, args: seq<string>, echo: string, children: Invocation -> Child): Run<()> {
    var inv := Invocation("npx", args, None);
    var started := [Log(Out, header), Log(Out, echo), Spawn(inv)];
    match children(inv)
    case Exited(code) => Run(started + [OutcomeLine(code)], Return(()))
    case Rejected(m) => Run(started, Throw(m))
  }

  /**
   * What a copier run prints and starts: the header and the echo line on
   * standard output, then exactly one child, `npx` with `args` in the current
   * directory; the success line on standard output exactly when the child
   * exits with 0, the failure line on standard error exactly when it exits
   * otherwise; no file is touched, and the call returns whatever the status.
   */
  lemma RunNpxReports(header: string, args: seq<string>, echo: string, children: Invocation -> Child)
    ensures var inv := Invocation("npx", args, None);
      var r := RunNpx(header, args, echo, children);
      && Spawns(r.effects) == [inv] && FsFree(r.effects)
      && (children(inv).Rejected? ==> r.done == Throw(children(inv).message) && Lines(r.effects, Err) == [])
      && (children(inv).Exited? ==>
            && r.done == Return(())
            && Lines(r.effects, Out) == [header, echo] + (if children(inv).code == 0 then [CreatedLine] else [])
            && Lines(r.effects, Err) == (if children(inv).code == 0 then [] else [NotCreatedLine]))
  {
    var inv := Invocation("npx", args, None);
    var started := [Log(Out, header), Log(Out, echo), Spawn(inv)];
    StartedTrace(header, echo, inv);
    if children(inv).Exited? {
      var last := OutcomeLine(children(inv).code);
      LinesAppend(started, [last], Out);
      LinesAppend(started, [last], Err);
      SpawnsAppend(started, [last]);
      Single(last);
      FsFreeAppend(started, [last]);
    }
  }

  /** The first three effects of a copier run: two lines on standard output and one child. */
  lemma StartedTrace(header: string, echo: string, inv: Invocation)
    ensures var started := [Log(Out, header), Log(Out, echo), Spawn(inv)];
      && Lines(started, Out) == [header, echo] && Lines(started, Err) == []
      && Spawns(started) == [inv] && FsFree(started)
  {
    var started := [Log(Out, header), Log(Out, echo), Spawn(inv)];
    var tail := [Log(Out, echo), Spawn(inv)];
    assert started[1..] == tail && tail[1..] == [Spawn(inv)];
    Single(Spawn(inv));
    assert Lines(tail, Out) == [echo] && Lines(tail, Err) == [] && Spawns(tail) == [inv];
    assert Lines(started, Out) == [header] + Lines(tail, Out);
    assert Lines(started, Err) == Lines(tail, Err);
    assert Spawns(started) == Spawns(tail);
  }

  /** The argument list of `createProject`. */
  function CreateProjectArgs(projectName: string, templateDir: string): seq<string> {
    [CreateReactRouter, projectName, "--template", templateDir]
  }

  /** `createProject(projectName, templateDir)`. */
  function CreateProject(projectName: string, templateDir: string, children: Invocation -> Child): Run<()> {
    var args := CreateProjectArgs(projectName, templateDir);
    RunNpx(ProjectNameLine(projectName), args, RunningCommandLine(args), children)
  }

  /**
   * `createProject` starts exactly `npx create-react-router@latest <name>
   * --template <dir>` and nothing else, echoes the command before it, and
   * reports success exactly on exit status 0; it returns whatever the status.
   */
  lemma CreateProjectStartsNpx(projectName: string, templateDir: string, children: Invocation -> Child)
    ensures var inv := Invocation("npx", [CreateReactRouter, projectName, "--template", templateDir], None);
      var r := CreateProject(projectName, templateDir, children);
      && Spawns(r.effects) == [inv] && FsFree(r.effects)
      && (children(inv).Exited? ==>
            && r.done == Return(())
            && Lines(r.effects, Out) ==
                 [ProjectNameLine(projectName), RunningCommandLine(CreateProjectArgs(projectName, templateDir))]
                 + (if children(inv).code == 0 then [CreatedLine] else [])
            && Lines(r.effects, Err) == (if children(inv).code == 0 then [] else [NotCreatedLine]))
  {
    var args := CreateProjectArgs(projectName, templateDir);
    RunNpxReports(ProjectNameLine(projectName), args, RunningCommandLine(args), children);
  }

  /** The echoed command is `npx` and the four arguments separated by single spaces. */
  lemma CreateProjectEcho(projectName: string, templateDir: string)
    ensures RunningCommandLine(CreateProjectArgs(projectName, templateDir)) ==
      "Running command: \"npx " + CreateReactRouter + " " + projectName + " --template " + templateDir + "\""
  {
    var sep := " ";
    JoinFour(CreateReactRouter, projectName, "--template", templateDir, sep);
    assert sep + "--template" + sep == " --template ";
    var j := CreateReactRouter + sep + projectName + sep + "--template" + sep + templateDir;
    assert j == CreateReactRouter + " " + projectName + " --template " + templateDir;
  }

  /** Two children that end the same way give the same run: only the exit status matters. */
  lemma CreateProjectDependsOnlyOnOutcome(projectName: string, templateDir: string, c1: Invocation -> Child, c2: Invocation -> Child)
    requires var inv := Invocation("npx", CreateProjectArgs(projectName, templateDir), None);
      c1(inv) == c2(inv)
    ensures CreateProject(projectName, templateDir, c1) == CreateProject(projectName, templateDir, c2)
  {
  }

  lemma JoinFour(a: string, b: string, c: string, d: string, sep: string)
    ensures Join([a, b, c, d], sep) == a + sep + b + sep + c + sep + d
  {
    assert [a, b, c, d][1..] == [b, c, d];
    assert [b, c, d][1..] == [c, d];
    assert [c, d][1..] == [d];
    assert Join([c, d], sep) == c + sep + d;
    assert Join([b, c, d], sep) == b + sep + (c + sep + d);
    assert b + sep + (c + sep + d) == b + sep + c + sep + d;
    assert a + sep + (b + sep + c + sep + d) == a + sep + b + sep + c + sep + d;
  }
}

/** `copyCms`: the copier with the `./tws-cms` template. */
module Cms {

  import opened Wrappers
  import opened Effects
  import opened Commands
  import opened ProjectCopy

  const CmsTemplate := "./tws-cms"

  /** `copyCms(projectName)`, written out as in its own file. */
  function CopyCms(projectName: string, children: Invocation -> Child): Run<()> {
    var args := [CreateReactRouter, projectName, "--template", CmsTemplate];
    RunNpx(ProjectNameLine(projectName), args, RunningCommandLine(args), children)
  }

  /** `copyCms` behaves exactly as `createProject` with the CMS template directory. */
  lemma CopyCmsIsCreateProject(projectName: string, children: Invocation -> Child)
    ensures CopyCms(projectName, children) == CreateProject(projectName, CmsTemplate, children)
  {
  }

  /**
   * `copyCms` starts exactly `npx create-react-router@latest <name> --template
   * ./tws-cms` and nothing else, and reports success exactly on exit status 0.
   */
  lemma CopyCmsStartsNpx(projectName: string, children: Invocation -> Child)
    ensures var inv := Invocation("npx", [CreateReactRouter, projectName, "--template", "./tws-cms"], None);
      var r := CopyCms(projectName, children);
      && Spawns(r.effects) == [inv] && FsFree(r.effects)
      && (children(inv).Exited? ==>
            && r.done == Return(())
            && (CreatedLine in Lines(r.effects, Out) <==> children(inv).code == 0)
            && (NotCreatedLine in Lines(r.effects, Err) <==> children(inv).code != 0))
  {
    var args := [CreateReactRouter, projectName, "--template", CmsTemplate];
    var header := ProjectNameLine(projectName);
    var echo := RunningCommandLine(args);
    RunNpxReports(header, args, echo, children);
    var inv := Invocation("npx", args, None);
    if children(inv).Exited? && children(inv).code != 0 {
      assert header[0] == '\n' && CreatedLine[0] != '\n';
      assert echo[0] == 'R' && CreatedLine[0] != 'R';
    }
  }
}

/**
 * `copyTwsStatic`: the copier whose template is chosen by name from the
 * `ProjectRepos` enum and whose `npx` arguments grow with three options.
 */
module StaticCopy {

  import opened Wrappers
  import opened Text
  import opened Effects
  import opened Commands
  import opened ProjectCopy

  /** The options object; each field may be left out. */
  datatype Options = Options(template: Option<string>, gitInit: Option<bool>, npmInstall: Option<bool>)

  /** A JavaScript value in the argument array: a string, or `undefined` from a failed enum lookup. */
  datatype Arg = Str(s: string) | Undefined

  /** `enum ProjectRepos`: its keys with their values, in declaration order. */
  const ProjectRepos: seq<(string, string)> := [("TWS_STATIC", "./tws-static")]

  /** An optional flag used as a condition: set to true. */
  predicate IsSet(flag: Option<bool>) {
    flag == Some(true)
  }

  /** A choice shown to the user for an enum key: lower case, first `_` turned into `-`. */
  function ChoiceName(key: string): string {
    ReplaceFirst(ToLower(key), '_', '-')
  }

  /** `templateChoices`: the choice name of every key of the enum, in order. */
  function TemplateChoices(): (choices: seq<string>)
    ensures |choices| == |ProjectRepos|
    ensures forall i | 0 <= i < |choices| :: choices[i] == ChoiceName(ProjectRepos[i].0)
  {
    seq(|ProjectRepos|, i requires 0 <= i < |ProjectRepos| => ChoiceName(ProjectRepos[i].0))
  }

  /** The enum key looked up for a template name: upper case, first `-` turned into `_`. */
  function ChosenKey(template: string): string {
    ReplaceFirst(ToUpper(template), '-', '_')
  }

  /** `ProjectRepos[key]`: the value of the first entry with that key, `undefined` when there is none. */
  function Member(entries: seq<(string, string)>, key: string): (a: Arg)
    ensures a.Str? <==> exists i | 0 <= i < |entries| :: entries[i].0 == key
    ensures a.Str? ==> (key, a.s) in entries
    decreases |entries|
  {
    if entries == [] then Undefined
    else if entries[0].0 == key then Str(entries[0].1)
    else
      var rest := Member(entries[1..], key);
      assert forall i | 1 <= i < |entries| :: entries[i] == entries[1..][i - 1];
      rest
  }

  /** The repository argument pushed after `--template`. */
  function TemplateArg(template: string): Arg {
    Member(ProjectRepos, ChosenKey(template))
  }

  /** The argument list `copyTwsStatic` hands to `npx`. */
  function StaticArgs(projectName: string, options: Options): seq<Arg> {
    [Str(CreateReactRouter), Str(projectName)]
    + (if Truthy(options.template) then [Str("--template"), TemplateArg(options.template.value)] else [])
    + (if IsSet(options.gitInit) then [Str("--git-init")] else [])
    + (if IsSet(options.npmInstall) then [Str("--install")] else [])
  }

  /** Building `commandArgs` by pushing onto it, option by option. */
  method BuildStaticArgs(projectName: string, options: Options) returns (commandArgs: seq<Arg>)
    ensures commandArgs == StaticArgs(projectName, options)
  {
    commandArgs := [Str(CreateReactRouter), Str(projectName)];
    if Truthy(options.template) {
      var chosen := ChosenKey(options.template.value);
      commandArgs := commandArgs + [Str("--template"), Member(ProjectRepos, chosen)];
    }
    if IsSet(options.gitInit) {
      commandArgs := commandArgs + [Str("--git-init")];
    }
    if IsSet(options.npmInstall) {
      commandArgs := commandArgs + [Str("--install")];
    }
  }

  /** The text of a value in a template literal: `undefined` when left out. */
  function ShowText(o: Option<string>): string {
    match o
    case None => "undefined"
    case Some(s) => s
  }

  function ShowFlag(o: Option<bool>): string {
    match o
    case None => "undefined"
    case Some(b) => if b then "true" else "false"
  }

  function HeaderLine(projectName: string, options: Options): string {
    "\nProject name: " + projectName + "\nTemplate: " + ShowText(options.template)
    + "\nInitialize new repo: " + ShowFlag(options.gitInit) + "\nRun npm install: " + ShowFlag(options.npmInstall) + "\n"
  }

  /** An argument as `join` renders it: `undefined` as the empty string. */
  function Shown(a: Arg): string {
    match a
    case Str(s) => s
    case Undefined => ""
  }

  /** An argument as the child receives it: `String(undefined)` is `undefined`. */
  function Passed(a: Arg): string {
    match a
    case Str(s) => s
    case Undefined => "undefined"
  }

  function ShownArgs(args: seq<Arg>): seq<string> {
    seq(|args|, i requires 0 <= i < |args| => Shown(args[i]))
  }

  function PassedArgs(args: seq<Arg>): seq<string> {
    seq(|args|, i requires 0 <= i < |args| => Passed(args[i]))
  }

  /** `copyTwsStatic(projectName, options)`. */
  function CopyTwsStatic(projectName: string, options: Options, children: Invocation -> Child): Run<()> {
    var args := StaticArgs(projectName, options);
    RunNpx(HeaderLine(projectName, options), PassedArgs(args), RunningCommandLine(ShownArgs(args)), children)
  }

  /** The one choice offered is `tws-static`. */
  lemma TemplateChoicesAreTwsStatic()
    ensures TemplateChoices() == ["tws-static"]
  {
    assert ToLower("TWS_STATIC") == "tws_static";
    assert ReplaceFirst("tws_static", '_', '-') == "tws-static";
    assert TemplateChoices()[0] == ChoiceName("TWS_STATIC");
  }

  /**
   * Looking a choice up undoes making it: a key without lower-case letters
   * and without `-` comes back from its own choice name.
   */
  lemma {:induction false} ChoiceNameRoundTrip(key: string)
    requires forall i | 0 <= i < |key| :: !('a' <= key[i] <= 'z') && key[i] != '-'
    ensures ChosenKey(ChoiceName(key)) == key
    decreases |key|
  {
    if key != [] {
      var rest := key[1..];
      assert ToLower(key) == [LowerChar(key[0])] + ToLower(rest);
      ToUpperOfNamePiece(rest);
      if key[0] == '_' {
        assert ChoiceName(key) == ['-'] + ToLower(rest);
        assert ToUpper(ChoiceName(key)) == ['-'] + ToUpper(ToLower(rest));
        assert ToUpper(ToLower(rest)) == rest;
      } else {
        assert ChoiceName(key) == [LowerChar(key[0])] + ChoiceName(rest);
        assert ToUpper(ChoiceName(key)) == [key[0]] + ToUpper(ChoiceName(rest));
        ChoiceNameRoundTrip(rest);
      }
    }
  }

  lemma ToUpperOfNamePiece(s: string)
    requires forall i | 0 <= i < |s| :: !('a' <= s[i] <= 'z')
    ensures ToUpper(ToLower(s)) == s
  {
  }

  /** Every offered choice leads back to its enum value. */
  lemma ChoicesLookUpTheirRepository()
    ensures forall i | 0 <= i < |ProjectRepos| :: TemplateArg(TemplateChoices()[i]) == Str(ProjectRepos[i].1)
  {
    ChoiceNameRoundTrip("TWS_STATIC");
  }

  /** The lookup ignores letter case, and a name outside the enum gives `undefined`. */
  lemma TemplateLookupExamples()
    ensures TemplateArg("tws-static") == Str("./tws-static")
    ensures TemplateArg("TWS-STATIC") == Str("./tws-static")
    ensures TemplateArg("tws-cms") == Undefined
  {
    ChoicesLookUpTheirRepository();
    TemplateChoicesAreTwsStatic();
    assert TemplateChoices()[0] == "tws-static";
    UpperStaticKey();
    CmsKeyIsLonger();
  }

  /** The upper-case name already is its own upper case. */
  lemma UpperStaticKey()
    ensures ChosenKey("TWS-STATIC") == "TWS_STATIC"
  {
    var s := "TWS-STATIC";
    UpperKeepsUpper(s);
    ReplaceFirstAt(s, '-', '_', 3);
  }

  lemma UpperKeepsUpper(s: string)
    requires forall i | 0 <= i < |s| :: !('a' <= s[i] <= 'z')
    ensures ToUpper(s) == s
  {
  }

  /** `tws-cms` leads to a key of seven letters, so to no key of the enum. */
  lemma CmsKeyIsLonger()
    ensures |ChosenKey("tws-cms")| == 7
  {
    var u := ToUpper("tws-cms");
    assert u[..3] == [UpperChar('t'), UpperChar('w'), UpperChar('s')];
    ReplaceFirstAt(u, '-', '_', 3);
  }

  /** A template name finds a repository exactly when its key is one of the enum's. */
  lemma TemplateArgIffKnownKey(template: string)
    ensures TemplateArg(template).Str? <==> ChosenKey(template) == "TWS_STATIC"
    ensures TemplateArg(template).Str? ==> TemplateArg(template) == Str("./tws-static")
  {
  }

  /**
   * The arguments always begin with the generator and the project name; then
   * `--template <repo>`, `--git-init` and `--install` follow in that order,
   * each only when its option is set.
   */
  lemma StaticArgsInOrder(projectName: string, options: Options)
    ensures var args := StaticArgs(projectName, options);
      var t := if Truthy(options.template) then 2 else 0;
      var g := if IsSet(options.gitInit) then 1 else 0;
      var n := if IsSet(options.npmInstall) then 1 else 0;
      && |args| == 2 + t + g + n
      && args[..2] == [Str(CreateReactRouter), Str(projectName)]
      && (t == 2 ==> args[2] == Str("--template") && args[3] == TemplateArg(options.template.value))
      && (g == 1 ==> args[2 + t] == Str("--git-init"))
      && (n == 1 ==> args[2 + t + g] == Str("--install"))
  {
  }

  /** Each of the three options shows up in the arguments exactly when it is set. */
  lemma StaticArgsFlags(projectName: string, options: Options)
    ensures var rest := StaticArgs(projectName, options)[2..];
      && (Str("--template") in rest <==> Truthy(options.template))
      && (Str("--git-init") in rest <==> IsSet(options.gitInit))
      && (Str("--install") in rest <==> IsSet(options.npmInstall))
  {
    var args := StaticArgs(projectName, options);
    var tp := if Truthy(options.template) then [Str("--template"), TemplateArg(options.template.value)] else [];
    var gp := if IsSet(options.gitInit) then [Str("--git-init")] else [];
    var np := if IsSet(options.npmInstall) then [Str("--install")] else [];
    assert args[2..] == tp + (gp + np);
    if Truthy(options.template) {
      TemplateArgIffKnownKey(options.template.value);
    }
  }

  /**
   * A run starts exactly `npx` with the arguments, `undefined` passed as that
   * word when the template is unknown and echoed as nothing; it reports
   * success exactly on exit status 0 and touches no file.
   */
  lemma CopyTwsStaticStartsNpx(projectName: string, options: Options, children: Invocation -> Child)
    ensures var args := StaticArgs(projectName, options);
      var inv := Invocation("npx", PassedArgs(args), None);
      var r := CopyTwsStatic(projectName, options, children);
      && Spawns(r.effects) == [inv] && FsFree(r.effects)
      && |r.effects| >= 2 && r.effects[1] == Log(Out, RunningCommandLine(ShownArgs(args)))
      && (children(inv).Exited? ==>
            && r.done == Return(())
            && r.effects[|r.effects| - 1] == OutcomeLine(children(inv).code))
  {
    var args := StaticArgs(projectName, options);
    RunNpxReports(HeaderLine(projectName, options), PassedArgs(args), RunningCommandLine(ShownArgs(args)), children);
  }

  /** An unknown template reaches the child as the word `undefined` right after `--template`. */
  lemma UnknownTemplatePassesUndefined(projectName: string, template: string, gitInit: Option<bool>, npmInstall: Option<bool>)
    requires template != "" && ChosenKey(template) != "TWS_STATIC"
    ensures var args := StaticArgs(projectName, Options(Some(template), gitInit, npmInstall));
      PassedArgs(args)[2..4] == ["--template", "undefined"] && ShownArgs(args)[3] == ""
  {
    TemplateArgIffKnownKey(template);
  }
}
