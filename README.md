# tws-cli scaffolding core, modelled in Dafny

tws-cli is a command-line tool that scaffolds projects. It creates npm
packages from templates and starts `create-react-router` projects from the
tws-static and tws-cms templates. It also pulls the authentication files of
the Remix indie stack into a project. This project models the decision and
string logic underneath those actions and proves what it promises:

- template substitution with `{{KEY}}` placeholders;
- package-name validation;
- the `package.json` manifest and the git and npm argument lists;
- how a command's exit status is classified and logged;
- the seven-step package pipeline with its `catch` and exit rules;
- the `npx create-react-router` argument builders;
- the indie-stack file table and its one-match text rewrite;
- the configuration defaults read from the environment.

The outside world is abstract:

- A child process is an oracle from an invocation (command, arguments,
  working directory) to an outcome. The outcome is an exit status, or a
  rejection when the child cannot be started.
- The filesystem and the console are a trace of effects: log lines on
  standard output or standard error, ensured directories and files, written
  files, and spawned children.
- An awaited step is a `Run`: its effects plus how it ended, by returning,
  by throwing an error with a message, or by `Deno.exit` with a status.
- The templates directory, the current year and the network are parameters.

Files:

- `wrappers.dfy`: `Option`.
- `text.dfy`: occurrences, `replaceAll` with JavaScript's replacement
  patterns and its literal split/join form, decimal digits, ASCII case and
  first-character `replace`.
- `config.dfy`: the configuration defaults.
- `templates.dfy`: substitution, and the template-variable record.
- `manifest.dfy`: the `package.json` record.
- `effects.dfy`: effects, completions, and awaited steps in sequence.
- `commands.dfy`: `executeCommand` and `executeCommandOrExit`.
- `package_creation.dfy`: validation and the seven package steps.
- `package_action.dfy`: the `create npm package` action as a function.
- `host.dfy`: the same action as an imperative class whose trace each
  awaited step extends.
- `copier.dfy`: `createProject`, `copyCms` and `copyTwsStatic`.
- `indie.dfy`: `getAuth`.

Where the behaviour of the code differs from its documentation, the model
follows the code:

- A child that cannot be started makes `output()` reject. The model rethrows
  that rejection and does not invent an exit status of -1.
- `executeCommandOrExit` always exits with status 1, never with the child's
  own status.
- Substitution is an ordered fold over the entries, so the order of the
  entries can change the result (`Templates.LaterEntryRewritesEarlierValue`).
- `replaceAll` expands `$$`, `$&`, `` $` `` and `$'` in a configured value
  (`Templates.Fill`). The properties of substitution are proved for literal
  insertion (`Templates.Render`), which is what `replaceAll` does for values
  without `$` (`Templates.FillIsRender`).
- `getConfig()` returns the same configuration for the whole run. The model
  states this by construction: `Host.Process` reads the environment once,
  into a constant, and nothing in the model changes the environment
  afterwards.

## Model

| member | source | states |
|---|---|---|
| Text.ReplaceAllReplacesEveryOccurrence | utils/templates.ts:22-25 | `replaceAll(p, v)` cuts the text at every occurrence of `p` and joins the pieces with `v`; the pieces rebuild the text when joined with `p`, and no piece holds `p`, so every occurrence is replaced and the inserted values are not rescanned |
| Text.SubstitutionOfPlainValue | utils/templates.ts:24 | a value without `$` is inserted as it is |
| Text.StringReplaceAllOfPlainValue | utils/templates.ts:24 | for a value without `$`, `replaceAll` is literal insertion at every match |
| Text.PrefixSuffixPatterns | utils/templates.ts:24 | `` $` `` and `$'` insert the text before and after the match |
| Text.DollarAndMatchPatterns | utils/templates.ts:24 | `$$` inserts one `$`, `$&` puts the match back where literal insertion would write `$&`, and `$1` is kept |
| Text.ReplaceAllAbsent | utils/templates.ts:24 | a text in which the pattern does not occur comes back unchanged |
| Text.ReplaceAllConcat | utils/templates.ts:24 | when no occurrence straddles the cut, replacing in `x + y` is replacing in `x` and in `y` separately |
| Text.JoinSplit | utils/templates.ts:24 | replacing every occurrence equals splitting at the pattern and joining with the value |
| Text.ReplaceAllByItself | utils/templates.ts:24 | replacing a pattern by itself changes nothing |
| Text.SplitPiecesFree | utils/templates.ts:24 | no piece of the split holds the pattern |
| Text.NatToString | utils/templates.ts:42 | `toString()` of a year gives decimal digits that denote it, without leading zeros |
| Text.DecimalLength | utils/templates.ts:42 | a number from 10^(k-1) up to 10^k is written with exactly k digits |
| Text.ReplaceFirstAt | actions/static.ts:6 | `replace(a, b)` with one-character strings changes only the first `a` and keeps everything around it |
| Config.EnvOr | config.ts:26-35 | a variable's value when it is set and not empty, the fallback otherwise |
| Config.EmptyEnvironmentGivesDefaults | config.ts:24-37 | with no variable set, every field is its hard-coded default |
| Config.OtherVariablesIgnored | config.ts:24-37 | variables other than the six are never read |
| Config.EachFieldReadsItsOwnVariable | config.ts:25-36 | each field depends only on its own variable, from `TWS_AUTHOR_NAME` for the author's name to `TWS_STATIC_TEMPLATE` for the static template |
| Config.EmptyValueFallsBack | config.ts:26-35 | a variable set to the empty string gives the same configuration as an unset one, because of `\|\|` |
| Host.Process.constructor | config.ts:24-37 | the configuration is read once from the environment the program loads with, and it is kept in a constant field |
| Host.Process.GetConfig | config.ts:42-44 | `getConfig()` is the configuration read from the environment at load; that it stays so afterwards holds by construction, since the environment is a constant of the process |
| Templates.Substitute | utils/templates.ts:21-27 | the loop over the entries computes `Fill`, the left fold of `replaceAll` over them, in entry order, for any values |
| Templates.FillIsRender | utils/templates.ts:21-27 | for values without `$`, the fold with replacement patterns is the fold that inserts values literally |
| Templates.MatchPatternInValue | utils/templates.ts:24 | a value `$&` puts the placeholder back, where literal insertion would write `$&` |
| Templates.RenderAppend | utils/templates.ts:21-25 | the fold over two lists of entries is the fold over the first, then over the second |
| Templates.RenderWithoutPlaceholders | utils/templates.ts:21-27 | a template with no placeholder of any key comes back unchanged |
| Templates.RenderBraceFree | utils/templates.ts:21-27 | text without `{` is never changed by substitution |
| Templates.RenderKeepsUnknownPlaceholder | utils/templates.ts:22-25 | a placeholder whose name is not a key stays verbatim, and the text on each side is processed as if it stood alone |
| Templates.RenderKeepsTwoUnknown | utils/templates.ts:22-25 | a template of brace-free text around two unknown placeholders comes back unchanged |
| Templates.LaterEntryRewritesEarlierValue | utils/templates.ts:22-25 | a value inserted for one key is not rescanned for that key, but a later entry still rewrites it; swapping the two entries changes the result |
| Templates.PlaceholdersDoNotOverlap | utils/templates.ts:23 | two placeholders of keys without braces that overlap in a text start at the same index and name the same key |
| Templates.ReplaceAllAroundPlaceholder | utils/templates.ts:24 | replacing one key's placeholder around another placeholder: the sides are processed separately, and the middle becomes the value only when the keys are equal |
| Templates.RenderTwo | utils/templates.ts:21-25 | the fold over two entries is two `replaceAll` calls in turn |
| Templates.RenderFillsTwo | utils/templates.ts:22-25 | two entries fill the two placeholders of a template with their values |
| Templates.EveryOccurrenceFilled | utils/templates.ts:22-25 | all three occurrences of one placeholder are filled, as in `{{NAME}} and {{NAME}} are both {{NAME}}` |
| Templates.ExtraKeysAreSubstituted | utils/templates.ts:22 | entries beyond the six declared fields, such as `NAME` and `PROJECT`, are substituted too |
| Templates.DeclaredKeys | utils/templates.ts:6-13 | the six declared keys hold no braces, and every other key is absent from the entries |
| Templates.CreateTemplateVars | utils/templates.ts:33-43 | the package name as given, the four author fields from the configuration, and the year as decimal digits denoting it |
| Templates.FourDigitYear | utils/templates.ts:42 | a year from 1000 to 9999 is written with four digits |
| Manifest.CreatePackageJson | utils/package-creation.ts:39-69 | name, version `1.0.0`, licence `MIT`, the description, and the homepage, bug-tracker, author and `git+https` repository strings built from the configured user and the name |
| Manifest.RemoteMatchesManifest | utils/package-creation.ts:137-139 | the git remote is the manifest's repository address without its `git+` prefix, and it is the homepage plus `.git` |
| Manifest.HomepageDeterminesName | utils/package-creation.ts:44 | under one user, different names give different homepages |
| Effects.FirstStop | actions/package.ts:34-42 | the index of the first awaited step that does not return: every step before it returns |
| Effects.SequenceRunsInOrder | actions/package.ts:34-42 | awaited steps run in order; the first that does not return is the last to run, and the sequence ends as it ended |
| Effects.SequenceReturnsIffEveryStepReturns | actions/package.ts:34-42 | a sequence of awaited steps returns exactly when every step returns |
| Effects.InsideSequence | actions/package.ts:34-42 | when every step creates only paths under a root, so does the sequence |
| Effects.NoSpawnsSequence | actions/package.ts:34-42 | a sequence of steps that start no child starts no child |
| Effects.SequenceNeverExits | actions/package.ts:34-42 | a sequence of steps that never exit never exits |
| Commands.ExecuteCommand | utils/commands.ts:16-47 | the result is true exactly when the child exits with 0; a rejection is rethrown; the child is the only spawn; nothing is logged when silent; otherwise the `Running:` line comes first, then the success line for status 0 with a truthy message, or the error line (`errorMsg`, or the failure text with the command and the status) for any other status |
| Commands.ExecuteCommandOrExit | utils/commands.ts:52-61 | the same effects; the run exits with status 1 exactly when the command reported false, returns exactly when it reported true, and rethrows a rejection |
| PackageCreation.ValidatePackageName | utils/package-creation.ts:9-17 | the name itself exactly when it is non-empty and every character is an ASCII letter, a digit, `-` or `_`; otherwise the invalid-name error |
| PackageCreation.ValidationIsIdempotent | utils/package-creation.ts:9-17 | validating an accepted name again accepts it again, unchanged |
| PackageCreation.AcceptedExamples | utils/package-creation_test.ts:4-9 | `my-package` and `my_package` are accepted unchanged |
| PackageCreation.MoreAcceptedExamples | utils/package-creation_test.ts:4-9 | `mypackage123` and `a` are accepted unchanged |
| PackageCreation.AcceptedEdgeCases | utils/package-creation_test.ts:37-41 | `a-b-c-d`, `a_b_c_d` and `package123` are accepted unchanged |
| PackageCreation.RejectedExamples | utils/package-creation_test.ts:11-35 | the empty name, `my package`, `my@package` and `my.package` are rejected with the invalid-name error |
| PackageCreation.RejectionMentionsInvalidName | utils/package-creation.ts:12-14 | the error message contains `Invalid package name` |
| PackageCreation.DirectoryStep | utils/package-creation.ts:22-31 | an existing path gives the error line and exit status 1 with nothing created; otherwise `src` and `.github/workflows` are created under the path, and the step returns; nothing outside the path, no child |
| PackageCreation.ManifestStep | utils/package-creation.ts:36-73 | the manifest of the configured author and the name is written as JSON to `package.json`; the step returns, stays in the package and starts no child |
| PackageCreation.ProcessTemplate | utils/templates.ts:18-28 | a template file that exists is filled with the entries of the variables, `$` patterns expanded; a missing one throws the read error |
| PackageCreation.ProcessTemplateOfPlainValues | utils/templates.ts:18-28 | with configured values free of `$`, a template is filled by literal insertion |
| PackageCreation.TemplateFile | utils/package-creation.ts:83-84 | one template is read and written under the package; the step returns exactly when the template exists, and never exits |
| PackageCreation.TemplateFilesStep | utils/package-creation.ts:78-99 | the template step stays in the package, starts no child and never exits |
| PackageCreation.TemplateSteps | utils/package-creation.ts:82-98 | the four templates and the closing line, each inside the package, with no child and no exit |
| PackageCreation.TemplateFilesNeedAllTemplates | utils/package-creation.ts:78-99 | the template step returns exactly when all four templates can be read |
| PackageCreation.TemplateFilesWritten | utils/package-creation.ts:82-96 | when the templates are there, each filled template is written to its destination, in source order |
| PackageCreation.SourceFilesStep | utils/package-creation.ts:104-124 | the step returns, creates nothing outside the package and starts no child |
| PackageCreation.SourceFilesWritten | utils/package-creation.ts:104-124 | `src/index.ts`, `src/utils.ts` and `src/utils.test.ts` are written in this order with their fixed texts, each inside the `src` directory the directory step made, and then the line is logged |
| PackageCreation.GitStep | utils/package-creation.ts:129-144 | `git init` runs in the package, then `git remote add origin` with the plain `https` address, but only when `git init` succeeded; the step exits only with status 1, and returns exactly when both commands exit with 0 |
| PackageCreation.InstallStep | utils/package-creation.ts:149-157 | one `npm install --save-dev` of the fixed dependency list; the step exits only with status 1, and returns exactly when the install exits with 0 |
| PackageCreation.FormatStep | utils/package-creation.ts:162-173 | formatting never exits and returns whenever the formatter ran, whatever its status; a failure prints the warning on both streams |
| PackageAction.PipelineRunsInOrder | actions/package.ts:25-56 | when all seven steps return, the effects are the header, the steps' effects and the summary; otherwise the first step that does not return is the last to run, a thrown error adds its caught line, and the run exits with status 1 |
| PackageAction.PipelineOutcome | actions/package.ts:34-55 | the pipeline returns exactly when every step returns, and otherwise exits with status 1 |
| PackageAction.PipelineInside | actions/package.ts:34-42 | the pipeline creates nothing outside a root its steps stay under |
| PackageAction.PipelineSpawns | actions/package.ts:34-42 | when every step returns, the children are the steps' children, in step order |
| PackageAction.FileStepsExitWithOne | utils/package-creation.ts:22-124 | the four file steps exit, if at all, with status 1 |
| PackageAction.ProcessStepsExitWithOne | utils/package-creation.ts:129-173 | the three process steps exit, if at all, with status 1 |
| PackageAction.OutcomeIsReturnOrExitOne | actions/package.ts:25-56 | the action never lets an error escape: it returns, or exits with status 1 |
| PackageAction.PipelineFirstStepExits | actions/package.ts:34 | a first step that exits ends the pipeline there: nothing after it runs |
| PackageAction.PipelineStartsWithFirstStep | actions/package.ts:26-34 | a first step that returns puts its effects right after the header |
| PackageAction.FileStepsReturn | utils/package-creation.ts:22-99 | the directory step returns exactly when the path is absent, the manifest and source steps always return, and the template step returns exactly when the templates exist |
| PackageAction.ProcessStepsReturn | utils/package-creation.ts:129-173 | the git step returns exactly when both git commands exit with 0; the install returns exactly when it exits with 0; formatting returns exactly when the formatter ran |
| PackageAction.StepsStayInside | actions/package.ts:31-42 | each of the seven steps creates only paths under `repositoriesRoot/name` |
| PackageAction.ReturnsExactlyWhen | actions/package.ts:25-56 | the action returns exactly when the name is valid, the package path is absent, the templates exist, both git commands and the install exit with 0, and the formatter runs |
| PackageAction.InvalidNameStopsFirst | actions/package.ts:26-29 | an invalid name gives the header, the caught error and exit status 1, with no file and no child |
| PackageAction.ExistingDirectoryAborts | actions/package.ts:31-34 | an existing package path stops the run after the header and the error line, with exit status 1, before anything is created or started |
| PackageAction.SummaryOnlyLogs | actions/package.ts:44-50 | the summary only logs |
| Host.Process.Emit | actions/package.ts:26 | a console line is appended to the trace |
| Host.Process.Perform | actions/package.ts:34-42 | awaiting a step appends its effects to the trace and ends as the step ended |
| Host.Process.Catch | actions/package.ts:52-55 | a thrown error is logged with the caught line and becomes exit status 1; an exit already under way passes through |
| Host.Process.Await | actions/package.ts:34-42 | awaiting step `k` after the earlier steps returned extends the trace to the first `k + 1` steps' effects; a step that does not return ends the sequence |
| Host.Process.RunSteps | actions/package.ts:34-42 | the seven awaits leave exactly the effects and the ending of the steps run in sequence |
| Host.Process.RunPipeline | actions/package.ts:34-55 | after the header and the seven awaits come the summary or the `catch` block, as `PackageAction.Conclude` says |
| Host.Process.CreateNpmPackageProject | actions/package.ts:25-56 | the trace grows by exactly the effects of `PackageAction.CreateNpmPackageProject` for the configuration read at load and the existing paths, and the action ends as that function ends |
| ProjectCopy.OutcomeLine | utils/common.ts:19-23 | the success line on standard output exactly when the status is 0, and the failure line on standard error otherwise |
| ProjectCopy.RunNpxReports | utils/common.ts:11-23 | one `npx` child with the arguments, and no file; the header and the echoed command line come first, then exactly one of the success and failure lines, chosen by the status; nothing is returned; a rejection is rethrown after the spawn |
| ProjectCopy.CreateProjectStartsNpx | utils/common.ts:1-24 | `createProject` spawns `npx create-react-router@latest <name> --template <dir>` and logs the project name, the echo, and the line for the status |
| ProjectCopy.CreateProjectEcho | utils/common.ts:15 | the echoed line is `Running command: "npx ` followed by the four arguments joined by spaces, then `"` |
| ProjectCopy.CreateProjectDependsOnlyOnOutcome | utils/common.ts:17-23 | the run depends on the children only through the outcome of its own `npx` invocation |
| Cms.CopyCmsIsCreateProject | actions/cms.ts:1-24 | `copyCms` behaves as `createProject` with the template `./tws-cms` |
| Cms.CopyCmsStartsNpx | actions/cms.ts:4-23 | one `npx` child with the arguments `create-react-router@latest <name> --template ./tws-cms`, and no file; the success line is logged exactly when the status is 0, and the failure line exactly when it is not |
| StaticCopy.TemplateChoices | actions/static.ts:5-7 | one choice per enum key, in key order, each the key lowercased with its first `_` turned into `-` |
| StaticCopy.TemplateChoicesAreTwsStatic | actions/static.ts:1-7 | the choices are exactly `["tws-static"]` |
| StaticCopy.Member | actions/static.ts:51 | the enum lookup yields a value exactly when the key is an enum key, and the value is that key's |
| StaticCopy.ChoiceNameRoundTrip | actions/static.ts:47-49 | uppercasing a choice name and turning its first `-` into `_` gives back the key, for keys without lowercase letters and without `-` |
| StaticCopy.ChoicesLookUpTheirRepository | actions/static.ts:46-51 | each offered choice looks up its own repository |
| StaticCopy.TemplateLookupExamples | actions/static.ts:46-51 | `tws-static` and `TWS-STATIC` give `./tws-static`, and `tws-cms` gives undefined |
| StaticCopy.TemplateArgIffKnownKey | actions/static.ts:46-51 | the lookup yields a value exactly when the chosen key is `TWS_STATIC`, and then the value is `./tws-static` |
| StaticCopy.BuildStaticArgs | actions/static.ts:24-60 | the pushes build the argument list that `StaticArgs` describes |
| StaticCopy.StaticArgsInOrder | actions/static.ts:24-60 | the list starts with `create-react-router@latest` and the project name; `--template` and its repository, `--git-init` and `--install` follow in that order, and the length counts exactly the options that are set |
| StaticCopy.StaticArgsFlags | actions/static.ts:46-60 | after the first two arguments, `--template`, `--git-init` and `--install` each appear exactly when their option is set |
| StaticCopy.CopyTwsStaticStartsNpx | actions/static.ts:62-74 | one `npx` child with the arguments as passed, and no file; the second line echoes the arguments; for a status, the last line is the success line exactly when it is 0 |
| StaticCopy.UnknownTemplatePassesUndefined | actions/static.ts:46-66 | an unknown template name passes `--template undefined` to the child, and it shows as an empty piece in the echoed line |
| Indie.FirstMatch | actions/indie.ts:42 | the leftmost index where `@remix-run/node` or `@remix-run/react` starts, or none when neither occurs |
| Indie.AlternativesExclusive | actions/indie.ts:42 | the two alternatives never match at the same index |
| Indie.EditTextReplacesLeftmost | actions/indie.ts:41-43 | only the leftmost match becomes `react-router`; everything before and after it, later matches included, is kept |
| Indie.EditTextWithoutMatch | actions/indie.ts:42 | a text with neither import path comes back unchanged |
| Indie.EditTextKeepsLaterMatches | actions/indie.ts:42 | a text that starts with an import path has only that one replaced |
| Indie.FetchAndWrite | actions/indie.ts:61-67 | one trace per entry of the table it is given |
| Indie.GetAuth | actions/indie.ts:10-67 | `getAuth()` over the source's own `FILES` table: one trace for each of its eight entries |
| Indie.CorrectedGetAuth | actions/indie.ts:10-67 | the same over the corrected table: eight traces |
| Indie.EntryWritesEditedText | actions/indie.ts:45-66 | in any table, each entry creates its directory and its file, then writes there the edited text fetched from `BASE_URL + src + name` |
| Indie.GetAuthWritesEditedText | actions/indie.ts:45-66 | each entry of `FILES` ensures `dist`, ensures `dist + '/' + name`, then writes there the edited text fetched from `BASE_URL + src + name` |
| Indie.TracesInside | actions/indie.ts:51-59 | entries whose directories lie in a root create nothing outside it |
| Indie.GetAuthStaysInside | actions/indie.ts:12-57 | every directory and file an entry of `FILES` creates, the nested prisma ones included, lies under the working directory |
| Indie.CorrectedGetAuthStaysInside | actions/indie.ts:12-57 | the same holds for the corrected table |
| Indie.DistInside | actions/indie.ts:12-39 | every `dist` of both tables is the working directory or lies below it |
| Indie.GetAuthNestsPrisma | actions/indie.ts:24-33 | as written, `getAuth()` ensures the directories `prisma/schema.prisma` and `prisma/seed.ts` and writes the files at `prisma/schema.prisma/schema.prisma` and `prisma/seed.ts/seed.ts` |
| Indie.CorrectedGetAuthWritesPrisma | actions/indie.ts:24-33 | with the corrected table, both prisma files are written directly into `prisma` |
| Indie.FetchUrls | actions/indie.ts:11-46 | the addresses `FILES` makes `getAuth()` fetch are the stack's folder and the file name under the base address |
| Indie.CorrectionOnlyMovesPrisma | actions/indie.ts:14-39 | both tables have eight entries with the same names and folders; they differ only in the two `prisma/` directories |
| Indie.PrismaFilesNestedAsWritten | actions/indie.ts:24-33 | as written, the two prisma entries name their own directory, so the files land at `prisma/schema.prisma/schema.prisma` and `prisma/seed.ts/seed.ts` |
| Indie.CorrectedFilesNotNested | actions/indie.ts:14-39 | in the corrected table no entry's directory is named after its file, and the prisma files land directly in `prisma` |

`PackageAction.CreateNpmPackageProject` is the reference definition of the
action, and `Host.Process.CreateNpmPackageProject` is proved against it.
Statements about the whole action are composed from three parts:

- the step functions' own contracts (what each step creates and starts);
- `PackageAction.StepsStayInside` and `PackageAction.SummaryOnlyLogs`;
- the generic `PackageAction.PipelineInside` and `PackageAction.PipelineSpawns`.

## Left out

- Real child processes (`Deno.Command`, inherited output): a child is an oracle from invocation to outcome.
- The real filesystem (`fs-extra`, `Deno.readTextFile`): it is a trace of effects plus a map of template texts and a set of existing paths.
- The `fetch` calls of `getAuth`: the network is a function from address to text. Failed requests are not modelled.
- The `Promise.all` fan-out of `getAuth`: it is one independent trace per entry. The interleaving of the entries is not modelled.
- The clock: the year is a parameter of `Templates.CreateTemplateVars`.
- `Deno.exit`: it is an `Exit(status)` ending, not the end of the process.
- JavaScript replacement patterns in `editText`'s `replace`: its replacement `react-router` holds no `$`, so `Indie.EditText` inserts it literally.
- Templates.Render: the properties of substitution (unknown placeholders kept, every occurrence filled, entry order) are proved for literal insertion only. They carry over to what `processTemplate` computes through `Templates.FillIsRender` and `PackageCreation.ProcessTemplateOfPlainValues`, that is, for configured values without `$`. A configured value holding `$` is filled with its patterns expanded (`Templates.Fill`), but no property beyond the examples is proved for it.
- `JSON.stringify(packageJson, null, 2)`: the manifest is written as `Json(manifest)`, a record value. The serialized text (key order, two-space indentation) is not modelled.
- Case mapping: `toLowerCase`/`toUpperCase` are modelled on ASCII letters only, which covers the enum key and the choice names.
- The exact emoji and spacing of the console output are kept as string constants. No property depends on them beyond equality.
- `actions/trigger.dev.ts` and `main.ts` (SDK bindings and command-line wiring) are not part of this model.
- Host.Process.CreateNpmPackageProject: validation is pure, so it is computed before the header is logged; the trace is the same as in the source order.
- PackageAction.CreateNpmPackageProject: the spawn order and the stay-inside property are not restated for the action as one lemma, because unfolding all seven steps at once is too costly. The composition in "## Model" gives them.

## Findings

| source | as written | input that shows it | evidently intended | confidence | as-written member | corrected member |
|---|---|---|---|---|---|---|
| actions/indie.ts:24-33 | the `schema.prisma` and `seed.ts` entries set `dist` to `<cwd>/prisma/schema.prisma` and `<cwd>/prisma/seed.ts`, and `writeFile` writes to `dist + '/' + name` | any working directory, e.g. `/p`: the schema goes to `/p/prisma/schema.prisma/schema.prisma` | `dist` is `<cwd>/prisma`, so the files land at `/p/prisma/schema.prisma` and `/p/prisma/seed.ts` | medium, not executed | Indie.GetAuthNestsPrisma | Indie.CorrectedGetAuthWritesPrisma |
