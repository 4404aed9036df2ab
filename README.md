# tkn-autogenerate detection and merge, in Dafny

tkn-autogenerate looks at a source repository and writes a Tekton PipelineRun for it.
It does this in three steps:
1. It asks the hosting service which languages the repository uses.
2. It selects the rules of its rule table that match those languages.
3. It checks the remaining "pattern" rules against the repository's file list.

Each rule carries a list of tasks and optionally the name of its own PipelineRun template.
The core of the tool decides which rules apply, which task names go into the rendered
list, and which template is rendered. This project models that core and proves what it does.

The model has six modules:

- `Results` (`results.dfy`): `Option`, `Result`, and the errors a run can end with.
  Go's `%w` wrapping becomes `Error.Wrapped(context, inner)`.
- `Strings` (`strings.dfy`):
  - ASCII lower-casing (`ToLower`);
  - `strings.Split` on one separator character, and a join used only to state that splitting loses nothing (the source never joins).
- `Rules` (`rules.dfy`):
  - the rule configuration (`Config`, `Task`, `Params`, `Workspace`);
  - the rule table, an ordered sequence of `(key, Config)` with a lookup function;
  - the "name, or else the key" identity a rule is stored under.
- `AutoGen` (`autogenerate.dfy`): the `AutoGenerate` object.
  - It is a class with a mutable `filesInRepo` cache, which is filled at most once.
  - `GetFilePatternTasks` compiles a pattern and scans the file list up to the first match.
  - `GetTasks` concatenates the task names of the rules in table order.
  - `Output` gathers the render inputs.
  - Each method is proved against a function of the old state (`PatternResultOf`, `Aggregate`, `OutputOf`).
  - A reference definition (`Contributions`) is proved equal to `Aggregate`.
- `Detection` (`detect.dfy`): `Detect`.
  - It checks the owner/repo argument.
  - It selects rules by language, with a `Name` override.
  - It runs the pattern-merge and template-selection loop, then calls `Output`.
  - The loop is the method `MergeLoop`, proved against the function `Merge`.
  - `Merge` takes how a missing template is worded in the error: `AsWritten` (as the code words it, used by `MergeLoop` and `Detect`) or `NamesTemplate` (naming the template, see "## Findings").
  - Lemmas state what `Merge` produces: where it stops, which keys it writes and with which values, and when it fails and with which error.
- `Legacy` (`legacy.dfy`): the first version of the tool in the root `tknautogenerate.go`.
  - Its `GetTasks` uses nested loops.
  - `main`'s language-selection loop.
  - The template helper `add`.

The world outside the core is given as parameters:
- The hosting service's file listing is a `FetchOutcome`.
  - It is fixed per `AutoGenerate` object.
  - A failed listing leaves an empty list in the cache, as `GetAllFilesInRepo` does.
- The language listing and the configuration loader are functions of their arguments.
- Reading a file and reading an embedded template are functions from a path to `Option<string>`.
- The regular-expression engine is a pair: a compile function that may fail, and a match predicate.

Go map iteration order is unspecified. The model therefore takes the rule table as an
ordered sequence, and it proves every property for an arbitrary fixed order. The merge
loop and `GetTasks` iterate in that same order. "First match wins" means first in that sequence.

Behaviour of the code worth noting:
- **Owner/repo segments may be empty.** The owner/repo check only requires that splitting on `/` gives exactly two parts. An empty segment, as in `"a/"`, is accepted (`SplitOwnerRepo`).
- **The task list is not limited to the rules in the result mapping.** It is built by `GetTasks` over the whole table:
  - every language rule contributes all its tasks, whether its language was detected or not;
  - every matching pattern rule contributes its tasks, including those after the rule that stopped the loop (`DetectTasksFromAllRules`).
- **The loop breaks at the first detected pattern rule with a template.** Later pattern rules are then neither matched nor added to the configs mapping (`MergeStops`, `MergeKeys`).
- **The template is the one settled on by the last iteration run.** Every iteration resets it to the default. When the loop does not break, it is therefore the last rule's template (or the default). For an empty table it is the empty string, Go's zero value.
- **Template names end in `.yaml.go.tmpl`.** They are looked up in the templates directory when one is given, and under `templates/languages/` otherwise.
- **Rule keys are not case-folded when the table is loaded.** Only the detected language names are lower-cased before lookup.

## Model

| member | source | states |
|---|---|---|
| Strings.ToLower | pkg/tknautogenerate/detect.go:35 | the result has the input's length, no ASCII capitals, every capital moved down by 32 and every other character kept |
| Strings.SplitCount | pkg/tknautogenerate/detect.go:14 | splitting on a separator gives one part more than the separator occurs |
| Strings.SplitPartsFree | pkg/tknautogenerate/detect.go:14 | no part of a split contains the separator |
| Strings.SplitJoin | pkg/tknautogenerate/detect.go:14 | joining the parts with the separator gives back the original string |
| Rules.Lookup | pkg/tknautogenerate/detect.go:36 | a key is found iff some table entry has it; a found value is that entry's, and with distinct keys it is the value of every entry with that key |
| Detection.SplitOwnerRepo | pkg/tknautogenerate/detect.go:14-17 | succeeds iff the argument holds exactly one `/`, otherwise fails with the owner/repo error; on success owner + "/" + repo is the argument and neither part holds a `/` (empty parts accepted) |
| Detection.LanguageSelectionKeys | pkg/tknautogenerate/detect.go:33-43 | a key is in the selection iff some detected language, lower-cased, is a rule key whose rule is stored under that key (its Name, else the lower-cased key) |
| Detection.LanguageSelectionValues | pkg/tknautogenerate/detect.go:37-41 | the value under a selected key is the rule, unchanged, of a detected language that selects it |
| Detection.LanguageSelectionCharacterised | pkg/tknautogenerate/detect.go:33-43 | the same for every key at once: the selection's keys are exactly the Name-or-key identities of the selected rules, each holding its rule from the table |
| Detection.SelectByLanguage | pkg/tknautogenerate/detect.go:33-43 | the language loop builds exactly the language selection of the detected languages, in their order |
| Detection.MergeCache | pkg/tknautogenerate/detect.go:53-88 | the loop leaves the file cache as it found it or filled from the hosting service, never anything else |
| Detection.MergeStops | pkg/tknautogenerate/detect.go:53-88 | a successful loop stops right after the first detected pattern rule with a template, or at the end of the table; no earlier rule it ran halts it; the template it returns is the one the last iteration settled on (the default or that rule's own), and "" when no iteration ran |
| Detection.MergeKeys | pkg/tknautogenerate/detect.go:68-80 | after a successful loop a key is present iff it was selected by language or some reached pattern rule that matched and has tasks is stored under it; language rules and matched rules without tasks add nothing |
| Detection.MergeKeepsValue | pkg/tknautogenerate/detect.go:75-80 | after a successful loop, a key that no reached pattern rule writes keeps the rule it held before the loop (the language-selected one) |
| Detection.MergeLastWriterWins | pkg/tknautogenerate/detect.go:75-80 | after a successful loop, a key written by a reached pattern rule holds the rule of the last reached pattern rule that writes it, overwriting any language-selected rule |
| Detection.MergeFailure | pkg/tknautogenerate/detect.go:53-74 | a failed loop failed at the first iteration it reached that fails, with no earlier iteration halting it; the error is that iteration's: the missing-template error (worded as the `TemplateReport` says), or the pattern error wrapped in "Error getting file pattern tasks" |
| Detection.MergeFailsAt | pkg/tknautogenerate/detect.go:53-74 | conversely, the loop fails whenever some iteration has a missing template or a pattern that cannot be evaluated and no earlier iteration halts the loop |
| Detection.MergeMissingTemplateShowsDefault | pkg/tknautogenerate/detect.go:54-65 | the loop as written: every missing-template failure shows the default template text, so it names the missing template only when that name equals the default text |
| Detection.MergeNamesMissingTemplate | pkg/tknautogenerate/detect.go:54-65 | the loop with the error naming the template: every missing-template failure shows the name of a rule's missing template |
| Detection.MissingPythonTemplate | pkg/tknautogenerate/detect.go:54-65 | one rule naming the missing template "python" with default text "kind: PipelineRun": as written the loop fails showing "kind: PipelineRun"; naming the template it shows "python" |
| Detection.MergeLoop | pkg/tknautogenerate/detect.go:52-88 | the loop over the rule table returns the configs, the template and the error `Merge` (as written) describes, including the missing-template error formatted with the just-reset template text; it leaves the cache as `Merge` says, and fetches no more once the cache is filled |
| Detection.Detect | pkg/tknautogenerate/detect.go:13-90 | the whole of Detect equals the chain of owner/repo check, language listing, configuration load, default template override, language selection, merge loop and Output, with each stage's error returned unchanged |
| Detection.DetectTasksFromAllRules | pkg/tknautogenerate/detect.go:89 | on success the rendered task list is every rule's contribution in table order: all tasks of every language rule, and the tasks of every matching pattern rule, including those after the loop's break |
| AutoGen.PatternResultOf | pkg/tknautogenerate/tknautogenerate.go:116-144 | an error iff the first fetch fails or the pattern does not compile; a failed fetch is reported wrapped in "Error getting all files in repo"; on error nothing is detected and no tasks are returned; otherwise detected iff some cached path matches; the tasks are the rule's task names in declared order when detected, else none |
| AutoGen.PatternResultCacheIrrelevant | pkg/tknautogenerate/tknautogenerate.go:118-123 | once the fetch cannot fail, evaluating a rule before or after the cache is filled gives the same result |
| AutoGen.ScanFiles | pkg/tknautogenerate/tknautogenerate.go:129-135 | matched iff some path matches; the scan stops at the first matching path, having seen no match before it, and reads every path when none matches |
| AutoGen.AutoGenerate.constructor | pkg/tknautogenerate/detect.go:28 | a new object holds the table and the host, with an empty cache and no fetch done |
| AutoGen.AutoGenerate.GetFilePatternTasks | pkg/tknautogenerate/tknautogenerate.go:116-144 | returns `PatternResultOf` of the cache as it was; the cache is filled (an empty list after a failed fetch) and the fetch runs at most once per object |
| AutoGen.AutoGenerate.GetTasks | pkg/tknautogenerate/tknautogenerate.go:97-114 | returns `Aggregate` of the cache as it was, with an empty list on error; the cache is filled iff the table has a pattern rule, and no second fetch happens |
| AutoGen.AggregateCharacterised | pkg/tknautogenerate/tknautogenerate.go:97-114 | GetTasks succeeds iff every pattern rule compiles and the file list is obtainable; it then yields every rule's contribution in table order (all task names of a language rule, the matched pattern rules' task names, duplicates kept); an error is wrapped in "Error getting file pattern tasks" |
| AutoGen.AutoGenerate.Output | pkg/tknautogenerate/tknautogenerate.go:146-170 | hands the selected rules, the full task list and the template on, or fails with the task error wrapped in "failed to get tasks" before rendering |
| Legacy.GetTasks | tknautogenerate.go:74-82 | the nested loops return every rule's task names, rule after rule in table order |
| Legacy.AllTaskNamesAppend | tknautogenerate.go:76-80 | the task list of two tables read in turn is their task lists concatenated |
| Legacy.AllTaskNamesLength | tknautogenerate.go:76-80 | the task list has exactly one entry per declared task: nothing is deduplicated or dropped |
| Legacy.AllTaskNamesMembers | tknautogenerate.go:74-82 | a name is in the task list iff some rule declares a task with that name |
| Legacy.SelectLanguages | tknautogenerate.go:131-137 | a key is selected iff it is a rule key and equals the lower-cased name of some detected language; its value is the table's rule for that key, unchanged |
| Legacy.Output | tknautogenerate.go:96-99 | the template receives the selected rules and the full task list |
| Legacy.Add | tknautogenerate.go:85-88 | the sum when it fits in 64 bits; in every case equal to the sum modulo 2^64, as Go's `int` addition wraps |

## Left out

- Hosting-service calls are not modelled:
  - `ListLanguages`, `Repositories.Get` (the default-branch lookup) and `Git.GetTree`;
  - the access token.
  They are network I/O. The language list and the file listing are given as functions of owner, repo and target reference. Only the language names are used, not the byte counts.
- Loading the configuration (`New`: `os.Stat`, `os.ReadFile` and YAML unmarshalling) is a foreign parser and file I/O. It is a function from a path to a rule table or an error.
- Reading files and embedded templates is modelled only as found or not found. `filepath.Join`'s path cleaning is not modelled: the directory and file name are joined with one `/`.
- The template engine's parse and execute steps in `Output` are not modelled. The model stops at the selected rules, task list and template text handed to it. A template that fails to parse (which would fail before `GetTasks` runs) is therefore not modelled.
- The regular-expression engine is not modelled. Compiling and matching are parameters.
- Lower-casing is ASCII only. Go's `strings.ToLower` also folds non-ASCII letters.
- The Go map iteration order is not modelled as nondeterminism. One fixed order, which is arbitrary, is used by both loops over the rule table. Random map order is exactly what makes the tool's template choice unreproducible.
- `Detect` assigns the file-read default template to a package-level variable, so it persists into later calls in the same process. The model keeps it local to one call.
- Legacy `main` has more behaviour that is not modelled:
  - it indexes the split `owner/repo` argument without checking its length, so a missing `/` panics;
  - its argument-count check, `log.Fatal` calls and printing are process plumbing;
  - its `New` is configuration loading, as above.
- The `add` helper of `pkg/tknautogenerate/tknautogenerate.go:147-151` has the same body as the legacy one and is covered by `Legacy.Add`.

## Findings

| source | as written | input that shows it | evidently intended | confidence | as-written member | corrected member |
|---|---|---|---|---|---|---|
| pkg/tknautogenerate/detect.go:64 | the "failed to read template %s" error is formatted with `pipelineRun`, which the iteration has just reset to the default template's text (detect.go:54) | a rule with template name "python", no templates directory and no embedded "python" template: the error shows the default template text instead of "python" (`Detection.MissingPythonTemplate`) | the error names the missing template (`config.PipelineRun`) | not executed | Detection.MergeMissingTemplateShowsDefault | Detection.MergeNamesMissingTemplate |
