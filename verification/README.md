# mcl core in Dafny

A model of the pure core of `mcl`, a command-line runner for shell
scripts defined in JSON configuration files, with proofs about it.

The model covers four parts:

- **Running a script** (`src/mcl/executor.py`).
  - A script is looked up in the configuration's `scripts` object.
  - Nested script groups consume one leading argument per level.
  - The leaf becomes a list of steps, and every step is rendered through three regular-expression passes: `?$N`, then `$N`, then `$name`.
  - The rendered lines are handed, one at a time, to a shell until one of them fails.
- **Loading the configuration** (`src/mcl/config.py`).
  - The defaults, the global file and, on request, the project file are merged by the recursive `_merge_dicts`.
  - Each file's own `scripts` object is kept aside under `__global_scripts__` and `__local_scripts__`.
- **Listing scripts** (`src/mcl/commands.py`).
  - Every dotted path that leads to a string, a list or an empty group is listed, sorted.
  - The two per-file script maps are extracted.
- **The listing on the command-line entry point** (`src/mcl/cli.py:83-89`): the project's paths, then the global paths the project does not also define.

Modules, one per file:

| file | module | what it holds |
|---|---|---|
| `outcomes.dfy` | `Outcomes` | `Option`, `Result` (with `:-`), `Outcome` |
| `text.dfy` | `Text` | character classes, decimal numerals, `strip`/`lstrip`, `join`, string order, `sorted`, and sets as sorted lists |
| `values.dfy` | `Values` | parsed JSON values, truthiness, `str()`, and walking nested objects by key |
| `render.dfy` | `Render` | the regex scanner, the three passes, `render_script` |
| `render_examples.dfy` | `RenderExamples` | the rendering tests, in general form |
| `executor.dfy` | `Executor` | `_format_path`, `_coerce_steps`, `_resolve_script_definition`, the shared environment, `execute` |
| `executor_examples.dfy` | `ExecutorExamples` | the `execute` tests, in general form |
| `config.dfy` | `Config` | `_merge_dicts`, `load_config`, and the global script view as the code computes it |
| `commands.dfy` | `Commands` | `list_script_paths`, `extract_script_maps`, the listing in `cli.py` |

Design choices:

- **Files and I/O.**
  - Files arrive already parsed, and `None` stands for a missing file.
  - The shell is a function `status(line, env)` giving the exit status of a line run in an environment.
  - The process environment is a parameter.
  - `Execute` returns the lines it dispatched, each with its environment, and whether it ended normally or with which error.
- **Regex passes.** Each pass is one scanner (`Render.Substitute`). It replaces the leftmost greedy match, resumes after it, and never rescans a replacement within the same pass. The next pass does see the replacement.
- **Behaviour of the code.** The model states these facts of the code:
  - There is no `$$` escape: the three patterns at `src/mcl/executor.py:14-16` have no case for it.
  - A missing `?$N` becomes the empty string and the rest of the line is kept (`src/mcl/executor.py:163-167`).
  - `$0` reads the last argument (`args[-1]`), or fails when there are no arguments, because the index `-1` passes the bound test at `src/mcl/executor.py:176` (`Render.PositionalZero`).
  - A group called without a valid subcommand always raises (`src/mcl/executor.py:57-69`); `execute` offers no interactive menu. `tests/test_interactive_menu.py:15-56` expects a menu on a terminal; that test is not modelled.
  - Lines go to the shell as strings, because `subprocess.run` is called with `shell=True` at `src/mcl/executor.py:154`. `tests/test_executor.py:25-41` and `tests/test_executor.py:74-98` expect argument lists and `shell=False`; those assertions are not modelled.
- **Dict order.** A Python dict's key order is not kept. Every place where order is visible sorts first:
  - the error options;
  - `list_script_paths`.

  Elsewhere a sorted order stands in for the dict's order:
  - The `_merge_dicts` loop visits the keys in sorted order. `Config.MergeInto`'s contract holds for every order of distinct keys, so the choice does not change the result.
  - The inner walk of `list_script_paths` visits children in sorted order. Its result is sorted afterwards, and `Text.SortedUnique` shows a sorted list is fixed by its elements.

## Model

| member | source | states |
|---|---|---|
| Text.Strip | src/mcl/executor.py:99 | `str.strip()`: the result is a contiguous slice of the input with no whitespace at either end, and it is empty exactly when the input is all whitespace |
| Text.LStrip | src/mcl/executor.py:92-93 | `str.lstrip()`: the result is the input minus a prefix made only of whitespace, and it does not start with whitespace |
| Text.StripAround | src/mcl/executor.py:99 | stripping removes exactly the whitespace around a core that neither starts nor ends with whitespace |
| Text.Dec | src/mcl/executor.py:143 | `str(n)` of a natural number is a non-empty digit string that reads back as `n`: `0` is `"0"` and no other numeral starts with `0` |
| Text.DecInjective | src/mcl/executor.py:142-143 | distinct argument indices give distinct numerals, so distinct `MCL_ARG_i` names |
| Text.IntStr | src/mcl/executor.py:192 | `str(i)` of an `int`: the numeral of `i`, with a minus sign in front when `i` is negative, and no leading zero |
| Text.Sort | src/mcl/commands.py:38 | `sorted`: the result is ordered and is a permutation of the input |
| Text.SortedUnique | src/mcl/commands.py:34-38 | two sorted lists with the same elements are equal, so the order in which paths were gathered cannot change the sorted result |
| Text.SetToSorted | src/mcl/executor.py:59 | `sorted(keys)`: an ordered list without repeats holding exactly the set's elements |
| Values.Stringify | src/mcl/executor.py:192 | `str(value)`: a string is itself, `None` is `None`, a boolean is `True` or `False`, and an integer is `str` of it (its shortest numeral, signed) |
| Values.DescendAppend | src/mcl/executor.py:57-74 | following the keys `p + q` is following `p`, then `q` from where `p` ended |
| Values.DescendStep | src/mcl/executor.py:73-74 | one more key below an object that holds it reaches that key's value |
| Render.MatchLenLongest | src/mcl/executor.py:14-16 | the match at a position is the longest token there, and no token starts where it reports none |
| Render.OptionalValue | src/mcl/executor.py:162-166 | the `?$N` callback gives `args[N-1]` when `1 <= N <= len(args)` and the empty string otherwise |
| Render.PositionalValue | src/mcl/executor.py:174-178 | the `$N` callback fails with `N` when `N > len(args)`, gives `args[N-1]` for `1 <= N <= len(args)`, and for `N = 0` gives the last argument or fails when there is none |
| Render.VariableValue | src/mcl/executor.py:186-192 | the `$name` callback gives `str(vars[name])`, or fails naming the variable when it is absent |
| Render.VariableDigitBranchDead | src/mcl/executor.py:188-189 | no `$name` match captures an all-digit name, so the `isdigit` branch never runs |
| Render.Substitute | src/mcl/executor.py:168 | the `?$N` pass never fails |
| Render.SubstituteNoMatch | src/mcl/executor.py:180 | text in which no match starts comes back unchanged |
| Render.SubstituteConcat | src/mcl/executor.py:194 | the scan of `a + b` is the scan of `a` followed by the scan of `b` when `b` starts with a character no match can run into |
| Render.SubstituteAround | src/mcl/executor.py:168 | a whole token between `a` and `b` is replaced by its callback's text verbatim, and each side is scanned on its own |
| Render.OptionalPlaceholder | src/mcl/executor.py:159-168 | `?$N` becomes the `N`th argument or nothing, and the text around it is processed unchanged by the token |
| Render.PositionalPlaceholder | src/mcl/executor.py:171-180 | `$N` with `1 <= N <= len(args)` becomes `args[N-1]`, with the text on either side scanned separately |
| Render.PositionalMissing | src/mcl/executor.py:176-177 | `$N` with `N > len(args)` makes the pass fail, with this token's error unless the text before it fails first |
| Render.PositionalZero | src/mcl/executor.py:175-178 | `$0` becomes the last argument. With no arguments the pass fails, with `NoArgumentForZero` (Python's `IndexError` from `args[-1]`) unless the text before it fails first |
| Render.VariablePlaceholder | src/mcl/executor.py:183-194 | `$name` becomes `str(vars[name])`. An absent name fails the pass, with `UnknownVariable(name)` unless the text before it fails first |
| Render.RenderStep | src/mcl/executor.py:91-101 | a blank or comment step gives no line. Any other step goes through the `?$N`, `$N` and `$name` passes in order, fails with the first failing pass's error, and otherwise gives the stripped result, dropped only when that is empty. A line given is non-empty and stripped |
| Render.RenderScript | src/mcl/executor.py:80-103 | at most one line per step, each non-empty and stripped |
| Render.RenderScriptFailure | src/mcl/executor.py:91-98 | rendering fails exactly when some step fails, and then with the first failing step's error |
| Render.RenderScriptAppend | src/mcl/executor.py:90-103 | the lines of `a + b` are the lines of `a` followed by the lines of `b`, so step order is kept |
| Render.PlainStep | src/mcl/executor.py:92-101 | a step without `$` that is not blank or a comment renders to its stripped text |
| RenderExamples.ArgumentStep | tests/test_executor.py:13-16 | a line ending in `$N` renders to the line ending in the `N`th argument |
| RenderExamples.VariableStep | tests/test_executor.py:13-16 | a line ending in `$name` renders to the line ending in the variable's text |
| RenderExamples.CommentStep | src/mcl/executor.py:92-94 | a step that is `#` after leading whitespace gives no line |
| RenderExamples.SingleStep | src/mcl/executor.py:90-103 | a one-step script renders to that step's line, if it has one |
| RenderExamples.ThreeSteps | src/mcl/executor.py:90-103 | two emitting steps and a dropped one render to the two lines in order |
| RenderExamples.RenderScriptExample | tests/test_executor.py:13-16 | `[a + "$N", b + "$name", whitespace + "# comment"]` renders to the argument line and the variable line |
| RenderExamples.MissingArgumentStep | tests/test_executor.py:19-22 | a step using `$N` with fewer than `N` arguments fails with `MissingPositional(N)` |
| RenderExamples.OptionalThenPositional | src/mcl/executor.py:96-97 | an argument inserted by `?$N` that reads `$M` is replaced by the `M`th argument in the next pass |
| RenderExamples.OptionalMissingKeepsLine | src/mcl/executor.py:164-166 | a `?$N` with no argument behind it vanishes and the rest of the line is kept |
| RenderExamples.DoubleDollarIsNoEscape | src/mcl/executor.py:171-180 | `$$N` is not an escape: it becomes `$` followed by the `N`th argument |
| RenderExamples.DollarWord | src/mcl/executor.py:14 | a `$` followed by something other than a digit is left alone by the `$N` pass |
| RenderExamples.LoneDollar | src/mcl/executor.py:14 | a trailing `$` is left alone by the `$N` pass |
| Executor.FormatPath | src/mcl/executor.py:19-24 | the script name and the consumed keys joined with dots |
| Executor.CoerceSteps | src/mcl/executor.py:27-43 | a string is one step, and a list of strings is its items in order. A list holding anything else fails naming the path, and any other payload fails naming the path and its type |
| Executor.Resolve | src/mcl/executor.py:53-77 | what resolution leaves over is a suffix of the arguments |
| Executor.ResolveReaches | src/mcl/executor.py:57-77 | when the first `k` arguments lead through objects to a non-object, resolution returns that leaf's steps and the arguments after the `k`th, or the leaf's error under the path of those `k` keys |
| Executor.ResolveExhausted | src/mcl/executor.py:57-63 | arguments that run out on an object give "requires a subcommand" with that object's keys, sorted |
| Executor.ResolveUnknown | src/mcl/executor.py:65-71 | an argument that names no child gives "has no subcommand" with that key and the sorted keys |
| Executor.ResolveSuccess | src/mcl/executor.py:53-77 | every success consumed a prefix of the arguments that leads through objects to a leaf, and its steps are that leaf's |
| Executor.ArgEnv | src/mcl/executor.py:142-143 | the environment holds exactly `MCL_ARG_1`, …, `MCL_ARG_n`, each bound to its argument |
| Executor.ArgNameInjective | src/mcl/executor.py:143 | different indices give different `MCL_ARG_i` names |
| Executor.ShareEnv | src/mcl/executor.py:137-143 | the shared environment has the process environment's keys, the variables and the argument names. Arguments win over variables, and variables win over the process environment |
| Executor.RunLines | src/mcl/executor.py:145-156 | lines are dispatched in order. It ends normally exactly when every line exits 0, and otherwise stops at the first non-zero status and reports it |
| Executor.Prepare | src/mcl/executor.py:118-135 | in source order: `scripts` missing or not an object gives `ScriptsNotObject`, and an absent or `null` script gives `ScriptNotDefined`. A resolution error is passed on, `vars` not an object gives `VarsNotObject`, and a substitution failure gives `Rendering`. Otherwise the plan is the resolved steps rendered with the left-over arguments and the variables, with every line non-empty and stripped |
| Executor.Execute | src/mcl/executor.py:106-156 | a dry run dispatches nothing. The call ends normally exactly when every check passes and every dispatched line exits 0 |
| Executor.ExecutePrepareFails | src/mcl/executor.py:118-132 | a failing check or substitution dispatches nothing and reports that failure |
| Executor.ExecuteDispatches | src/mcl/executor.py:137-156 | the dispatched lines are a prefix of the rendered lines, all of them on success, each with a child environment exactly when variables are shared. A failure stops at the first line that exits non-zero: every earlier line exited 0 and the error is `CommandFailed` with that line's status |
| Executor.ExecuteRuns | src/mcl/executor.py:137-156 | past the checks and not a dry run, `execute` is the dispatch loop over the rendered lines, with the shared environment or the inherited one |
| Executor.ExecuteSharesVars | src/mcl/executor.py:137-154 | with shared variables every dispatched line gets the shared environment |
| ExecutorExamples.GroupSelectsChild | src/mcl/executor.py:65-77 | a group picks its child by the first argument and leaves the rest to the child's steps |
| ExecutorExamples.NestedScriptRuns | src/mcl/executor.py:122-154 | a group's child holding one plain line dispatches that stripped line once in the inherited environment |
| ExecutorExamples.GroupNeedsSubcommand | tests/test_executor.py:111-112 | a group called without arguments dispatches nothing and fails listing its children sorted |
| ExecutorExamples.GroupUnknownSubcommand | tests/test_executor.py:114-115 | a group called with an unknown child dispatches nothing and fails naming it |
| ExecutorExamples.SharedVariablesReachTheChild | tests/test_executor.py:53-71 | a single `$name` step runs with the variable's text in the line and in the child's environment |
| Commands.WalkMembers | src/mcl/commands.py:15-32 | the walk reports exactly the paths from the node to a string, a list or an empty object |
| Commands.WalkFieldsMembers | src/mcl/commands.py:20-21 | the walk over some children reports exactly the paths through one of them |
| Commands.KeyPathsMembers | src/mcl/commands.py:34-36 | the collected key paths are exactly the script paths |
| Commands.ListScriptPaths | src/mcl/commands.py:10-38 | the listing is sorted and holds each dotted collected path exactly as often as it was collected, so colliding dotted keys are listed twice |
| Commands.ListedPathIn | src/mcl/commands.py:15-30 | every script path appears, dot-joined, in the listing |
| Commands.ListedPathFrom | src/mcl/commands.py:34-38 | every listed entry is the dot-join of some script path |
| Commands.UnsupportedListsNothing | src/mcl/commands.py:32 | a map whose values are none of string, list or object lists nothing, and does not fail |
| Commands.FlatListsKeys | tests/test_commands.py:8-10 | a map of strings and lists lists its keys, sorted |
| Commands.ScriptMap | src/mcl/commands.py:46-50 | an object entry is passed through, and a missing, falsy or non-object entry gives `{}` |
| Commands.ExtractScriptMaps | src/mcl/commands.py:41-52 | the global and the project script maps, each `{}` unless its entry is an object |
| Commands.Without | src/mcl/cli.py:88-89 | exactly the paths of the first list not in the second, sorted when the first list is |
| Commands.WithoutCount | src/mcl/cli.py:88-89 | a path not in the second list is kept as often as it occurs in the first, and a path in the second list not at all |
| Commands.WithoutAppend | src/mcl/cli.py:88-89 | filtering keeps order: filtering `a + b` is filtering `a`, then filtering `b` |
| Commands.Listing | src/mcl/cli.py:83-89 | the project's paths, sorted, and the sorted global paths not among them, each as often as the global listing has it. No path appears in both |
| Config.MergeValue | src/mcl/config.py:54-57 | anything other than an object over an object replaces the base value |
| Config.MergeInto | src/mcl/config.py:53-57 | for distinct keys in any order: the keys are the union, shared keys get the merged value, override-only keys get the override, and base-only keys are kept |
| Config.MergeDicts | src/mcl/config.py:50-57 | the key set is the union, the override wins except that object-over-object merges recursively, and keys only in the base are unchanged |
| Config.MergeNothing | src/mcl/config.py:53 | merging an empty override changes nothing |
| Config.MergeIntoNothing | src/mcl/config.py:74-80 | merging into an empty base gives the override itself |
| Config.MergeIdempotent | src/mcl/config.py:50-57 | merging a configuration into itself changes nothing |
| Config.MergeOverrideWins | src/mcl/config.py:56-57 | a non-object the override holds at any depth is what the merge holds there |
| Config.MergeBaseKept | src/mcl/config.py:54-55 | a base value at a path the override does not reach is kept |
| Config.MergeAt | src/mcl/config.py:54-55 | an object over an object under one key merges their fields |
| Config.LoadedData | src/mcl/config.py:44-47 | a missing file contributes `{}`, an object is its fields, and anything else is rejected naming the file |
| Config.ScriptsView | src/mcl/config.py:95-106 | a file's `scripts` object, or `{}` when it has none or it is not an object |
| Config.SetDefault | src/mcl/config.py:89-90 | `setdefault` adds the key with `{}` only when it is missing and changes nothing else |
| Config.CombinedIsMerge | src/mcl/config.py:74-90 | the `setdefault` calls never change the merged configuration |
| Config.Finish | src/mcl/config.py:92-113 | it fails exactly when `scripts` or `vars` is not an object. Otherwise it keeps every key and adds the two script views |
| Config.LoadConfig | src/mcl/config.py:60-113 | a bad global or project file is rejected, and on success `scripts` and `vars` are objects and each view is its file's own `scripts` or `{}` |
| Config.LoadConfigMerged | src/mcl/config.py:74-113 | once both files are read, loading fails with `KeysNotObjects` exactly when the merged `scripts` or `vars` is not an object. Otherwise it holds every key of the defaults merged with the global file and then the project file, as merged, beside the two views |
| Config.LoadIgnoresLocal | src/mcl/config.py:82-86 | without the local flag the project file is not read |
| Config.LoadDefaults | tests/test_config.py:24-32 | with no files the configuration is the defaults with two empty views |
| Config.LoadLocalOverGlobal | tests/test_config.py:35-56 | the project's scripts and variables are merged over the global ones, and each view is its file's scripts as written |
| Config.AliasedGroupIsMerged | src/mcl/config.py:53-57 | as written, when the load succeeds, every script group both files define as objects is in the global view the very group `scripts` holds, project additions included |
| Config.AsWrittenDiffersOnlyInGlobalView | src/mcl/config.py:95-111 | the code as written and the corrected loader fail alike, and on success differ only in `__global_scripts__` |
| Config.AsWrittenAgrees | src/mcl/config.py:76-111 | the two agree when no group is an object in both files |
| Config.GlobalViewLeaksLocalScript | src/mcl/config.py:110 | when both files hold `scripts` and `vars` objects and share a script group, a script only the project file defines shows up in the global view as written, while the corrected view is the global file's scripts |

## Left out

- File I/O:
  - `_load_json` reading a file, and the "Invalid JSON" error for text that does not parse (`tests/test_config.py:59-68`). The loader takes parsed values.
  - `ensure_global_dir`, `save_config`, `init_local` and `edit_global`: file and editor I/O.
- The shell:
  - `subprocess.run`. It is a status function, and an `OSError` from it is not modelled.
  - `os.environ.copy()`. The environment is a parameter.
  - The `shell=True` choice itself.
- Logging, the Click wiring and the text `cli.py` prints, `plugins.py`, `templates.py` and `mcp/`: I/O or foreign APIs with no core logic.
- Message texts. Each error datatype keeps what its message reports (paths, keys, sorted options, the number), not the wording.
- Floating-point JSON numbers; `Json.Num` holds integers only.
- `\d`, which in Python also matches non-ASCII digits. The model uses ASCII `0-9`.
- Values.Stringify: `repr` of a string does not escape quotes or control characters, and `repr` of a dict lists keys sorted rather than in insertion order. This matters only for variables that are not strings.
- Config.MergeDicts: the loop visits keys in sorted order, not the dict's insertion order. `Config.MergeInto` proves the result is the same for every order of distinct keys.
- Config.LoadConfig: the contract states the global view the corrected loader reports. The view the code computes is modelled separately (see Findings). The merged content for arbitrary files is stated by `Config.LoadConfigMerged`, not by the function's own contract, to keep each proof small.

## Findings

| source | as written | input that shows it | evidently intended | confidence | as-written member | corrected member |
|---|---|---|---|---|---|---|
| src/mcl/config.py:57 | the first merge stores the global file's script groups by reference, so the project merge (`config.py:86`) updates them in place. `__global_scripts__` (`config.py:110`) then holds the project's additions and overrides inside every group both files define | global `{"scripts": {"ex": {"a": "x"}}, "vars": {}}`, project `{"scripts": {"ex": {"b": "y"}}, "vars": {}}`, `local=True`: `__global_scripts__["ex"]` holds `b` | `__global_scripts__` is the global file's own `scripts`, as `tests/test_config.py:55` expects for flat scripts | medium, not executed; the listing in `cli.py:88-89` hides project additions and overrides that keep a path's shape, since it drops global paths the project also lists. An override that turns a nested group into a leaf, or a leaf into a group, changes its "Global scripts" section: with global `{"scripts": {"ex": {"a": {"p": "1"}}}, "vars": {}}` and project `{"scripts": {"ex": {"a": "z"}}, "vars": {}}`, the global path `ex.a.p` is missing | Config.GlobalViewLeaksLocalScript | Config.LoadConfig |
