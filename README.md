# able-workflow-rule-copier, modelled in Dafny

This project models the small decision and list-processing routines of the
able-workflow rule template repository. Every external tool is an input value:

- **Copier**, reached through pytest-copie, is a function from a copy
  request (template, test directory, parent result, answers) to the
  result it reports (exception, exit code, project directory).
- **tox** is a function from a command and a working directory to an
  outcome: it ran with some output, it failed with a return code, or it
  was not found.
- **Reading `pyproject.toml`** is a function from a path to what reading it
  gives: missing, vanished, invalid, or a parsed document.
- **YAML answer files** are already-parsed values.
- **The directory listing of `example-answers/`** is a sequence of entries.
- **The file system's answers** (does the file exist? what is its text?) and
  **the hook's environment** (is the CLI on PATH? what return codes come
  back?) are plain parameters.

What the code does with these tools is an output. Each output is either an
ordered trace of renderings, steps or messages, or the new state of an
object it updates.

The modules, one per source file plus two shared ones:

- `Text`: the string helpers the sources rely on.
  - `str.strip` trims the ASCII characters that `str.isspace()` accepts: space, `'\t'`, `'\n'`, `'\r'`, `'\v'`, `'\f'` and the separators `'\x1c'`-`'\x1f'`.
  - `splitlines`, with and without `keepends`, on `'\n'`.
  - splitting on a character, and joining.
- `Copier`: the shared pieces.
  - YAML values and `yaml.load(...) or {}`.
  - The rendering result and request.
  - `_make_copier_config`.
- `AppendSmkInclude`: the `append_smk_include.py` task. The file's line list is edited by a loop that pops trailing blank lines.
- `Pyproject2CondaHook`: the pre-commit hook. It is a method that returns an exit code and the ordered trace of what it asks of its environment.
- `ToxEnvs`: three parts.
  - `tool.tox.env_list` lookup.
  - `tox -qq -l` parsing and the fallback chain.
  - The `env_matrix` cache: a class whose map is updated in place.
- `SandboxGenerate`: the `generate` command.
  - Example selection.
  - The two-stage package → rule pipeline over the selected examples.
  - The messages it prints.
- `TemplateConftest`: example discovery and the `rendered` fixture.
- `ToxMatrix`: `pytest_generate_tests`. The cache object lives on pytest's config object and is shared across calls, so it is modelled with classes, because aliasing matters there. The hook builds the `(variant_id, env_name)` pairs and their ids with loops.

Where the documentation and the code disagree, the model follows the code:

- The task's docstring (`tasks/append_smk_include.py:3-4`) and comment
  (`:38`) say one final blank line is kept. The code collects the trailing
  blank lines and never writes them back, so the written file ends with
  the include line.
- The unit test of the sandbox generator expects an `example-` prefix on
  the output directories and a flatten step. `generate_cmd` has neither:
  output goes to `sandbox/<name>/package_run` and `sandbox/<name>/rule_run`.

## Model

| member | source | states |
|---|---|---|
| Text.Strip | tasks/append_smk_include.py:30 | the result is a slice `s[i..j]` of the input with only whitespace before `i` and after `j`, and it neither starts nor ends with whitespace, so it is the input with its outer whitespace cut away. It is empty exactly when the input is all whitespace |
| Text.TrimLeftBlank | tasks/append_smk_include.py:30 | what `lstrip` removes is whitespace |
| Text.TrimRightBlank | tasks/append_smk_include.py:30 | what `rstrip` removes is whitespace |
| Text.StripStripped | tasks/append_smk_include.py:30 | stripping an already stripped string gives it back |
| Text.SplitLinesKeep | tasks/append_smk_include.py:27 | `splitlines(keepends=True)`: the lines concatenate back to the text. Each line is non-empty and holds `'\n'` at most as its last character. Every line but the last ends with `'\n'` |
| Text.LinePartitionUnique | tasks/append_smk_include.py:27 | a text has only one such cutting into lines |
| Text.SplitLines | tests/template/tox/conftest.py:111 | `splitlines()`: as many lines as with `keepends`, each being the kept line with its final `'\n'` removed, and none holding `'\n'` |
| Text.SplitLinesUnlines | tests/template/tox/conftest.py:111 | splitting names printed one per line gives back the names |
| Text.SplitOn | hooks/pyproject2conda.py:27 | splitting on a character gives at least one part, and no part holds the character |
| Text.SplitOnJoin | hooks/pyproject2conda.py:27 | splitting `a + sep + b` gives the parts of `a` followed by the parts of `b` |
| AppendSmkInclude.ExitStatus | tasks/append_smk_include.py:16-23 | an outcome has status 0 exactly when it is not a `sys.exit` with a message |
| AppendSmkInclude.IncludeLine | tasks/append_smk_include.py:25 | definition: `include: "<name>"` and a `'\n'` terminator. `IncludeLineIsLine` shows it is one terminated line when the name holds no newline |
| AppendSmkInclude.AlreadyIncluded | tasks/append_smk_include.py:29-31 | definition: some line of the file, stripped, equals the stripped include line. `RunAppendTask` leaves the file unchanged exactly then |
| AppendSmkInclude.DropTrailingBlank | tasks/append_smk_include.py:33-36 | the result is a prefix of the lines, it does not end with a blank line, and every line removed is blank |
| AppendSmkInclude.Appended | tasks/append_smk_include.py:33-40 | definition of the text the task writes: the kept lines joined, followed by the include line. `AppendedLines` gives its lines |
| AppendSmkInclude.PopTrailingBlank | tasks/append_smk_include.py:34-36 | the pop loop leaves exactly the kept lines, and it collects the popped lines last line first, each one a line of the original |
| AppendSmkInclude.RunAppendTask | tasks/append_smk_include.py:15-40 | anything but one argument exits with the usage message. A missing target exits with the not-found message. The file is left unchanged exactly when some stripped line equals the stripped include line. Otherwise the file is rewritten as the lines before the trailing blank run followed by `include: "<name>"\n` |
| AppendSmkInclude.KeptIsPartition | tasks/append_smk_include.py:27-36 | the kept lines are, in order, the lines of the text they concatenate to |
| AppendSmkInclude.AppendedLines | tasks/append_smk_include.py:34-40 | the written file's lines are the kept lines followed by the include line. If the last kept line has no terminator, the include is glued onto it. In both cases the include ends the file, with no blank line after it |
| AppendSmkInclude.SecondRunFindsInclude | tasks/append_smk_include.py:30-40 | when the kept lines end on a line boundary, a second run with the same name finds the include and leaves the file unchanged |
| AppendSmkInclude.GluedIncludeIsAppendedAgain | tasks/append_smk_include.py:27-40 | take a one-line file without a final newline whose line is stripped. Unless the line is the include itself, the first run finds no include and writes, gluing the include onto that line. The second run does not recognise the glued line and appends the include again |
| AppendSmkInclude.FirstRunWrites | tasks/append_smk_include.py:27-31 | a one-line file whose stripped line is not the include line does not hold the include, so the first run writes |
| AppendSmkInclude.GluedLine | tasks/append_smk_include.py:27-40 | for a one-line file without a final newline, the text written is one single line, and its strip differs from the stripped include line |
| AppendSmkInclude.OwnLineAppendIsIdempotent | tasks/append_smk_include.py:38-40 | with the include written on a line of its own, the file ends with the include line and a second run always leaves it unchanged |
| AppendSmkInclude.OwnLineOnBoundary | tasks/append_smk_include.py:34-40 | when the kept lines end on a line boundary, the lines of the corrected text are the kept lines followed by the include line |
| AppendSmkInclude.OwnLineTerminated | tasks/append_smk_include.py:34-40 | when the last kept line has no final newline, the corrected text gives that line its newline and puts the include line after it |
| AppendSmkInclude.AppendedOnOwnLine | tasks/append_smk_include.py:38-40 | the corrected text: as `Appended`, with a `'\n'` inserted first when the last kept line lacks one. `OwnLineAppendIsIdempotent` proves it idempotent |
| Pyproject2CondaHook.NamedParts | hooks/pyproject2conda.py:27 | a part is kept exactly when it is a part other than `""` and `"."`, and there are no more kept parts than parts |
| Pyproject2CondaHook.NamedPartsAppend | hooks/pyproject2conda.py:27 | collapsing keeps order: the kept parts of two runs of parts are those of the first followed by those of the second, so with the clauses above the kept parts are exactly the parts other than `""` and `"."`, in order |
| Pyproject2CondaHook.PathName | hooks/pyproject2conda.py:27 | `Path(p).name` holds no `/` and is never `"."` |
| Pyproject2CondaHook.PathNameOfName | hooks/pyproject2conda.py:27 | a plain file name is its own name |
| Pyproject2CondaHook.PathNameUnder | hooks/pyproject2conda.py:27 | a file name under any directory has that file name as its name |
| Pyproject2CondaHook.TriggerExamples | hooks/pyproject2conda.py:27 | `<dir>/pyproject.toml` triggers the hook; `pyproject.toml.bak` does not |
| Pyproject2CondaHook.StagesPyproject | hooks/pyproject2conda.py:27 | definition: some staged path has `pyproject.toml` as its `Path.name`. `TriggerExamples` shows what does and does not trigger |
| Pyproject2CondaHook.Regenerate | hooks/pyproject2conda.py:30-51 | the whole trace of each branch. No CLI: exit 1 after only the PATH lookup. A failed generation: the lookup and one generator run, and its return code returned unchanged. Success: the lookup, the generator run, the existence check, then `git add` exactly when the environment file exists, and exit 0 whatever `git add` returns |
| Pyproject2CondaHook.Argv | hooks/pyproject2conda.py:38-48 | definition of the two command lines: `pyproject2conda project --envs dev` and `git add environment-py312-dev.yaml` |
| Pyproject2CondaHook.Hook | hooks/pyproject2conda.py:22-51 | no staged `pyproject.toml`: exit 0 and no steps. Otherwise the whole trace of each branch as for `Regenerate`: exit 1 after only the PATH lookup without the CLI; the lookup and exactly one generator run, with its return code, when generation fails; on success the existence check follows and `git add` runs exactly when the environment file exists, with exit 0 |
| Copier.LoadAnswers | tests/template/conftest.py:114-115 | a truthy document is kept; an empty, null or otherwise falsy one becomes `{}`; the result is never null |
| Copier.Failed | scripts/sandbox_examples_generate.py:191 | definition: a render result failed when it carries an exception or a non-zero exit code, the test used at every stage |
| Copier.LoadAnswersIdempotent | tests/template/conftest.py:114-115 | loading loaded answers changes nothing |
| Copier.MakeCopierConfig | scripts/sandbox_examples_generate.py:45-64 | the config maps exactly `copier_dir` to `work_root/copier` and `replay_dir` to `work_root/copier_replay`. Those two directories are created. The file is written at `work_root/config`, a path distinct from both |
| ToxEnvs.StringsOf | tests/template/tox/conftest.py:60 | an array converts to its strings exactly when every item is a string, and converting back gives the array |
| ToxEnvs.EnvListFromConfig | tests/template/tox/conftest.py:52-66 | a missing, vanished or invalid file gives `[]`. A document gives `[]` whenever no level present is a non-table and `tool.tox.env_list` is absent at some level or falsy. A declared array of strings is returned as declared, and a non-empty result is always the declared list. It raises for `tool` exactly when `tool` is present and not a table, and for `tox` exactly when `tool.tox` is present under a table and is not one. It reports a non-string list exactly when a truthy `env_list` is not an array of strings. No other error occurs |
| ToxEnvs.ToxListCommand | tests/template/tox/conftest.py:79-81 | the command is `tox -qq -l` followed by the extra arguments in order |
| ToxEnvs.StrippedNonBlank | tests/template/tox/conftest.py:111 | every result is non-empty and stripped, and there are no more results than lines. Together with `StrippedNonBlankAppend` and `StrippedNonBlankLine`, this fixes the result as the stripped non-blank lines in input order, repeats included |
| ToxEnvs.StrippedNonBlankAppend | tests/template/tox/conftest.py:111 | filtering distributes over concatenation, so the order and the repeats of the lines are kept |
| ToxEnvs.StrippedNonBlankLine | tests/template/tox/conftest.py:111 | one line gives nothing when it is blank and its strip otherwise |
| ToxEnvs.StrippedNonBlankHead | tests/template/tox/conftest.py:111 | the first line's contribution comes before the rest's |
| ToxEnvs.KeptLine | tests/template/tox/conftest.py:111 | one line contributes at most one name, which is non-empty and stripped |
| ToxEnvs.StrippedNonBlankFrom | tests/template/tox/conftest.py:111 | every result is the strip of some input line |
| ToxEnvs.StrippedNonBlankKeeps | tests/template/tox/conftest.py:111 | every line that is not blank contributes its strip |
| ToxEnvs.ParseToxOutput | tests/template/tox/conftest.py:111 | the parsed environments are non-empty, stripped names. They are `StrippedNonBlank` of the lines, so they come in output order |
| ToxEnvs.StrippedNonBlankOfNames | tests/template/tox/conftest.py:111 | names that are already stripped and non-empty pass through unchanged and in order |
| ToxEnvs.ParseListing | tests/template/tox/conftest.py:111 | parsing names printed one per line gives the names back |
| ToxEnvs.ListToxEnvs | tests/template/tox/conftest.py:69-122 | a success is never empty. A missing `tox` always raises. Non-empty output is the answer. Empty output falls back to the config list, then to `["NOTSET"]`. A failed run falls back to a non-empty config list and otherwise re-raises. A declared non-empty `env_list` always gives a result unless `tox` is missing |
| ToxEnvs.EnvMatrix.constructor | tests/template/tox/conftest.py:133 | the cache starts empty |
| ToxEnvs.EnvMatrix.Get | tests/template/tox/conftest.py:126-137 | a cached variant is not recomputed and the cache does not change. An uncached variant is discovered once and added. A discovery that raises leaves the cache as it was. Existing entries are never altered, and every cached list is non-empty |
| SandboxGenerate.NewExample | scripts/sandbox_examples_generate.py:100-103 | after `__post_init__` both answer fields are set and non-null, and equal the loaded document when that is truthy |
| SandboxGenerate.Registry | scripts/sandbox_examples_generate.py:109-115 | one registered example, `example-answers-able`, with both answers loaded |
| SandboxGenerate.Lookup | scripts/sandbox_examples_generate.py:156 | absent exactly when no registered example has the name. Otherwise it is the last registration with that name |
| SandboxGenerate.MissingNames | scripts/sandbox_examples_generate.py:157 | a name is listed exactly when it was requested and is not registered. `MissingNamesAppend` and `MissingNamesOne` fix argument order and repeats |
| SandboxGenerate.MissingNamesAppend | scripts/sandbox_examples_generate.py:157 | the report for two runs of arguments is the first run's report followed by the second's, so argument order and repeats are kept |
| SandboxGenerate.MissingNamesOne | scripts/sandbox_examples_generate.py:157 | a single name is reported exactly when it is not registered |
| SandboxGenerate.Select | scripts/sandbox_examples_generate.py:152-161 | no names selects every registered example. An error is reported exactly when some name is unknown, and it lists the missing names in argument order. Otherwise the result follows the arguments index for index, duplicates included. Each entry is the `Lookup` of its name, the last registration with that name |
| SandboxGenerate.ExampleRun | scripts/sandbox_examples_generate.py:164-225 | one message per example, naming that example. The package stage is requested first, with its full request. The rule stage runs only after a package stage that did not fail, and its request is fixed in full: the rule template, `sandbox/<name>/rule_run`, the package result as parent and the rule answers. A skip names the package stage exactly when there are no package answers. A stage failure is reported exactly when the last stage run failed. It names the package stage exactly when only that stage ran, and it carries that stage's exception. "Finished" is printed exactly when the rule stage succeeded, with its project directory |
| SandboxGenerate.PackageRequest | scripts/sandbox_examples_generate.py:175-189 | definition of the package-stage request: the package template, `sandbox/<name>/package_run`, no parent and the package answers |
| SandboxGenerate.RuleRequest | scripts/sandbox_examples_generate.py:199-213 | definition of the rule-stage request: the rule template, `sandbox/<name>/rule_run`, the package result as parent and the rule answers |
| SandboxGenerate.RunAll | scripts/sandbox_examples_generate.py:164-225 | one message per selected example |
| SandboxGenerate.WorkOn | scripts/sandbox_examples_generate.py:165-219 | one pass of the render loop produces exactly the renderings and message of `ExampleRun` |
| SandboxGenerate.Generate | scripts/sandbox_examples_generate.py:133-227 | an unknown name gives exit 1 with the unknown-names message and no renderings. Otherwise every selected example is worked on in order, whatever happened to earlier ones, and the command ends with "All done." and exit 0 |
| SandboxGenerate.RunAllStep | scripts/sandbox_examples_generate.py:164 | the run over one more example is the earlier run followed by that example's work |
| SandboxGenerate.EveryExampleAttempted | scripts/sandbox_examples_generate.py:164-189 | the package stage of every selected example is requested |
| SandboxGenerate.RuleFollowsPackage | scripts/sandbox_examples_generate.py:189-213 | every rule rendering directly follows a package rendering of the same example that did not fail, and receives its result unchanged as parent |
| SandboxGenerate.RegisteredNeverSkipped | scripts/sandbox_examples_generate.py:183-212 | examples from the registry are never skipped for missing answers: the `None` branches are unreachable |
| SandboxGenerate.RunAllMessages | scripts/sandbox_examples_generate.py:164-225 | the k-th message is the message of the k-th selected example |
| SandboxGenerate.RunAllStreams | scripts/sandbox_examples_generate.py:159-227 | the k-th message goes to stdout exactly when the k-th example's rule stage ran and did not fail; every skip and failure goes to stderr |
| SandboxGenerate.StreamOf | scripts/sandbox_examples_generate.py:159-227 | definition: "Finished" and "All done." are echoed to stdout, every other message with `err=True` |
| SandboxGenerate.TextOf | scripts/sandbox_examples_generate.py:159-227 | definition: the exact text of each message, for the unknown names, the two skips, the two failures, "Finished" and "All done." |
| TemplateConftest.ExampleOf | tests/template/conftest.py:126-131 | the example is named after its directory, and its answers are the loaded answer files |
| TemplateConftest.ExamplesIn | tests/template/conftest.py:118-132 | there are no more examples than entries |
| TemplateConftest.ExamplesInMembers | tests/template/conftest.py:120-131 | an example is discovered exactly when some directory holding both answer files describes it |
| TemplateConftest.ExamplesInAppend | tests/template/conftest.py:120-132 | discovery keeps listing order |
| TemplateConftest.NonExampleIgnored | tests/template/conftest.py:121-125 | plain files, and directories missing either answer file, add nothing |
| TemplateConftest.DiscoverExamples | tests/template/conftest.py:118-138 | the result is the discovered examples, in order and non-empty. The `RuntimeError` message is raised exactly when there are none |
| TemplateConftest.Rendered | tests/template/conftest.py:152-204 | the package stage comes first, in `<tmp>/package`. A failed package stage fails with its message before any rule stage. Otherwise the rule stage runs in `<tmp>/rule` with the package result as parent. A failed rule stage fails with its message. Success returns exactly `(rule project_dir, example name)` |
| ToxMatrix.CollectCache.constructor | tests/template/tox/test_tox_envs.py:86-88 | a new cache is empty |
| ToxMatrix.PytestConfig.constructor | tests/template/tox/test_tox_envs.py:86-88 | the config starts without a cache attribute |
| ToxMatrix.Requested | tests/template/tox/test_tox_envs.py:80 | definition: the test requests both `variant_id` and `env_name`. `GenerateTests` does nothing otherwise |
| ToxMatrix.Visit | tests/template/tox/test_tox_envs.py:90-119 | one collection step. A cached variant changes nothing. An uncached one requests the package rendering, then the rule rendering with the package result as parent, both with their full requests. It raises exactly when `_list_tox_envs` of the rule project raises, with that exception and the cache unchanged. Otherwise it caches the rule project and its environments under the variant's name, and nothing else changes |
| ToxMatrix.PackageRequest | tests/template/tox/test_tox_envs.py:98-105 | definition: the package template rendered into `<tmp>/pkg` with the package answers |
| ToxMatrix.RuleRequest | tests/template/tox/test_tox_envs.py:107-115 | definition: the rule template rendered into `<tmp>/rule` with the package result as parent and the rule answers |
| ToxMatrix.Discover | tests/template/tox/test_tox_envs.py:117-118 | definition: `_list_tox_envs` of the rule rendering's project directory |
| ToxMatrix.CollectAll | tests/template/tox/test_tox_envs.py:90-119 | entries cached at the start are kept unchanged, and when nothing raises every example ends up cached. `CollectAllDiscovers` and `CollectAllRaises` state what is cached and when it raises |
| ToxMatrix.CollectAllDiscovers | tests/template/tox/test_tox_envs.py:90-119 | every entry collection adds is, for some example of that name, its rule project and the environments `_list_tox_envs` found there |
| ToxMatrix.CollectAllRaises | tests/template/tox/test_tox_envs.py:90-119 | when collection raises, the exception is the one discovery raised for an example that stays uncached |
| ToxMatrix.PairsFor | tests/template/tox/test_tox_envs.py:126-128 | one pair per environment of the variant, in environment order |
| ToxMatrix.Pairs | tests/template/tox/test_tox_envs.py:121-128 | definition of the parametrisation pairs over all examples in order. `PairsMembers` and `PairsFrame` state its properties |
| ToxMatrix.Ids | tests/template/tox/test_tox_envs.py:128 | the ids align index for index with the pairs |
| ToxMatrix.Id | tests/template/tox/test_tox_envs.py:128 | definition: `"<variant_id>:<env_name>"`. `IdDeterminesPair` shows the id determines its pair |
| ToxMatrix.IdDeterminesPair | tests/template/tox/test_tox_envs.py:128 | for variant ids without `:`, different pairs have different ids |
| ToxMatrix.PairsFrame | tests/template/tox/test_tox_envs.py:121-128 | the pairs depend only on the cache entries of the examples |
| ToxMatrix.PairsMembers | tests/template/tox/test_tox_envs.py:121-128 | a pair is produced exactly when its variant is an example and its environment is one of that variant's cached environments, so a variant with no environments contributes nothing |
| ToxMatrix.RenderedAtMostOnce | tests/template/tox/test_tox_envs.py:92-119 | renderings come in package/rule couples, one couple per variant at most, never for a variant cached at the start. Each rule rendering has its couple's package result as parent, with no failure check between them |
| ToxMatrix.VisitRenders | tests/template/tox/test_tox_envs.py:92-115 | one uncached variant adds one such couple |
| ToxMatrix.CollectAllStops | tests/template/tox/test_tox_envs.py:118 | once discovery raises, later examples change nothing |
| ToxMatrix.VisitCache | tests/template/tox/test_tox_envs.py:92-119 | one pass of the collection step updates the cache object and the renderings as the specification of one visit says |
| ToxMatrix.AddPairs | tests/template/tox/test_tox_envs.py:126-128 | the inner loop appends the variant's pairs in order, with ids kept aligned |
| ToxMatrix.CollectPairs | tests/template/tox/test_tox_envs.py:86-128 | the loop over the examples renders, caches and raises exactly as collection over all examples specifies. When nothing raises, it yields the pairs of all examples in example order, with their ids aligned |
| ToxMatrix.GenerateTests | tests/template/tox/test_tox_envs.py:71-136 | a test that does not request both arguments is not parametrised and nothing is rendered. Otherwise only uncached variants are rendered. A cache object already on the config is reused. When nothing raises, the test is parametrised with the pairs of all examples in example order and their ids, and the cache is stored on the config. When discovery raises, the attribute is not set |

## Left out

- Running Copier, tox and git, and reading or writing files: their outcomes are parameters of the model.
  - The config file path passed to `Copie` is not part of a copy request, because its directory comes from `tempfile.mkdtemp`, which is modelled as a function of the example name.
  - `Path.resolve` is not modelled.
- YAML and TOML parsing: documents are already-parsed values. Floats, dates and tags are not modelled. A `package.yml` that is itself a directory, and a parse error, are not modelled.
- Text handling: `splitlines` recognises only `'\n'`. `strip` trims only the ten ASCII whitespace characters. The non-ASCII whitespace that Python also strips is not modelled: `'\x85'`, `'\xa0'` and the Unicode space and separator characters.
- Newline translation: `Path.read_text` reads in universal-newline mode, so `"\r\n"` and `"\r"` arrive as `'\n'`, and `write_text` writes `'\n'` on POSIX. The text given to `AppendSmkInclude.RunAppendTask` is the text after that translation.
- ToxEnvs.EnvMatrix.Get: returns the cached list as a value. The source returns the list object held in `_cache`, which callers could alias, but none of them mutates it.
- SandboxGenerate.TextOf: a reference definition of the message texts only. The stdout/stderr split is stated by `SandboxGenerate.RunAllStreams` on `StreamOf`.
- Directory creation and removal (`mkdir`, `shutil.rmtree`, the `sandbox` root): these are file-system effects with no bearing on the decisions modelled.
- Output and logging:
  - logging through loguru;
  - the typer CLI wiring, the green colour of the "Finished" message, and the help text;
  - the stdout/stderr swapping in `_run_copie_with_output_control`.
- `_bootstrap_git_repo` and `test_inner_tox_env_passes`: they run git and tox on a rendered project and check the return code. That is external work with no logic of its own.
- The `rendered` fixture's pytest parametrisation over `EXAMPLES`: the model gives the fixture one example.
- The clone of the package template repository made at import time: the template directories are parameters.
- ToxEnvs.EnvListFromConfig: an `env_list` that is truthy but not an array of strings (a string, say) becomes the error `EnvListNotStrings`. The source returns the raw value, and its callers would then iterate over it.
- AppendSmkInclude.AppendedLines: stated only for an include name without `'\n'`, because a name with a newline makes the include line several lines.
- AppendSmkInclude.SecondRunFindsInclude: stated only for names without `'\n'`, and only when the kept lines end on a line boundary. The other case is the finding below.
- ToxMatrix.IdDeterminesPair: stated only for variant ids without `:`, because otherwise two pairs can share an id.

## Findings

| source | as written | input that shows it | evidently intended | confidence | as-written member | corrected member |
|---|---|---|---|---|---|---|
| tasks/append_smk_include.py:27-40 | the include line is appended to the line list, so a last line without a final `'\n'` gets the include glued onto it | `includes.smk` holding `x` with no final newline, name `y`. The first run writes `xinclude: "y"\n`. The second run finds no line equal to the include and writes `xinclude: "y"\ninclude: "y"\n` | the include goes on a line of its own, so running the task twice gives the same file as running it once | high, not executed | AppendSmkInclude.GluedIncludeIsAppendedAgain | AppendSmkInclude.OwnLineAppendIsIdempotent |

`AppendSmkInclude.AppendedOnOwnLine` is the corrected text: it terminates an unterminated last line before appending.
