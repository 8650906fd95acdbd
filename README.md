# py-project reconciliation engine, modelled in Dafny

py-project keeps many Python repositories in line with a shared set of
templates. A YAML configuration lists the managed projects. For each
project, the engine works out which configuration types apply. Examples
are `pre-commit`, `ruff`, `gitignore`, `pyproject`, `my-py-lib` and
`gitlab-ci`. Each type has a handler. The handler either reports what
would change (dry run, `diff`) or rewrites the project's file (`apply`).
Backups are optional. A per-run summary counts created, updated,
unchanged, skipped and failed files.

This project models that core in Dafny and proves properties of the
model:

- **HandlerBase** (`base.dfy`): handler statuses and results, path
  helpers, and the `.bak` backup. The file system is a class whose `files`
  map the handlers' methods update.
- **ProjectConfig** (`config.dfy`): the configuration dataclasses and
  their `from_dict` constructors, read from a raw YAML-like value.
- **Toml** (`toml.dfy`): a TOML document tree with the handler's dotted
  `get`, `set` and `delete` helpers.
- **Pyproject**, **PyprojectMerge**, **PyprojectIdempotence**: the
  `pyproject.toml` section merge, the TOML normaliser, and the pyproject
  handler. The main result is that merging twice equals merging once.
- **TemplateCopy** and **LegacyTemplateCopy**: the template-copy handlers
  of the current tree and of the older `src/handlers` tree.
- **MyPyLib** and **MyPyLibPattern**: the `my-lib @ git+…my-py-lib@<hash>`
  regular expression (search and substitute, written out by hand), the
  `git ls-remote` output parser, and the commit-pin handler.
- **GitlabCi**: the line-preserving `.gitlab-ci.yml` editor.
- **DepUpdater**: parsing, normalising and rewriting `pkg>=version`
  dependency lists.
- **Applier** and **LegacyApplier**: the orchestrators, which run every
  handler over every selected project and keep the summary. The legacy
  tree is `src/applier.py`.
- **StrList**, **PyStr**, **Assoc**, **Wrappers**: Python's
  append-if-absent loop, string built-ins, ordered dicts, and `Option`.

Each handler's decision tree is a pure function of the file map, named
`…Outcome`. The handler's `Apply` method on the `FileSystem` class is
proved to follow that function. Lemmas about the outcome functions carry
the handler properties: dry runs write nothing, backups copy the old
content, and a second apply reports `unchanged`. Loops in the source
are methods with loop invariants, proved equal to a specification
function. Examples are the config merge in
`get_project_configs`, the tool-section merge, `_check_and_update_deps`,
`_apply_edits`, and the orchestrator loops.

Calls into code outside the model are function-typed parameters:

- Jinja rendering;
- `tomlkit.parse` and `tomlkit.dumps`;
- the yamlpath line resolver;
- the format validators;
- unified-diff generation;
- the `git ls-remote` output;
- PyPI's latest version;
- project-directory existence;
- in the orchestrators, the handler results.

The model follows the code in these points:

- `get_project_configs` does not deduplicate `defaults.configs`. It
  removes one occurrence per `exclude_configs` entry.
- When the current file has no `[project]` table, the merge copies the
  template's `[project]` table wholesale, identity fields included.
- The `Project` dataclass in `src/py_project/config.py` does not declare
  the `exclude_configs`, `gitignore`, `dockerignore` and `license`
  fields, though `applier.py` and `handlers/template_copy.py` read them.
  The model adds them with the defaults those readers imply:
  - no exclusions;
  - no extra lines;
  - licence `Apache-2.0`, the class-level `template_file`.

  Reading these keys in `Project.from_dict` (`config.dfy`,
  `ProjectFromDict`) follows `tests/unit/test_config.py:136-176`, which
  expects `exclude_configs` and `gitignore` to be read. `config.py:148-164`
  as written does not read them.
- `ApplyOptions` in `config.py:23-27` has no `git_commit` field, while
  `tests/unit/test_config.py:270-297` constructs and reads one. The model's
  `ApplyOptions.gitCommit` (default false) follows the tests.

## Model

| member | source | states |
|---|---|---|
| HandlerBase.StatusFromName | src/py_project/handlers/base.py:19-24 | the status parsed from a name prints back as that name; it is `Other` exactly when the name is none of created/updated/unchanged/skipped/error |
| HandlerBase.StatusNameRoundTrip | src/py_project/handlers/base.py:19-24 | every known status survives printing and re-parsing |
| HandlerBase.FileNameOfJoin | src/py_project/handlers/base.py:46-48 | joining a directory and a slash-free file name and taking the last path part gives back the file name |
| HandlerBase.LastFieldAfterSep | src/py_project/handlers/base.py:46-48 | a path ending in `/` has an empty last part |
| HandlerBase.BackupIsSibling | src/py_project/handlers/base.py:55 | the backup path lies in the same directory as the file, is named after the file plus `.bak`, and never equals the file |
| HandlerBase.Backup | src/py_project/handlers/base.py:50-57 | a missing file gives no backup and leaves the file map unchanged; otherwise the backup path is added holding a copy of the file, and the file and every other file keep their content |
| HandlerBase.FileSystem.Write | src/py_project/handlers/template_copy.py:119 | `write_text` replaces one file's content and nothing else |
| HandlerBase.FileSystem.CreateBackup | src/py_project/handlers/base.py:50-57 | the returned path and new file map are those of `Backup` on the old map |
| ProjectConfig.Config.GetProject | src/py_project/config.py:186-191 | None exactly when no project has the name; otherwise the first project with that name |
| ProjectConfig.FirstNamed | src/py_project/config.py:188-191 | the first project at or after `from` with the name, None exactly when there is none |
| ProjectConfig.Config.GetProjectNames | src/py_project/config.py:193-195 | the names of the projects, in order, one per project |
| ProjectConfig.GetProjectListed | src/py_project/config.py:186-195 | a project can be looked up by a name exactly when the name is among the project names |
| ProjectConfig.AsStrList | src/py_project/config.py:84-85 | a list converts exactly when every item is a string, item by item |
| ProjectConfig.AsStrTable | src/py_project/config.py:115 | a converted dictionary keeps every key in order and each value is a string |
| ProjectConfig.GitlabCiEditFromDict | src/py_project/config.py:44-46 | an edit is built exactly when `path` and `value` are strings, and it carries those two strings |
| ProjectConfig.MapAll | src/py_project/config.py:63 | a list comprehension succeeds exactly when every item converts, keeping order and length |
| ProjectConfig.GitlabCiOptionsFromDict | src/py_project/config.py:61-64 | no `edits` key gives an empty edit list; otherwise one converted edit per item, in order |
| ProjectConfig.PyprojectOptionsFromDict | src/py_project/config.py:81-86 | missing keys default to empty lists; present keys are taken as given |
| ProjectConfig.IgnoreOptionsFromDict | src/py_project/handlers/template_copy.py:182-183 | no `extra_lines` key means no extra lines |
| ProjectConfig.LicenseOptionsFromDict | src/py_project/handlers/template_copy.py:225-239 | no `type` key means the `Apache-2.0` licence |
| ProjectConfig.Section | src/py_project/config.py:110-111 | an absent sub-section gives no options; a present one is parsed |
| ProjectConfig.DefaultsFromDict | src/py_project/config.py:107-117 | python version defaults to 3.12, configs and vars to empty, gitlab_ci is present exactly when its key is, and an empty dict gives the default `Defaults` |
| ProjectConfig.ConfigsField | src/py_project/config.py:159 | an absent `configs` key is None, which is distinct from an empty list |
| ProjectConfig.ProjectFromDictSpec | src/py_project/config.py:148-164 | name and path are required and taken verbatim; every optional field takes its documented default when its key is absent; option sections are present exactly when their keys are |
| ProjectConfig.ConfigFromDict | src/py_project/config.py:198-208 | absent defaults, template_dir and projects take their defaults (`./templates`, no projects); one project per list item; an empty dict gives the default config |
| Toml.LookupWF | src/py_project/handlers/pyproject.py:57-66 | a value found in a well-formed table is itself well formed |
| Toml.ValueContains | src/py_project/handlers/pyproject.py:89 | Python's `in` on a TOML value answers for tables, arrays and strings and raises exactly on a number or boolean |
| Toml.Iterated | src/py_project/handlers/pyproject.py:125 | iterating a TOML value yields a table's keys, and raises exactly on a number or boolean |
| Toml.DeleteKeys | src/py_project/handlers/pyproject.py:80-92 | a delete that returns without raising and reports failure leaves the document unchanged |
| Toml.GetKeysAppend | src/py_project/handlers/pyproject.py:57-66 | following a key path `a + b` is following `a` and then `b` |
| Toml.GetAfterSet | src/py_project/handlers/pyproject.py:57-78 | after a successful `set_nested_value`, `get_nested_value` on the same path returns the value set |
| Toml.SetSucceeds | src/py_project/handlers/pyproject.py:68-78 | setting succeeds exactly when every proper prefix of the path is absent or a table |
| Toml.SetFresh | src/py_project/handlers/pyproject.py:74-78 | setting into an empty document always succeeds, creating the intermediate tables |
| Toml.SetKeepsOthers | src/py_project/handlers/pyproject.py:68-78 | setting a path leaves every path that is neither its prefix nor its extension unchanged |
| Toml.DeleteIffPresent | src/py_project/handlers/pyproject.py:80-92 | `delete_nested_key` returns (without raising) true exactly when the path exists |
| Toml.DeleteRaises | src/py_project/handlers/pyproject.py:80-92 | `delete_nested_key` raises exactly when the path's parent is a string, array, number or boolean on which `in` on the last key raises or answers true |
| Toml.GetAfterDelete | src/py_project/handlers/pyproject.py:80-92 | after a successful delete the path no longer resolves |
| TemplateCopy.KindOfName | src/py_project/handlers/__init__.py:10-18 | a recognised template-copy name maps to the kind that prints as that name |
| TemplateCopy.NameRoundTrip | src/py_project/handlers/template_copy.py:127-226 | every template-copy kind is found again from its name |
| TemplateCopy.TemplatePathChoice | src/py_project/handlers/template_copy.py:27-35 | an override for the handler's own name wins; without one the path is `template_dir/subdir/file` (the licence type for `license`) and ends in that file |
| TemplateCopy.OtherOverrideIgnored | src/py_project/handlers/template_copy.py:32 | an override registered for a different handler does not change this handler's template |
| TemplateCopy.OutputIgnoresOverrides | src/py_project/handlers/template_copy.py:37-39 | the output path does not depend on template overrides and ends in the kind's output file |
| TemplateCopy.OutputFileHasNoSlash | src/py_project/handlers/template_copy.py:127-226 | every output file name is a single path part |
| TemplateCopy.AppendExtraLinesSpec | src/py_project/handlers/template_copy.py:177-187 | with extra lines, the content loses its trailing newlines, gains one newline, then the lines joined by newlines, then a final newline; the extra lines can be split back out; no extra lines leaves the content as is |
| TemplateCopy.DiffOutcome | src/py_project/handlers/template_copy.py:62-77 | a missing template or a missing output gives its message; otherwise the diff of current against rendered content |
| TemplateCopy.ApplyOutcome | src/py_project/handlers/template_copy.py:79-124 | missing template and failed validation are errors that write nothing; `unchanged` iff the output already holds the rendered text, `created` iff it is new; dry run or `unchanged` writes nothing; otherwise the rendered text is written, after a backup only when asked and the file existed |
| TemplateCopy.ApplyWrites | src/py_project/handlers/template_copy.py:114-119 | a real create or update leaves the rendered text at the output, the old content in the backup when one was taken, and, with no backup, every other file untouched |
| TemplateCopy.SecondApplyUnchanged | src/py_project/handlers/template_copy.py:102-107 | applying again after a successful apply reports `unchanged` and writes nothing |
| TemplateCopy.Apply | src/py_project/handlers/template_copy.py:79-124 | the method's result and new files are exactly `ApplyOutcome` of the old files |
| LegacyTemplateCopy.TemplatePathChoice | src/handlers/template_copy.py:27-34 | an override for the handler's name wins; otherwise `template_dir/name/file`, ending in that file |
| LegacyTemplateCopy.FileHasNoSlash | src/handlers/template_copy.py:121-175 | every legacy file name is a single path part |
| LegacyTemplateCopy.OutputIgnoresOverrides | src/handlers/template_copy.py:36-38 | the output path ignores overrides and ends in the kind's file |
| LegacyTemplateCopy.DiffOutcome | src/handlers/template_copy.py:61-86 | missing template or output gives its message; identical content gives None; otherwise the unified diff |
| LegacyTemplateCopy.ApplyOutcome | src/handlers/template_copy.py:88-118 | missing template is an error; `unchanged` iff identical, `created` iff new; dry run writes nothing; otherwise the rendered text is written, with the optional backup of an existing file |
| LegacyTemplateCopy.DiffNoneIffUnchanged | src/handlers/template_copy.py:61-118 | when the template exists, `diff` is None exactly when `apply` would report `unchanged` |
| LegacyTemplateCopy.ApplyWrites | src/handlers/template_copy.py:110-115 | a real create or update leaves the rendered text at the output and the old text in the backup |
| LegacyTemplateCopy.Apply | src/handlers/template_copy.py:88-118 | the method follows `ApplyOutcome` on the old files |
| MyPyLib.ParseCommitHash | src/py_project/handlers/my_py_lib.py:50-59 | a returned hash is the first whitespace-separated token of the output, 40 characters long; blank output gives None |
| MyPyLib.ParseLsRemoteLine | src/py_project/handlers/my_py_lib.py:49-59 | a `<hash>\tHEAD\n` line with a 40-character hash yields that hash |
| MyPyLib.SkipTokenOver | src/py_project/handlers/my_py_lib.py:50 | the token scanner stops at the first whitespace character |
| MyPyLib.ApplyOutcome | src/py_project/handlers/my_py_lib.py:104-158 | missing file and missing dependency are skips, a failed lookup is an error, an equal hash is `unchanged`; otherwise `updated` with the `old[:8] -> new[:8]` message, and only outside dry run the file is rewritten with the new pin (after the optional backup) |
| MyPyLib.DiffOutcome | src/py_project/handlers/my_py_lib.py:80-102 | messages for the missing file, missing dependency and failed lookup; None when the current and latest hashes are equal; otherwise what the diff generator gives for the current text against the rewrite (which may itself be None) |
| MyPyLib.SecondApplyUnchanged | src/py_project/handlers/my_py_lib.py:132-147 | after a real update to a hexadecimal hash, a second apply finds the new pin and reports `unchanged` |
| MyPyLib.Apply | src/py_project/handlers/my_py_lib.py:104-158 | the method follows `ApplyOutcome` on the old files |
| MyPyLibPattern.HexRun | src/py_project/handlers/my_py_lib.py:25 | the greedy `[a-f0-9]+` run ends at the first non-hex character |
| MyPyLibPattern.MatchAt | src/py_project/handlers/my_py_lib.py:25 | a match at `i` starts at `i`, covers at least the fixed text, and any captured hash is non-empty lowercase hex |
| MyPyLibPattern.HeadEnd | src/py_project/handlers/my_py_lib.py:25 | the fixed part `my-lib\s*@\s*git+https://github.com/kimata/my-py-lib`, when it occurs at `i`, ends inside the text |
| MyPyLibPattern.TailMatch | src/py_project/handlers/my_py_lib.py:25 | the optional `(?:@([a-f0-9]+))?` group captures non-empty hex and stays inside the text |
| MyPyLibPattern.TailMatchSpec | src/py_project/handlers/my_py_lib.py:25 | the optional group takes the longest hex run after `@`, or nothing when there is none, and no other ending meets that rule |
| MyPyLibPattern.MatchAtSound | src/py_project/handlers/my_py_lib.py:25 | every match found is a real occurrence of the pattern: letters, optional spaces, `@`, spaces, repository URL, greedy hash |
| MyPyLibPattern.HeadEndSound | src/py_project/handlers/my_py_lib.py:25 | a found fixed part really occurs with its whitespace runs |
| MyPyLibPattern.MatchAtComplete | src/py_project/handlers/my_py_lib.py:25 | every occurrence of the pattern at `i` is found, with that end and that hash |
| MyPyLibPattern.HeadMatches | src/py_project/handlers/my_py_lib.py:25 | an occurrence of the fixed part makes the matcher succeed at that position |
| MyPyLibPattern.HeadEndComplete | src/py_project/handlers/my_py_lib.py:25 | every occurrence of the fixed part is recognised |
| MyPyLibPattern.Search | src/py_project/handlers/my_py_lib.py:66 | `pattern.search` returns the leftmost match at or after `i`, and None exactly when no position matches |
| MyPyLibPattern.FindDependency | src/py_project/handlers/my_py_lib.py:64-73 | no match gives all-None fields; otherwise the leftmost match's start, end and hash |
| MyPyLibPattern.UpdateWithoutMatch | src/py_project/handlers/my_py_lib.py:75-78 | `sub` leaves content without the dependency unchanged |
| MyPyLibPattern.UpdateFirstMatch | src/py_project/handlers/my_py_lib.py:75-78 | the text up to the first match is kept, the match becomes the canonical `my-lib @ …@<hash>` pin, and substitution continues after it |
| MyPyLibPattern.SubAllFirst | src/py_project/handlers/my_py_lib.py:78 | the substituted remainder starts with the remainder's first character |
| MyPyLibPattern.CanonicalMatches | src/py_project/handlers/my_py_lib.py:77 | the canonical pin, followed by a non-hex character, matches the pattern with exactly the new hash |
| MyPyLibPattern.FindAfterUpdate | src/py_project/handlers/my_py_lib.py:64-78 | after `update_dependency` with a hex hash, the search finds that hash at the same start (the old match must not run into more hex digits) |
| MyPyLibPattern.UpdatedText | src/py_project/handlers/my_py_lib.py:75-78 | the rewritten text shares the prefix, holds the canonical pin at the old start, and continues with the character after the old match |
| MyPyLibPattern.NoEarlierMatch | src/py_project/handlers/my_py_lib.py:66 | rewriting after position `n` cannot create a match that starts before `n` |
| MyPyLibPattern.SearchFirst | src/py_project/handlers/my_py_lib.py:66 | with no match before `n` and a match at `n`, the search returns the match at `n` |
| Pyproject.LeadingNewlines | src/py_project/handlers/pyproject.py:32 | counts the run of newlines at the start of the text exactly |
| Pyproject.CollapseBlankLines | src/py_project/handlers/pyproject.py:32 | `re.sub(r"\n{3,}", "\n\n")` leaves no three newlines in a row and keeps a non-newline first character |
| Pyproject.CollapseFixpoint | src/py_project/handlers/pyproject.py:32 | text without three newlines in a row is left alone |
| Pyproject.NormalizeToml | src/py_project/handlers/pyproject.py:27-35 | the normalised text has no three newlines in a row and ends in exactly one newline with no whitespace before it |
| Pyproject.NormalizeIdempotent | src/py_project/handlers/pyproject.py:27-35 | normalising twice is normalising once |
| Pyproject.RStripLine | src/py_project/handlers/pyproject.py:34 | `rstrip` after appending a newline to text ending in non-space gives the text back |
| Pyproject.OutputNotTemplate | src/py_project/handlers/pyproject.py:45-51 | the project's `pyproject.toml` and its backup are never the template `pyproject/sections.toml` |
| Pyproject.GenerateMergedContent | src/py_project/handlers/pyproject.py:182-199 | None exactly when template or output is missing; raises exactly when the merge raises; otherwise the dump of the merged document |
| Pyproject.ApplyOutcome | src/py_project/handlers/pyproject.py:234-275 | missing template is an error and a missing output a skip, both writing nothing; raises only when the merge raises; a merge that yields nothing is the merge-failed error; `unchanged` with no file change exactly when the file equals the normalised merge; otherwise `updated`, writing the normalised merge (after the optional backup) outside dry run and nothing in dry run |
| Pyproject.DiffOutcome | src/py_project/handlers/pyproject.py:201-232 | the same messages as `apply` for missing files; raises exactly when the merge does; a merge that yields nothing is the merge-failed message; None when the file equals the normalised merge, otherwise the unified diff of the file against it; None exactly when `apply` would report `unchanged` |
| Pyproject.SecondApplyUnchanged | src/py_project/handlers/pyproject.py:234-275 | for a well-shaped template, a second apply reports `unchanged` and writes nothing (assuming re-parsing the written text gives the merged document back) |
| Pyproject.Apply | src/py_project/handlers/pyproject.py:234-275 | the method follows `ApplyOutcome`; when it raises, no file has changed |
| PyprojectMerge.OverlayLookup | src/py_project/handlers/pyproject.py:174-176 | after the overlay, a key takes the template's value unless it is preserved or absent from the template |
| PyprojectMerge.OverlayKeys | src/py_project/handlers/pyproject.py:174-176 | the overlay keeps every existing key and distinctness, and adds no key when the template brings none new |
| PyprojectMerge.SavedFields | src/py_project/handlers/pyproject.py:168-171 | every saved field is a preserved field holding the section's current value |
| PyprojectMerge.RestoreIsIdentity | src/py_project/handlers/pyproject.py:179-180 | writing the saved fields back changes nothing, since the overlay never touched them |
| PyprojectMerge.MergedTable | src/py_project/handlers/pyproject.py:168-180 | one section merge equals the overlay: template values for non-preserved keys, current values otherwise, no key lost |
| PyprojectMerge.SectionMergedSpec | src/py_project/handlers/pyproject.py:152-180 | absent in template: unchanged; absent in result: copied from the template; two tables: entry-wise overlay with preserved fields kept; a non-table side: raises exactly when a loop reads from or writes into it, and otherwise nothing changes; other sections untouched |
| PyprojectMerge.MergeSection | src/py_project/handlers/pyproject.py:152-180 | the loop-based method computes `SectionMerged` |
| PyprojectMerge.SaveFields | src/py_project/handlers/pyproject.py:168-172 | the save loop on a table section collects the preserve fields it has |
| PyprojectMerge.FieldsAbsent | src/py_project/handlers/pyproject.py:169-172 | the save loop on a non-table section gets through exactly when `in` answers false for every preserve field |
| PyprojectMerge.OnlyPreserved | src/py_project/handlers/pyproject.py:174-176 | the update loop with a non-table side gets through exactly when every key it meets is a preserve field |
| PyprojectMerge.UpdateAndRestore | src/py_project/handlers/pyproject.py:174-180 | the update and restore loops on two tables compute the overlay followed by the restore |
| PyprojectMerge.IsPreservedPath | src/py_project/handlers/pyproject.py:128 | a tool path is preserved exactly when it equals a preserved section or lies below one |
| PyprojectMerge.ToolStepLookup | src/py_project/handlers/pyproject.py:125-140 | one tool key's step changes only that key, to its merged or copied value |
| PyprojectMerge.ToolsMergedFromLookup | src/py_project/handlers/pyproject.py:125-140 | after the remaining tool keys, each template key holds its merged value and every other key is kept |
| PyprojectMerge.ToolsMergedFromSome | src/py_project/handlers/pyproject.py:125-140 | the tool loop succeeds exactly when every remaining key's merge succeeds |
| PyprojectMerge.ToolsMergedFails | src/py_project/handlers/pyproject.py:122-140 | no template `tool` leaves the document alone; with two tables the merge raises exactly when some tool key's merge raises; with a non-table side exactly when some key the template yields is neither preserved nor passed over without a read or write |
| PyprojectMerge.ToolsMergedSpec | src/py_project/handlers/pyproject.py:122-140 | a successful tool merge changes only `tool`; over two tables it holds each template tool's merged value and every other existing tool unchanged; with a non-table side the only change is the new empty `[tool]` |
| PyprojectMerge.ToolValueSpec | src/py_project/handlers/pyproject.py:128-140 | a preserved tool is kept; a new tool is copied; an existing one is merged key-wise with `hatch.build` and `mypy.packages/overrides` kept when both are tables, and otherwise raises unless the section merge touches nothing, keeping the value |
| PyprojectMerge.NotUnderDotted | src/py_project/handlers/pyproject.py:128 | a single-part tool key cannot equal or lie under a deeper dotted section |
| PyprojectMerge.DefaultSectionsSkipNothing | src/py_project/handlers/pyproject.py:20-24 | the default preserved sections, all two levels deep, never skip a whole tool |
| PyprojectMerge.DevPathKeys | src/py_project/handlers/pyproject.py:144 | `dependency-groups.dev` splits into its two keys |
| PyprojectMerge.DevSet | src/py_project/handlers/pyproject.py:144 | when the dev list exists, setting it is a put inside the existing `dependency-groups` table |
| PyprojectMerge.DevKeysSet | src/py_project/handlers/pyproject.py:144 | the same, stated on the key sequence |
| PyprojectMerge.DevDepsAddedSpec | src/py_project/handlers/pyproject.py:142-148 | no extras or no dev value: unchanged; a non-list dev value raises exactly when some extra is not found in it by `in`, and is otherwise left as it is; a dev list becomes the list with missing extras appended in order; all other sections kept |
| PyprojectMerge.DevKeysPut | src/py_project/handlers/pyproject.py:144-148 | after putting a dev value, the dev path resolves to it |
| PyprojectMerge.DevPut | src/py_project/handlers/pyproject.py:144-148 | the same, stated on the dotted path, and other sections are kept |
| PyprojectMerge.MergePyproject | src/py_project/handlers/pyproject.py:94-150 | the method computes `PyprojectMerged` |
| PyprojectMerge.MergeTools | src/py_project/handlers/pyproject.py:122-140 | the method computes `ToolsMerged` |
| PyprojectMerge.ToolKeysKept | src/py_project/handlers/pyproject.py:125-140 | the tool loop with a non-table side gets through exactly when `ToolsKept` holds |
| PyprojectMerge.MergeToolKeys | src/py_project/handlers/pyproject.py:125-140 | the loop over template tools computes `ToolsMergedFrom` |
| PyprojectMerge.MergeToolKey | src/py_project/handlers/pyproject.py:126-140 | the loop body computes one `ToolStep` |
| PyprojectMerge.AddDevDeps | src/py_project/handlers/pyproject.py:143-148 | the append loop computes `DevDepsAdded` |
| PyprojectMerge.AppendExtras | src/py_project/handlers/pyproject.py:146-148 | the append loop on a dev list appends the missing extras in order |
| PyprojectMerge.ExtrasFound | src/py_project/handlers/pyproject.py:146-148 | the loop on a non-list dev value gets through exactly when every extra is found in it |
| PyprojectMerge.SectionsSteps | src/py_project/handlers/pyproject.py:117-119 | the three section merges succeed in turn when their composition does |
| PyprojectMerge.BeforeDevDepsThen | src/py_project/handlers/pyproject.py:94-150 | the whole merge is the merge up to the tools followed by the dev-dependency step |
| PyprojectMerge.SectionStageAgree | src/py_project/handlers/pyproject.py:152-180 | one section merge changes only that section |
| PyprojectMerge.AgreeTrans | src/py_project/handlers/pyproject.py:117-119 | agreement outside the merged sections is transitive |
| PyprojectMerge.SectionsMergedAgree | src/py_project/handlers/pyproject.py:117-119 | the section merges change only the merged sections |
| PyprojectMerge.MergeKeepsOtherSections | src/py_project/handlers/pyproject.py:94-150 | every top-level section other than project, dependency-groups, build-system and tool is exactly as in the current file |
| PyprojectMerge.MergeKeepsIdentityFields | src/py_project/handlers/pyproject.py:15-17 | when the file has `[project]`, name, version, description and dependencies keep their current values and every other template project field is taken from the template |
| PyprojectMerge.ProjectAfterSections | src/py_project/handlers/pyproject.py:122-148 | the tool and dev-dependency steps do not touch `[project]` |
| PyprojectMerge.SectionMergedOthers | src/py_project/handlers/pyproject.py:152-180 | a section merge leaves every other top-level key unchanged |
| PyprojectMerge.ToolsMergedOthers | src/py_project/handlers/pyproject.py:122-140 | the tool merge leaves every non-`tool` key unchanged |
| PyprojectMerge.DevDepsOthers | src/py_project/handlers/pyproject.py:142-148 | the dev step leaves every key but `dependency-groups` unchanged |
| PyprojectIdempotence.MergeIdempotent | src/py_project/handlers/pyproject.py:94-150 | for a well-formed current file and a template that is a table wherever the merge descends, merging the merged document again gives it back |
| PyprojectIdempotence.FirstRun | src/py_project/handlers/pyproject.py:114-140 | after the sections and tools of the first run, every template-owned key holds its template value |
| PyprojectIdempotence.SecondRun | src/py_project/handlers/pyproject.py:94-150 | merging a document that is already settled against the template reproduces it |
| PyprojectIdempotence.SettledKeys | src/py_project/handlers/pyproject.py:174-176 | a table is settled exactly when every non-preserved template key already holds the template value |
| PyprojectIdempotence.OverlayFix | src/py_project/handlers/pyproject.py:174-180 | overlaying a settled table changes nothing |
| PyprojectIdempotence.SectionSettles | src/py_project/handlers/pyproject.py:152-180 | after one section merge the section is settled |
| PyprojectIdempotence.SectionFix | src/py_project/handlers/pyproject.py:152-180 | merging a settled section again gives the same document |
| PyprojectIdempotence.ToolsSettle | src/py_project/handlers/pyproject.py:122-140 | after the tool merge every non-preserved tool is settled |
| PyprojectIdempotence.ToolsMergedFix | src/py_project/handlers/pyproject.py:122-140 | merging settled tools again changes nothing |
| PyprojectIdempotence.DevStepFix | src/py_project/handlers/pyproject.py:142-148 | adding the same extra dev dependencies twice adds nothing the second time |
| PyprojectIdempotence.GroupsSecond | src/py_project/handlers/pyproject.py:142-148 | on the second run, merging `dependency-groups` either resets dev to the template list or keeps the document |
| PyprojectIdempotence.GroupsSecondAppended | src/py_project/handlers/pyproject.py:142-148 | the same, when the first run appended to a dev list |
| PyprojectIdempotence.GroupsReset | src/py_project/handlers/pyproject.py:174-176 | overlaying the template's groups onto groups whose dev was extended restores the first run's groups |
| PyprojectIdempotence.TailFix | src/py_project/handlers/pyproject.py:119-140 | settled build-system and tools are left alone by a second merge |
| GitlabCi.LastColonIn | src/py_project/handlers/gitlab_ci.py:64 | finds the last `:` in a range, None exactly when there is none |
| GitlabCi.PrefixMatchBound | src/py_project/handlers/gitlab_ci.py:64 | every way of matching `^\s*\S+:\s*` is no longer than the chosen match |
| GitlabCi.ValuePrefixMatch | src/py_project/handlers/gitlab_ci.py:64 | the chosen prefix really matches `^\s*\S+:\s*` |
| GitlabCi.ValuePrefixSpec | src/py_project/handlers/gitlab_ci.py:64-67 | the prefix is the longest (greedy) match of `^\s*\S+:\s*`, and None exactly when the line has no match |
| GitlabCi.ListItemUnchanged | src/py_project/handlers/gitlab_ci.py:62-67 | a list item `- value` line, with no key, is not rewritten |
| GitlabCi.NoNewlineReplace | src/py_project/handlers/gitlab_ci.py:62-67 | replacing the value in a line without newlines gives a line without newlines |
| GitlabCi.EditLineEnding | src/py_project/handlers/gitlab_ci.py:80-85 | an edited line ends in `\n` exactly when the original did, a CRLF ending becomes LF, and the result is again one clean line |
| GitlabCi.BodyOfClean | src/py_project/handlers/gitlab_ci.py:83 | stripping `\n\r` from a newline-free line, with or without a trailing `\n`, gives the line |
| GitlabCi.LfOnlyClean | src/py_project/handlers/gitlab_ci.py:81-85 | a line with only a final LF is a clean line |
| GitlabCi.SplitLinesClean | src/py_project/handlers/gitlab_ci.py:71 | every piece of `splitlines(keepends=True)` is a clean line |
| GitlabCi.FirstLineClean | src/py_project/handlers/gitlab_ci.py:71 | the first split line is clean |
| GitlabCi.ApplyEdits | src/py_project/handlers/gitlab_ci.py:69-89 | the loop computes `EditedContent`: edits applied in order, raising on an out-of-range line |
| GitlabCi.EditsKeepLines | src/py_project/handlers/gitlab_ci.py:73-89 | editing keeps the line count and every line no edit resolves to |
| GitlabCi.EditsRaise | src/py_project/handlers/gitlab_ci.py:79-80 | editing raises exactly when some edit resolves to a line beyond the file |
| GitlabCi.EditsSkipUnresolved | src/py_project/handlers/gitlab_ci.py:86-87 | an edit whose path does not resolve can be dropped without changing the result |
| GitlabCi.EditsKeepEndings | src/py_project/handlers/gitlab_ci.py:80-85 | every edited line stays clean, keeps whether it ends in a newline, and is either unchanged or LF-terminated |
| GitlabCi.NoResolvedUnchanged | src/py_project/handlers/gitlab_ci.py:69-89 | when no edit resolves, the content comes back unchanged |
| GitlabCi.NoResolvedLines | src/py_project/handlers/gitlab_ci.py:73-89 | the same, stated on the line list |
| GitlabCi.RenderValue | src/py_project/handlers/gitlab_ci.py:91-96 | values without `{{` are kept verbatim; others go through the renderer |
| GitlabCi.EditPairs | src/py_project/handlers/gitlab_ci.py:107-108 | the `(path, value)` pairs of the configured edits, in order; none when the options are absent |
| GitlabCi.RenderEdits | src/py_project/handlers/gitlab_ci.py:115-118 | one edit per merged entry, in order, with its value rendered |
| GitlabCi.Paths | src/py_project/handlers/gitlab_ci.py:115-118 | the paths of the edits, in order |
| GitlabCi.MergePairsKeys | src/py_project/handlers/gitlab_ci.py:111 | `{**a, **b}` has distinct keys, ordered by first appearance in `a` then `b` |
| GitlabCi.MergePairsLookup | src/py_project/handlers/gitlab_ci.py:107-111 | a merged key takes its last value in `b` if `b` has it, else its last value in `a` |
| GitlabCi.GetEditsPaths | src/py_project/handlers/gitlab_ci.py:98-118 | the edit paths are distinct: the default paths first, then project-only paths; the list is empty exactly when both configurations are |
| GitlabCi.GetEditsValues | src/py_project/handlers/gitlab_ci.py:98-118 | a project edit overrides the default for the same path; each value is rendered with `defaults.vars` |
| GitlabCi.GenerateEditedContent | src/py_project/handlers/gitlab_ci.py:120-131 | None exactly when there are no edits; otherwise the edited file, raising when the file is missing or an edit is out of range |
| GitlabCi.ApplyOutcome | src/py_project/handlers/gitlab_ci.py:164-209 | missing file and no edits are skips; raises exactly when editing raises; invalid YAML is an error; valid edited content is `unchanged` exactly when it equals the file and `updated` when it differs; `updated` only when the content changes and validates, and only outside dry run is it written (after the optional backup) |
| GitlabCi.DiffOutcome | src/py_project/handlers/gitlab_ci.py:133-162 | missing-file message; None for no edits or no change, alongside an apply that writes nothing; otherwise the unified diff of a real change |
| GitlabCi.Apply | src/py_project/handlers/gitlab_ci.py:164-209 | the method follows `ApplyOutcome`; when it raises, no file has changed |
| DepUpdater.NameEnd | src/py_project/dep_updater.py:45 | the `[a-zA-Z0-9_-]+` scan stops at the first non-name character |
| DepUpdater.VersionEnd | src/py_project/dep_updater.py:45 | the `[0-9.]+` scan stops at the first non-version character |
| DepUpdater.ParseDependency | src/py_project/dep_updater.py:40-48 | a parsed name and version are non-empty and use only their allowed characters |
| DepUpdater.ParseSound | src/py_project/dep_updater.py:40-48 | a parsed string is `name>=version`, or that followed by one newline (what `$` admits) |
| DepUpdater.ParseFormat | src/py_project/dep_updater.py:40-53 | formatting a valid name and version and parsing it back gives them again, also with a trailing newline |
| DepUpdater.ParseIff | src/py_project/dep_updater.py:40-53 | parsing yields `(p, v)` exactly when both are valid and the string is their formatted form, optionally plus a newline |
| DepUpdater.NormalizeVersion | src/py_project/dep_updater.py:56-64 | fewer than three parts: unchanged; otherwise exactly the first three dot-separated parts; always a prefix of the input |
| DepUpdater.JoinSplitPrefix | src/py_project/dep_updater.py:63 | joining the first `n` parts gives a prefix of joining all of them |
| DepUpdater.NormalizeIdempotent | src/py_project/dep_updater.py:56-64 | normalising twice is normalising once |
| DepUpdater.NormalizeValid | src/py_project/dep_updater.py:56-64 | normalising a valid version gives a valid version |
| DepUpdater.CheckEntry | src/py_project/dep_updater.py:208-251 | unparsable or not-found entries are kept with no record; otherwise a record with the normalised latest version, `updated` exactly when it differs, and the entry rewritten only then |
| DepUpdater.NewDeps | src/py_project/dep_updater.py:205-253 | one output entry per input entry |
| DepUpdater.Records | src/py_project/dep_updater.py:205-253 | at most one record per input entry |
| DepUpdater.UpdatedOnly | src/py_project/dep_updater.py:153 | the updated records, all marked updated |
| DepUpdater.UpdatedOnlyAppend | src/py_project/dep_updater.py:153 | filtering updated records distributes over concatenation |
| DepUpdater.UpdatedOnlyOne | src/py_project/dep_updater.py:153 | filtering one optional record keeps it exactly when it is an update |
| DepUpdater.CheckAndUpdateDeps | src/py_project/dep_updater.py:188-253 | the loop returns exactly the rewritten list and the records |
| DepUpdater.PrefixStep | src/py_project/dep_updater.py:208-251 | processing one more entry appends its result to the list and its record to the records |
| DepUpdater.NoUpdatesNoChange | src/py_project/dep_updater.py:153-156 | when no record is an update, the rewritten list equals the input |
| DepUpdater.NoUpdatesSplit | src/py_project/dep_updater.py:153 | no updates in a list means none in its first part and none at its last entry |
| DepUpdater.KeptEntry | src/py_project/dep_updater.py:210-243 | an entry that is not updated is kept verbatim |
| DepUpdater.EntryStable | src/py_project/dep_updater.py:208-251 | with a lookup returning valid versions, checking a rewritten entry again finds no update |
| DepUpdater.CheckStable | src/py_project/dep_updater.py:188-253 | with a lookup returning valid versions, a second check of the rewritten list reports no updates |
| DepUpdater.TemplateDepsOutcome | src/py_project/dep_updater.py:67-174 | a missing template or an empty dev list gives no records and no write; the records are those of the dev list; the file is rewritten only outside dry run when some record is an update |
| DepUpdater.UpdateTemplateDeps | src/py_project/dep_updater.py:67-174 | the method follows `TemplateDepsOutcome` |
| DepUpdater.ProjectDepsOutcome | src/py_project/dep_updater.py:256-319 | None, and no write, exactly when the file is missing, has no dependencies or needs no update; otherwise the result holds the records and the old and new content, and the file is written only outside dry run |
| DepUpdater.UpdateProjectDeps | src/py_project/dep_updater.py:256-319 | the method follows `ProjectDepsOutcome` |
| DepUpdater.ChangeLinesShape | src/py_project/dep_updater.py:428-432 | two lines per updated record, the removal of the current pin and then the addition of the latest |
| DepUpdater.FormatDiff | src/py_project/dep_updater.py:414-434 | the diff is the three header lines and the change lines joined by newlines |
| Applier.HandlerFor | src/py_project/handlers/__init__.py:9-22 | a handler exists exactly for the twelve registered names, and it carries that name |
| Applier.IndexOf | src/py_project/applier.py:105 | the position of the first occurrence |
| Applier.RemoveFirst | src/py_project/applier.py:104-105 | `list.remove` deletes the first occurrence, if any, and nothing else |
| Applier.RemoveFirstMultiset | src/py_project/applier.py:104-105 | removing takes exactly one copy of the value out of the multiset |
| Applier.RemoveEachSpec | src/py_project/applier.py:103-105 | the exclusion loop removes one copy per excluded entry (multiset difference) and keeps the order of what remains |
| Applier.EffectiveConfigsSpec | src/py_project/applier.py:85-107 | defaults come first in order, project-only configs follow without duplicates and in their own order; exclusions remove one copy each; with no project configs and no exclusions the defaults are returned as they are |
| Applier.AddMissing | src/py_project/applier.py:97-100 | the append loop computes `AppendMissing` |
| Applier.ListRemove | src/py_project/applier.py:105 | the method computes `RemoveFirst` |
| Applier.RemoveExcluded | src/py_project/applier.py:103-105 | the exclusion loop computes `RemoveEach` |
| Applier.GetProjectConfigs | src/py_project/applier.py:85-107 | the method returns the effective configs |
| Applier.MissingNames | src/py_project/applier.py:126-129 | names are missing exactly when requested and not available |
| Applier.MissingNamesAppend | src/py_project/applier.py:126-129 | the missing names of a concatenation are the two lists' missing names concatenated |
| Applier.ValidateProjects | src/py_project/applier.py:110-137 | the loop returns exactly the missing names, in request order |
| Applier.TargetProjects | src/py_project/applier.py:211 | no filter keeps all projects; otherwise exactly the listed ones |
| Applier.TargetProjectsAppend | src/py_project/applier.py:211 | the filter distributes over concatenation, so order is kept |
| Applier.TargetConfigs | src/py_project/applier.py:277 | no filter keeps all configs; otherwise exactly the listed ones |
| Applier.TargetConfigsAppend | src/py_project/applier.py:277 | the filter distributes over concatenation |
| Applier.RecordResult | src/py_project/applier.py:390-413 | exactly one counter goes up for a known status; created/updated/error add a change detail; an error with a message adds `project/type: message`; an unknown status changes nothing |
| Applier.ApplySummary.constructor | src/py_project/applier.py:37-60 | a new summary is all zeros with no messages or changes |
| Applier.UpdateSummary | src/py_project/applier.py:390-413 | the method updates the summary object as `RecordResult` says |
| Applier.ConfigStep | src/py_project/applier.py:291-337 | an unknown type adds one error; a diff-only run skips apply; otherwise the result is recorded, the pyproject flag raised and the output queued for `git add` where the source does |
| Applier.ProjectOutcome | src/py_project/applier.py:238-357 | a missing directory adds one error and its message and runs nothing; otherwise the project counts as processed |
| Applier.ConfigsRunStep | src/py_project/applier.py:291 | the config loop over one more type is one more `ConfigStep` |
| Applier.ConfigsRunKeepsProcessed | src/py_project/applier.py:291-340 | the config loop never changes the processed-projects count |
| Applier.ProjectsRunStep | src/py_project/applier.py:218-222 | the project loop over one more project is one more project outcome |
| Applier.ConfigsRunCounts | src/py_project/applier.py:291-340 | when applying, each config with a known status adds exactly one count; a diff-only run adds only one error per unknown type |
| Applier.PyprojectChangedSplit | src/py_project/applier.py:331-332 | the pyproject flag over a list is the flag over its first part or an update by the last type |
| Applier.ConfigsRunSync | src/py_project/applier.py:331-332 | the pyproject flag ends up set exactly when it was set or some pyproject/my-py-lib apply reported `updated` |
| Applier.ConfigsRunGitAdd | src/py_project/applier.py:335-337 | without `git_add` outside dry run nothing is queued; otherwise the outputs of the created or updated configs are queued, in order |
| Applier.AddsAtPrefix | src/py_project/applier.py:335-337 | whether a position queues a file does not depend on later configs |
| Applier.AddedOutputsSpec | src/py_project/applier.py:335-337 | a file is queued exactly when some config at some position created or updated it |
| Applier.RunConfig | src/py_project/applier.py:292-337 | the loop body changes the summary, flag and queue as `ConfigStep` says |
| Applier.RunConfigs | src/py_project/applier.py:291-340 | the config loop leaves summary, flag and queue as `ConfigsRun` says |
| Applier.FollowUp | src/py_project/applier.py:346-352 | `uv sync` runs exactly when pyproject changed, not dry run and sync enabled; `git add` runs exactly when files were queued |
| Applier.ProcessProject | src/py_project/applier.py:238-357 | the method leaves the summary and returns the commands as `ProjectOutcome` says |
| Applier.ApplyConfigs | src/py_project/applier.py:140-235 | a fresh summary, and summary and commands as the specification function of the whole run says (default options, project filter, every target project in order) |
| LegacyApplier.HandlerFor | src/handlers/__init__.py:16-26 | a handler exists exactly for the nine registered names, carrying that name |
| LegacyApplier.CopyKindsRegistered | src/handlers/__init__.py:16-26 | every legacy template-copy kind is registered under its own name |
| LegacyApplier.GetProjectConfigs | src/applier.py:30-34 | a project's own `configs` replace the defaults entirely; otherwise the defaults |
| LegacyApplier.RecordResult | src/applier.py:163-181 | exactly one counter goes up for a known status; an error with a message adds `project/type: message`; an unknown status changes nothing |
| LegacyApplier.ApplySummary.constructor | src/applier.py:17-27 | a new summary is all zeros with no messages |
| LegacyApplier.UpdateSummary | src/applier.py:163-181 | the method updates the summary object as `RecordResult` says |
| LegacyApplier.ConfigStep | src/applier.py:109-135 | a filtered-out type changes nothing, an unknown one adds an error, a diff run records nothing; otherwise the result is recorded |
| LegacyApplier.ProjectStep | src/applier.py:86-135 | an unselected project changes nothing; a missing directory adds one error and its message; otherwise processed and its configs run |
| LegacyApplier.ConfigsRunCounts | src/applier.py:109-135 | when applying, each selected config with a known status adds one count, and processed projects stay the same |
| LegacyApplier.DiffRunIgnoresApply | src/applier.py:122-130 | a diff run never consults `apply` and only counts unknown types as errors |
| LegacyApplier.EmptyConfigsRunNothing | src/applier.py:103-109 | a selected, existing project with an empty config list is only counted as processed |
| LegacyApplier.ProjectsRunProcessed | src/applier.py:86-103 | the processed count rises by the number of selected projects whose directory exists |
| LegacyApplier.ConfigsRunKeepsProcessed | src/applier.py:109-135 | the config loop never changes the processed count |
| LegacyApplier.ConfigsRunStep | src/applier.py:109 | the config loop over one more type is one more `ConfigStep` |
| LegacyApplier.ProjectsRunStep | src/applier.py:86 | the project loop over one more project is one more `ProjectStep` |
| LegacyApplier.RunConfig | src/applier.py:110-135 | the loop body updates the summary as `ConfigStep` says |
| LegacyApplier.RunProject | src/applier.py:87-135 | the loop body updates the summary as `ProjectStep` says |
| LegacyApplier.RunConfigs | src/applier.py:109-135 | the config loop updates the summary as `ConfigsRun` says |
| LegacyApplier.ApplyConfigs | src/applier.py:37-142 | a fresh summary holding exactly the specification function's summary of the whole run |
| StrList.AppendMissing | src/py_project/applier.py:97-100 | the result is at least the input and at most input plus extras long |
| StrList.AppendMissingSpec | src/py_project/applier.py:97-100 | the input is kept as a prefix; members are exactly input plus extras; appended items are new, distinct and in the extras' order; nothing is appended when every extra is present |
| StrList.AppendMissingMembers | src/py_project/handlers/pyproject.py:146-148 | the input is a prefix and members are exactly the input's and the extras' |
| StrList.AppendMissingFresh | src/py_project/handlers/pyproject.py:146-148 | appended items are pairwise distinct and none was already present |
| StrList.AppendMissingOrder | src/py_project/applier.py:97-100 | the appended items are a subsequence of the extras |
| StrList.AppendMissingNoop | src/py_project/handlers/pyproject.py:146-148 | when every extra is already present, nothing changes |
| StrList.AppendMissingConcat | src/py_project/applier.py:97-100 | appending `a + b` is appending `a` and then `b` |
| StrList.AppendMissingSkipSeen | src/py_project/applier.py:97-100 | pre-filtering extras against items already present changes nothing |
| StrList.AppendMissingDedup | src/py_project/handlers/pyproject.py:146-148 | deduplicating the extras first changes nothing |
| PyStr.Split | src/py_project/dep_updater.py:61 | `str.split(sep)` pieces contain no separator and there is one more piece than separators |
| PyStr.JoinSplit | src/py_project/dep_updater.py:61-63 | joining the split pieces gives the original string |
| PyStr.SplitJoin | src/py_project/dep_updater.py:61-63 | splitting a join of separator-free pieces gives the pieces back |
| PyStr.RStripChars | src/py_project/handlers/template_copy.py:185 | `rstrip(chars)` removes exactly the trailing run of those characters |
| PyStr.SplitLines | src/py_project/handlers/gitlab_ci.py:71 | `splitlines(keepends=True)` pieces are non-empty, contain no line break except a final one (a final `\r\n` counts as one), every piece but the last ends in a line break, and no `\r\n` is split between pieces |
| PyStr.SplitLinesUnique | src/py_project/handlers/gitlab_ci.py:71 | any cut of the text into pieces shaped that way is the `splitlines(keepends=True)` result |
| PyStr.ConcatSplitLines | src/py_project/handlers/gitlab_ci.py:71-89 | `"".join(content.splitlines(keepends=True))` is the content |

## Left out

- Jinja rendering is a `TemplateRenderer` or `Renderer` parameter. The
  model does not look inside templates or the `{{ … }}` language.
- tomlkit parsing and dumping are `Parser` and `Dumper` parameters. The
  model keeps no byte-level formatting, comments or whitespace. A TOML
  value is a string, another scalar (number, boolean or date, kept as
  its text), a string array or an ordered table.
- Pyproject.SecondApplyUnchanged assumes that re-parsing the normalised
  dump of the merged document gives that document back. A universal round
  trip cannot be stated, because parsing always yields distinct keys.
- The yamlpath and ruamel line resolver (`_get_line_number`) is a
  `Resolver` parameter that returns a line index or None.
- The format validators (YAML, TOML, JSON) are a `Validator` parameter.
- Unified-diff generation (`generate_diff`, `difflib.unified_diff`) is a
  parameter. So is the printing of diffs.
- `_validate_projects` is modelled as its return value. Its warnings and
  its `difflib.get_close_matches` suggestions are output only, and
  `apply_configs` ignores its result.
- The subprocess calls (`git ls-remote`, `uv sync`, `git add`) are left
  out as processes:
  - `git ls-remote` is its standard output, an `Option`. None stands for
    a failed or timed-out call. A missing `git` executable makes
    `subprocess.run` raise `FileNotFoundError`, which
    `get_latest_commit_hash` (`my_py_lib.py:60`) does not catch; that
    raise is not modelled.
  - `uv sync` and `git add` are returned `Action` values.
- The PyPI query `_get_latest_version` is a `VersionLookup` parameter.
  Network failures are None.
- `update_config_deps` (`dep_updater.py:322-411`) is not part of this
  model. It reads `config.yaml` with ruamel, skips projects outside its
  own name filter and those whose `pyproject` is null, calls
  `_check_and_update_deps` (modelled) on each remaining `extra_dev_deps`
  list (`dep_updater.py:377`), and writes the YAML back.
- Rich console output, progress bars, TTY detection, logging, the CLI and
  `app.py` are output or entry points, not logic.
- Path expansion (`expanduser`) is the identity. Paths are plain strings
  joined with `/`.
- `Config.get_template_dir` only expands the user directory, so it is
  the identity here.
- Ill-typed configuration values are rejected by the model: its
  `from_dict` functions return None. Some fail at attribute access in
  Python; others do not (a string `configs` is iterated character by
  character). Schema validation is outside the core.
- MyPyLibPattern.UpdateFirstMatch: the model inserts the pin literally.
  The hash check (`my_py_lib.py:56`) only demands 40 characters, and
  `ParseCommitHash` only 40 non-whitespace characters, so a token holding
  `\` would have its backslash escapes processed by `re.sub`'s replacement
  template (`my_py_lib.py:78`); that processing is not modelled.
- Regular-expression `$` in `_parse_dependency` also matches before one
  final newline. DepUpdater.ParseIff states that case rather than ruling
  it out.
- MyPyLib.SecondApplyUnchanged holds only when the new hash is hex and the
  old match is not followed by a hex digit. Otherwise the regular
  expression reads a different hash the second time.
- DepUpdater.CheckStable holds only when the version lookup returns
  versions made of digits and dots. Otherwise the rewritten entry no
  longer parses.
- The orchestrators take each handler's result as a `HandlerApply`
  parameter of (project, type). The model does not tie that result to the
  file state the earlier handlers leave behind. The handlers themselves
  are modelled separately.
- Applier.ConfigStep and LegacyApplier.ConfigStep: an exception raised by
  a handler's `diff` or `apply` would end `apply_configs` in Python
  (`applier.py:306-328`, `src/applier.py:124,133`). `HandlerApply` always
  returns a result, so the model's config loop always runs to the end.
- The `Parser`, `DepsReader` and `Resolver` parameters are total. The
  model does not capture tomlkit or ruamel raising on a malformed file.
- A status outside the five known names (`Other`) is left out of the
  summary, as `_update_summary` does. Its warning is not modelled.
- The legacy `src/handlers/pyproject.py` and `src/handlers/my_py_lib.py`
  are not part of this model. Only their registry keys in
  `src/handlers/__init__.py` are.
- The legacy `dry_run` and `backup` flags of `src/applier.py` reach only
  the handlers, so the `HandlerApply` parameter captures them.
- The legacy show-diff path (`src/applier.py:123-130`) calls the
  handler's `diff` only for display. The model records that nothing is
  counted and does not model the text.
- With `--diff` but without dry run (`applier.py:306-323`), the shown
  diff is display only. The model continues to the apply as the source
  does.
- The gitlab-ci `diff`, when the edited content equals the current
  content, returns None. This is modelled, though the unified diff of
  identical texts is not.
