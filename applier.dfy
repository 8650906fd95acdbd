/**
 * The orchestrator: the handler registry, the effective list of config types
 * of a project, the project and config-type filters, and the summary that
 * `apply_configs` accumulates over the projects and their config types.
 * What a handler's `apply` returns and whether a project directory exists
 * are oracles; `uv sync` and `git add` are recorded as actions.
 */
module Applier {
  import opened Wrappers
  import opened StrList
  import opened ProjectConfig
  import opened HandlerBase
  import TemplateCopy
  import Pyproject
  import MyPyLib
  import GitlabCi

  // ---------------------------------------------------------------------
  // The registry (`py_project.handlers.HANDLERS`)
  // ---------------------------------------------------------------------

  datatype Handler = Copy(kind: TemplateCopy.Kind) | PyprojectHandler | MyPyLibHandler | GitlabCiHandler
  {
    /** The handler's `name`. */
    function Name(): string
    {
      match this
      case Copy(k) => k.Name()
      case PyprojectHandler => Pyproject.NAME
      case MyPyLibHandler => MyPyLib.NAME
      case GitlabCiHandler => GitlabCi.NAME
    }

    /** The handler's `get_output_path`. */
    function OutputPath(p: Project): string
    {
      match this
      case Copy(k) => TemplateCopy.OutputPath(k, p)
      case PyprojectHandler => Pyproject.OutputPath(p)
      case MyPyLibHandler => MyPyLib.OutputPath(p)
      case GitlabCiHandler => GitlabCi.OutputPath(p)
    }
  }

  /** The registry's keys, in declaration order. */
  const REGISTRY_KEYS: seq<string> := [
    "pre-commit", "ruff", "yamllint", "prettier", "python-version", "dockerignore", "gitignore",
    "renovate", "license", "pyproject", "my-py-lib", "gitlab-ci"]

  /** `HANDLERS.get(config_type)`: a handler exactly for the registry's keys, and its name is the key. */
  function HandlerFor(configType: string): (r: Option<Handler>)
    ensures r.Some? <==> configType in REGISTRY_KEYS
    ensures r.Some? ==> r.value.Name() == configType
  {
    match TemplateCopy.KindOfName(configType)
    case Some(k) => Some(Copy(k))
    case None =>
      if configType == "pyproject" then Some(PyprojectHandler)
      else if configType == "my-py-lib" then Some(MyPyLibHandler)
      else if configType == "gitlab-ci" then Some(GitlabCiHandler)
      else None
  }

  // ---------------------------------------------------------------------
  // `get_project_configs`
  // ---------------------------------------------------------------------

  /** The index of the first occurrence of `x`. */
  function IndexOf(s: seq<string>, x: string): (i: nat)
    requires x in s
    ensures i < |s| && s[i] == x && x !in s[..i]
  {
    if s[0] == x then 0
    else
      assert x in s[1..] by { var k :| 0 <= k < |s| && s[k] == x; assert s[1..][k - 1] == x; }
      var j := IndexOf(s[1..], x);
      assert s[..j + 1] == [s[0]] + s[1..][..j];
      j + 1
  }

  /** `if x in configs: configs.remove(x)`: the first occurrence goes, and nothing else. */
  function RemoveFirst(s: seq<string>, x: string): (r: seq<string>)
    ensures x !in s ==> r == s
    ensures x in s ==> |r| == |s| - 1 && r == s[..IndexOf(s, x)] + s[IndexOf(s, x) + 1..]
  {
    if x in s then
      var i := IndexOf(s, x);
      s[..i] + s[i + 1..]
    else s
  }

  /** Removing the first occurrence takes one `x` out of the multiset, and nothing when there is none. */
  lemma RemoveFirstMultiset(s: seq<string>, x: string)
    ensures multiset(RemoveFirst(s, x)) == multiset(s) - multiset{x}
  {
    if x in s {
      var i := IndexOf(s, x);
      assert s == s[..i] + [x] + s[i + 1..];
    }
  }

  /** The exclusions applied one after the other. */
  function RemoveEach(s: seq<string>, excludes: seq<string>): seq<string>
    decreases |excludes|
  {
    if |excludes| == 0 then s
    else RemoveFirst(RemoveEach(s, excludes[..|excludes| - 1]), excludes[|excludes| - 1])
  }

  /**
   * Removing the exclusions one occurrence each takes exactly the
   * exclusions out of the multiset of config types (an absent one takes
   * nothing), and keeps the remaining ones in their order.
   */
  lemma {:induction false} RemoveEachSpec(s: seq<string>, excludes: seq<string>)
    ensures multiset(RemoveEach(s, excludes)) == multiset(s) - multiset(excludes)
    ensures Subsequence(RemoveEach(s, excludes), s)
    decreases |excludes|
  {
    if |excludes| == 0 {
      SubsequenceOfSelf(s);
    } else {
      var init := excludes[..|excludes| - 1];
      var x := excludes[|excludes| - 1];
      RemoveEachSpec(s, init);
      var t := RemoveEach(s, init);
      MultisetSplitLast(excludes);
      MultisetMinusOne(multiset(s), multiset(init), x);
      RemoveFirstMultiset(t, x);
      SubsequenceRemoveFirst(t, x);
      SubsequenceTrans(RemoveFirst(t, x), t, s);
    }
  }

  lemma MultisetSplitLast(s: seq<string>)
    requires |s| > 0
    ensures multiset(s) == multiset(s[..|s| - 1]) + multiset{s[|s| - 1]}
  {
    assert s == s[..|s| - 1] + [s[|s| - 1]];
  }

  lemma MultisetMinusOne(a: multiset<string>, b: multiset<string>, x: string)
    ensures (a - b) - multiset{x} == a - (b + multiset{x})
  {
    assert forall y :: ((a - b) - multiset{x})[y] == (a - (b + multiset{x}))[y];
  }

  lemma SubsequenceRemoveFirst(t: seq<string>, x: string)
    ensures Subsequence(RemoveFirst(t, x), t)
  {
    if x in t {
      SubsequenceDelete(t, IndexOf(t, x));
    } else {
      SubsequenceOfSelf(t);
    }
  }

  /** Dropping one element leaves a subsequence. */
  lemma {:induction false} SubsequenceDelete(s: seq<string>, i: nat)
    requires i < |s|
    ensures Subsequence(s[..i] + s[i + 1..], s)
    decreases i
  {
    if i == 0 {
      assert s[..0] + s[1..] == s[1..];
      SubsequenceOfSelf(s[1..]);
      SubsequenceDrop(s[1..], s);
    } else {
      var d := s[..i] + s[i + 1..];
      SubsequenceDelete(s[1..], i - 1);
      assert d[0] == s[0];
      assert d[1..] == s[1..][..i - 1] + s[1..][i..];
    }
  }

  /** A subsequence of a subsequence is a subsequence. */
  lemma {:induction false} SubsequenceTrans(a: seq<string>, b: seq<string>, c: seq<string>)
    requires Subsequence(a, b) && Subsequence(b, c)
    ensures Subsequence(a, c)
    decreases |c|
  {
    if |a| > 0 {
      if b[0] == c[0] {
        if a[0] == b[0] {
          SubsequenceTrans(a[1..], b[1..], c[1..]);
        } else {
          SubsequenceTrans(a, b[1..], c[1..]);
        }
      } else {
        SubsequenceTrans(a, b, c[1..]);
        SubsequenceDrop(a, c);
      }
    }
  }

  /** The project's own config types, `[]` when it lists none. */
  function ProjectConfigs(p: Project): seq<string>
  {
    p.configs.GetOr([])
  }

  /**
   * `get_project_configs`: the defaults in order (duplicates kept), the
   * project's config types they lack appended in order, then one occurrence
   * of each exclusion removed.
   */
  function EffectiveConfigs(p: Project, defaults: Defaults): seq<string>
  {
    RemoveEach(AppendMissing(defaults.configs, ProjectConfigs(p)), p.excludeConfigs)
  }

  /**
   * Before the exclusions the list starts with the defaults and adds the
   * project's config types it lacks, each once and in the project's order;
   * the exclusions then take out one occurrence each. With no project list
   * and no exclusions the defaults come back as they are.
   */
  lemma EffectiveConfigsSpec(p: Project, defaults: Defaults)
    ensures var base := AppendMissing(defaults.configs, ProjectConfigs(p));
            && defaults.configs <= base
            && (forall x :: x in base <==> x in defaults.configs || x in ProjectConfigs(p))
            && (forall i :: |defaults.configs| <= i < |base| ==> base[i] !in defaults.configs)
            && Subsequence(base[|defaults.configs|..], ProjectConfigs(p))
            && multiset(EffectiveConfigs(p, defaults)) == multiset(base) - multiset(p.excludeConfigs)
            && Subsequence(EffectiveConfigs(p, defaults), base)
    ensures |ProjectConfigs(p)| == 0 && |p.excludeConfigs| == 0 ==> EffectiveConfigs(p, defaults) == defaults.configs
  {
    AppendMissingSpec(defaults.configs, ProjectConfigs(p));
    RemoveEachSpec(AppendMissing(defaults.configs, ProjectConfigs(p)), p.excludeConfigs);
  }

  /** One more project config type is appended when the list lacks it. */
  lemma AppendMissingStep(items: seq<string>, extra: seq<string>, i: nat)
    requires i < |extra|
    ensures var c := AppendMissing(items, extra[..i]);
            AppendMissing(items, extra[..i + 1]) == if extra[i] in c then c else c + [extra[i]]
  {
    AppendMissingConcat(items, extra[..i], [extra[i]]);
    assert extra[..i] + [extra[i]] == extra[..i + 1];
  }

  /** One more exclusion removes its first occurrence. */
  lemma RemoveEachStep(s: seq<string>, excludes: seq<string>, j: nat)
    requires j < |excludes|
    ensures RemoveEach(s, excludes[..j + 1]) == RemoveFirst(RemoveEach(s, excludes[..j]), excludes[j])
  {
    assert excludes[..j + 1][..j] == excludes[..j];
  }

  /** The first loop of `get_project_configs`: each project config type the list lacks is appended. */
  method AddMissing(items: seq<string>, extra: seq<string>) returns (configs: seq<string>)
    ensures configs == AppendMissing(items, extra)
  {
    configs := items;
    var i := 0;
    while i < |extra|
      invariant 0 <= i <= |extra|
      invariant configs == AppendMissing(items, extra[..i])
    {
      AppendMissingStep(items, extra, i);
      if extra[i] !in configs {
        configs := configs + [extra[i]];
      }
      i := i + 1;
    }
    assert extra[..i] == extra;
  }

  /** Python `list.remove(x)` for an element that is present. */
  method ListRemove(s: seq<string>, x: string) returns (r: seq<string>)
    requires x in s
    ensures r == RemoveFirst(s, x)
  {
    var k := IndexOf(s, x);
    r := s[..k] + s[k + 1..];
  }

  /** The second loop of `get_project_configs`: each exclusion takes out its first occurrence. */
  method RemoveExcluded(base: seq<string>, excludes: seq<string>) returns (configs: seq<string>)
    ensures configs == RemoveEach(base, excludes)
  {
    configs := base;
    var j := 0;
    while j < |excludes|
      invariant 0 <= j <= |excludes|
      invariant configs == RemoveEach(base, excludes[..j])
    {
      RemoveEachStep(base, excludes, j);
      if excludes[j] in configs {
        configs := ListRemove(configs, excludes[j]);
      }
      j := j + 1;
    }
    assert excludes[..j] == excludes;
  }

  /** `get_project_configs`. */
  method GetProjectConfigs(p: Project, defaults: Defaults) returns (configs: seq<string>)
    ensures configs == EffectiveConfigs(p, defaults)
  {
    configs := defaults.configs;
    if p.configs.Some? && |p.configs.value| > 0 {
      configs := AddMissing(configs, p.configs.value);
    } else {
      assert ProjectConfigs(p) == [];
    }
    configs := RemoveExcluded(configs, p.excludeConfigs);
  }

  // ---------------------------------------------------------------------
  // `_validate_projects` and the filters
  // ---------------------------------------------------------------------

  /** The requested names that are not available, in request order. */
  function MissingNames(requested: seq<string>, available: seq<string>): (r: seq<string>)
    ensures forall x :: x in r <==> x in requested && x !in available
    decreases |requested|
  {
    if |requested| == 0 then []
    else
      var x := requested[|requested| - 1];
      MissingNames(requested[..|requested| - 1], available) + (if x !in available then [x] else [])
  }

  /** The missing names keep the request order: they are those of each part of the request, in turn. */
  lemma {:induction false} MissingNamesAppend(a: seq<string>, b: seq<string>, available: seq<string>)
    ensures MissingNames(a + b, available) == MissingNames(a, available) + MissingNames(b, available)
    decreases |b|
  {
    if |b| == 0 {
      assert a + b == a;
    } else {
      assert (a + b)[..|a + b| - 1] == a + b[..|b| - 1];
      MissingNamesAppend(a, b[..|b| - 1], available);
    }
  }

  /** `_validate_projects` (the warnings and close-match hints are not modelled). */
  method ValidateProjects(requested: seq<string>, available: seq<string>) returns (missing: seq<string>)
    ensures missing == MissingNames(requested, available)
  {
    missing := [];
    var i := 0;
    while i < |requested|
      invariant 0 <= i <= |requested|
      invariant missing == MissingNames(requested[..i], available)
    {
      assert requested[..i + 1][..i] == requested[..i];
      if requested[i] !in available {
        missing := missing + [requested[i]];
      }
      i := i + 1;
    }
    assert requested[..i] == requested;
  }

  /** `[p for p in config.projects if projects is None or p.name in projects]`. */
  function TargetProjects(ps: seq<Project>, names: Option<seq<string>>): (r: seq<Project>)
    ensures names.None? ==> r == ps
    ensures forall q :: q in r <==> q in ps && (names.None? || q.name in names.value)
    decreases |ps|
  {
    if |ps| == 0 then []
    else
      var q := ps[|ps| - 1];
      TargetProjects(ps[..|ps| - 1], names) + (if names.None? || q.name in names.value then [q] else [])
  }

  /** The selected projects keep the configuration's order. */
  lemma {:induction false} TargetProjectsAppend(a: seq<Project>, b: seq<Project>, names: Option<seq<string>>)
    ensures TargetProjects(a + b, names) == TargetProjects(a, names) + TargetProjects(b, names)
    decreases |b|
  {
    if |b| == 0 {
      assert a + b == a;
    } else {
      assert (a + b)[..|a + b| - 1] == a + b[..|b| - 1];
      TargetProjectsAppend(a, b[..|b| - 1], names);
    }
  }

  /** `[c for c in project_configs if config_types is None or c in config_types]`. */
  function TargetConfigs(cs: seq<string>, types: Option<seq<string>>): (r: seq<string>)
    ensures types.None? ==> r == cs
    ensures forall c :: c in r <==> c in cs && (types.None? || c in types.value)
    decreases |cs|
  {
    if |cs| == 0 then []
    else
      var c := cs[|cs| - 1];
      TargetConfigs(cs[..|cs| - 1], types) + (if types.None? || c in types.value then [c] else [])
  }

  /** The selected config types keep the project's order. */
  lemma {:induction false} TargetConfigsAppend(a: seq<string>, b: seq<string>, types: Option<seq<string>>)
    ensures TargetConfigs(a + b, types) == TargetConfigs(a, types) + TargetConfigs(b, types)
    decreases |b|
  {
    if |b| == 0 {
      assert a + b == a;
    } else {
      assert (a + b)[..|a + b| - 1] == a + b[..|b| - 1];
      TargetConfigsAppend(a, b[..|b| - 1], types);
    }
  }

  // ---------------------------------------------------------------------
  // `ApplySummary` and `_update_summary`
  // ---------------------------------------------------------------------

  /** `ChangeDetail`. */
  datatype ChangeDetail = ChangeDetail(project: string, configType: string, status: string, message: string)

  /** The value of an `ApplySummary` (`unchangedCount` is its `unchanged` counter). */
  datatype Summary = Summary(
    created: nat, updated: nat, unchangedCount: nat, skipped: nat, errors: nat, projectsProcessed: nat,
    errorMessages: seq<string>, changes: seq<ChangeDetail>)

  const EMPTY_SUMMARY := Summary(0, 0, 0, 0, 0, 0, [], [])

  /** The five status counters together. */
  function Counted(s: Summary): nat
  {
    s.created + s.updated + s.unchangedCount + s.skipped + s.errors
  }

  /** A message Python treats as true: present and non-empty. */
  predicate HasMessage(result: ApplyResult)
  {
    result.message.Some? && |result.message.value| > 0
  }

  /** `result.message or ""`. */
  function MessageText(result: ApplyResult): string
  {
    if HasMessage(result) then result.message.value else ""
  }

  /**
   * `_update_summary`: a known status adds one to its own counter and to no
   * other; created, updated and error results add a change record; an error
   * with a message adds an error message; an unknown status changes nothing.
   */
  function RecordResult(s: Summary, result: ApplyResult, project: string, configType: string): (r: Summary)
    ensures result.status.Other? ==> r == s
    ensures !result.status.Other? ==> Counted(r) == Counted(s) + 1
    ensures r.created == s.created + (if result.status == Created then 1 else 0)
    ensures r.updated == s.updated + (if result.status == Updated then 1 else 0)
    ensures r.unchangedCount == s.unchangedCount + (if result.status == Unchanged then 1 else 0)
    ensures r.skipped == s.skipped + (if result.status == Skipped then 1 else 0)
    ensures r.errors == s.errors + (if result.status == Error then 1 else 0)
    ensures r.projectsProcessed == s.projectsProcessed
    ensures r.changes == s.changes +
              (if result.status in {Created, Updated, Error}
               then [ChangeDetail(project, configType, result.status.Name(), MessageText(result))] else [])
    ensures r.errorMessages == s.errorMessages +
              (if result.status == Error && HasMessage(result)
               then [project + "/" + configType + ": " + result.message.value] else [])
  {
    var change := ChangeDetail(project, configType, result.status.Name(), MessageText(result));
    match result.status
    case Created => s.(created := s.created + 1, changes := s.changes + [change])
    case Updated => s.(updated := s.updated + 1, changes := s.changes + [change])
    case Unchanged => s.(unchangedCount := s.unchangedCount + 1)
    case Skipped => s.(skipped := s.skipped + 1)
    case Error =>
      s.(errors := s.errors + 1, changes := s.changes + [change],
         errorMessages := s.errorMessages + (if HasMessage(result) then [project + "/" + configType + ": " + result.message.value] else []))
    case Other(_) => s
  }

  /** `ApplySummary`, updated in place across the projects and config types. */
  class ApplySummary {
    var created: nat
    var updated: nat
    var unchangedCount: nat
    var skipped: nat
    var errors: nat
    var projectsProcessed: nat
    var errorMessages: seq<string>
    var changes: seq<ChangeDetail>

    function State(): Summary
      reads this
    {
      Summary(created, updated, unchangedCount, skipped, errors, projectsProcessed, errorMessages, changes)
    }

    /** `ApplySummary()`: every counter zero, both lists empty. */
    constructor ()
      ensures State() == EMPTY_SUMMARY
    {
      created, updated, unchangedCount, skipped, errors, projectsProcessed := 0, 0, 0, 0, 0, 0;
      errorMessages, changes := [], [];
    }
  }

  /** `_update_summary` on the summary object. */
  method UpdateSummary(summary: ApplySummary, result: ApplyResult, projectName: string, configType: string)
    modifies summary
    ensures summary.State() == RecordResult(old(summary.State()), result, projectName, configType)
  {
    if result.status == Created {
      summary.created := summary.created + 1;
      summary.changes := summary.changes + [ChangeDetail(projectName, configType, "created", MessageText(result))];
    } else if result.status == Updated {
      summary.updated := summary.updated + 1;
      summary.changes := summary.changes + [ChangeDetail(projectName, configType, "updated", MessageText(result))];
    } else if result.status == Unchanged {
      summary.unchangedCount := summary.unchangedCount + 1;
    } else if result.status == Skipped {
      summary.skipped := summary.skipped + 1;
    } else if result.status == Error {
      summary.errors := summary.errors + 1;
      summary.changes := summary.changes + [ChangeDetail(projectName, configType, "error", MessageText(result))];
      if HasMessage(result) {
        summary.errorMessages := summary.errorMessages + [projectName + "/" + configType + ": " + result.message.value];
      }
    }
  }

  // ---------------------------------------------------------------------
  // `_process_project` and `apply_configs`
  // ---------------------------------------------------------------------

  /** What `handler.apply(project, context)` returns for a config type of a project, as the run reaches it. */
  type HandlerApply = (Project, string) -> ApplyResult

  /** Whether a project directory exists. */
  type DirExists = string -> bool

  /** A subprocess the run starts: `uv sync` in a project, `git add` of some files of a project. */
  datatype Action = UvSync(projectPath: string) | GitAdd(projectPath: string, files: seq<string>)

  /** The state of one project's config loop: the summary, whether a pyproject was updated, the files to `git add`. */
  datatype ProjectRun = ProjectRun(summary: Summary, pyprojectUpdated: bool, filesToAdd: seq<string>)

  /** Whether a config type writes pyproject.toml, so that an update calls for `uv sync`. */
  predicate TouchesPyproject(configType: string)
  {
    configType == "pyproject" || configType == "my-py-lib"
  }

  /** Whether the show-diff option stops a config type before `apply`. */
  predicate DiffOnly(opts: ApplyOptions)
  {
    opts.showDiff && opts.dryRun
  }

  /**
   * One config type: an unknown one counts an error and nothing else; with
   * diff-only options nothing changes; otherwise the handler's result is
   * recorded, a pyproject update noted and, for git add on a real run, the
   * output of a created or updated file collected.
   */
  function ConfigStep(st: ProjectRun, p: Project, configType: string, opts: ApplyOptions, apply: HandlerApply): (r: ProjectRun)
    ensures HandlerFor(configType).None? ==> r == st.(summary := st.summary.(errors := st.summary.errors + 1))
    ensures HandlerFor(configType).Some? && DiffOnly(opts) ==> r == st
  {
    match HandlerFor(configType)
    case None => st.(summary := st.summary.(errors := st.summary.errors + 1))
    case Some(h) =>
      if DiffOnly(opts) then st
      else
        var result := apply(p, configType);
        ProjectRun(
          RecordResult(st.summary, result, p.name, configType),
          st.pyprojectUpdated || (TouchesPyproject(configType) && result.status == Updated),
          st.filesToAdd + (if opts.gitAdd && result.status in {Created, Updated} && !opts.dryRun then [h.OutputPath(p)] else []))
  }

  /** The config loop over the target config types, in order. */
  function ConfigsRun(st: ProjectRun, p: Project, targets: seq<string>, opts: ApplyOptions, apply: HandlerApply): ProjectRun
    decreases |targets|
  {
    if |targets| == 0 then st
    else ConfigStep(ConfigsRun(st, p, targets[..|targets| - 1], opts, apply), p, targets[|targets| - 1], opts, apply)
  }

  /** The message of a project whose directory is missing. */
  function DirMissing(projectName: string): string
  {
    projectName + ": ディレクトリが見つかりません"
  }

  /**
   * `_process_project`: a missing directory counts one error with its
   * message and runs nothing; otherwise the project counts as processed, its
   * target config types run, `uv sync` follows a pyproject update on a real
   * run with sync enabled, and `git add` gets the collected files if any.
   */
  function ProjectOutcome(s: Summary, p: Project, defaults: Defaults, configTypes: Option<seq<string>>,
                          opts: ApplyOptions, dirExists: DirExists, apply: HandlerApply): (r: (Summary, seq<Action>))
    ensures !dirExists(ProjectPath(p)) ==>
              r == (s.(errors := s.errors + 1, errorMessages := s.errorMessages + [DirMissing(p.name)]), [])
    ensures dirExists(ProjectPath(p)) ==> r.0.projectsProcessed == s.projectsProcessed + 1
  {
    var path := ProjectPath(p);
    if !dirExists(path) then (s.(errors := s.errors + 1, errorMessages := s.errorMessages + [DirMissing(p.name)]), [])
    else
      var targets := TargetConfigs(EffectiveConfigs(p, defaults), configTypes);
      var run := ConfigsRun(ProjectRun(s.(projectsProcessed := s.projectsProcessed + 1), false, []), p, targets, opts, apply);
      ConfigsRunKeepsProcessed(ProjectRun(s.(projectsProcessed := s.projectsProcessed + 1), false, []), p, targets, opts, apply);
      (run.summary, ProjectActions(path, run.pyprojectUpdated, run.filesToAdd, opts))
  }

  /** The outcome of a project whose directory exists, step by step. */
  lemma ProjectOutcomeFound(s: Summary, p: Project, defaults: Defaults, configTypes: Option<seq<string>>,
                            opts: ApplyOptions, dirExists: DirExists, apply: HandlerApply)
    requires dirExists(ProjectPath(p))
    ensures var run := ConfigsRun(ProjectRun(s.(projectsProcessed := s.projectsProcessed + 1), false, []), p,
                                  TargetConfigs(EffectiveConfigs(p, defaults), configTypes), opts, apply);
            ProjectOutcome(s, p, defaults, configTypes, opts, dirExists, apply) == (run.summary, ProjectActions(ProjectPath(p), run.pyprojectUpdated, run.filesToAdd, opts))
  {
  }

  /** `uv sync` after a pyproject update on a real run with sync enabled, then `git add` of the collected files. */
  function ProjectActions(path: string, pyprojectUpdated: bool, filesToAdd: seq<string>, opts: ApplyOptions): seq<Action>
  {
    (if pyprojectUpdated && !opts.dryRun && opts.runSync then [UvSync(path)] else [])
    + (if |filesToAdd| > 0 then [GitAdd(path, filesToAdd)] else [])
  }

  lemma ConfigsRunStep(st: ProjectRun, p: Project, targets: seq<string>, i: nat, opts: ApplyOptions, apply: HandlerApply)
    requires i < |targets|
    ensures ConfigsRun(st, p, targets[..i + 1], opts, apply) == ConfigStep(ConfigsRun(st, p, targets[..i], opts, apply), p, targets[i], opts, apply)
  {
    assert targets[..i + 1][..i] == targets[..i];
  }

  lemma {:induction false} ConfigsRunKeepsProcessed(st: ProjectRun, p: Project, targets: seq<string>, opts: ApplyOptions, apply: HandlerApply)
    ensures ConfigsRun(st, p, targets, opts, apply).summary.projectsProcessed == st.summary.projectsProcessed
    decreases |targets|
  {
    if |targets| > 0 {
      ConfigsRunKeepsProcessed(st, p, targets[..|targets| - 1], opts, apply);
    }
  }

  /** The projects of the run, one after the other. */
  function ProjectsRun(s: Summary, ps: seq<Project>, defaults: Defaults, configTypes: Option<seq<string>>,
                       opts: ApplyOptions, dirExists: DirExists, apply: HandlerApply): (Summary, seq<Action>)
    decreases |ps|
  {
    if |ps| == 0 then (s, [])
    else
      var (s', acts) := ProjectsRun(s, ps[..|ps| - 1], defaults, configTypes, opts, dirExists, apply);
      var (s'', more) := ProjectOutcome(s', ps[|ps| - 1], defaults, configTypes, opts, dirExists, apply);
      (s'', acts + more)
  }

  lemma ProjectsRunStep(s: Summary, ps: seq<Project>, i: nat, defaults: Defaults, configTypes: Option<seq<string>>,
                        opts: ApplyOptions, dirExists: DirExists, apply: HandlerApply)
    requires i < |ps|
    ensures var (s', acts) := ProjectsRun(s, ps[..i], defaults, configTypes, opts, dirExists, apply);
            var (s'', more) := ProjectOutcome(s', ps[i], defaults, configTypes, opts, dirExists, apply);
            ProjectsRun(s, ps[..i + 1], defaults, configTypes, opts, dirExists, apply) == (s'', acts + more)
  {
    assert ps[..i + 1][..i] == ps[..i];
  }

  /** `apply_configs`: the selected projects run in order from an empty summary; no options means the defaults. */
  function ApplyConfigsOutcome(config: Config, options: Option<ApplyOptions>, projects: Option<seq<string>>,
                               configTypes: Option<seq<string>>, dirExists: DirExists, apply: HandlerApply)
    : (Summary, seq<Action>)
  {
    ProjectsRun(EMPTY_SUMMARY, TargetProjects(config.projects, projects), config.defaults, configTypes,
                options.GetOr(DEFAULT_APPLY_OPTIONS), dirExists, apply)
  }

  // ---------------------------------------------------------------------
  // What the loops promise
  // ---------------------------------------------------------------------

  /** The number of config types the registry does not know. */
  function UnknownCount(targets: seq<string>): nat
    decreases |targets|
  {
    if |targets| == 0 then 0
    else UnknownCount(targets[..|targets| - 1]) + (if HandlerFor(targets[|targets| - 1]).None? then 1 else 0)
  }

  /**
   * Every target config type is counted once when `apply` runs and every
   * result has one of the five statuses; with diff-only options the only
   * change is one error per unknown config type.
   */
  lemma {:induction false} ConfigsRunCounts(st: ProjectRun, p: Project, targets: seq<string>, opts: ApplyOptions, apply: HandlerApply)
    ensures !DiffOnly(opts) && (forall i :: 0 <= i < |targets| ==> !apply(p, targets[i]).status.Other?) ==>
              Counted(ConfigsRun(st, p, targets, opts, apply).summary) == Counted(st.summary) + |targets|
    ensures DiffOnly(opts) ==>
              ConfigsRun(st, p, targets, opts, apply)
                == st.(summary := st.summary.(errors := st.summary.errors + UnknownCount(targets)))
    decreases |targets|
  {
    if |targets| > 0 {
      var init := targets[..|targets| - 1];
      ConfigsRunCounts(st, p, init, opts, apply);
      if !DiffOnly(opts) && (forall i :: 0 <= i < |targets| ==> !apply(p, targets[i]).status.Other?) {
        assert forall i :: 0 <= i < |init| ==> init[i] == targets[i];
        assert !apply(p, targets[|targets| - 1]).status.Other?;
      }
    }
  }

  /** Some pyproject or my-py-lib config type among the targets reported updated. */
  predicate PyprojectChanged(p: Project, targets: seq<string>, apply: HandlerApply)
  {
    exists i :: 0 <= i < |targets| && TouchesPyproject(targets[i]) && apply(p, targets[i]).status == Updated
  }

  lemma PyprojectChangedSplit(p: Project, targets: seq<string>, apply: HandlerApply)
    requires |targets| > 0
    ensures var last := targets[|targets| - 1];
            PyprojectChanged(p, targets, apply) <==>
              PyprojectChanged(p, targets[..|targets| - 1], apply) || (TouchesPyproject(last) && apply(p, last).status == Updated)
  {
    var init := targets[..|targets| - 1];
    if PyprojectChanged(p, targets, apply) {
      var i :| 0 <= i < |targets| && TouchesPyproject(targets[i]) && apply(p, targets[i]).status == Updated;
      if i < |init| {
        assert init[i] == targets[i];
      }
    }
    if PyprojectChanged(p, init, apply) {
      var i :| 0 <= i < |init| && TouchesPyproject(init[i]) && apply(p, init[i]).status == Updated;
      assert targets[i] == init[i];
    }
  }

  /**
   * `uv sync` is due exactly when a pyproject or my-py-lib config type ran
   * `apply` and reported updated.
   */
  lemma {:induction false} ConfigsRunSync(st: ProjectRun, p: Project, targets: seq<string>, opts: ApplyOptions, apply: HandlerApply)
    ensures ConfigsRun(st, p, targets, opts, apply).pyprojectUpdated <==>
              st.pyprojectUpdated || (!DiffOnly(opts) && PyprojectChanged(p, targets, apply))
    decreases |targets|
  {
    if |targets| > 0 {
      ConfigsRunSync(st, p, targets[..|targets| - 1], opts, apply);
      PyprojectChangedSplit(p, targets, apply);
    }
  }

  /** The outputs collected for `git add`: those of the known config types whose result was created or updated. */
  function AddedOutputs(p: Project, targets: seq<string>, apply: HandlerApply): seq<string>
    decreases |targets|
  {
    if |targets| == 0 then []
    else
      var c := targets[|targets| - 1];
      AddedOutputs(p, targets[..|targets| - 1], apply)
      + (if HandlerFor(c).Some? && apply(p, c).status in {Created, Updated} then [HandlerFor(c).value.OutputPath(p)] else [])
  }

  /**
   * Files are collected for `git add` only with git add on a real run, and
   * then they are the outputs of the created or updated config types, in order.
   */
  lemma {:induction false} ConfigsRunGitAdd(st: ProjectRun, p: Project, targets: seq<string>, opts: ApplyOptions, apply: HandlerApply)
    ensures !(opts.gitAdd && !opts.dryRun) ==> ConfigsRun(st, p, targets, opts, apply).filesToAdd == st.filesToAdd
    ensures opts.gitAdd && !opts.dryRun ==>
              ConfigsRun(st, p, targets, opts, apply).filesToAdd == st.filesToAdd + AddedOutputs(p, targets, apply)
    decreases |targets|
  {
    if |targets| > 0 {
      ConfigsRunGitAdd(st, p, targets[..|targets| - 1], opts, apply);
    }
  }

  /** Whether the config type at `i` is known, reported created or updated, and writes `f`. */
  predicate AddsAt(p: Project, targets: seq<string>, apply: HandlerApply, f: string, i: int)
  {
    0 <= i < |targets| && HandlerFor(targets[i]).Some? && apply(p, targets[i]).status in {Created, Updated}
    && HandlerFor(targets[i]).value.OutputPath(p) == f
  }

  lemma AddsAtPrefix(p: Project, targets: seq<string>, apply: HandlerApply, f: string, i: int)
    requires |targets| > 0
    ensures i < |targets| - 1 ==> (AddsAt(p, targets[..|targets| - 1], apply, f, i) <==> AddsAt(p, targets, apply, f, i))
  {
    if 0 <= i < |targets| - 1 {
      assert targets[..|targets| - 1][i] == targets[i];
    }
  }

  /** Each known config type adds the output of a created or updated file, and only such outputs. */
  lemma {:induction false} AddedOutputsSpec(p: Project, targets: seq<string>, apply: HandlerApply, f: string)
    ensures f in AddedOutputs(p, targets, apply) <==> exists i :: AddsAt(p, targets, apply, f, i)
    decreases |targets|
  {
    if |targets| > 0 {
      var init := targets[..|targets| - 1];
      var n := |targets| - 1;
      AddedOutputsSpec(p, init, apply, f);
      if exists i :: AddsAt(p, targets, apply, f, i) {
        var i :| AddsAt(p, targets, apply, f, i);
        AddsAtPrefix(p, targets, apply, f, i);
        if i == n {
          assert f in AddedOutputs(p, targets, apply);
        }
      }
      if exists i :: AddsAt(p, init, apply, f, i) {
        var i :| AddsAt(p, init, apply, f, i);
        AddsAtPrefix(p, targets, apply, f, i);
      }
      if f in AddedOutputs(p, targets, apply) && f !in AddedOutputs(p, init, apply) {
        assert AddsAt(p, targets, apply, f, n);
      }
    }
  }

  // ---------------------------------------------------------------------
  // The loops
  // ---------------------------------------------------------------------

  /** One config type of `_process_project`'s loop. */
  method RunConfig(p: Project, configType: string, opts: ApplyOptions, apply: HandlerApply, summary: ApplySummary,
                   pyprojectUpdated: bool, filesToAdd: seq<string>)
    returns (pyprojectUpdated': bool, filesToAdd': seq<string>)
    modifies summary
    ensures ProjectRun(summary.State(), pyprojectUpdated', filesToAdd')
              == ConfigStep(ProjectRun(old(summary.State()), pyprojectUpdated, filesToAdd), p, configType, opts, apply)
  {
    pyprojectUpdated', filesToAdd' := pyprojectUpdated, filesToAdd;
    var handler := HandlerFor(configType);
    if handler.None? {
      summary.errors := summary.errors + 1;
    } else if !DiffOnly(opts) {
      var result := apply(p, configType);
      UpdateSummary(summary, result, p.name, configType);
      if TouchesPyproject(configType) && result.status == Updated {
        pyprojectUpdated' := true;
      }
      if opts.gitAdd && result.status in {Created, Updated} && !opts.dryRun {
        filesToAdd' := filesToAdd + [handler.value.OutputPath(p)];
      }
    }
  }

  /** The config loop of `_process_project`: every target in order, from no pyproject update and no files to add. */
  method RunConfigs(p: Project, targets: seq<string>, opts: ApplyOptions, apply: HandlerApply, summary: ApplySummary)
    returns (pyprojectUpdated: bool, filesToAdd: seq<string>)
    modifies summary
    ensures ProjectRun(summary.State(), pyprojectUpdated, filesToAdd)
              == ConfigsRun(ProjectRun(old(summary.State()), false, []), p, targets, opts, apply)
  {
    pyprojectUpdated := false;
    filesToAdd := [];
    ghost var start := ProjectRun(summary.State(), false, []);
    var i := 0;
    while i < |targets|
      invariant 0 <= i <= |targets|
      invariant ProjectRun(summary.State(), pyprojectUpdated, filesToAdd) == ConfigsRun(start, p, targets[..i], opts, apply)
    {
      ConfigsRunStep(start, p, targets, i, opts, apply);
      pyprojectUpdated, filesToAdd := RunConfig(p, targets[i], opts, apply, summary, pyprojectUpdated, filesToAdd);
      i := i + 1;
    }
    assert targets[..i] == targets;
  }

  /** The commands that close `_process_project`: `uv sync`, then `git add`. */
  method FollowUp(path: string, pyprojectUpdated: bool, filesToAdd: seq<string>, opts: ApplyOptions) returns (actions: seq<Action>)
    ensures actions == ProjectActions(path, pyprojectUpdated, filesToAdd, opts)
    ensures UvSync(path) in actions <==> pyprojectUpdated && !opts.dryRun && opts.runSync
    ensures GitAdd(path, filesToAdd) in actions <==> |filesToAdd| > 0
  {
    actions := [];
    if pyprojectUpdated && !opts.dryRun && opts.runSync {
      actions := actions + [UvSync(path)];
    }
    if |filesToAdd| > 0 {
      actions := actions + [GitAdd(path, filesToAdd)];
    }
  }

  /** `_process_project` on the summary object. */
  method ProcessProject(p: Project, defaults: Defaults, configTypes: Option<seq<string>>, opts: ApplyOptions,
                        dirExists: DirExists, apply: HandlerApply, summary: ApplySummary) returns (actions: seq<Action>)
    modifies summary
    ensures (summary.State(), actions) == ProjectOutcome(old(summary.State()), p, defaults, configTypes, opts, dirExists, apply)
  {
    ghost var s0 := summary.State();
    var path := ProjectPath(p);
    if !dirExists(path) {
      summary.errors := summary.errors + 1;
      summary.errorMessages := summary.errorMessages + [DirMissing(p.name)];
      return [];
    }
    summary.projectsProcessed := summary.projectsProcessed + 1;
    ghost var start := ProjectRun(summary.State(), false, []);
    assert start.summary == s0.(projectsProcessed := s0.projectsProcessed + 1);
    var projectConfigs := GetProjectConfigs(p, defaults);
    var targets := TargetConfigs(projectConfigs, configTypes);
    var pyprojectUpdated, filesToAdd := RunConfigs(p, targets, opts, apply, summary);
    ghost var run := ProjectRun(summary.State(), pyprojectUpdated, filesToAdd);
    assert run == ConfigsRun(start, p, TargetConfigs(EffectiveConfigs(p, defaults), configTypes), opts, apply);
    actions := FollowUp(path, pyprojectUpdated, filesToAdd, opts);
    ProjectOutcomeFound(s0, p, defaults, configTypes, opts, dirExists, apply);
  }

  /** `apply_configs`: a fresh summary, the selected projects processed in order. */
  method ApplyConfigs(config: Config, options: Option<ApplyOptions>, projects: Option<seq<string>>,
                      configTypes: Option<seq<string>>, dirExists: DirExists, apply: HandlerApply)
    returns (summary: ApplySummary, actions: seq<Action>)
    ensures fresh(summary)
    ensures (summary.State(), actions) == ApplyConfigsOutcome(config, options, projects, configTypes, dirExists, apply)
  {
    var opts := options.GetOr(DEFAULT_APPLY_OPTIONS);
    summary := new ApplySummary();
    var targets := TargetProjects(config.projects, projects);
    actions := [];
    var i := 0;
    while i < |targets|
      invariant 0 <= i <= |targets|
      invariant (summary.State(), actions) == ProjectsRun(EMPTY_SUMMARY, targets[..i], config.defaults, configTypes, opts, dirExists, apply)
    {
      ProjectsRunStep(EMPTY_SUMMARY, targets, i, config.defaults, configTypes, opts, dirExists, apply);
      var more := ProcessProject(targets[i], config.defaults, configTypes, opts, dirExists, apply, summary);
      actions := actions + more;
      i := i + 1;
    }
    assert targets[..i] == targets;
  }
}
