/**
 * The older applier (`src/applier.py`): the same project × config-type loop
 * as the newer one, but a project's `configs` replace the defaults, there is
 * no exclusion list, no validation, no change records, and no `uv sync` or
 * `git add` afterwards.
 */
module LegacyApplier {
  import opened Wrappers
  import opened ProjectConfig
  import opened HandlerBase
  import LegacyTemplateCopy

  // ---------------------------------------------------------------------
  // The handler registry
  // ---------------------------------------------------------------------

  /** The handler kinds of the older registry. */
  datatype Handler = Copy(kind: LegacyTemplateCopy.Kind) | PyprojectHandler | MyPyLibHandler
  {
    function Name(): string
    {
      match this
      case Copy(k) => k.Name()
      case PyprojectHandler => "pyproject"
      case MyPyLibHandler => "my-py-lib"
    }
  }

  /** The older registry's keys, in declaration order. */
  const REGISTRY_KEYS: seq<string> := [
    "pre-commit", "ruff", "yamllint", "prettier", "python-version", "dockerignore", "gitignore",
    "pyproject", "my-py-lib"]

  /** `HANDLERS.get(config_type)`: a handler exactly for the registry's keys, and its name is the key. */
  function HandlerFor(configType: string): (r: Option<Handler>)
    ensures r.Some? <==> configType in REGISTRY_KEYS
    ensures r.Some? ==> r.value.Name() == configType
  {
    if configType == "pre-commit" then Some(Copy(LegacyTemplateCopy.PreCommit))
    else if configType == "ruff" then Some(Copy(LegacyTemplateCopy.Ruff))
    else if configType == "yamllint" then Some(Copy(LegacyTemplateCopy.Yamllint))
    else if configType == "prettier" then Some(Copy(LegacyTemplateCopy.Prettier))
    else if configType == "python-version" then Some(Copy(LegacyTemplateCopy.PythonVersion))
    else if configType == "dockerignore" then Some(Copy(LegacyTemplateCopy.Dockerignore))
    else if configType == "gitignore" then Some(Copy(LegacyTemplateCopy.Gitignore))
    else if configType == "pyproject" then Some(PyprojectHandler)
    else if configType == "my-py-lib" then Some(MyPyLibHandler)
    else None
  }

  /** Every template-copy handler of the older tree is registered under its own name. */
  lemma CopyKindsRegistered(k: LegacyTemplateCopy.Kind)
    ensures HandlerFor(k.Name()) == Some(Copy(k))
  {
  }

  // ---------------------------------------------------------------------
  // `get_project_configs` and the two filters
  // ---------------------------------------------------------------------

  /**
   * `get_project_configs`: a project that names its config types has
   * exactly those, even none; otherwise the defaults' list.
   */
  function GetProjectConfigs(p: Project, defaults: Defaults): (r: seq<string>)
    ensures p.configs.Some? ==> r == p.configs.value
    ensures p.configs.None? ==> r == defaults.configs
  {
    match p.configs
    case Some(cs) => cs
    case None => defaults.configs
  }

  /** `if projects and name not in projects`: no filter or an empty one selects every project. */
  predicate Selected(filter: Option<seq<string>>, name: string)
  {
    filter.None? || |filter.value| == 0 || name in filter.value
  }

  // ---------------------------------------------------------------------
  // The summary
  // ---------------------------------------------------------------------

  /** The value of the older `ApplySummary` (`unchangedCount` is its `unchanged` counter); it keeps no change records. */
  datatype Summary = Summary(
    created: nat, updated: nat, unchangedCount: nat, skipped: nat, errors: nat, projectsProcessed: nat,
    errorMessages: seq<string>)

  const EMPTY_SUMMARY := Summary(0, 0, 0, 0, 0, 0, [])

  /** The five status counters together. */
  function Counted(s: Summary): nat
  {
    s.created + s.updated + s.unchangedCount + s.skipped + s.errors
  }

  /** A message Python treats as true: present and non-empty. */
  predicate HasMessage(result: ApplyResult)
  {
    result.message.Some? && |result.message.value| > 0
  }

  /**
   * `_update_summary`: a known status adds one to its own counter and to no
   * other, an error with a message adds that message, and an unknown status
   * changes nothing.
   */
  function RecordResult(s: Summary, result: ApplyResult, project: string, configType: string): (r: Summary)
    ensures result.status.Other? ==> r == s
    ensures !result.status.Other? ==> Counted(r) == Counted(s) + 1
    ensures r.created == s.created + (if result.status == Created then 1 else 0)
    ensures r.updated == s.updated + (if result.status == Updated then 1 else 0)
    ensures r.unchangedCount == s.unchangedCount + (if result.status == Unchanged then 1 else 0)
    ensures r.skipped == s.skipped + (if result.status == Skipped then 1 else 0)
    ensures r.errors == s.errors + (if result.status == Error then 1 else 0)
    ensures r.projectsProcessed == s.projectsProcessed
    ensures r.errorMessages == s.errorMessages +
              (if result.status == Error && HasMessage(result)
               then [project + "/" + configType + ": " + result.message.value] else [])
  {
    match result.status
    case Created => s.(created := s.created + 1)
    case Updated => s.(updated := s.updated + 1)
    case Unchanged => s.(unchangedCount := s.unchangedCount + 1)
    case Skipped => s.(skipped := s.skipped + 1)
    case Error =>
      s.(errors := s.errors + 1,
         errorMessages := s.errorMessages + (if HasMessage(result) then [project + "/" + configType + ": " + result.message.value] else []))
    case Other(_) => s
  }

  /** The older `ApplySummary`, updated in place across the projects and config types. */
  class ApplySummary {
    var created: nat
    var updated: nat
    var unchangedCount: nat
    var skipped: nat
    var errors: nat
    var projectsProcessed: nat
    var errorMessages: seq<string>

    function State(): Summary
      reads this
    {
      Summary(created, updated, unchangedCount, skipped, errors, projectsProcessed, errorMessages)
    }

    /** `ApplySummary()`: every counter zero, no messages. */
    constructor ()
      ensures State() == EMPTY_SUMMARY
    {
      created, updated, unchangedCount, skipped, errors, projectsProcessed := 0, 0, 0, 0, 0, 0;
      errorMessages := [];
    }
  }

  /** `_update_summary` on the summary object. */
  method UpdateSummary(summary: ApplySummary, result: ApplyResult, projectName: string, configType: string)
    modifies summary
    ensures summary.State() == RecordResult(old(summary.State()), result, projectName, configType)
  {
    if result.status == Created {
      summary.created := summary.created + 1;
    } else if result.status == Updated {
      summary.updated := summary.updated + 1;
    } else if result.status == Unchanged {
      summary.unchangedCount := summary.unchangedCount + 1;
    } else if result.status == Skipped {
      summary.skipped := summary.skipped + 1;
    } else if result.status == Error {
      summary.errors := summary.errors + 1;
      if HasMessage(result) {
        summary.errorMessages := summary.errorMessages + [projectName + "/" + configType + ": " + result.message.value];
      }
    }
  }

  // ---------------------------------------------------------------------
  // `apply_configs` as functions
  // ---------------------------------------------------------------------

  /** The result of `handler.apply(project, context)` for a project and a config type, the context being fixed for the run. */
  type HandlerApply = (Project, string) -> ApplyResult
  /** Whether a project directory exists. */
  type DirExists = string -> bool

  /**
   * One config type of a project: one outside the type filter is passed
   * over; an unknown one counts an error without a message; with show-diff
   * nothing is counted; otherwise the handler's result is recorded.
   */
  function ConfigStep(s: Summary, p: Project, configType: string, configTypes: Option<seq<string>>,
                      showDiff: bool, apply: HandlerApply): (r: Summary)
    ensures !Selected(configTypes, configType) ==> r == s
    ensures Selected(configTypes, configType) && HandlerFor(configType).None? ==> r == s.(errors := s.errors + 1)
    ensures Selected(configTypes, configType) && HandlerFor(configType).Some? && showDiff ==> r == s
  {
    if !Selected(configTypes, configType) then s
    else if HandlerFor(configType).None? then s.(errors := s.errors + 1)
    else if showDiff then s
    else RecordResult(s, apply(p, configType), p.name, configType)
  }

  /** The config loop of one project over its config types, in order. */
  function ConfigsRun(s: Summary, p: Project, configs: seq<string>, configTypes: Option<seq<string>>,
                      showDiff: bool, apply: HandlerApply): Summary
    decreases |configs|
  {
    if |configs| == 0 then s
    else ConfigStep(ConfigsRun(s, p, configs[..|configs| - 1], configTypes, showDiff, apply),
                    p, configs[|configs| - 1], configTypes, showDiff, apply)
  }

  /** The message of a project whose directory is missing. */
  function DirMissing(projectName: string): string
  {
    projectName + ": ディレクトリが見つかりません"
  }

  /**
   * One project of `apply_configs`: one outside the project filter is passed
   * over; a missing directory counts one error with its message and leaves
   * the processed count alone; otherwise the project counts as processed and
   * its config types run.
   */
  function ProjectStep(s: Summary, p: Project, defaults: Defaults, projects: Option<seq<string>>,
                       configTypes: Option<seq<string>>, showDiff: bool, dirExists: DirExists, apply: HandlerApply)
    : (r: Summary)
    ensures !Selected(projects, p.name) ==> r == s
    ensures Selected(projects, p.name) && !dirExists(ProjectPath(p)) ==>
              r == s.(errors := s.errors + 1, errorMessages := s.errorMessages + [DirMissing(p.name)])
  {
    if !Selected(projects, p.name) then s
    else if !dirExists(ProjectPath(p)) then s.(errors := s.errors + 1, errorMessages := s.errorMessages + [DirMissing(p.name)])
    else ConfigsRun(s.(projectsProcessed := s.projectsProcessed + 1), p, GetProjectConfigs(p, defaults), configTypes, showDiff, apply)
  }

  /** The projects of the run, one after the other. */
  function ProjectsRun(s: Summary, ps: seq<Project>, defaults: Defaults, projects: Option<seq<string>>,
                       configTypes: Option<seq<string>>, showDiff: bool, dirExists: DirExists, apply: HandlerApply): Summary
    decreases |ps|
  {
    if |ps| == 0 then s
    else ProjectStep(ProjectsRun(s, ps[..|ps| - 1], defaults, projects, configTypes, showDiff, dirExists, apply),
                     ps[|ps| - 1], defaults, projects, configTypes, showDiff, dirExists, apply)
  }

  /** `apply_configs`: every configured project in order, from an empty summary. */
  function ApplyConfigsOutcome(config: Config, projects: Option<seq<string>>, configTypes: Option<seq<string>>,
                               showDiff: bool, dirExists: DirExists, apply: HandlerApply): Summary
  {
    ProjectsRun(EMPTY_SUMMARY, config.projects, config.defaults, projects, configTypes, showDiff, dirExists, apply)
  }

  // ---------------------------------------------------------------------
  // What the loops promise
  // ---------------------------------------------------------------------

  /** The number of config types the type filter lets through. */
  function SelectedCount(configs: seq<string>, configTypes: Option<seq<string>>): nat
    decreases |configs|
  {
    if |configs| == 0 then 0
    else SelectedCount(configs[..|configs| - 1], configTypes) + (if Selected(configTypes, configs[|configs| - 1]) then 1 else 0)
  }

  /** The number of config types the type filter lets through and the registry does not know. */
  function UnknownCount(configs: seq<string>, configTypes: Option<seq<string>>): nat
    decreases |configs|
  {
    if |configs| == 0 then 0
    else
      var c := configs[|configs| - 1];
      UnknownCount(configs[..|configs| - 1], configTypes) + (if Selected(configTypes, c) && HandlerFor(c).None? then 1 else 0)
  }

  /**
   * Without show-diff, and when every handler reports one of the five
   * statuses, each config type the filter lets through is counted exactly
   * once; the processed count and, apart from error results, the messages
   * are left alone.
   */
  lemma {:induction false} ConfigsRunCounts(s: Summary, p: Project, configs: seq<string>, configTypes: Option<seq<string>>,
                                            apply: HandlerApply)
    requires forall i :: 0 <= i < |configs| ==> !apply(p, configs[i]).status.Other?
    ensures Counted(ConfigsRun(s, p, configs, configTypes, false, apply)) == Counted(s) + SelectedCount(configs, configTypes)
    ensures ConfigsRun(s, p, configs, configTypes, false, apply).projectsProcessed == s.projectsProcessed
    decreases |configs|
  {
    if |configs| > 0 {
      var init := configs[..|configs| - 1];
      assert forall i :: 0 <= i < |init| ==> init[i] == configs[i];
      ConfigsRunCounts(s, p, init, configTypes, apply);
    }
  }

  /**
   * With show-diff, `apply` is never consulted: the run is the same for
   * every handler, and only the unknown config types count, as errors.
   */
  lemma {:induction false} DiffRunIgnoresApply(s: Summary, p: Project, configs: seq<string>, configTypes: Option<seq<string>>,
                                               apply: HandlerApply, apply': HandlerApply)
    ensures ConfigsRun(s, p, configs, configTypes, true, apply) == ConfigsRun(s, p, configs, configTypes, true, apply')
    ensures ConfigsRun(s, p, configs, configTypes, true, apply) == s.(errors := s.errors + UnknownCount(configs, configTypes))
    decreases |configs|
  {
    if |configs| > 0 {
      DiffRunIgnoresApply(s, p, configs[..|configs| - 1], configTypes, apply, apply');
    }
  }

  /** A project that names no config types, even with non-empty defaults, only counts as processed. */
  lemma EmptyConfigsRunNothing(s: Summary, p: Project, defaults: Defaults, projects: Option<seq<string>>,
                               configTypes: Option<seq<string>>, showDiff: bool, dirExists: DirExists, apply: HandlerApply)
    requires p.configs == Some([]) && Selected(projects, p.name) && dirExists(ProjectPath(p))
    ensures ProjectStep(s, p, defaults, projects, configTypes, showDiff, dirExists, apply)
              == s.(projectsProcessed := s.projectsProcessed + 1)
  {
    assert GetProjectConfigs(p, defaults) == [];
  }

  /** The number of selected projects whose directory exists. */
  function ProcessedCount(ps: seq<Project>, projects: Option<seq<string>>, dirExists: DirExists): nat
    decreases |ps|
  {
    if |ps| == 0 then 0
    else
      var p := ps[|ps| - 1];
      ProcessedCount(ps[..|ps| - 1], projects, dirExists) + (if Selected(projects, p.name) && dirExists(ProjectPath(p)) then 1 else 0)
  }

  /** The projects processed are exactly the selected ones whose directory exists. */
  lemma {:induction false} ProjectsRunProcessed(s: Summary, ps: seq<Project>, defaults: Defaults, projects: Option<seq<string>>,
                                                configTypes: Option<seq<string>>, showDiff: bool, dirExists: DirExists,
                                                apply: HandlerApply)
    ensures ProjectsRun(s, ps, defaults, projects, configTypes, showDiff, dirExists, apply).projectsProcessed
              == s.projectsProcessed + ProcessedCount(ps, projects, dirExists)
    decreases |ps|
  {
    if |ps| > 0 {
      var init := ps[..|ps| - 1];
      var p := ps[|ps| - 1];
      ProjectsRunProcessed(s, init, defaults, projects, configTypes, showDiff, dirExists, apply);
      var s' := ProjectsRun(s, init, defaults, projects, configTypes, showDiff, dirExists, apply);
      if Selected(projects, p.name) && dirExists(ProjectPath(p)) {
        ConfigsRunKeepsProcessed(s'.(projectsProcessed := s'.projectsProcessed + 1), p, GetProjectConfigs(p, defaults),
                                 configTypes, showDiff, apply);
      }
    }
  }

  lemma {:induction false} ConfigsRunKeepsProcessed(s: Summary, p: Project, configs: seq<string>, configTypes: Option<seq<string>>,
                                                    showDiff: bool, apply: HandlerApply)
    ensures ConfigsRun(s, p, configs, configTypes, showDiff, apply).projectsProcessed == s.projectsProcessed
    decreases |configs|
  {
    if |configs| > 0 {
      ConfigsRunKeepsProcessed(s, p, configs[..|configs| - 1], configTypes, showDiff, apply);
    }
  }

  // ---------------------------------------------------------------------
  // The loops
  // ---------------------------------------------------------------------

  lemma ConfigsRunStep(s: Summary, p: Project, configs: seq<string>, i: nat, configTypes: Option<seq<string>>,
                       showDiff: bool, apply: HandlerApply)
    requires i < |configs|
    ensures ConfigsRun(s, p, configs[..i + 1], configTypes, showDiff, apply)
              == ConfigStep(ConfigsRun(s, p, configs[..i], configTypes, showDiff, apply), p, configs[i], configTypes, showDiff, apply)
  {
    assert configs[..i + 1][..i] == configs[..i];
  }

  lemma ProjectsRunStep(s: Summary, ps: seq<Project>, i: nat, defaults: Defaults, projects: Option<seq<string>>,
                        configTypes: Option<seq<string>>, showDiff: bool, dirExists: DirExists, apply: HandlerApply)
    requires i < |ps|
    ensures ProjectsRun(s, ps[..i + 1], defaults, projects, configTypes, showDiff, dirExists, apply)
              == ProjectStep(ProjectsRun(s, ps[..i], defaults, projects, configTypes, showDiff, dirExists, apply),
                             ps[i], defaults, projects, configTypes, showDiff, dirExists, apply)
  {
    assert ps[..i + 1][..i] == ps[..i];
  }

  /** One config type of a project's loop, on the summary object. */
  method RunConfig(p: Project, configType: string, configTypes: Option<seq<string>>, showDiff: bool,
                   apply: HandlerApply, summary: ApplySummary)
    modifies summary
    ensures summary.State() == ConfigStep(old(summary.State()), p, configType, configTypes, showDiff, apply)
  {
    if configTypes.Some? && |configTypes.value| > 0 && configType !in configTypes.value {
      return;
    }
    var handler := HandlerFor(configType);
    if handler.None? {
      summary.errors := summary.errors + 1;
      return;
    }
    if showDiff {
      return;
    }
    var result := apply(p, configType);
    UpdateSummary(summary, result, p.name, configType);
  }

  /** One project of `apply_configs`, on the summary object. */
  method RunProject(p: Project, defaults: Defaults, projects: Option<seq<string>>, configTypes: Option<seq<string>>,
                    showDiff: bool, dirExists: DirExists, apply: HandlerApply, summary: ApplySummary)
    modifies summary
    ensures summary.State() == ProjectStep(old(summary.State()), p, defaults, projects, configTypes, showDiff, dirExists, apply)
  {
    if projects.Some? && |projects.value| > 0 && p.name !in projects.value {
      return;
    }
    if !dirExists(ProjectPath(p)) {
      summary.errors := summary.errors + 1;
      summary.errorMessages := summary.errorMessages + [DirMissing(p.name)];
      return;
    }
    ghost var s0 := summary.State();
    summary.projectsProcessed := summary.projectsProcessed + 1;
    assert summary.State() == s0.(projectsProcessed := s0.projectsProcessed + 1);
    var configs := GetProjectConfigs(p, defaults);
    RunConfigs(p, configs, configTypes, showDiff, apply, summary);
  }

  /** The configuration loop of one project, on the summary object. */
  method RunConfigs(p: Project, configs: seq<string>, configTypes: Option<seq<string>>, showDiff: bool,
                    apply: HandlerApply, summary: ApplySummary)
    modifies summary
    ensures summary.State() == ConfigsRun(old(summary.State()), p, configs, configTypes, showDiff, apply)
  {
    ghost var start := summary.State();
    var i := 0;
    while i < |configs|
      invariant 0 <= i <= |configs|
      invariant summary.State() == ConfigsRun(start, p, configs[..i], configTypes, showDiff, apply)
    {
      ConfigsRunStep(start, p, configs, i, configTypes, showDiff, apply);
      RunConfig(p, configs[i], configTypes, showDiff, apply, summary);
      i := i + 1;
    }
    assert configs[..i] == configs;
  }

  /** `apply_configs`: a fresh summary, every configured project processed in order. */
  method ApplyConfigs(config: Config, projects: Option<seq<string>>, configTypes: Option<seq<string>>, showDiff: bool,
                      dirExists: DirExists, apply: HandlerApply)
    returns (summary: ApplySummary)
    ensures fresh(summary)
    ensures summary.State() == ApplyConfigsOutcome(config, projects, configTypes, showDiff, dirExists, apply)
  {
    summary := new ApplySummary();
    var i := 0;
    while i < |config.projects|
      invariant 0 <= i <= |config.projects|
      invariant summary.State()
                  == ProjectsRun(EMPTY_SUMMARY, config.projects[..i], config.defaults, projects, configTypes, showDiff, dirExists, apply)
    {
      ProjectsRunStep(EMPTY_SUMMARY, config.projects, i, config.defaults, projects, configTypes, showDiff, dirExists, apply);
      RunProject(config.projects[i], config.defaults, projects, configTypes, showDiff, dirExists, apply, summary);
      i := i + 1;
    }
    assert config.projects[..i] == config.projects;
  }
}
