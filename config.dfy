/**
 * The configuration data model: options records, `Defaults`, `Project`,
 * `Config`, their construction from a parsed configuration dictionary with
 * the documented defaults, and the project lookups.
 */
module ProjectConfig {
  import opened Wrappers
  import opened Assoc

  /** A value of the parsed configuration file (YAML mapping, list, scalar). */
  datatype Raw = RNull | RBool(b: bool) | RStr(s: string) | RList(items: seq<Raw>) | RDict(entries: Table<Raw>)

  datatype ApplyOptions = ApplyOptions(
    dryRun: bool, backup: bool, showDiff: bool, runSync: bool, gitAdd: bool, gitCommit: bool)

  /** `ApplyOptions()` with every field at its declared default. */
  const DEFAULT_APPLY_OPTIONS := ApplyOptions(
    dryRun := true, backup := false, showDiff := false, runSync := true, gitAdd := false, gitCommit := false)

  datatype GitlabCiEdit = GitlabCiEdit(path: string, value: string)
  datatype GitlabCiOptions = GitlabCiOptions(edits: seq<GitlabCiEdit>)
  datatype PyprojectOptions = PyprojectOptions(preserveSections: seq<string>, extraDevDeps: seq<string>)
  /** Options of the ignore-file handlers (`gitignore`, `dockerignore`). */
  datatype IgnoreOptions = IgnoreOptions(extraLines: seq<string>)
  datatype LicenseOptions = LicenseOptions(kind: string)

  const DEFAULT_PYTHON_VERSION := "3.12"
  const DEFAULT_TEMPLATE_DIR := "./templates"
  const DEFAULT_LICENSE := "Apache-2.0"

  datatype Defaults = Defaults(
    pythonVersion: string,
    configs: seq<string>,
    vars: Table<string>,
    gitlabCi: Option<GitlabCiOptions>)

  const DEFAULT_DEFAULTS := Defaults(DEFAULT_PYTHON_VERSION, [], [], None)

  datatype Project = Project(
    name: string,
    path: string,
    configs: Option<seq<string>>,
    excludeConfigs: seq<string>,
    vars: Table<string>,
    templateOverrides: Table<string>,
    pyproject: Option<PyprojectOptions>,
    gitlabCi: Option<GitlabCiOptions>,
    gitignore: Option<IgnoreOptions>,
    dockerignore: Option<IgnoreOptions>,
    license: LicenseOptions)

  datatype Config = Config(projects: seq<Project>, defaults: Defaults, templateDir: string)
  {
    /** `Config.get_project`: the first project with the given name. */
    function GetProject(name: string): (r: Option<Project>)
      ensures r.None? <==> forall i :: 0 <= i < |projects| ==> projects[i].name != name
      ensures r.Some? ==> (exists i :: 0 <= i < |projects| && projects[i] == r.value
                                    && r.value.name == name
                                    && forall j :: 0 <= j < i ==> projects[j].name != name)
    {
      FirstNamed(projects, name, 0)
    }

    /** `Config.get_project_names`: project names in project order. */
    function GetProjectNames(): (r: seq<string>)
      ensures |r| == |projects|
      ensures forall i :: 0 <= i < |r| ==> r[i] == projects[i].name
    {
      seq(|projects|, i requires 0 <= i < |projects| => projects[i].name)
    }
  }

  function FirstNamed(ps: seq<Project>, name: string, from: nat): (r: Option<Project>)
    requires from <= |ps|
    ensures r.None? <==> forall i :: from <= i < |ps| ==> ps[i].name != name
    ensures r.Some? ==> (exists i :: from <= i < |ps| && ps[i] == r.value && r.value.name == name
                                  && forall j :: from <= j < i ==> ps[j].name != name)
    decreases |ps| - from
  {
    if from == |ps| then None
    else if ps[from].name == name then Some(ps[from])
    else FirstNamed(ps, name, from + 1)
  }

  /** A project can be looked up by name exactly when its name is listed. */
  lemma GetProjectListed(c: Config, name: string)
    ensures c.GetProject(name).Some? <==> name in c.GetProjectNames()
  {
    var names := c.GetProjectNames();
    if name in names {
      var i :| 0 <= i < |names| && names[i] == name;
      assert c.projects[i].name == name;
    }
  }

  // ---- construction from the parsed configuration file ----
  // A value of the wrong shape is rejected with None; the Python code would
  // either raise (missing required key, non-mapping section) or keep the
  // ill-typed value.

  function AsStr(r: Raw): Option<string>
  {
    if r.RStr? then Some(r.s) else None
  }

  function AsStrList(items: seq<Raw>): (r: Option<seq<string>>)
    ensures r.Some? ==> |r.value| == |items| && forall i :: 0 <= i < |items| ==> items[i] == RStr(r.value[i])
    ensures r.None? ==> exists i :: 0 <= i < |items| && !items[i].RStr?
    decreases |items|
  {
    if |items| == 0 then Some([])
    else if !items[0].RStr? then None
    else
      match AsStrList(items[1..])
      case None => None
      case Some(rest) => Some([items[0].s] + rest)
  }

  function AsStrTable(entries: Table<Raw>): (r: Option<Table<string>>)
    ensures r.Some? ==> (|r.value| == |entries|
      && forall i :: 0 <= i < |entries| ==> entries[i] == (r.value[i].0, RStr(r.value[i].1)))
    decreases |entries|
  {
    if |entries| == 0 then Some([])
    else if !entries[0].1.RStr? then None
    else
      match AsStrTable(entries[1..])
      case None => None
      case Some(rest) => Some([(entries[0].0, entries[0].1.s)] + rest)
  }

  /** `data.get(key, default)` for a string field. */
  function StrField(d: Table<Raw>, key: string, default: string): Option<string>
  {
    match Lookup(d, key)
    case None => Some(default)
    case Some(v) => AsStr(v)
  }

  /** `data.get(key, [])` for a list-of-strings field. */
  function StrListField(d: Table<Raw>, key: string): Option<seq<string>>
  {
    match Lookup(d, key)
    case None => Some([])
    case Some(v) => if v.RList? then AsStrList(v.items) else None
  }

  /** `data.get(key, {})` for a string-to-string mapping field. */
  function StrTableField(d: Table<Raw>, key: string): Option<Table<string>>
  {
    match Lookup(d, key)
    case None => Some([])
    case Some(v) => if v.RDict? then AsStrTable(v.entries) else None
  }

  /** `GitlabCiEdit.from_dict`: both keys are required. */
  function GitlabCiEditFromDict(d: Table<Raw>): (r: Option<GitlabCiEdit>)
    ensures r.Some? <==> (Lookup(d, "path").Some? && Lookup(d, "path").value.RStr?
                          && Lookup(d, "value").Some? && Lookup(d, "value").value.RStr?)
    ensures r.Some? ==> (Lookup(d, "path") == Some(RStr(r.value.path))
                      && Lookup(d, "value") == Some(RStr(r.value.value)))
  {
    var p := Lookup(d, "path");
    var v := Lookup(d, "value");
    if p.Some? && p.value.RStr? && v.Some? && v.value.RStr? then Some(GitlabCiEdit(p.value.s, v.value.s))
    else None
  }

  /** `[f(x) for x in items]` where every `f(x)` must succeed. */
  function MapAll<A, B>(items: seq<A>, f: A -> Option<B>): (r: Option<seq<B>>)
    ensures r.Some? ==> |r.value| == |items| && forall i :: 0 <= i < |items| ==> f(items[i]) == Some(r.value[i])
    ensures r.None? ==> exists i :: 0 <= i < |items| && f(items[i]).None?
    decreases |items|
  {
    if |items| == 0 then Some([])
    else
      match (f(items[0]), MapAll(items[1..], f))
      case (Some(x), Some(rest)) =>
        assert forall i :: 1 <= i < |items| ==> items[i] == items[1..][i - 1];
        Some([x] + rest)
      case (None, _) => None
      case (_, None) =>
        assert forall i :: 0 <= i < |items| - 1 ==> items[1..][i] == items[i + 1];
        None
  }

  /** One item of the `edits` list: a dictionary that reads as an edit. */
  function EditOf(item: Raw): Option<GitlabCiEdit>
  {
    if item.RDict? then GitlabCiEditFromDict(item.entries) else None
  }

  /** `GitlabCiOptions.from_dict`: one edit per list item, in order; no key means no edits. */
  function GitlabCiOptionsFromDict(d: Table<Raw>): (r: Option<GitlabCiOptions>)
    ensures !HasKey(d, "edits") ==> r == Some(GitlabCiOptions([]))
    ensures r.Some? && HasKey(d, "edits") ==>
      Lookup(d, "edits").value.RList? && |r.value.edits| == |Lookup(d, "edits").value.items|
      && forall i :: 0 <= i < |r.value.edits| ==> EditOf(Lookup(d, "edits").value.items[i]) == Some(r.value.edits[i])
  {
    match Lookup(d, "edits")
    case None => Some(GitlabCiOptions([]))
    case Some(v) =>
      if !v.RList? then None
      else match MapAll(v.items, EditOf)
        case None => None
        case Some(es) => Some(GitlabCiOptions(es))
  }

  /** `PyprojectOptions.from_dict`: both lists default to empty. */
  function PyprojectOptionsFromDict(d: Table<Raw>): (r: Option<PyprojectOptions>)
    ensures !HasKey(d, "preserve_sections") && !HasKey(d, "extra_dev_deps") ==> r == Some(PyprojectOptions([], []))
    ensures r.Some? ==> (Some(r.value.preserveSections) == StrListField(d, "preserve_sections")
                      && Some(r.value.extraDevDeps) == StrListField(d, "extra_dev_deps"))
  {
    match (StrListField(d, "preserve_sections"), StrListField(d, "extra_dev_deps"))
    case (Some(ps), Some(ed)) => Some(PyprojectOptions(ps, ed))
    case _ => None
  }

  function IgnoreOptionsFromDict(d: Table<Raw>): (r: Option<IgnoreOptions>)
    ensures !HasKey(d, "extra_lines") ==> r == Some(IgnoreOptions([]))
  {
    match StrListField(d, "extra_lines")
    case Some(ls) => Some(IgnoreOptions(ls))
    case None => None
  }

  function LicenseOptionsFromDict(d: Table<Raw>): (r: Option<LicenseOptions>)
    ensures !HasKey(d, "type") ==> r == Some(LicenseOptions(DEFAULT_LICENSE))
  {
    match StrField(d, "type", DEFAULT_LICENSE)
    case Some(t) => Some(LicenseOptions(t))
    case None => None
  }

  /**
   * An optional options section: absent gives `Some(None)`, a mapping is
   * parsed, anything else is rejected.
   */
  function Section<T>(d: Table<Raw>, key: string, parse: Table<Raw> -> Option<T>): (r: Option<Option<T>>)
    ensures !HasKey(d, key) <==> r == Some(None)
  {
    match Lookup(d, key)
    case None => Some(None)
    case Some(v) =>
      if !v.RDict? then None
      else match parse(v.entries)
        case None => None
        case Some(o) => Some(Some(o))
  }

  /** `Defaults.from_dict`. */
  function DefaultsFromDict(d: Table<Raw>): (r: Option<Defaults>)
    ensures r.Some? && !HasKey(d, "python_version") ==> r.value.pythonVersion == DEFAULT_PYTHON_VERSION
    ensures r.Some? && !HasKey(d, "configs") ==> r.value.configs == []
    ensures r.Some? && !HasKey(d, "vars") ==> r.value.vars == []
    ensures r.Some? ==> (r.value.gitlabCi.None? <==> !HasKey(d, "gitlab_ci"))
    ensures d == [] ==> r == Some(DEFAULT_DEFAULTS)
  {
    match (StrField(d, "python_version", DEFAULT_PYTHON_VERSION), StrListField(d, "configs"),
           StrTableField(d, "vars"), Section(d, "gitlab_ci", GitlabCiOptionsFromDict))
    case (Some(pv), Some(cs), Some(vs), Some(gc)) => Some(Defaults(pv, cs, vs, gc))
    case _ => None
  }

  /** `project.get("configs")`: absent or null means "use the defaults". */
  function ConfigsField(d: Table<Raw>): (r: Option<Option<seq<string>>>)
    ensures !HasKey(d, "configs") ==> r == Some(None)
  {
    match Lookup(d, "configs")
    case None => Some(None)
    case Some(v) =>
      if v.RNull? then Some(None)
      else if !v.RList? then None
      else match AsStrList(v.items)
        case None => None
        case Some(cs) => Some(Some(cs))
  }

  /** `Project.from_dict`: `name` and `path` are required, everything else has a default. */
  function ProjectFromDict(d: Table<Raw>): Option<Project>
  {
    var n := Lookup(d, "name");
    var p := Lookup(d, "path");
    var cs := ConfigsField(d);
    var ex := StrListField(d, "exclude_configs");
    var vs := StrTableField(d, "vars");
    var ov := StrTableField(d, "template_overrides");
    var py := Section(d, "pyproject", PyprojectOptionsFromDict);
    var gc := Section(d, "gitlab_ci", GitlabCiOptionsFromDict);
    var gi := Section(d, "gitignore", IgnoreOptionsFromDict);
    var di := Section(d, "dockerignore", IgnoreOptionsFromDict);
    var li := Section(d, "license", LicenseOptionsFromDict);
    if n.Some? && n.value.RStr? && p.Some? && p.value.RStr? && cs.Some? && ex.Some? && vs.Some? && ov.Some?
       && py.Some? && gc.Some? && gi.Some? && di.Some? && li.Some?
    then
      Some(Project(n.value.s, p.value.s, cs.value, ex.value, vs.value, ov.value, py.value, gc.value,
                   gi.value, di.value, li.value.GetOr(LicenseOptions(DEFAULT_LICENSE))))
    else None
  }

  /** What `Project.from_dict` reads: the required `name` and `path`, and the default of every absent field. */
  lemma ProjectFromDictSpec(d: Table<Raw>)
    ensures !HasKey(d, "name") || !HasKey(d, "path") ==> ProjectFromDict(d).None?
    ensures ProjectFromDict(d).Some? ==>
              var p := ProjectFromDict(d).value;
              && Lookup(d, "name") == Some(RStr(p.name)) && Lookup(d, "path") == Some(RStr(p.path))
              && (!HasKey(d, "configs") ==> p.configs.None?)
              && (!HasKey(d, "exclude_configs") ==> p.excludeConfigs == [])
              && (!HasKey(d, "vars") ==> p.vars == [])
              && (!HasKey(d, "template_overrides") ==> p.templateOverrides == [])
              && (p.pyproject.None? <==> !HasKey(d, "pyproject"))
              && (p.gitlabCi.None? <==> !HasKey(d, "gitlab_ci"))
              && (p.gitignore.None? <==> !HasKey(d, "gitignore"))
              && (p.dockerignore.None? <==> !HasKey(d, "dockerignore"))
              && (!HasKey(d, "license") ==> p.license == LicenseOptions(DEFAULT_LICENSE))
  {
  }

  /** One item of the `projects` list: a dictionary that reads as a project. */
  function ProjectOf(item: Raw): Option<Project>
  {
    if item.RDict? then ProjectFromDict(item.entries) else None
  }

  /** `Config.from_dict`. */
  function ConfigFromDict(d: Table<Raw>): (r: Option<Config>)
    ensures r.Some? && !HasKey(d, "defaults") ==> r.value.defaults == DEFAULT_DEFAULTS
    ensures r.Some? && !HasKey(d, "template_dir") ==> r.value.templateDir == DEFAULT_TEMPLATE_DIR
    ensures r.Some? && !HasKey(d, "projects") ==> r.value.projects == []
    ensures r.Some? && HasKey(d, "projects") ==>
      Lookup(d, "projects").value.RList? && |r.value.projects| == |Lookup(d, "projects").value.items|
    ensures d == [] ==> r == Some(Config([], DEFAULT_DEFAULTS, DEFAULT_TEMPLATE_DIR))
  {
    var defaults :=
      match Lookup(d, "defaults")
      case None => Some(DEFAULT_DEFAULTS)
      case Some(v) => if v.RDict? then DefaultsFromDict(v.entries) else None;
    var projects :=
      match Lookup(d, "projects")
      case None => Some([])
      case Some(v) => if v.RList? then MapAll(v.items, ProjectOf) else None;
    match (defaults, projects, StrField(d, "template_dir", DEFAULT_TEMPLATE_DIR))
    case (Some(df), Some(ps), Some(td)) => Some(Config(ps, df, td))
    case _ => None
  }
}
