/**
 * Dependency version bumping: `name>=version` entries are parsed, the
 * latest version of each package (a PyPI lookup, here an oracle) is
 * normalised to three dot-separated parts, and entries behind it are
 * rewritten; the update records drive the template and project updates and
 * the textual diff.
 */
module DepUpdater {
  import opened Wrappers
  import opened PyStr
  import opened ProjectConfig
  import opened HandlerBase

  // ---------------------------------------------------------------------
  // `_parse_dependency` and `_format_dependency`
  // ---------------------------------------------------------------------

  /** The package-name class `[a-zA-Z0-9_-]`. */
  predicate IsNameChar(c: char)
  {
    ('a' <= c <= 'z') || ('A' <= c <= 'Z') || ('0' <= c <= '9') || c == '_' || c == '-'
  }

  /** The version class `[0-9.]`. */
  predicate IsVersionChar(c: char)
  {
    ('0' <= c <= '9') || c == '.'
  }

  predicate ValidName(s: string)
  {
    |s| > 0 && forall i :: 0 <= i < |s| ==> IsNameChar(s[i])
  }

  predicate ValidVersion(s: string)
  {
    |s| > 0 && forall i :: 0 <= i < |s| ==> IsVersionChar(s[i])
  }

  /** The end of the run of name characters starting at `i`. */
  function NameEnd(s: string, i: nat): (j: nat)
    requires i <= |s|
    ensures i <= j <= |s|
    ensures forall k :: i <= k < j ==> IsNameChar(s[k])
    ensures j < |s| ==> !IsNameChar(s[j])
    decreases |s| - i
  {
    if i < |s| && IsNameChar(s[i]) then NameEnd(s, i + 1) else i
  }

  /** The end of the run of version characters starting at `i`. */
  function VersionEnd(s: string, i: nat): (j: nat)
    requires i <= |s|
    ensures i <= j <= |s|
    ensures forall k :: i <= k < j ==> IsVersionChar(s[k])
    ensures j < |s| ==> !IsVersionChar(s[j])
    decreases |s| - i
  {
    if i < |s| && IsVersionChar(s[i]) then VersionEnd(s, i + 1) else i
  }

  /**
   * `re.match(r"^([a-zA-Z0-9_-]+)>=([0-9.]+)$", dep)`: the name, `>=`, the
   * version, then the end of the string or a single final newline (which
   * Python's `$` also accepts).
   */
  function ParseDependency(dep: string): (r: Option<(string, string)>)
    ensures r.Some? ==> ValidName(r.value.0) && ValidVersion(r.value.1)
  {
    var n := NameEnd(dep, 0);
    if n == 0 || n + 2 > |dep| || dep[n] != '>' || dep[n + 1] != '=' then None
    else
      var v := VersionEnd(dep, n + 2);
      if v == n + 2 then None
      else if v == |dep| || (v + 1 == |dep| && dep[v] == '\n') then Some((dep[..n], dep[n + 2..v]))
      else None
  }

  /** `_format_dependency`. */
  function FormatDependency(package: string, version: string): string
  {
    package + ">=" + version
  }

  /** What the parser accepts is a formatted entry, possibly followed by one newline. */
  lemma ParseSound(dep: string)
    requires ParseDependency(dep).Some?
    ensures var (p, v) := ParseDependency(dep).value;
            dep == FormatDependency(p, v) || dep == FormatDependency(p, v) + "\n"
  {
    var n := NameEnd(dep, 0);
    var v := VersionEnd(dep, n + 2);
    assert dep[..n] + ">=" + dep[n + 2..v] == dep[..v];
    if v + 1 == |dep| {
      assert dep[..v] + "\n" == dep;
    }
  }

  /** A formatted entry over the name and version alphabets parses back, with or without a final newline. */
  lemma ParseFormat(p: string, v: string)
    requires ValidName(p) && ValidVersion(v)
    ensures ParseDependency(FormatDependency(p, v)) == Some((p, v))
    ensures ParseDependency(FormatDependency(p, v) + "\n") == Some((p, v))
  {
    var d := FormatDependency(p, v);
    var n := |p|;
    NameEndOver(d, 0, n);
    VersionEndOver(d, n + 2, |d|);
    assert d[..n] == p && d[n + 2..|d|] == v;
    var d' := d + "\n";
    NameEndOver(d', 0, n);
    VersionEndOver(d', n + 2, |d|);
    assert d'[..n] == p && d'[n + 2..|d|] == v;
  }

  lemma NameEndOver(s: string, i: nat, j: nat)
    requires i <= j <= |s| && (forall k :: i <= k < j ==> IsNameChar(s[k])) && (j < |s| ==> !IsNameChar(s[j]))
    ensures NameEnd(s, i) == j
    decreases j - i
  {
    if i < j {
      NameEndOver(s, i + 1, j);
    }
  }

  lemma VersionEndOver(s: string, i: nat, j: nat)
    requires i <= j <= |s| && (forall k :: i <= k < j ==> IsVersionChar(s[k])) && (j < |s| ==> !IsVersionChar(s[j]))
    ensures VersionEnd(s, i) == j
    decreases j - i
  {
    if i < j {
      VersionEndOver(s, i + 1, j);
    }
  }

  /**
   * The accepted entries are exactly the formatted name/version pairs, with
   * an optional final newline; only without it does formatting the parse
   * give the entry back.
   */
  lemma ParseIff(dep: string, p: string, v: string)
    ensures ParseDependency(dep) == Some((p, v)) <==>
            ValidName(p) && ValidVersion(v) && (dep == FormatDependency(p, v) || dep == FormatDependency(p, v) + "\n")
    ensures ParseDependency(dep) == Some((p, v)) && dep[|dep| - 1] != '\n' ==> FormatDependency(p, v) == dep
  {
    if ParseDependency(dep) == Some((p, v)) {
      ParseSound(dep);
    }
    if ValidName(p) && ValidVersion(v) {
      ParseFormat(p, v);
    }
  }

  // ---------------------------------------------------------------------
  // `_normalize_version`
  // ---------------------------------------------------------------------

  /**
   * `_normalize_version`: the first three dot-separated parts when there are
   * at least three, else the version itself. The result is a prefix of the
   * version.
   */
  function NormalizeVersion(version: string): (r: string)
    ensures |Split(version, '.')| < 3 ==> r == version
    ensures |Split(version, '.')| >= 3 ==> Split(r, '.') == Split(version, '.')[..3]
    ensures r <= version
  {
    var parts := Split(version, '.');
    if |parts| >= 3 then
      JoinSplit(version, '.');
      SplitFieldsFree(version, '.');
      SplitJoin(parts[..3], '.');
      JoinSplitPrefix(parts, 3, ".");
      Join(parts[..3], ".")
    else version
  }

  /** Joining a prefix of the fields gives a prefix of the joined string. */
  lemma {:induction false} JoinSplitPrefix(parts: seq<string>, n: nat, sep: string)
    requires 1 <= n <= |parts|
    ensures Join(parts[..n], sep) <= Join(parts, sep)
    decreases n
  {
    if n > 1 {
      assert parts[..n][1..] == parts[1..][..n - 1];
      JoinSplitPrefix(parts[1..], n - 1, sep);
    }
  }

  /** Normalising twice is normalising once. */
  lemma NormalizeIdempotent(version: string)
    ensures NormalizeVersion(NormalizeVersion(version)) == NormalizeVersion(version)
  {
    var r := NormalizeVersion(version);
    if |Split(version, '.')| >= 3 {
      var r2 := NormalizeVersion(r);
      assert Split(r2, '.') == Split(r, '.');
      JoinSplit(r, '.');
      JoinSplit(r2, '.');
    }
  }

  /** A version over `[0-9.]` stays one after normalisation. */
  lemma NormalizeValid(version: string)
    requires ValidVersion(version)
    ensures ValidVersion(NormalizeVersion(version))
  {
    var r := NormalizeVersion(version);
    if |Split(version, '.')| >= 3 {
      assert |Split(r, '.')| == 3;
    }
    assert forall i :: 0 <= i < |r| ==> r[i] == version[i];
  }

  // ---------------------------------------------------------------------
  // `_check_and_update_deps`
  // ---------------------------------------------------------------------

  /** `DepUpdate`. */
  datatype DepUpdate = DepUpdate(package: string, current: string, latest: string, updated: bool)

  /** `_get_latest_version`: the package's latest version on PyPI, None when the request fails. */
  type VersionLookup = string -> Option<string>

  /**
   * One entry of `_check_and_update_deps`: an unparseable entry or a failed
   * lookup keeps the entry and gives no record; otherwise the record carries
   * the normalised latest version, is marked updated exactly when that
   * differs from the current version, and an updated entry is re-formatted
   * with it.
   */
  function CheckEntry(dep: string, lookup: VersionLookup): (r: (string, Option<DepUpdate>))
    ensures r.1.None? <==> ParseDependency(dep).None? || lookup(ParseDependency(dep).value.0).None?
    ensures r.1.None? ==> r.0 == dep
    ensures r.1.Some? ==>
              var u := r.1.value;
              && ParseDependency(dep) == Some((u.package, u.current))
              && lookup(u.package).Some? && u.latest == NormalizeVersion(lookup(u.package).value)
              && (u.updated <==> u.latest != u.current)
              && r.0 == (if u.updated then FormatDependency(u.package, u.latest) else dep)
  {
    match ParseDependency(dep)
    case None => (dep, None)
    case Some((package, current)) =>
      match lookup(package)
      case None => (dep, None)
      case Some(latest) =>
        var normalized := NormalizeVersion(latest);
        if normalized != current then
          (FormatDependency(package, normalized), Some(DepUpdate(package, current, normalized, true)))
        else (dep, Some(DepUpdate(package, current, normalized, false)))
  }

  /** The new dependency list: each entry replaced by its checked form, in order. */
  function NewDeps(deps: seq<string>, lookup: VersionLookup): (r: seq<string>)
    ensures |r| == |deps|
  {
    seq(|deps|, i requires 0 <= i < |deps| => CheckEntry(deps[i], lookup).0)
  }

  function OptionSeq(u: Option<DepUpdate>): seq<DepUpdate>
  {
    if u.Some? then [u.value] else []
  }

  /** The update records, one per entry that parsed and whose lookup succeeded, in entry order. */
  function Records(deps: seq<string>, lookup: VersionLookup): (r: seq<DepUpdate>)
    ensures |r| <= |deps|
    decreases |deps|
  {
    if |deps| == 0 then []
    else Records(deps[..|deps| - 1], lookup) + OptionSeq(CheckEntry(deps[|deps| - 1], lookup).1)
  }

  /** The records marked updated, in order. */
  function UpdatedOnly(us: seq<DepUpdate>): (r: seq<DepUpdate>)
    ensures forall k :: 0 <= k < |r| ==> r[k].updated
    ensures |r| <= |us|
    decreases |us|
  {
    if |us| == 0 then []
    else UpdatedOnly(us[..|us| - 1]) + (if us[|us| - 1].updated then [us[|us| - 1]] else [])
  }

  /** `sum(1 for u in updates if u.updated)`. */
  function UpdatedCount(us: seq<DepUpdate>): nat
  {
    |UpdatedOnly(us)|
  }

  lemma {:induction false} UpdatedOnlyAppend(a: seq<DepUpdate>, b: seq<DepUpdate>)
    ensures UpdatedOnly(a + b) == UpdatedOnly(a) + UpdatedOnly(b)
    decreases |b|
  {
    if |b| == 0 {
      assert a + b == a;
    } else {
      var b' := b[..|b| - 1];
      assert (a + b)[..|a + b| - 1] == a + b';
      UpdatedOnlyAppend(a, b');
    }
  }

  lemma UpdatedOnlyOne(u: Option<DepUpdate>)
    ensures UpdatedOnly(OptionSeq(u)) == if u.Some? && u.value.updated then [u.value] else []
  {
    if u.Some? {
      assert OptionSeq(u)[..0] == [];
    }
  }

  /** `_check_and_update_deps` (silent or not: the console output is not modelled). */
  method CheckAndUpdateDeps(deps: seq<string>, lookup: VersionLookup) returns (newDeps: seq<string>, updates: seq<DepUpdate>)
    ensures newDeps == NewDeps(deps, lookup)
    ensures updates == Records(deps, lookup)
  {
    newDeps := [];
    updates := [];
    var i := 0;
    while i < |deps|
      invariant 0 <= i <= |deps|
      invariant newDeps == NewDeps(deps[..i], lookup)
      invariant updates == Records(deps[..i], lookup)
    {
      var dep := deps[i];
      var parsed := ParseDependency(dep);
      PrefixStep(deps, i, lookup);
      if parsed.None? {
        newDeps := newDeps + [dep];
      } else {
        var (package, current) := parsed.value;
        var latest := lookup(package);
        if latest.None? {
          newDeps := newDeps + [dep];
        } else {
          var normalized := NormalizeVersion(latest.value);
          if normalized != current {
            newDeps := newDeps + [FormatDependency(package, normalized)];
            updates := updates + [DepUpdate(package, current, normalized, true)];
          } else {
            newDeps := newDeps + [dep];
            updates := updates + [DepUpdate(package, current, normalized, false)];
          }
        }
      }
      i := i + 1;
    }
    assert deps[..i] == deps;
  }

  /** One more entry adds its checked form and its record, if any. */
  lemma PrefixStep(deps: seq<string>, i: nat, lookup: VersionLookup)
    requires i < |deps|
    ensures NewDeps(deps[..i + 1], lookup) == NewDeps(deps[..i], lookup) + [CheckEntry(deps[i], lookup).0]
    ensures Records(deps[..i + 1], lookup) == Records(deps[..i], lookup) + OptionSeq(CheckEntry(deps[i], lookup).1)
  {
    assert deps[..i + 1][..i] == deps[..i];
  }

  /** The new list of a non-empty list is that of its first part followed by its last entry's checked form. */
  lemma NewDepsPrefix(deps: seq<string>, lookup: VersionLookup)
    requires |deps| > 0
    ensures NewDeps(deps, lookup) == NewDeps(deps[..|deps| - 1], lookup) + [CheckEntry(deps[|deps| - 1], lookup).0]
  {
  }

  /** Without an updated record the dependency list comes back unchanged. */
  lemma {:induction false} NoUpdatesNoChange(deps: seq<string>, lookup: VersionLookup)
    requires UpdatedCount(Records(deps, lookup)) == 0
    ensures NewDeps(deps, lookup) == deps
    decreases |deps|
  {
    if |deps| > 0 {
      var init := deps[..|deps| - 1];
      NoUpdatesSplit(deps, lookup);
      NoUpdatesNoChange(init, lookup);
      KeptEntry(deps[|deps| - 1], lookup);
      NewDepsPrefix(deps, lookup);
      InitLast(deps);
    }
  }

  lemma InitLast(s: seq<string>)
    requires |s| > 0
    ensures s[..|s| - 1] + [s[|s| - 1]] == s
  {
  }

  /** No updated record in a list means none in its first part and none for its last entry. */
  lemma NoUpdatesSplit(deps: seq<string>, lookup: VersionLookup)
    requires |deps| > 0 && UpdatedCount(Records(deps, lookup)) == 0
    ensures UpdatedCount(Records(deps[..|deps| - 1], lookup)) == 0
    ensures var u := CheckEntry(deps[|deps| - 1], lookup).1; u.None? || !u.value.updated
  {
    var u := CheckEntry(deps[|deps| - 1], lookup).1;
    UpdatedOnlyAppend(Records(deps[..|deps| - 1], lookup), OptionSeq(u));
    UpdatedOnlyOne(u);
  }

  /** An entry whose record is absent or not updated is kept as it is. */
  lemma KeptEntry(dep: string, lookup: VersionLookup)
    requires CheckEntry(dep, lookup).1.None? || !CheckEntry(dep, lookup).1.value.updated
    ensures CheckEntry(dep, lookup).0 == dep
  {
  }

  /** A checked entry checked again gives no updated record, when the lookup answers with versions over `[0-9.]`. */
  lemma EntryStable(dep: string, lookup: VersionLookup)
    requires forall p :: lookup(p).Some? ==> ValidVersion(lookup(p).value)
    ensures var again := CheckEntry(CheckEntry(dep, lookup).0, lookup).1;
            again.None? || !again.value.updated
  {
    var (e, u) := CheckEntry(dep, lookup);
    if u.Some? && u.value.updated {
      var p := u.value.package;
      ParseSound(dep);
      NormalizeValid(lookup(p).value);
      ParseFormat(p, u.value.latest);
      NormalizeIdempotent(lookup(p).value);
    }
  }

  /**
   * Running the check again on the list it produced, with the same lookup,
   * finds nothing to update, when the lookup answers with versions over `[0-9.]`.
   */
  lemma {:induction false} CheckStable(deps: seq<string>, lookup: VersionLookup)
    requires forall p :: lookup(p).Some? ==> ValidVersion(lookup(p).value)
    ensures UpdatedCount(Records(NewDeps(deps, lookup), lookup)) == 0
    decreases |deps|
  {
    if |deps| > 0 {
      var nd := NewDeps(deps, lookup);
      var init := deps[..|deps| - 1];
      NewDepsPrefix(deps, lookup);
      assert nd[..|nd| - 1] == NewDeps(init, lookup);
      CheckStable(init, lookup);
      EntryStable(deps[|deps| - 1], lookup);
      var again := CheckEntry(nd[|nd| - 1], lookup).1;
      UpdatedOnlyAppend(Records(NewDeps(init, lookup), lookup), OptionSeq(again));
      UpdatedOnlyOne(again);
    }
  }

  // ---------------------------------------------------------------------
  // `update_template_deps` and `update_project_deps`
  // ---------------------------------------------------------------------

  /** A dependency list of a TOML document (tomlkit parse and lookup), empty when the keys are missing. */
  type DepsReader = string -> seq<string>

  /** The document with that dependency list replaced by a multi-line array, dumped (tomlkit). */
  type DepsWriter = (string, seq<string>) -> string

  /**
   * `update_template_deps` as a function of the file system: nothing for a
   * missing file or an empty `dependency-groups.dev`; otherwise the records
   * of the checked list, and the template rewritten only on a real run with
   * at least one updated record.
   */
  function TemplateDepsOutcome(files: map<string, string>, path: string, dryRun: bool,
                               readDev: DepsReader, writeDev: DepsWriter, lookup: VersionLookup)
    : (r: (seq<DepUpdate>, map<string, string>))
    ensures path !in files ==> r == ([], files)
    ensures path in files && |readDev(files[path])| == 0 ==> r == ([], files)
    ensures path in files && |readDev(files[path])| > 0 ==> r.0 == Records(readDev(files[path]), lookup)
    ensures dryRun || UpdatedCount(r.0) == 0 ==> r.1 == files
    ensures !dryRun && UpdatedCount(r.0) > 0 ==>
              path in files && r.1 == files[path := writeDev(files[path], NewDeps(readDev(files[path]), lookup))]
  {
    if path !in files then ([], files)
    else
      var dev := readDev(files[path]);
      if |dev| == 0 then ([], files)
      else
        var updates := Records(dev, lookup);
        if UpdatedCount(updates) == 0 || dryRun then (updates, files)
        else (updates, files[path := writeDev(files[path], NewDeps(dev, lookup))])
  }

  /** `update_template_deps` on the file system. */
  method UpdateTemplateDeps(fs: FileSystem, path: string, dryRun: bool,
                            readDev: DepsReader, writeDev: DepsWriter, lookup: VersionLookup)
    returns (updates: seq<DepUpdate>)
    modifies fs
    ensures (updates, fs.files) == TemplateDepsOutcome(old(fs.files), path, dryRun, readDev, writeDev, lookup)
  {
    if !fs.Exists(path) {
      return [];
    }
    var content := fs.files[path];
    var dev := readDev(content);
    if |dev| == 0 {
      return [];
    }
    var newDeps;
    newDeps, updates := CheckAndUpdateDeps(dev, lookup);
    if UpdatedCount(updates) == 0 || dryRun {
      return;
    }
    fs.Write(path, writeDev(content, newDeps));
  }

  /** `FileUpdateResult`. */
  datatype FileUpdateResult = FileUpdateResult(
    filePath: string, section: string, updates: seq<DepUpdate>, originalContent: string, newContent: string)

  function PyprojectPath(p: Project): string
  {
    JoinPath(ProjectPath(p), "pyproject.toml")
  }

  /**
   * `update_project_deps` as a function of the file system: None for a
   * missing pyproject.toml, an empty `project.dependencies` or no updated
   * record; otherwise the result of the check, whose new content is written
   * only on a real run.
   */
  function ProjectDepsOutcome(files: map<string, string>, p: Project, dryRun: bool,
                              readDeps: DepsReader, writeDeps: DepsWriter, lookup: VersionLookup)
    : (r: (Option<FileUpdateResult>, map<string, string>))
    ensures r.0.None? ==> r.1 == files
    ensures r.0.None? <==>
              PyprojectPath(p) !in files || |readDeps(files[PyprojectPath(p)])| == 0
              || UpdatedCount(Records(readDeps(files[PyprojectPath(p)]), lookup)) == 0
    ensures r.0.Some? ==>
              var original := files[PyprojectPath(p)];
              var deps := readDeps(original);
              && r.0.value == FileUpdateResult(PyprojectPath(p), "project.dependencies", Records(deps, lookup),
                                               original, writeDeps(original, NewDeps(deps, lookup)))
              && UpdatedCount(r.0.value.updates) > 0
              && r.1 == if dryRun then files else files[PyprojectPath(p) := r.0.value.newContent]
  {
    var path := PyprojectPath(p);
    if path !in files then (None, files)
    else
      var original := files[path];
      var deps := readDeps(original);
      if |deps| == 0 then (None, files)
      else
        var updates := Records(deps, lookup);
        if UpdatedCount(updates) == 0 then (None, files)
        else
          var result := FileUpdateResult(path, "project.dependencies", updates, original,
                                         writeDeps(original, NewDeps(deps, lookup)));
          (Some(result), if dryRun then files else files[path := result.newContent])
  }

  /** `update_project_deps` on the file system. */
  method UpdateProjectDeps(fs: FileSystem, p: Project, dryRun: bool,
                           readDeps: DepsReader, writeDeps: DepsWriter, lookup: VersionLookup)
    returns (r: Option<FileUpdateResult>)
    modifies fs
    ensures (r, fs.files) == ProjectDepsOutcome(old(fs.files), p, dryRun, readDeps, writeDeps, lookup)
  {
    var path := PyprojectPath(p);
    if !fs.Exists(path) {
      return None;
    }
    var original := fs.files[path];
    var deps := readDeps(original);
    if |deps| == 0 {
      return None;
    }
    var newDeps, updates := CheckAndUpdateDeps(deps, lookup);
    if UpdatedCount(updates) == 0 {
      return None;
    }
    var result := FileUpdateResult(path, "project.dependencies", updates, original, writeDeps(original, newDeps));
    if !dryRun {
      fs.Write(path, result.newContent);
    }
    return Some(result);
  }

  // ---------------------------------------------------------------------
  // `format_diff`
  // ---------------------------------------------------------------------

  function DiffHeader(result: FileUpdateResult): seq<string>
  {
    ["--- " + result.filePath, "+++ " + result.filePath + " (updated)", "@@ " + result.section + " @@"]
  }

  function RemovedLine(u: DepUpdate): string
  {
    "-    \"" + u.package + ">=" + u.current + "\","
  }

  function AddedLine(u: DepUpdate): string
  {
    "+    \"" + u.package + ">=" + u.latest + "\","
  }

  /** The removed/added line pair of every updated record, in order. */
  function ChangeLines(us: seq<DepUpdate>): seq<string>
    decreases |us|
  {
    if |us| == 0 then []
    else
      var u := us[|us| - 1];
      ChangeLines(us[..|us| - 1]) + (if u.updated then [RemovedLine(u), AddedLine(u)] else [])
  }

  /**
   * Two change lines per updated record and none for the others: line
   * `2k` removes and line `2k+1` adds the `k`-th updated record.
   */
  lemma {:induction false} ChangeLinesShape(us: seq<DepUpdate>)
    ensures |ChangeLines(us)| == 2 * UpdatedCount(us)
    ensures forall k :: 0 <= k < UpdatedCount(us) ==>
              ChangeLines(us)[2 * k] == RemovedLine(UpdatedOnly(us)[k])
              && ChangeLines(us)[2 * k + 1] == AddedLine(UpdatedOnly(us)[k])
    decreases |us|
  {
    if |us| > 0 {
      ChangeLinesShape(us[..|us| - 1]);
    }
  }

  /** `format_diff`: the three header lines, then the change lines, joined by newlines. */
  method FormatDiff(result: FileUpdateResult) returns (s: string)
    ensures s == Join(DiffHeader(result) + ChangeLines(result.updates), "\n")
  {
    var lines := DiffHeader(result);
    var i := 0;
    while i < |result.updates|
      invariant 0 <= i <= |result.updates|
      invariant lines == DiffHeader(result) + ChangeLines(result.updates[..i])
    {
      var u := result.updates[i];
      assert result.updates[..i + 1][..i] == result.updates[..i];
      if u.updated {
        lines := lines + [RemovedLine(u), AddedLine(u)];
      }
      i := i + 1;
    }
    assert result.updates[..i] == result.updates;
    s := Join(lines, "\n");
  }
}
