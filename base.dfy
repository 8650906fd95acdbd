/**
 * Shared handler vocabulary: apply statuses and results, the apply context,
 * format types and validation results, paths, and the backup helper over a
 * file system modelled as a map from path to content.
 */
module HandlerBase {
  import opened Wrappers
  import opened PyStr
  import opened Assoc
  import opened ProjectConfig

  /** `ApplyResult.status`; `Other` stands for any string that is none of the five. */
  datatype Status = Created | Updated | Unchanged | Skipped | Error | Other(name: string)
  {
    function Name(): string
    {
      match this
      case Created => "created"
      case Updated => "updated"
      case Unchanged => "unchanged"
      case Skipped => "skipped"
      case Error => "error"
      case Other(n) => n
    }
  }

  predicate IsKnownStatusName(s: string)
  {
    s in {"created", "updated", "unchanged", "skipped", "error"}
  }

  function StatusFromName(s: string): (r: Status)
    ensures r.Name() == s
    ensures r.Other? <==> !IsKnownStatusName(s)
  {
    if s == "created" then Created
    else if s == "updated" then Updated
    else if s == "unchanged" then Unchanged
    else if s == "skipped" then Skipped
    else if s == "error" then Error
    else Other(s)
  }

  /** Status names and statuses are in one-to-one correspondence. */
  lemma StatusNameRoundTrip(st: Status)
    requires st.Other? ==> !IsKnownStatusName(st.name)
    ensures StatusFromName(st.Name()) == st
  {
  }

  /** `ApplyResult(status, message=None)`. */
  datatype ApplyResult = ApplyResult(status: Status, message: Option<string>)

  function Plain(status: Status): (r: ApplyResult)
    ensures r.status == status && r.message == None
  {
    ApplyResult(status, None)
  }

  function WithMessage(status: Status, msg: string): (r: ApplyResult)
    ensures r.status == status && r.message == Some(msg)
  {
    ApplyResult(status, Some(msg))
  }

  /** The message of a handler that finds no template file. */
  function TemplateMissing(tp: string): string
  {
    "テンプレートが見つかりません: " + tp
  }

  /** The message of a handler whose generated content a validator rejects. */
  function ValidationFailed(msg: string): string
  {
    "バリデーション失敗: " + msg
  }

  /** What a handler call does: it returns a value, or an exception escapes it and ends the run. */
  datatype Outcome<T> = Returned(value: T) | Raised

  datatype FormatType = Text | Yaml | Toml | Json

  datatype ValidationResult = ValidationResult(isValid: bool, errorMessage: string)

  /** A format validator (not shown in the source): content of a format to pass/fail. */
  type Validator = (FormatType, string) -> ValidationResult

  /** A unified-diff generator `(current, new, name)`; None when there is nothing to show. */
  type DiffGen = (string, string, string) -> Option<string>

  /** `difflib.unified_diff(current, new)` over the two texts' lines, joined into one string. */
  type UnifiedDiff = (string, string) -> string

  /** A Jinja2 template, given as its text, rendered with `project`, `defaults` and `vars`. */
  type TemplateRenderer = (string, Project, Defaults, Table<string>) -> string

  datatype ApplyContext = ApplyContext(config: Config, templateDir: string, dryRun: bool, backup: bool)

  /** `base / name` for a path. */
  function JoinPath(base: string, name: string): string
  {
    base + "/" + name
  }

  /** `get_project_path`: the project's path (home-directory expansion is not modelled). */
  function ProjectPath(p: Project): string
  {
    p.path
  }

  /** `Path.name`: the last component of a path. */
  function FileName(path: string): string
  {
    var parts := Split(path, '/');
    parts[|parts| - 1]
  }

  /** The name of `base/file`, for a file name without a slash, is that name. */
  lemma FileNameOfJoin(base: string, file: string)
    requires '/' !in file
    ensures FileName(JoinPath(base, file)) == file
  {
    SplitAppendFree(base + "/", file, '/');
    LastFieldAfterSep(base);
    assert JoinPath(base, file) == (base + "/") + file;
  }

  /** Splitting `base + "/"` ends with an empty field. */
  lemma {:induction false} LastFieldAfterSep(base: string)
    ensures var parts := Split(base + "/", '/'); parts[|parts| - 1] == ""
    decreases |base|
  {
    if |base| == 0 {
      assert base + "/" == "/";
      assert Split("", '/') == [""];
    } else {
      assert (base + "/")[1..] == base[1..] + "/";
      LastFieldAfterSep(base[1..]);
    }
  }

  /** `file_path.with_suffix(file_path.suffix + ".bak")`, which always appends `.bak` to the name. */
  function BackupPath(path: string): string
  {
    path + ".bak"
  }

  /** The backup sits in the same directory as the file and is named after it plus `.bak`. */
  lemma BackupIsSibling(path: string)
    ensures var ps := Split(path, '/');
            var bs := Split(BackupPath(path), '/');
            |bs| == |ps| && bs[..|bs| - 1] == ps[..|ps| - 1] && bs[|bs| - 1] == FileName(path) + ".bak"
    ensures BackupPath(path) != path
    ensures FileName(BackupPath(path)) == FileName(path) + ".bak"
  {
    SplitAppendFree(path, ".bak", '/');
    assert '/' !in ".bak";
  }

  /**
   * `create_backup` on a file-system state: no file, no backup; otherwise the
   * `.bak` sibling receives the file's content and nothing else changes.
   */
  function Backup(files: map<string, string>, path: string): (r: (Option<string>, map<string, string>))
    ensures r.0.None? <==> path !in files
    ensures r.0.None? ==> r.1 == files
    ensures r.0.Some? ==> r.0.value == BackupPath(path)
                          && r.1.Keys == files.Keys + {r.0.value}
                          && r.1[r.0.value] == files[path]
                          && path in r.1 && r.1[path] == files[path]
                          && forall q :: q in files && q != r.0.value ==> r.1[q] == files[q]
  {
    if path !in files then (None, files)
    else
      BackupIsSibling(path);
      (Some(BackupPath(path)), files[BackupPath(path) := files[path]])
  }

  /** The directory tree of the managed projects: path to file content. */
  class FileSystem {
    var files: map<string, string>

    constructor (init: map<string, string>)
      ensures files == init
    {
      files := init;
    }

    function Exists(path: string): bool
      reads this
    {
      path in files
    }

    method Write(path: string, content: string)
      modifies this
      ensures files == old(files)[path := content]
    {
      files := files[path := content];
    }

    /** `ConfigHandler.create_backup`. */
    method CreateBackup(path: string) returns (backup: Option<string>)
      modifies this
      ensures (backup, files) == Backup(old(files), path)
    {
      if path !in files {
        return None;
      }
      backup := Some(BackupPath(path));
      files := files[BackupPath(path) := files[path]];
    }
  }
}
