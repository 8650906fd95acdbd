/**
 * The my-py-lib handler: the pinned commit of the `my-lib` git dependency in
 * a project's pyproject.toml is found by a fixed pattern, compared with the
 * repository's latest commit as `git ls-remote` reports it, and rewritten in
 * place of every occurrence of the pattern.
 */
module MyPyLib {
  import opened Wrappers
  import opened PyStr
  import opened ProjectConfig
  import opened HandlerBase
  import opened MyPyLibPattern

  // ---------------------------------------------------------------------
  // `get_latest_commit_hash`
  // ---------------------------------------------------------------------

  /**
   * The hash in the output of `git ls-remote <repo> HEAD`: its first
   * whitespace-separated field, when the output has one of exactly forty
   * characters.
   */
  function ParseCommitHash(stdout: string): (r: Option<string>)
    ensures r.Some? ==> |r.value| == 40 && NoSpace(r.value)
    ensures AllSpace(stdout) ==> r.None?
    ensures r.Some? ==> r.value == stdout[SkipSpace(stdout, 0)..SkipToken(stdout, SkipSpace(stdout, 0))]
  {
    var parts := SplitWhitespace(stdout);
    if |parts| == 0 then None
    else if |parts[0]| != 40 then None
    else Some(parts[0])
  }

  /** The `<hash>\tHEAD\n` line git prints gives back its hash. */
  lemma ParseLsRemoteLine(hash: string)
    requires |hash| == 40 && NoSpace(hash)
    ensures ParseCommitHash(hash + "\tHEAD\n") == Some(hash)
  {
    var out := hash + "\tHEAD\n";
    assert !IsSpace(out[0]);
    assert SkipSpace(out, 0) == 0;
    SkipTokenOver(out, 0, 40);
    assert out[0..40] == hash;
  }

  lemma SkipTokenOver(s: string, i: nat, j: nat)
    requires i <= j < |s| && IsSpace(s[j]) && forall k :: i <= k < j ==> !IsSpace(s[k])
    ensures SkipToken(s, i) == j
  {
  }

  /** `get_latest_commit_hash`: `lsRemote` is the command's output, None when it failed or timed out. */
  function LatestCommitHash(lsRemote: Option<string>): Option<string>
  {
    match lsRemote
    case None => None
    case Some(out) => ParseCommitHash(out)
  }

  // ---------------------------------------------------------------------
  // `diff` and `apply`
  // ---------------------------------------------------------------------

  /** `MyPyLibHandler.name`. */
  const NAME := "my-py-lib"

  /** `MyPyLibHandler.get_output_path`. */
  function OutputPath(p: Project): string
  {
    JoinPath(ProjectPath(p), "pyproject.toml")
  }

  function OutputMissing(op: string): string
  {
    "pyproject.toml が見つかりません: " + op
  }

  const NOT_FOUND := "my-py-lib の依存関係が見つかりません"
  const LOOKUP_FAILED := "最新コミットハッシュの取得に失敗"

  /** `f"{old[:8]} -> {new[:8]}"`. */
  function HashChange(current: string, latest: string): string
  {
    Take(current, 8) + " -> " + Take(latest, 8)
  }

  /**
   * `MyPyLibHandler.apply` as a function of the file system and of what
   * `git ls-remote` printed. A missing file, no match or an unpinned match is
   * skipped; a failed lookup is an error; the same hash is unchanged;
   * otherwise the status is updated with the hash change as message, and a
   * real run backs up (when asked) and writes the updated text.
   */
  function ApplyOutcome(files: map<string, string>, p: Project, ctx: ApplyContext, lsRemote: Option<string>)
    : (r: (ApplyResult, map<string, string>))
    ensures OutputPath(p) !in files ==> r == (WithMessage(Skipped, OutputMissing(OutputPath(p))), files)
    ensures OutputPath(p) in files ==>
              var content := files[OutputPath(p)];
              var found := FindDependency(content).hash;
              var latest := LatestCommitHash(lsRemote);
              && (found.None? ==> r == (WithMessage(Skipped, NOT_FOUND), files))
              && (found.Some? && latest.None? ==> r == (WithMessage(Error, LOOKUP_FAILED), files))
              && (found.Some? && latest.Some? ==>
                    && (found == latest ==> r == (Plain(Unchanged), files))
                    && (found != latest ==>
                          && r.0 == WithMessage(Updated, HashChange(found.value, latest.value))
                          && r.1 == if ctx.dryRun then files
                                    else (if ctx.backup then Backup(files, OutputPath(p)).1 else files)[OutputPath(p) := UpdateDependency(content, latest.value)]))
  {
    var op := OutputPath(p);
    if op !in files then (WithMessage(Skipped, OutputMissing(op)), files)
    else
      var content := files[op];
      match FindDependency(content).hash
      case None => (WithMessage(Skipped, NOT_FOUND), files)
      case Some(current) =>
        match LatestCommitHash(lsRemote)
        case None => (WithMessage(Error, LOOKUP_FAILED), files)
        case Some(latest) =>
          if current == latest then (Plain(Unchanged), files)
          else
            var msg := HashChange(current, latest);
            if ctx.dryRun then (WithMessage(Updated, msg), files)
            else
              var backed := if ctx.backup then Backup(files, op).1 else files;
              (WithMessage(Updated, msg), backed[op := UpdateDependency(content, latest)])
  }

  /**
   * `MyPyLibHandler.diff`: messages for a missing file, no pinned match and
   * a failed lookup; no diff for the same hash; otherwise the diff of the
   * text and its update. No diff means `apply` writes nothing.
   */
  function DiffOutcome(files: map<string, string>, p: Project, ctx: ApplyContext, lsRemote: Option<string>, gdiff: DiffGen)
    : (r: Option<string>)
    ensures OutputPath(p) !in files ==> r == Some(OutputMissing(OutputPath(p)))
    ensures OutputPath(p) in files ==>
              var content := files[OutputPath(p)];
              var found := FindDependency(content).hash;
              var latest := LatestCommitHash(lsRemote);
              && (found.None? ==> r == Some(NOT_FOUND))
              && (found.Some? && latest.None? ==> r == Some(LOOKUP_FAILED))
              && (found.Some? && found == latest ==>
                    r == None && ApplyOutcome(files, p, ctx, lsRemote) == (Plain(Unchanged), files))
              && (found.Some? && latest.Some? && found != latest ==>
                    r == gdiff(content, UpdateDependency(content, latest.value), "pyproject.toml")
                    && ApplyOutcome(files, p, ctx, lsRemote).0.status == Updated)
  {
    var op := OutputPath(p);
    if op !in files then Some(OutputMissing(op))
    else
      var content := files[op];
      match FindDependency(content).hash
      case None => Some(NOT_FOUND)
      case Some(current) =>
        match LatestCommitHash(lsRemote)
        case None => Some(LOOKUP_FAILED)
        case Some(latest) =>
          if current == latest then None
          else gdiff(content, UpdateDependency(content, latest), "pyproject.toml")
  }

  /**
   * After a real update to a hex hash, applying again with the same lookup
   * result finds that hash and reports unchanged, provided the pinned
   * dependency was not followed by a hex digit.
   */
  lemma SecondApplyUnchanged(files: map<string, string>, p: Project, ctx: ApplyContext, lsRemote: Option<string>)
    requires !ctx.dryRun && OutputPath(p) in files
    requires LatestCommitHash(lsRemote).Some? && AllHex(LatestCommitHash(lsRemote).value)
    requires var m := FindDependency(files[OutputPath(p)]);
             m.hash.Some? && (m.end.value == |files[OutputPath(p)]| || !IsHexDigit(files[OutputPath(p)][m.end.value]))
    ensures var after := ApplyOutcome(files, p, ctx, lsRemote).1;
            ApplyOutcome(after, p, ctx, lsRemote) == (Plain(Unchanged), after)
  {
    var op := OutputPath(p);
    var content := files[op];
    var latest := LatestCommitHash(lsRemote).value;
    if FindDependency(content).hash != Some(latest) {
      var after := ApplyOutcome(files, p, ctx, lsRemote).1;
      BackupIsSibling(op);
      assert after[op] == UpdateDependency(content, latest);
      FindAfterUpdate(content, latest);
    }
  }

  /** `MyPyLibHandler.apply` on the file system. */
  method Apply(fs: FileSystem, p: Project, ctx: ApplyContext, lsRemote: Option<string>) returns (r: ApplyResult)
    modifies fs
    ensures (r, fs.files) == ApplyOutcome(old(fs.files), p, ctx, lsRemote)
  {
    var op := OutputPath(p);
    if !fs.Exists(op) {
      return WithMessage(Skipped, OutputMissing(op));
    }
    var content := fs.files[op];
    var found := FindDependency(content);
    if found.hash.None? {
      return WithMessage(Skipped, NOT_FOUND);
    }
    var latest := LatestCommitHash(lsRemote);
    if latest.None? {
      return WithMessage(Error, LOOKUP_FAILED);
    }
    if found.hash.value == latest.value {
      return Plain(Unchanged);
    }
    var msg := HashChange(found.hash.value, latest.value);
    if ctx.dryRun {
      return WithMessage(Updated, msg);
    }
    if ctx.backup {
      var _ := fs.CreateBackup(op);
    }
    fs.Write(op, UpdateDependency(content, latest.value));
    return WithMessage(Updated, msg);
  }
}
