/**
 * The pyproject handler: the blank-line normaliser, the structural merge of
 * the shared template sections into a project's pyproject.toml, and the
 * apply/diff decision trees.
 */
module Pyproject {
  import opened Wrappers
  import opened PyStr
  import opened Assoc
  import opened Toml
  import opened ProjectConfig
  import opened HandlerBase
  import PyprojectMerge
  import PyprojectIdempotence

  // ---------------------------------------------------------------------
  // `_normalize_toml`
  // ---------------------------------------------------------------------

  /** No three consecutive newlines anywhere in `s`. */
  predicate NoTripleNewline(s: string)
  {
    forall i :: 0 <= i && i + 2 < |s| ==> !(s[i] == '\n' && s[i + 1] == '\n' && s[i + 2] == '\n')
  }

  function LeadingNewlines(s: string): (n: nat)
    ensures n <= |s|
    ensures forall i :: 0 <= i < n ==> s[i] == '\n'
    ensures n < |s| ==> s[n] != '\n'
    decreases |s|
  {
    if |s| > 0 && s[0] == '\n' then LeadingNewlines(s[1..]) + 1 else 0
  }

  lemma NoTripleJoin(x: string, rest: string)
    requires NoTripleNewline(rest)
    requires (|x| <= 2 && forall i :: 0 <= i < |x| ==> x[i] == '\n') || (|x| == 1 && x[0] != '\n')
    requires |x| > 0 && x[0] == '\n' && |rest| > 0 ==> rest[0] != '\n'
    ensures NoTripleNewline(x + rest)
  {
    var s := x + rest;
    forall i | 0 <= i && i + 2 < |s|
      ensures !(s[i] == '\n' && s[i + 1] == '\n' && s[i + 2] == '\n')
    {
      if i >= |x| {
        assert s[i] == rest[i - |x|] && s[i + 1] == rest[i - |x| + 1] && s[i + 2] == rest[i - |x| + 2];
      } else if x[0] != '\n' {
        assert s[0] == x[0];
      } else {
        assert |x| <= i + 2 && s[|x|] == rest[0];
      }
    }
  }

  lemma NoTripleSuffix(s: string, k: nat)
    requires k <= |s|
    ensures NoTripleNewline(s) ==> NoTripleNewline(s[k..])
  {
    if NoTripleNewline(s) {
      forall i | 0 <= i && i + 2 < |s[k..]|
        ensures !(s[k..][i] == '\n' && s[k..][i + 1] == '\n' && s[k..][i + 2] == '\n')
      {
        assert s[k..][i] == s[i + k] && s[k..][i + 1] == s[i + k + 1] && s[k..][i + 2] == s[i + k + 2];
      }
    }
  }

  lemma NoTriplePrefix(s: string, k: nat)
    requires k <= |s| && NoTripleNewline(s)
    ensures NoTripleNewline(s[..k])
  {
    forall i | 0 <= i && i + 2 < k
      ensures !(s[..k][i] == '\n' && s[..k][i + 1] == '\n' && s[..k][i + 2] == '\n')
    {
      assert s[..k][i] == s[i] && s[..k][i + 1] == s[i + 1] && s[..k][i + 2] == s[i + 2];
    }
  }

  lemma NoTripleRun(s: string, n: nat)
    requires n <= |s| && forall i :: 0 <= i < n ==> s[i] == '\n'
    ensures NoTripleNewline(s) ==> n < 3
  {
    if n >= 3 {
      assert s[0] == '\n' && s[1] == '\n' && s[2] == '\n';
    }
  }

  lemma NoTripleEndLine(body: string)
    requires NoTripleNewline(body)
    requires body == [] || !IsSpace(body[|body| - 1])
    ensures NoTripleNewline(body + "\n")
  {
    var r := body + "\n";
    forall i | 0 <= i && i + 2 < |r|
      ensures !(r[i] == '\n' && r[i + 1] == '\n' && r[i + 2] == '\n')
    {
      if i + 2 < |body| {
        assert r[i] == body[i] && r[i + 1] == body[i + 1] && r[i + 2] == body[i + 2];
      } else {
        assert r[i + 1] == body[|body| - 1];
      }
    }
  }

  /** `re.sub(r"\n{3,}", "\n\n", s)`: every maximal run of three or more newlines becomes two. */
  function CollapseBlankLines(s: string): (r: string)
    ensures NoTripleNewline(r)
    ensures |s| > 0 && s[0] != '\n' ==> |r| > 0 && r[0] == s[0]
    decreases |s|
  {
    if |s| == 0 then ""
    else
      var n := LeadingNewlines(s);
      if n == 0 then
        var rest := CollapseBlankLines(s[1..]);
        NoTripleJoin([s[0]], rest);
        [s[0]] + rest
      else
        var run := if n >= 3 then "\n\n" else s[..n];
        var rest := CollapseBlankLines(s[n..]);
        NoTripleJoin(run, rest);
        run + rest
  }

  /** Text without a run of three newlines is left as it is. */
  lemma {:induction false} CollapseFixpoint(s: string)
    requires NoTripleNewline(s)
    ensures CollapseBlankLines(s) == s
    decreases |s|
  {
    if |s| > 0 {
      var n := LeadingNewlines(s);
      if n == 0 {
        NoTripleSuffix(s, 1);
        CollapseFixpoint(s[1..]);
        assert [s[0]] + s[1..] == s;
      } else {
        NoTripleSuffix(s, n);
        NoTripleRun(s, n);
        CollapseFixpoint(s[n..]);
        assert s[..n] + s[n..] == s;
      }
    }
  }

  /**
   * `_normalize_toml`: no run of three newlines, and exactly one trailing
   * newline after the last non-whitespace character.
   */
  function NormalizeToml(s: string): (r: string)
    ensures NoTripleNewline(r)
    ensures |r| >= 1 && r[|r| - 1] == '\n' && (|r| == 1 || !IsSpace(r[|r| - 2]))
  {
    var c := CollapseBlankLines(s);
    var body := RStrip(c);
    NoTriplePrefix(c, |body|);
    assert c[..|body|] == body;
    NoTripleEndLine(body);
    body + "\n"
  }

  /** Normalising twice gives the same text as normalising once. */
  lemma NormalizeIdempotent(s: string)
    ensures NormalizeToml(NormalizeToml(s)) == NormalizeToml(s)
  {
    var n := NormalizeToml(s);
    var body := n[..|n| - 1];
    CollapseFixpoint(n);
    RStripLine(body);
    assert n == body + "\n";
  }

  /** A line ending after a non-space character strips back to that character. */
  lemma RStripLine(body: string)
    requires body == [] || !IsSpace(body[|body| - 1])
    ensures RStrip(body + "\n") == body
  {
    assert (body + "\n")[..|body|] == body;
  }

  // ---------------------------------------------------------------------
  // The handler: paths, generated content, `diff` and `apply`
  // ---------------------------------------------------------------------

  /** `tomlkit.parse` as a tree-level oracle. */
  type Parser = string -> Doc

  /** `tomlkit.dumps` as a tree-level oracle. */
  type Dumper = Doc -> string

  /** `PyprojectHandler.name`. */
  const NAME := "pyproject"

  /** `PyprojectHandler.get_template_path`. */
  function TemplatePath(templateDir: string): string
  {
    JoinPath(JoinPath(templateDir, "pyproject"), "sections.toml")
  }

  /** `PyprojectHandler.get_output_path`. */
  function OutputPath(p: Project): string
  {
    JoinPath(ProjectPath(p), "pyproject.toml")
  }

  /** The output file is never the template file, nor the template the output's backup. */
  lemma OutputNotTemplate(p: Project, templateDir: string)
    ensures OutputPath(p) != TemplatePath(templateDir)
    ensures BackupPath(OutputPath(p)) != TemplatePath(templateDir)
  {
    var o := OutputPath(p);
    var t := TemplatePath(templateDir);
    assert o[|o| - 13..] == "yproject.toml";
    assert t[|t| - 13..] == "sections.toml";
    var b := BackupPath(o);
    assert b[|b| - 4..] == ".bak";
    assert t[|t| - 4..] == "toml";
  }

  /** The merged document `merge_pyproject` computes from the two files as they are parsed. */
  function Merged(files: map<string, string>, p: Project, templateDir: string, parse: Parser): Option<Doc>
    requires TemplatePath(templateDir) in files && OutputPath(p) in files
  {
    PyprojectMerge.PyprojectMerged(parse(files[OutputPath(p)]), parse(files[TemplatePath(templateDir)]), PyprojectMerge.OptionsOf(p))
  }

  /** `generate_merged_content`: no content without both files; an escaping exception when the merge fails. */
  datatype Generated = NoInput | Generated(content: string)

  function GenerateMergedContent(files: map<string, string>, p: Project, templateDir: string,
                                 parse: Parser, dumps: Dumper): (r: Outcome<Generated>)
    ensures r == Returned(NoInput) <==> TemplatePath(templateDir) !in files || OutputPath(p) !in files
    ensures r.Raised? <==>
              TemplatePath(templateDir) in files && OutputPath(p) in files && Merged(files, p, templateDir, parse).None?
    ensures r.Returned? && r.value.Generated? ==>
              TemplatePath(templateDir) in files && OutputPath(p) in files && Merged(files, p, templateDir, parse).Some?
              && r.value.content == dumps(Merged(files, p, templateDir, parse).value)
  {
    var tp := TemplatePath(templateDir);
    var op := OutputPath(p);
    if tp !in files || op !in files then Returned(NoInput)
    else
      match Merged(files, p, templateDir, parse)
      case None => Raised
      case Some(m) => Returned(Generated(dumps(m)))
  }

  const MERGE_FAILED := "マージに失敗しました"

  function OutputMissing(op: string): string
  {
    "pyproject.toml が見つかりません: " + op
  }

  /**
   * `PyprojectHandler.apply`, as a function of the file system: the result
   * and the file system afterwards. A missing template is an error, a
   * missing pyproject.toml is skipped, normalised merged content equal to the
   * file is unchanged, a dry run reports updated, and a real run backs up
   * (when asked) and writes the normalised content, and content that
   * differs is updated. Only a real update changes any file, and then only
   * the output and its backup.
   */
  function ApplyOutcome(files: map<string, string>, p: Project, ctx: ApplyContext,
                        parse: Parser, dumps: Dumper): (r: Outcome<(ApplyResult, map<string, string>)>)
    ensures TemplatePath(ctx.templateDir) !in files ==>
              r == Returned((WithMessage(Error, TemplateMissing(TemplatePath(ctx.templateDir))), files))
    ensures TemplatePath(ctx.templateDir) in files && OutputPath(p) !in files ==>
              r == Returned((WithMessage(Skipped, OutputMissing(OutputPath(p))), files))
    ensures r.Raised? <==> GenerateMergedContent(files, p, ctx.templateDir, parse, dumps).Raised?
    ensures r.Returned? && (ctx.dryRun || r.value.0.status != Updated) ==> r.value.1 == files
    ensures r.Returned? ==> r.value.0.status in {Error, Skipped, Unchanged, Updated}
    ensures r.Returned? && r.value.1 != files ==>
              var op := OutputPath(p);
              && !ctx.dryRun && r.value.0 == Plain(Updated)
              && GenerateMergedContent(files, p, ctx.templateDir, parse, dumps).value.Generated?
              && r.value.1 == (if ctx.backup then Backup(files, op).1 else files)[op := NormalizeToml(GenerateMergedContent(files, p, ctx.templateDir, parse, dumps).value.content)]
    ensures var g := GenerateMergedContent(files, p, ctx.templateDir, parse, dumps);
            var op := OutputPath(p);
            TemplatePath(ctx.templateDir) in files && op in files && g.Returned? ==>
              if g.value.NoInput? then r == Returned((WithMessage(Error, MERGE_FAILED), files))
              else
                var n := NormalizeToml(g.value.content);
                && (files[op] == n ==> r == Returned((Plain(Unchanged), files)))
                && (files[op] != n ==>
                      && r.Returned? && r.value.0 == Plain(Updated)
                      && r.value.1 == if ctx.dryRun then files
                                      else (if ctx.backup then Backup(files, op).1 else files)[op := n])
  {
    var tp := TemplatePath(ctx.templateDir);
    var op := OutputPath(p);
    if tp !in files then Returned((WithMessage(Error, TemplateMissing(tp)), files))
    else if op !in files then Returned((WithMessage(Skipped, OutputMissing(op)), files))
    else
      match GenerateMergedContent(files, p, ctx.templateDir, parse, dumps)
      case Raised => Raised
      case Returned(NoInput) => Returned((WithMessage(Error, MERGE_FAILED), files))
      case Returned(Generated(content)) =>
        var n := NormalizeToml(content);
        if files[op] == n then Returned((Plain(Unchanged), files))
        else if ctx.dryRun then Returned((Plain(Updated), files))
        else
          var backed := if ctx.backup then Backup(files, op).1 else files;
          Returned((Plain(Updated), backed[op := n]))
  }

  /**
   * `PyprojectHandler.diff`: the same messages for a missing template or
   * pyproject.toml, no diff when the normalised merged content equals the
   * file, and the unified diff of the two otherwise.
   */
  function DiffOutcome(files: map<string, string>, p: Project, ctx: ApplyContext,
                       parse: Parser, dumps: Dumper, udiff: UnifiedDiff): (r: Outcome<Option<string>>)
    ensures TemplatePath(ctx.templateDir) !in files ==> r == Returned(Some(TemplateMissing(TemplatePath(ctx.templateDir))))
    ensures TemplatePath(ctx.templateDir) in files && OutputPath(p) !in files ==> r == Returned(Some(OutputMissing(OutputPath(p))))
    ensures r.Raised? <==> GenerateMergedContent(files, p, ctx.templateDir, parse, dumps).Raised?
    ensures r == Returned(None) <==>
              ApplyOutcome(files, p, ctx, parse, dumps).Returned? && ApplyOutcome(files, p, ctx, parse, dumps).value.0.status == Unchanged
    ensures var g := GenerateMergedContent(files, p, ctx.templateDir, parse, dumps);
            var op := OutputPath(p);
            TemplatePath(ctx.templateDir) in files && op in files && g.Returned? ==>
              if g.value.NoInput? then r == Returned(Some(MERGE_FAILED))
              else
                var n := NormalizeToml(g.value.content);
                && (files[op] == n ==> r == Returned(None))
                && (files[op] != n ==> r == Returned(Some(udiff(files[op], n))))
  {
    var tp := TemplatePath(ctx.templateDir);
    var op := OutputPath(p);
    if tp !in files then Returned(Some(TemplateMissing(tp)))
    else if op !in files then Returned(Some(OutputMissing(op)))
    else
      match GenerateMergedContent(files, p, ctx.templateDir, parse, dumps)
      case Raised => Raised
      case Returned(NoInput) => Returned(Some(MERGE_FAILED))
      case Returned(Generated(content)) =>
        var n := NormalizeToml(content);
        if files[op] == n then Returned(None) else Returned(Some(udiff(files[op], n)))
  }

  /**
   * Applying the handler a second time reports `unchanged`, given that the
   * project file parses to a document with distinct keys, the template has
   * the shape the merge expects, and tomlkit reads back the normalised text
   * it wrote for the merged document.
   */
  lemma SecondApplyUnchanged(files: map<string, string>, p: Project, ctx: ApplyContext, parse: Parser, dumps: Dumper)
    requires TemplatePath(ctx.templateDir) in files && OutputPath(p) in files && !ctx.dryRun
    requires WF(Table(parse(files[OutputPath(p)])))
    requires PyprojectIdempotence.TemplateShaped(parse(files[TemplatePath(ctx.templateDir)]),
                                                 PyprojectMerge.PRESERVE_SECTIONS + PyprojectMerge.OptionsOf(p).preserveSections)
    requires Merged(files, p, ctx.templateDir, parse).Some?
    requires parse(NormalizeToml(dumps(Merged(files, p, ctx.templateDir, parse).value))) == Merged(files, p, ctx.templateDir, parse).value
    ensures ApplyOutcome(files, p, ctx, parse, dumps).Returned?
    ensures var after := ApplyOutcome(files, p, ctx, parse, dumps).value.1;
            ApplyOutcome(after, p, ctx, parse, dumps) == Returned((Plain(Unchanged), after))
  {
    var tp := TemplatePath(ctx.templateDir);
    var op := OutputPath(p);
    var m := Merged(files, p, ctx.templateDir, parse).value;
    var n := NormalizeToml(dumps(m));
    var after := ApplyOutcome(files, p, ctx, parse, dumps).value.1;
    if files[op] != n {
      OutputNotTemplate(p, ctx.templateDir);
      assert after[tp] == files[tp] && after[op] == n;
      PyprojectIdempotence.MergeIdempotent(parse(files[op]), parse(files[tp]), PyprojectMerge.OptionsOf(p));
      assert Merged(after, p, ctx.templateDir, parse) == Some(m);
    }
  }

  /** `PyprojectHandler.apply` on the file system. */
  method Apply(fs: FileSystem, p: Project, ctx: ApplyContext, parse: Parser, dumps: Dumper) returns (r: Outcome<ApplyResult>)
    modifies fs
    ensures ApplyOutcome(old(fs.files), p, ctx, parse, dumps) == if r.Raised? then Raised else Returned((r.value, fs.files))
    ensures r.Raised? ==> fs.files == old(fs.files)
  {
    var tp := TemplatePath(ctx.templateDir);
    var op := OutputPath(p);
    if !fs.Exists(tp) {
      return Returned(WithMessage(Error, TemplateMissing(tp)));
    }
    if !fs.Exists(op) {
      return Returned(WithMessage(Skipped, OutputMissing(op)));
    }
    var generated := GenerateMergedContent(fs.files, p, ctx.templateDir, parse, dumps);
    if generated.Raised? {
      return Raised;
    }
    if generated.value.NoInput? {
      return Returned(WithMessage(Error, MERGE_FAILED));
    }
    var n := NormalizeToml(generated.value.content);
    if fs.files[op] == n {
      return Returned(Plain(Unchanged));
    }
    if ctx.dryRun {
      return Returned(Plain(Updated));
    }
    if ctx.backup {
      var _ := fs.CreateBackup(op);
    }
    fs.Write(op, n);
    return Returned(Plain(Updated));
  }
}
