/**
 * The template-copy handlers: a file rendered from a Jinja2 template (found
 * in the template directory or at a per-project override) is validated and
 * written to the project, with a backup of a file it replaces. The ignore
 * files append the project's extra lines; the license template is chosen by
 * license type.
 */
module TemplateCopy {
  import opened Wrappers
  import opened PyStr
  import opened Assoc
  import opened ProjectConfig
  import opened HandlerBase

  /** The concrete handler classes. */
  datatype Kind = PreCommit | Ruff | Yamllint | Prettier | PythonVersion | Dockerignore | Gitignore | Renovate | License
  {
    /** `template_subdir`. */
    function Subdir(): string
    {
      match this
      case PreCommit => "pre-commit"
      case Ruff => "ruff"
      case Yamllint => "yamllint"
      case Prettier => "prettier"
      case PythonVersion => "python-version"
      case Dockerignore => "dockerignore"
      case Gitignore => "gitignore"
      case Renovate => "renovate"
      case License => "license"
    }

    /** `template_file` (for the license handler only a default that `get_template_path` does not use). */
    function TemplateFile(): string
    {
      match this
      case PreCommit => ".pre-commit-config.yaml"
      case Ruff => ".ruff.toml"
      case Yamllint => ".yamllint.yaml"
      case Prettier => ".prettierrc"
      case PythonVersion => ".python-version"
      case Dockerignore => ".dockerignore"
      case Gitignore => ".gitignore"
      case Renovate => "renovate.json"
      case License => "Apache-2.0"
    }

    /** `output_file`. */
    function OutputFile(): string
    {
      match this
      case PreCommit => ".pre-commit-config.yaml"
      case Ruff => ".ruff.toml"
      case Yamllint => ".yamllint.yaml"
      case Prettier => ".prettierrc"
      case PythonVersion => ".python-version"
      case Dockerignore => ".dockerignore"
      case Gitignore => ".gitignore"
      case Renovate => "renovate.json"
      case License => "LICENSE"
    }

    /** `format_type`: the handlers that do not set it inherit text. */
    function Format(): FormatType
    {
      match this
      case PreCommit => Yaml
      case Ruff => Toml
      case Yamllint => Yaml
      case Prettier => Json
      case Renovate => Json
      case _ => Text
    }

    /** `name`, which is the template sub-directory. */
    function Name(): string
    {
      Subdir()
    }

    /** The `IgnoreFileHandler` subclasses. */
    predicate IsIgnoreFile()
    {
      this == Dockerignore || this == Gitignore
    }
  }

  /** The handler of a given name, if any. */
  function KindOfName(name: string): (r: Option<Kind>)
    ensures r.Some? ==> r.value.Name() == name
  {
    if name == "pre-commit" then Some(PreCommit)
    else if name == "ruff" then Some(Ruff)
    else if name == "yamllint" then Some(Yamllint)
    else if name == "prettier" then Some(Prettier)
    else if name == "python-version" then Some(PythonVersion)
    else if name == "dockerignore" then Some(Dockerignore)
    else if name == "gitignore" then Some(Gitignore)
    else if name == "renovate" then Some(Renovate)
    else if name == "license" then Some(License)
    else None
  }

  /** Each handler is found by its name, so no two handlers share a name. */
  lemma NameRoundTrip(k: Kind)
    ensures KindOfName(k.Name()) == Some(k)
  {
  }

  /** `get_template_path`: the project's override for the handler name, else `template_dir/subdir/file`. */
  function TemplatePath(k: Kind, p: Project, ctx: ApplyContext): string
  {
    match Lookup(p.templateOverrides, k.Name())
    case Some(path) => path
    case None => JoinPath(JoinPath(ctx.templateDir, k.Subdir()), if k == License then p.license.kind else k.TemplateFile())
  }

  /** `get_output_path`. */
  function OutputPath(k: Kind, p: Project): string
  {
    JoinPath(ProjectPath(p), k.OutputFile())
  }

  /**
   * An override set for the handler's name is the template path; without one
   * the path is `subdir/file` under the template directory, the file being
   * the license type for the license handler.
   */
  lemma TemplatePathChoice(k: Kind, p: Project, ctx: ApplyContext, path: string)
    ensures TemplatePath(k, p.(templateOverrides := Put(p.templateOverrides, k.Name(), path)), ctx) == path
    ensures !HasKey(p.templateOverrides, k.Name()) ==>
              var file := if k == License then p.license.kind else k.TemplateFile();
              && TemplatePath(k, p, ctx) == ctx.templateDir + "/" + k.Subdir() + "/" + file
              && ('/' !in file ==> FileName(TemplatePath(k, p, ctx)) == file)
  {
    LookupPut(p.templateOverrides, k.Name(), path, k.Name());
    if !HasKey(p.templateOverrides, k.Name()) {
      var file := if k == License then p.license.kind else k.TemplateFile();
      if '/' !in file {
        FileNameOfJoin(JoinPath(ctx.templateDir, k.Subdir()), file);
      }
    }
  }

  /** An override for another handler does not move this handler's template. */
  lemma OtherOverrideIgnored(k: Kind, other: Kind, p: Project, ctx: ApplyContext, path: string)
    requires other != k
    ensures TemplatePath(k, p.(templateOverrides := Put(p.templateOverrides, other.Name(), path)), ctx) == TemplatePath(k, p, ctx)
  {
    NameRoundTrip(k);
    NameRoundTrip(other);
    LookupPut(p.templateOverrides, other.Name(), path, k.Name());
  }

  /** The output path is `project path/output file` whatever the overrides say. */
  lemma OutputIgnoresOverrides(k: Kind, p: Project, overrides: Table<string>)
    ensures OutputPath(k, p.(templateOverrides := overrides)) == OutputPath(k, p)
    ensures FileName(OutputPath(k, p)) == k.OutputFile()
  {
    OutputFileHasNoSlash(k);
    FileNameOfJoin(ProjectPath(p), k.OutputFile());
  }

  /** No handler's output file name contains a slash. */
  lemma OutputFileHasNoSlash(k: Kind)
    ensures '/' !in k.OutputFile()
  {
    match k
    case PreCommit =>
    case Ruff =>
    case Yamllint =>
    case Prettier =>
    case PythonVersion =>
    case Dockerignore =>
    case Gitignore =>
    case Renovate =>
    case License =>
  }

  // ---------------------------------------------------------------------
  // Rendering
  // ---------------------------------------------------------------------

  /**
   * The extra lines of an ignore-file handler's option. An absent option is
   * taken as no extra lines.
   */
  function ExtraLines(k: Kind, p: Project): seq<string>
  {
    var o := if k == Gitignore then p.gitignore else if k == Dockerignore then p.dockerignore else None;
    match o
    case None => []
    case Some(opts) => opts.extraLines
  }

  /** The trailer `IgnoreFileHandler.render_template` appends: the body's final newlines become one, then the lines. */
  function AppendExtraLines(content: string, lines: seq<string>): string
  {
    if |lines| == 0 then content
    else RStripChars(content, {'\n'}) + "\n" + Join(lines, "\n") + "\n"
  }

  /**
   * With no extra lines the content is untouched. Otherwise the result is the
   * content without its trailing newlines, a newline, and a trailer that ends
   * in a newline and whose `\n`-separated fields are exactly the extra lines
   * (when none of them holds a newline).
   */
  lemma AppendExtraLinesSpec(content: string, lines: seq<string>)
    ensures |lines| == 0 ==> AppendExtraLines(content, lines) == content
    ensures |lines| > 0 ==>
              var r := AppendExtraLines(content, lines);
              var body := RStripChars(content, {'\n'});
              && body <= content && (forall i :: |body| <= i < |content| ==> content[i] == '\n')
              && (body == [] || body[|body| - 1] != '\n')
              && |r| >= |body| + 2 && r[..|body|] == body && r[|body|] == '\n' && r[|r| - 1] == '\n'
              && ((forall i :: 0 <= i < |lines| ==> '\n' !in lines[i]) ==> Split(r[|body| + 1..|r| - 1], '\n') == lines)
  {
    if |lines| > 0 {
      var r := AppendExtraLines(content, lines);
      var body := RStripChars(content, {'\n'});
      var j := Join(lines, "\n");
      assert r == body + "\n" + j + "\n";
      assert r[|body| + 1..|r| - 1] == j;
      if forall i :: 0 <= i < |lines| ==> '\n' !in lines[i] {
        assert "\n" == ['\n'];
        SplitJoin(lines, '\n');
      }
    }
  }

  /**
   * `render_template`: the template text rendered with the project, the
   * defaults and the project's vars; an ignore-file handler then appends the
   * extra lines.
   */
  function RenderTemplate(files: map<string, string>, k: Kind, p: Project, ctx: ApplyContext, render: TemplateRenderer): string
    requires TemplatePath(k, p, ctx) in files
  {
    var content := render(files[TemplatePath(k, p, ctx)], p, ctx.config.defaults, p.vars);
    if k.IsIgnoreFile() then AppendExtraLines(content, ExtraLines(k, p)) else content
  }

  // ---------------------------------------------------------------------
  // `diff` and `apply`
  // ---------------------------------------------------------------------

  function NewFileMessage(op: string): string
  {
    "新規作成: " + FileName(op)
  }

  /**
   * `TemplateCopyHandler.diff`: the template-missing message, the new-file
   * message when there is no output yet, and otherwise whatever the diff
   * generator makes of the current and the rendered content.
   */
  function DiffOutcome(files: map<string, string>, k: Kind, p: Project, ctx: ApplyContext,
                       render: TemplateRenderer, gdiff: DiffGen): (r: Option<string>)
    ensures TemplatePath(k, p, ctx) !in files ==> r == Some(TemplateMissing(TemplatePath(k, p, ctx)))
    ensures TemplatePath(k, p, ctx) in files && OutputPath(k, p) !in files ==> r == Some("新規作成: " + k.OutputFile())
    ensures TemplatePath(k, p, ctx) in files && OutputPath(k, p) in files ==>
              r == gdiff(files[OutputPath(k, p)], RenderTemplate(files, k, p, ctx, render), k.OutputFile())
  {
    OutputIgnoresOverrides(k, p, p.templateOverrides);
    var tp := TemplatePath(k, p, ctx);
    var op := OutputPath(k, p);
    if tp !in files then Some(TemplateMissing(tp))
    else
      var n := RenderTemplate(files, k, p, ctx, render);
      if op !in files then Some(NewFileMessage(op))
      else gdiff(files[op], n, FileName(op))
  }

  /**
   * `TemplateCopyHandler.apply` as a function of the file system. A missing
   * template and rendered content the validator rejects are errors, decided
   * before the output is looked at. An existing output equal to the rendered
   * content is unchanged. Otherwise the status is created exactly when there
   * was no output; a dry run writes nothing; a real run backs up an existing
   * output when asked, then writes the rendered content.
   */
  function ApplyOutcome(files: map<string, string>, k: Kind, p: Project, ctx: ApplyContext,
                        render: TemplateRenderer, validate: Validator): (r: (ApplyResult, map<string, string>))
    ensures TemplatePath(k, p, ctx) !in files ==> r == (WithMessage(Error, TemplateMissing(TemplatePath(k, p, ctx))), files)
    ensures TemplatePath(k, p, ctx) in files ==>
              var n := RenderTemplate(files, k, p, ctx, render);
              var v := validate(k.Format(), n);
              var op := OutputPath(k, p);
              && (!v.isValid ==> r == (WithMessage(Error, ValidationFailed(v.errorMessage)), files))
              && (v.isValid ==>
                    && r.0.message == None
                    && r.0.status in {Unchanged, Created, Updated}
                    && (r.0.status == Unchanged <==> op in files && files[op] == n)
                    && (r.0.status == Created <==> op !in files)
                    && (ctx.dryRun || r.0.status == Unchanged ==> r.1 == files)
                    && (!ctx.dryRun && r.0.status != Unchanged ==>
                          r.1 == (if ctx.backup && op in files then Backup(files, op).1 else files)[op := n]))
  {
    var tp := TemplatePath(k, p, ctx);
    var op := OutputPath(k, p);
    if tp !in files then (WithMessage(Error, TemplateMissing(tp)), files)
    else
      var n := RenderTemplate(files, k, p, ctx, render);
      var v := validate(k.Format(), n);
      if !v.isValid then (WithMessage(Error, ValidationFailed(v.errorMessage)), files)
      else
        var isNew := op !in files;
        if !isNew && files[op] == n then (Plain(Unchanged), files)
        else
          var status := if isNew then Created else Updated;
          if ctx.dryRun then (Plain(status), files)
          else
            var backed := if ctx.backup && !isNew then Backup(files, op).1 else files;
            (Plain(status), backed[op := n])
  }

  /**
   * A real run that creates or updates leaves the output equal to the
   * rendered content. The `.bak` file then holds the previous content when
   * the output existed and a backup was asked for; otherwise no file but the
   * output changes.
   */
  lemma ApplyWrites(files: map<string, string>, k: Kind, p: Project, ctx: ApplyContext,
                    render: TemplateRenderer, validate: Validator)
    requires !ctx.dryRun
    requires ApplyOutcome(files, k, p, ctx, render, validate).0.status in {Created, Updated}
    ensures var after := ApplyOutcome(files, k, p, ctx, render, validate).1;
            var op := OutputPath(k, p);
            && op in after && after[op] == RenderTemplate(files, k, p, ctx, render)
            && (ctx.backup && op in files ==> BackupPath(op) in after && after[BackupPath(op)] == files[op])
            && (!(ctx.backup && op in files) ==> after.Keys == files.Keys + {op} && forall q :: q in files && q != op ==> after[q] == files[q])
  {
    BackupIsSibling(OutputPath(k, p));
  }

  /**
   * Applying a second time reports unchanged and writes nothing, when the
   * first run wrote and neither the output nor its backup is the template.
   */
  lemma SecondApplyUnchanged(files: map<string, string>, k: Kind, p: Project, ctx: ApplyContext,
                             render: TemplateRenderer, validate: Validator)
    requires !ctx.dryRun
    requires TemplatePath(k, p, ctx) != OutputPath(k, p) && TemplatePath(k, p, ctx) != BackupPath(OutputPath(k, p))
    requires ApplyOutcome(files, k, p, ctx, render, validate).0.status != Error
    ensures var after := ApplyOutcome(files, k, p, ctx, render, validate).1;
            ApplyOutcome(after, k, p, ctx, render, validate) == (Plain(Unchanged), after)
  {
    var tp := TemplatePath(k, p, ctx);
    var first := ApplyOutcome(files, k, p, ctx, render, validate);
    var after := first.1;
    if first.0.status != Unchanged {
      ApplyWrites(files, k, p, ctx, render, validate);
      assert tp in after && after[tp] == files[tp];
      assert RenderTemplate(after, k, p, ctx, render) == RenderTemplate(files, k, p, ctx, render);
    }
  }

  /** `TemplateCopyHandler.apply` on the file system. */
  method Apply(fs: FileSystem, k: Kind, p: Project, ctx: ApplyContext, render: TemplateRenderer, validate: Validator)
    returns (r: ApplyResult)
    modifies fs
    ensures (r, fs.files) == ApplyOutcome(old(fs.files), k, p, ctx, render, validate)
  {
    var tp := TemplatePath(k, p, ctx);
    var op := OutputPath(k, p);
    if !fs.Exists(tp) {
      return WithMessage(Error, TemplateMissing(tp));
    }
    var n := RenderTemplate(fs.files, k, p, ctx, render);
    var v := validate(k.Format(), n);
    if !v.isValid {
      return WithMessage(Error, ValidationFailed(v.errorMessage));
    }
    var isNew := !fs.Exists(op);
    if !isNew && fs.files[op] == n {
      return Plain(Unchanged);
    }
    var status := if isNew then Created else Updated;
    if ctx.dryRun {
      return Plain(status);
    }
    if ctx.backup && !isNew {
      var _ := fs.CreateBackup(op);
    }
    fs.Write(op, n);
    return Plain(status);
  }
}
