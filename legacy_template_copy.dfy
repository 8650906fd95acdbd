/**
 * The older template-copy handlers: the same path resolution and copy, but
 * no validation step, no ignore-file trailer, no renovate or license handler,
 * and a `diff` that compares the texts itself.
 */
module LegacyTemplateCopy {
  import opened Wrappers
  import opened PyStr
  import opened Assoc
  import opened ProjectConfig
  import opened HandlerBase

  datatype Kind = PreCommit | Ruff | Yamllint | Prettier | PythonVersion | Dockerignore | Gitignore
  {
    /** `template_subdir`, which is also the handler's `name`. */
    function Name(): string
    {
      match this
      case PreCommit => "pre-commit"
      case Ruff => "ruff"
      case Yamllint => "yamllint"
      case Prettier => "prettier"
      case PythonVersion => "python-version"
      case Dockerignore => "dockerignore"
      case Gitignore => "gitignore"
    }

    /** `template_file`, which is also `output_file`. */
    function File(): string
    {
      match this
      case PreCommit => ".pre-commit-config.yaml"
      case Ruff => "ruff.toml"
      case Yamllint => ".yamllint.yaml"
      case Prettier => ".prettierrc"
      case PythonVersion => ".python-version"
      case Dockerignore => ".dockerignore"
      case Gitignore => ".gitignore"
    }
  }

  /** `get_template_path`: the project's override for the handler name, else `template_dir/name/file`. */
  function TemplatePath(k: Kind, p: Project, ctx: ApplyContext): string
  {
    match Lookup(p.templateOverrides, k.Name())
    case Some(path) => path
    case None => JoinPath(JoinPath(ctx.templateDir, k.Name()), k.File())
  }

  /** `get_output_path`. */
  function OutputPath(k: Kind, p: Project): string
  {
    JoinPath(ProjectPath(p), k.File())
  }

  /**
   * An override for the handler's name is the template path, whatever it
   * replaces; without one the template sits at `name/file` under the
   * template directory.
   */
  lemma TemplatePathChoice(k: Kind, p: Project, ctx: ApplyContext, path: string)
    ensures TemplatePath(k, p.(templateOverrides := Put(p.templateOverrides, k.Name(), path)), ctx) == path
    ensures !HasKey(p.templateOverrides, k.Name()) ==>
              TemplatePath(k, p, ctx) == ctx.templateDir + "/" + k.Name() + "/" + k.File()
              && FileName(TemplatePath(k, p, ctx)) == k.File()
  {
    LookupPut(p.templateOverrides, k.Name(), path, k.Name());
    if !HasKey(p.templateOverrides, k.Name()) {
      FileHasNoSlash(k);
      FileNameOfJoin(JoinPath(ctx.templateDir, k.Name()), k.File());
    }
  }

  /** No handler's file name contains a slash. */
  lemma FileHasNoSlash(k: Kind)
    ensures '/' !in k.File()
  {
    match k
    case PreCommit =>
    case Ruff =>
    case Yamllint =>
    case Prettier =>
    case PythonVersion =>
    case Dockerignore =>
    case Gitignore =>
  }

  /** The output path is `project path/file` whatever the overrides say. */
  lemma OutputIgnoresOverrides(k: Kind, p: Project, overrides: Table<string>)
    ensures OutputPath(k, p.(templateOverrides := overrides)) == OutputPath(k, p)
    ensures FileName(OutputPath(k, p)) == k.File()
  {
    FileHasNoSlash(k);
    FileNameOfJoin(ProjectPath(p), k.File());
  }

  /** `render_template`: the template text rendered with the project, the defaults and the project's vars. */
  function RenderTemplate(files: map<string, string>, k: Kind, p: Project, ctx: ApplyContext, render: TemplateRenderer): string
    requires TemplatePath(k, p, ctx) in files
  {
    render(files[TemplatePath(k, p, ctx)], p, ctx.config.defaults, p.vars)
  }

  /**
   * `TemplateCopyHandler.diff`: the template-missing message, the new-file
   * message, no diff for identical content, else the unified diff.
   */
  function DiffOutcome(files: map<string, string>, k: Kind, p: Project, ctx: ApplyContext,
                       render: TemplateRenderer, udiff: UnifiedDiff): (r: Option<string>)
    ensures TemplatePath(k, p, ctx) !in files ==> r == Some(TemplateMissing(TemplatePath(k, p, ctx)))
    ensures TemplatePath(k, p, ctx) in files && OutputPath(k, p) !in files ==> r == Some("新規作成: " + k.File())
    ensures TemplatePath(k, p, ctx) in files && OutputPath(k, p) in files ==>
              var n := RenderTemplate(files, k, p, ctx, render);
              r == if files[OutputPath(k, p)] == n then None else Some(udiff(files[OutputPath(k, p)], n))
  {
    OutputIgnoresOverrides(k, p, p.templateOverrides);
    var tp := TemplatePath(k, p, ctx);
    var op := OutputPath(k, p);
    if tp !in files then Some(TemplateMissing(tp))
    else
      var n := RenderTemplate(files, k, p, ctx, render);
      if op !in files then Some("新規作成: " + FileName(op))
      else if files[op] == n then None
      else Some(udiff(files[op], n))
  }

  /**
   * `TemplateCopyHandler.apply` as a function of the file system: a missing
   * template is an error; an existing output equal to the rendered content is
   * unchanged; otherwise created exactly when there was no output, with no
   * write on a dry run, and on a real run a backup of an existing output when
   * asked and the rendered content written.
   */
  function ApplyOutcome(files: map<string, string>, k: Kind, p: Project, ctx: ApplyContext,
                        render: TemplateRenderer): (r: (ApplyResult, map<string, string>))
    ensures TemplatePath(k, p, ctx) !in files ==> r == (WithMessage(Error, TemplateMissing(TemplatePath(k, p, ctx))), files)
    ensures TemplatePath(k, p, ctx) in files ==>
              var n := RenderTemplate(files, k, p, ctx, render);
              var op := OutputPath(k, p);
              && r.0.message == None
              && r.0.status in {Unchanged, Created, Updated}
              && (r.0.status == Unchanged <==> op in files && files[op] == n)
              && (r.0.status == Created <==> op !in files)
              && (ctx.dryRun || r.0.status == Unchanged ==> r.1 == files)
              && (!ctx.dryRun && r.0.status != Unchanged ==>
                    r.1 == (if ctx.backup && op in files then Backup(files, op).1 else files)[op := n])
  {
    var tp := TemplatePath(k, p, ctx);
    var op := OutputPath(k, p);
    if tp !in files then (WithMessage(Error, TemplateMissing(tp)), files)
    else
      var n := RenderTemplate(files, k, p, ctx, render);
      var isNew := op !in files;
      if !isNew && files[op] == n then (Plain(Unchanged), files)
      else
        var status := if isNew then Created else Updated;
        if ctx.dryRun then (Plain(status), files)
        else
          var backed := if ctx.backup && !isNew then Backup(files, op).1 else files;
          (Plain(status), backed[op := n])
  }

  /** With the template present, `diff` shows nothing exactly when `apply` reports unchanged. */
  lemma DiffNoneIffUnchanged(files: map<string, string>, k: Kind, p: Project, ctx: ApplyContext,
                             render: TemplateRenderer, udiff: UnifiedDiff)
    requires TemplatePath(k, p, ctx) in files
    ensures DiffOutcome(files, k, p, ctx, render, udiff).None? <==> ApplyOutcome(files, k, p, ctx, render).0.status == Unchanged
  {
  }

  /**
   * A real run that creates or updates leaves the output equal to the
   * rendered content, and the `.bak` file holds the previous content when the
   * output existed and a backup was asked for.
   */
  lemma ApplyWrites(files: map<string, string>, k: Kind, p: Project, ctx: ApplyContext, render: TemplateRenderer)
    requires !ctx.dryRun
    requires ApplyOutcome(files, k, p, ctx, render).0.status in {Created, Updated}
    ensures var after := ApplyOutcome(files, k, p, ctx, render).1;
            var op := OutputPath(k, p);
            && op in after && after[op] == RenderTemplate(files, k, p, ctx, render)
            && (ctx.backup && op in files ==> BackupPath(op) in after && after[BackupPath(op)] == files[op])
            && (!(ctx.backup && op in files) ==> after.Keys == files.Keys + {op} && forall q :: q in files && q != op ==> after[q] == files[q])
  {
    BackupIsSibling(OutputPath(k, p));
  }

  /** `TemplateCopyHandler.apply` on the file system. */
  method Apply(fs: FileSystem, k: Kind, p: Project, ctx: ApplyContext, render: TemplateRenderer) returns (r: ApplyResult)
    modifies fs
    ensures (r, fs.files) == ApplyOutcome(old(fs.files), k, p, ctx, render)
  {
    var tp := TemplatePath(k, p, ctx);
    var op := OutputPath(k, p);
    if !fs.Exists(tp) {
      return WithMessage(Error, TemplateMissing(tp));
    }
    var n := RenderTemplate(fs.files, k, p, ctx, render);
    var isNew := !fs.Exists(op);
    if !isNew && fs.files[op] == n {
      return Plain(Unchanged);
    }
    var status := if isNew then Created else Updated;
    if ctx.dryRun {
      return Plain(status);
    }
    if ctx.backup && !isNew {
      var _ := fs.CreateBackup(op);
    }
    fs.Write(op, n);
    return Plain(status);
  }
}
