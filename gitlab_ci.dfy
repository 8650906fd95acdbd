/**
 * The GitLab CI handler: values in an existing `.gitlab-ci.yml` are rewritten
 * on the lines a YAML path resolver points at, by a prefix-preserving string
 * replacement, so every other byte of the file stays as it was.
 */
module GitlabCi {
  import opened Wrappers
  import opened PyStr
  import opened StrList
  import opened Assoc
  import opened ProjectConfig
  import opened HandlerBase

  /**
   * `_get_line_number`: the 0-based line of the key a YAML path selects, as
   * ruamel.yaml and yamlpath find it in the given content.
   */
  type Resolver = (string, string) -> Option<nat>

  /** `jinja2.Template(value).render(vars=...)`. */
  type Renderer = (string, Table<string>) -> string

  const NAME := "gitlab-ci"

  /** `GitLabCIHandler.get_output_path`. */
  function OutputPath(p: Project): string
  {
    JoinPath(ProjectPath(p), ".gitlab-ci.yml")
  }

  // ---------------------------------------------------------------------
  // `_replace_value_in_line`
  // ---------------------------------------------------------------------

  /** The last index strictly between `lo` and `hi` that holds a `:`. */
  function LastColonIn(line: string, lo: nat, hi: nat): (r: Option<nat>)
    requires lo <= hi <= |line|
    ensures r.None? <==> forall k :: lo < k < hi ==> line[k] != ':'
    ensures r.Some? ==> lo < r.value < hi && line[r.value] == ':' && forall k :: r.value < k < hi ==> line[k] != ':'
    decreases hi - lo
  {
    if hi <= lo + 1 then None
    else if line[hi - 1] == ':' then Some(hi - 1)
    else LastColonIn(line, lo, hi - 1)
  }

  /**
   * Length of what `re.match(r"^(\s*\S+:\s*)", line)` captures: the
   * indentation, the first token up to its last `:` (which is not its first
   * character), and the whitespace that follows; None when there is no match.
   */
  function ValuePrefix(line: string): Option<nat>
  {
    var a := SkipSpace(line, 0);
    match LastColonIn(line, a, SkipToken(line, a))
    case None => None
    case Some(c) => Some(SkipSpace(line, c + 1))
  }

  /**
   * `line[..n]` is matched by `\s*\S+:\s*`, split at `i` (end of the
   * indentation) and `j` (just after the `:`).
   */
  predicate PrefixMatch(line: string, n: nat, i: nat, j: nat)
  {
    && i + 1 < j <= n <= |line|
    && (forall k :: 0 <= k < i ==> IsSpace(line[k]))
    && (forall k :: i <= k < j ==> !IsSpace(line[k]))
    && line[j - 1] == ':'
    && (forall k :: j <= k < n ==> IsSpace(line[k]))
  }

  /** Any match of the pattern is bounded by `ValuePrefix`. */
  lemma PrefixMatchBound(line: string, n: nat, i: nat, j: nat)
    requires PrefixMatch(line, n, i, j)
    ensures ValuePrefix(line).Some? && n <= ValuePrefix(line).value
  {
    var a := SkipSpace(line, 0);
    assert !IsSpace(line[i]);
    var e := SkipToken(line, a);
    assert line[j - 1] == ':' && a < j - 1 < e;
    var c := LastColonIn(line, a, e).value;
  }

  /** `ValuePrefix` is itself a match of the pattern. */
  lemma ValuePrefixMatch(line: string) returns (i: nat, j: nat)
    requires ValuePrefix(line).Some?
    ensures PrefixMatch(line, ValuePrefix(line).value, i, j)
  {
    var a := SkipSpace(line, 0);
    var c := LastColonIn(line, a, SkipToken(line, a)).value;
    i, j := a, c + 1;
  }

  /**
   * `ValuePrefix` is the longest prefix the pattern matches, and there is
   * none exactly when it is None.
   */
  lemma ValuePrefixSpec(line: string)
    ensures ValuePrefix(line).None? <==> forall n: nat, i: nat, j: nat :: !PrefixMatch(line, n, i, j)
    ensures ValuePrefix(line).Some? ==>
              (exists i: nat, j: nat :: PrefixMatch(line, ValuePrefix(line).value, i, j))
              && forall n: nat, i: nat, j: nat :: PrefixMatch(line, n, i, j) ==> n <= ValuePrefix(line).value
  {
    forall n: nat, i: nat, j: nat | PrefixMatch(line, n, i, j) ensures ValuePrefix(line).Some? && n <= ValuePrefix(line).value {
      PrefixMatchBound(line, n, i, j);
    }
    if ValuePrefix(line).Some? {
      var i, j := ValuePrefixMatch(line);
    }
  }

  /** `_replace_value_in_line`: the matched prefix followed by the new value, or the line itself. */
  function ReplaceValueInLine(line: string, value: string): string
  {
    match ValuePrefix(line)
    case None => line
    case Some(n) => line[..n] + value
  }

  /** A YAML list item such as `- item` has no key, so the line is not changed. */
  lemma ListItemUnchanged(indent: string, rest: string, value: string)
    requires AllSpace(indent) && (|rest| > 0 ==> IsSpace(rest[0]))
    ensures ReplaceValueInLine(indent + "-" + rest, value) == indent + "-" + rest
  {
    var line := indent + "-" + rest;
    var a := SkipSpace(line, 0);
    assert line[|indent|] == '-';
    assert a == |indent|;
    if |rest| > 0 {
      assert line[a + 1] == rest[0];
    }
    assert SkipToken(line, a) == a + 1;
  }

  // ---------------------------------------------------------------------
  // `_apply_edits`
  // ---------------------------------------------------------------------

  /** The characters `rstrip("\n\r")` removes. */
  const NL: set<char> := {'\n', '\r'}

  /** A line without its trailing `\n`/`\r` characters. */
  function Body(line: string): string
  {
    RStripChars(line, NL)
  }

  /** Neither `\n` nor `\r` occurs in `s`. */
  predicate NoNewline(s: string)
  {
    forall j :: 0 <= j < |s| ==> s[j] !in NL
  }

  /** A line whose only `\n`/`\r` characters form its ending. */
  predicate CleanLine(line: string)
  {
    NoNewline(Body(line))
  }

  /** A line with no `\r` at all and at most one `\n`, at its end. */
  predicate LfOnly(line: string)
  {
    forall j :: 0 <= j < |line| ==> line[j] != '\r' && (line[j] == '\n' ==> j == |line| - 1)
  }

  /** One edit of one line: the value replaced in the line without its ending, then `\n` if it ended in one. */
  function EditLine(line: string, value: string): string
  {
    ReplaceValueInLine(Body(line), value) + (if EndsWith(line, "\n") then "\n" else "")
  }

  lemma NoNewlineReplace(line: string, value: string)
    requires NoNewline(line) && NoNewline(value)
    ensures NoNewline(ReplaceValueInLine(line, value))
  {
    var r := ReplaceValueInLine(line, value);
    if ValuePrefix(line).Some? {
      var n := ValuePrefix(line).value;
      forall j | 0 <= j < |r| ensures r[j] !in NL {
        if j < n { assert r[j] == line[j]; } else { assert r[j] == value[j - n]; }
      }
    }
  }

  /**
   * An edited line ends in `\n` exactly when the original did, and holds no
   * `\r` and no other `\n`: a `\r\n` ending becomes `\n`.
   */
  lemma EditLineEnding(line: string, value: string)
    requires CleanLine(line) && NoNewline(value)
    ensures var r := EditLine(line, value);
            && (EndsWith(r, "\n") <==> EndsWith(line, "\n"))
            && LfOnly(r)
            && CleanLine(r)
  {
    var x := ReplaceValueInLine(Body(line), value);
    NoNewlineReplace(Body(line), value);
    var r := EditLine(line, value);
    BodyOfClean(x);
  }

  /** Text free of line breaks is its own body, with or without a `\n` after it. */
  lemma BodyOfClean(x: string)
    requires NoNewline(x)
    ensures Body(x) == x && Body(x + "\n") == x
  {
    assert |x| > 0 ==> x[|x| - 1] !in NL;
    assert (x + "\n")[..|x|] == x;
  }

  /** An `LfOnly` line is clean. */
  lemma LfOnlyClean(line: string)
    requires LfOnly(line)
    ensures CleanLine(line)
  {
  }

  /** The lines of `splitlines(keepends=True)` are clean: a line break only ends a line. */
  lemma {:induction false} SplitLinesClean(s: string)
    ensures forall i :: 0 <= i < |SplitLines(s)| ==> CleanLine(SplitLines(s)[i])
    decreases |s|
  {
    if |s| > 0 {
      var n := FirstLineLen(s);
      SplitLinesClean(s[n..]);
      assert SplitLines(s)[1..] == SplitLines(s[n..]);
      FirstLineClean(s);
    }
  }

  lemma FirstLineClean(s: string)
    requires |s| > 0
    ensures CleanLine(s[..FirstLineLen(s)])
  {
    var j := BreakFrom(s, 0);
    var l := s[..FirstLineLen(s)];
    var b := Body(l);
    forall k | 0 <= k < |b| ensures b[k] !in NL {
      if k < j {
        assert b[k] == s[k];
      }
    }
  }

  /** An out-of-range line index: `lines[line_num]` raises IndexError. */
  predicate OutOfRange(o: Option<nat>, n: nat)
  {
    o.Some? && o.value >= n
  }

  /**
   * `_apply_edits` on the list of lines: each edit whose path resolves (in
   * the original content) edits that line; an unresolved path is skipped; a
   * resolved index past the last line raises.
   */
  function EditsApplied(lines: seq<string>, content: string, edits: seq<GitlabCiEdit>, resolve: Resolver): Outcome<seq<string>>
    decreases |edits|
  {
    if |edits| == 0 then Returned(lines)
    else
      match resolve(content, edits[0].path)
      case None => EditsApplied(lines, content, edits[1..], resolve)
      case Some(n) =>
        if n >= |lines| then Raised
        else EditsApplied(lines[n := EditLine(lines[n], edits[0].value)], content, edits[1..], resolve)
  }

  /** `_apply_edits(content, edits)`: the edited lines joined back together. */
  function EditedContent(content: string, edits: seq<GitlabCiEdit>, resolve: Resolver): Outcome<string>
  {
    match EditsApplied(SplitLines(content), content, edits, resolve)
    case Raised => Raised
    case Returned(ls) => Returned(Concat(ls))
  }

  /** `_apply_edits`, updating the list of lines in place edit by edit. */
  method ApplyEdits(content: string, edits: seq<GitlabCiEdit>, resolve: Resolver) returns (r: Outcome<string>)
    ensures r == EditedContent(content, edits, resolve)
  {
    var lines := SplitLines(content);
    var k := 0;
    while k < |edits|
      invariant 0 <= k <= |edits|
      invariant EditsApplied(lines, content, edits[k..], resolve) == EditsApplied(SplitLines(content), content, edits, resolve)
    {
      assert edits[k..][1..] == edits[k + 1..];
      var lineNum := resolve(content, edits[k].path);
      if lineNum.Some? {
        if lineNum.value >= |lines| {
          return Raised;
        }
        lines := lines[lineNum.value := EditLine(lines[lineNum.value], edits[k].value)];
      }
      k := k + 1;
    }
    return Returned(Concat(lines));
  }

  /** No edit resolves to line `i`. */
  predicate Untouched(content: string, edits: seq<GitlabCiEdit>, resolve: Resolver, i: nat)
  {
    forall k :: 0 <= k < |edits| ==> resolve(content, edits[k].path) != Some(i)
  }

  /**
   * The edits keep the number of lines, and every line no edit resolves to
   * is left byte for byte.
   */
  lemma {:induction false} EditsKeepLines(lines: seq<string>, content: string, edits: seq<GitlabCiEdit>, resolve: Resolver)
    ensures EditsApplied(lines, content, edits, resolve).Returned? ==>
              var ls := EditsApplied(lines, content, edits, resolve).value;
              && |ls| == |lines|
              && forall i: nat :: i < |lines| && Untouched(content, edits, resolve, i) ==> ls[i] == lines[i]
    decreases |edits|
  {
    if |edits| > 0 {
      var o := resolve(content, edits[0].path);
      var next := if o.Some? && o.value < |lines| then lines[o.value := EditLine(lines[o.value], edits[0].value)] else lines;
      EditsKeepLines(next, content, edits[1..], resolve);
      forall i: nat | i < |lines| && Untouched(content, edits, resolve, i)
        ensures Untouched(content, edits[1..], resolve, i) && next[i] == lines[i]
      {
        assert resolve(content, edits[0].path) != Some(i);
        forall k | 0 <= k < |edits[1..]| ensures resolve(content, edits[1..][k].path) != Some(i) {
          assert edits[1..][k] == edits[k + 1];
        }
      }
    }
  }

  /** `_apply_edits` raises exactly when some edit resolves past the last line. */
  lemma {:induction false} EditsRaise(lines: seq<string>, content: string, edits: seq<GitlabCiEdit>, resolve: Resolver)
    ensures EditsApplied(lines, content, edits, resolve).Raised? <==>
              exists k :: 0 <= k < |edits| && OutOfRange(resolve(content, edits[k].path), |lines|)
    decreases |edits|
  {
    if |edits| > 0 {
      var o := resolve(content, edits[0].path);
      if !OutOfRange(o, |lines|) {
        var next := if o.Some? then lines[o.value := EditLine(lines[o.value], edits[0].value)] else lines;
        EditsRaise(next, content, edits[1..], resolve);
        if exists k :: 0 <= k < |edits| && OutOfRange(resolve(content, edits[k].path), |lines|) {
          var k :| 0 <= k < |edits| && OutOfRange(resolve(content, edits[k].path), |lines|);
          assert edits[1..][k - 1] == edits[k];
        }
        if exists k :: 0 <= k < |edits[1..]| && OutOfRange(resolve(content, edits[1..][k].path), |next|) {
          var k :| 0 <= k < |edits[1..]| && OutOfRange(resolve(content, edits[1..][k].path), |next|);
          assert edits[1..][k] == edits[k + 1];
        }
      }
    }
  }

  /** An edit whose path does not resolve can be dropped: the edits before and after it apply all the same. */
  lemma {:induction false} EditsSkipUnresolved(lines: seq<string>, content: string, edits: seq<GitlabCiEdit>, k: nat, resolve: Resolver)
    requires k < |edits| && resolve(content, edits[k].path).None?
    ensures EditsApplied(lines, content, edits, resolve) == EditsApplied(lines, content, edits[..k] + edits[k + 1..], resolve)
    decreases k
  {
    var rest := edits[..k] + edits[k + 1..];
    if k == 0 {
      assert rest == edits[1..];
    } else {
      assert rest[0] == edits[0] && rest[1..] == edits[1..][..k - 1] + edits[1..][k..];
      var o := resolve(content, edits[0].path);
      if !OutOfRange(o, |lines|) {
        var next := if o.Some? then lines[o.value := EditLine(lines[o.value], edits[0].value)] else lines;
        EditsSkipUnresolved(next, content, edits[1..], k - 1, resolve);
      }
    }
  }

  /**
   * When the lines are clean and no value holds a line break, every line
   * keeps its `\n` ending or its lack of one, and an edited line ends in a
   * plain `\n` (a `\r\n` ending is lost).
   */
  lemma {:induction false} EditsKeepEndings(lines: seq<string>, content: string, edits: seq<GitlabCiEdit>, resolve: Resolver)
    requires forall i :: 0 <= i < |lines| ==> CleanLine(lines[i])
    requires forall k :: 0 <= k < |edits| ==> NoNewline(edits[k].value)
    ensures EditsApplied(lines, content, edits, resolve).Returned? ==>
              var ls := EditsApplied(lines, content, edits, resolve).value;
              && |ls| == |lines|
              && forall i :: 0 <= i < |lines| ==>
                   && CleanLine(ls[i])
                   && (EndsWith(ls[i], "\n") <==> EndsWith(lines[i], "\n"))
                   && (ls[i] == lines[i] || LfOnly(ls[i]))
    decreases |edits|
  {
    if |edits| > 0 {
      var o := resolve(content, edits[0].path);
      if !OutOfRange(o, |lines|) {
        var next := lines;
        if o.Some? {
          EditLineEnding(lines[o.value], edits[0].value);
          next := lines[o.value := EditLine(lines[o.value], edits[0].value)];
        }
        assert forall k :: 0 <= k < |edits[1..]| ==> edits[1..][k] == edits[k + 1];
        EditsKeepEndings(next, content, edits[1..], resolve);
        EditsKeepLines(next, content, edits[1..], resolve);
        if EditsApplied(next, content, edits[1..], resolve).Returned? {
          var ls := EditsApplied(next, content, edits[1..], resolve).value;
          forall i | 0 <= i < |lines| ensures ls[i] == lines[i] || LfOnly(ls[i]) {
            if ls[i] != next[i] {
            } else if o.Some? && o.value == i {
              assert LfOnly(next[i]);
            }
          }
        }
      }
    }
  }

  /** When no path resolves, `_apply_edits` gives back the content it was given. */
  lemma NoResolvedUnchanged(content: string, edits: seq<GitlabCiEdit>, resolve: Resolver)
    requires forall k :: 0 <= k < |edits| ==> resolve(content, edits[k].path).None?
    ensures EditedContent(content, edits, resolve) == Returned(content)
  {
    var lines := SplitLines(content);
    NoResolvedLines(lines, content, edits, resolve);
    ConcatSplitLines(content);
  }

  lemma {:induction false} NoResolvedLines(lines: seq<string>, content: string, edits: seq<GitlabCiEdit>, resolve: Resolver)
    requires forall k :: 0 <= k < |edits| ==> resolve(content, edits[k].path).None?
    ensures EditsApplied(lines, content, edits, resolve) == Returned(lines)
    decreases |edits|
  {
    if |edits| > 0 {
      assert resolve(content, edits[0].path).None?;
      assert forall k :: 0 <= k < |edits[1..]| ==> edits[1..][k] == edits[k + 1];
      NoResolvedLines(lines, content, edits[1..], resolve);
    }
  }

  // ---------------------------------------------------------------------
  // `_render_value` and `_get_edits`
  // ---------------------------------------------------------------------

  /** `_render_value`: a value without `{{` is used as it is; any other goes through the template engine. */
  function RenderValue(value: string, vars: Table<string>, render: Renderer): (r: string)
    ensures !Contains(value, "{{") ==> r == value
    ensures Contains(value, "{{") ==> r == render(value, vars)
  {
    if !Contains(value, "{{") then value else render(value, vars)
  }

  /** The `(path, value)` pairs of an edits option; an absent option has none. */
  function EditPairs(o: Option<GitlabCiOptions>): (r: seq<(string, string)>)
    ensures o.None? ==> r == []
    ensures o.Some? ==> |r| == |o.value.edits| && forall i :: 0 <= i < |r| ==> r[i] == (o.value.edits[i].path, o.value.edits[i].value)
  {
    match o
    case None => []
    case Some(g) => seq(|g.edits|, i requires 0 <= i < |g.edits| => (g.edits[i].path, g.edits[i].value))
  }

  /** `{**default_edits, **project_edits}`, each built by a dict comprehension over its edits. */
  function MergedEdits(d: Defaults, p: Project): Table<string>
  {
    PutAll(PutAll([], EditPairs(d.gitlabCi)), PutAll([], EditPairs(p.gitlabCi)))
  }

  /** One edit per entry of the merged table, in its order, with the value rendered. */
  function RenderEdits(t: Table<string>, vars: Table<string>, render: Renderer): (r: seq<GitlabCiEdit>)
    ensures |r| == |t|
    ensures forall i :: 0 <= i < |t| ==> r[i] == GitlabCiEdit(t[i].0, RenderValue(t[i].1, vars, render))
  {
    seq(|t|, i requires 0 <= i < |t| => GitlabCiEdit(t[i].0, RenderValue(t[i].1, vars, render)))
  }

  /** `_get_edits`: values are rendered with the defaults' vars, whichever side supplied them. */
  function GetEdits(d: Defaults, p: Project, render: Renderer): seq<GitlabCiEdit>
  {
    RenderEdits(MergedEdits(d, p), d.vars, render)
  }

  function Paths(edits: seq<GitlabCiEdit>): (r: seq<string>)
    ensures |r| == |edits| && forall i :: 0 <= i < |edits| ==> r[i] == edits[i].path
  {
    seq(|edits|, i requires 0 <= i < |edits| => edits[i].path)
  }

  /** Merging two pair lists into one table keeps the first keys in order, appends the new ones of the second. */
  lemma MergePairsKeys(a: seq<(string, string)>, b: seq<(string, string)>)
    ensures var t := PutAll(PutAll([], a), PutAll([], b));
            DistinctKeys(t) && Keys(t) == AppendMissing([], Keys(a) + Keys(b))
  {
    var ta := PutAll([], a);
    var tb := PutAll([], b);
    KeysPutAll([], a);
    KeysPutAll([], b);
    KeysPutAll(ta, tb);
    assert DistinctKeys<string>([]);
    assert Keys<string>([]) == [];
    AppendMissingDedup(Keys(ta), Keys(b));
    AppendMissingConcat([], Keys(a), Keys(b));
  }

  /** In the merged table a key has the second list's last value for it, or else the first list's. */
  lemma MergePairsLookup(a: seq<(string, string)>, b: seq<(string, string)>, k: string)
    ensures Lookup(PutAll(PutAll([], a), PutAll([], b)), k) == if HasKey(b, k) then LookupLast(b, k) else LookupLast(a, k)
  {
    var ta := PutAll([], a);
    var tb := PutAll([], b);
    LookupPutAll(ta, tb, k);
    LookupPutAll([], a, k);
    LookupPutAll([], b, k);
    assert Lookup<string>([], k) == None;
    KeysPutAll([], b);
    assert DistinctKeys<string>([]);
    LookupLastDistinct(tb, k);
  }

  /**
   * `_get_edits` yields one edit per distinct path: the default paths in
   * their order, then the project-only paths in theirs. No edits on either
   * side give an empty list, and only then.
   */
  lemma GetEditsPaths(d: Defaults, p: Project, render: Renderer)
    ensures var edits := GetEdits(d, p, render);
            var dp := EditPairs(d.gitlabCi);
            var pp := EditPairs(p.gitlabCi);
            && Paths(edits) == AppendMissing([], Keys(dp) + Keys(pp))
            && (forall i, j :: 0 <= i < j < |edits| ==> edits[i].path != edits[j].path)
            && (|edits| == 0 <==> |dp| == 0 && |pp| == 0)
  {
    var dp := EditPairs(d.gitlabCi);
    var pp := EditPairs(p.gitlabCi);
    var t := MergedEdits(d, p);
    MergePairsKeys(dp, pp);
    assert Paths(GetEdits(d, p, render)) == Keys(t);
    if |dp| + |pp| > 0 {
      AppendMissingSpec([], Keys(dp) + Keys(pp));
      assert (Keys(dp) + Keys(pp))[0] in Keys(t);
    }
  }

  /**
   * The value `_get_edits` gives a path is the project's last one when the
   * project sets the path, else the defaults' last one, rendered with the
   * defaults' vars.
   */
  lemma GetEditsValues(d: Defaults, p: Project, render: Renderer)
    ensures var edits := GetEdits(d, p, render);
            var dp := EditPairs(d.gitlabCi);
            var pp := EditPairs(p.gitlabCi);
            && (forall i :: 0 <= i < |edits| && HasKey(pp, edits[i].path) ==>
                  edits[i].value == RenderValue(LookupLast(pp, edits[i].path).value, d.vars, render))
            && (forall i :: 0 <= i < |edits| && !HasKey(pp, edits[i].path) ==>
                  HasKey(dp, edits[i].path) && edits[i].value == RenderValue(LookupLast(dp, edits[i].path).value, d.vars, render))
  {
    var dp := EditPairs(d.gitlabCi);
    var pp := EditPairs(p.gitlabCi);
    var t := MergedEdits(d, p);
    var edits := GetEdits(d, p, render);
    MergePairsKeys(dp, pp);
    forall i | 0 <= i < |edits|
      ensures Lookup(t, edits[i].path) == Some(t[i].1)
              && Lookup(t, edits[i].path) == if HasKey(pp, edits[i].path) then LookupLast(pp, edits[i].path) else LookupLast(dp, edits[i].path)
    {
      LookupAt(t, i);
      MergePairsLookup(dp, pp, edits[i].path);
    }
  }

  // ---------------------------------------------------------------------
  // `_generate_edited_content`, `diff` and `apply`
  // ---------------------------------------------------------------------

  /**
   * `_generate_edited_content`: nothing when there are no edits; reading a
   * missing file raises; otherwise the edited content.
   */
  function GenerateEditedContent(files: map<string, string>, p: Project, ctx: ApplyContext,
                                 resolve: Resolver, render: Renderer): (r: Outcome<Option<string>>)
    ensures r == Returned(None) <==> |GetEdits(ctx.config.defaults, p, render)| == 0
    ensures r.Returned? && r.value.Some? ==>
              OutputPath(p) in files
              && EditedContent(files[OutputPath(p)], GetEdits(ctx.config.defaults, p, render), resolve) == Returned(r.value.value)
    ensures r.Raised? <==>
              |GetEdits(ctx.config.defaults, p, render)| > 0
              && (OutputPath(p) !in files || EditedContent(files[OutputPath(p)], GetEdits(ctx.config.defaults, p, render), resolve).Raised?)
  {
    var edits := GetEdits(ctx.config.defaults, p, render);
    if |edits| == 0 then Returned(None)
    else if OutputPath(p) !in files then Raised
    else
      match EditedContent(files[OutputPath(p)], edits, resolve)
      case Raised => Raised
      case Returned(c) => Returned(Some(c))
  }

  const NO_EDITS := "edits が指定されていません"

  function OutputMissing(op: string): string
  {
    ".gitlab-ci.yml が見つかりません: " + op
  }

  /**
   * `GitLabCIHandler.apply` as a function of the file system. A missing file
   * or an empty edit list is skipped; edited content that fails YAML
   * validation is an error; content equal to the file is unchanged; a dry
   * run reports updated; a real run backs up (when asked) and writes. Only a
   * real update changes any file, and it is never reported as created.
   */
  function ApplyOutcome(files: map<string, string>, p: Project, ctx: ApplyContext,
                        resolve: Resolver, render: Renderer, validate: Validator): (r: Outcome<(ApplyResult, map<string, string>)>)
    ensures OutputPath(p) !in files ==> r == Returned((WithMessage(Skipped, OutputMissing(OutputPath(p))), files))
    ensures OutputPath(p) in files && |GetEdits(ctx.config.defaults, p, render)| == 0 ==>
              r == Returned((WithMessage(Skipped, NO_EDITS), files))
    ensures r.Raised? <==>
              OutputPath(p) in files && |GetEdits(ctx.config.defaults, p, render)| > 0
              && EditedContent(files[OutputPath(p)], GetEdits(ctx.config.defaults, p, render), resolve).Raised?
    ensures r.Returned? ==> r.value.0.status in {Skipped, Unchanged, Error, Updated}
    ensures r.Returned? && (ctx.dryRun || r.value.0.status != Updated) ==> r.value.1 == files
    ensures r.Returned? && r.value.0.status == Error ==>
              var n := GenerateEditedContent(files, p, ctx, resolve, render).value.value;
              && !validate(Yaml, n).isValid
              && r.value.0 == WithMessage(Error, ValidationFailed(validate(Yaml, n).errorMessage))
    ensures r.Returned? && r.value.0.status == Updated ==>
              var n := GenerateEditedContent(files, p, ctx, resolve, render).value.value;
              && r.value.0 == Plain(Updated)
              && OutputPath(p) in files && files[OutputPath(p)] != n && validate(Yaml, n).isValid
              && (!ctx.dryRun ==>
                    r.value.1 == (if ctx.backup then Backup(files, OutputPath(p)).1 else files)[OutputPath(p) := n])
    ensures var g := GenerateEditedContent(files, p, ctx, resolve, render);
            OutputPath(p) in files && g.Returned? && g.value.Some? ==>
              var n := g.value.value;
              && r.Returned?
              && (!validate(Yaml, n).isValid ==> r.value.0.status == Error)
              && (validate(Yaml, n).isValid ==>
                    && (r.value.0.status == Unchanged <==> files[OutputPath(p)] == n)
                    && (files[OutputPath(p)] != n ==> r.value.0 == Plain(Updated)))
  {
    var op := OutputPath(p);
    if op !in files then Returned((WithMessage(Skipped, OutputMissing(op)), files))
    else if |GetEdits(ctx.config.defaults, p, render)| == 0 then Returned((WithMessage(Skipped, NO_EDITS), files))
    else
      match GenerateEditedContent(files, p, ctx, resolve, render)
      case Raised => Raised
      case Returned(None) => Returned((Plain(Unchanged), files))
      case Returned(Some(n)) =>
        var v := validate(Yaml, n);
        if !v.isValid then Returned((WithMessage(Error, ValidationFailed(v.errorMessage)), files))
        else if files[op] == n then Returned((Plain(Unchanged), files))
        else if ctx.dryRun then Returned((Plain(Updated), files))
        else
          var backed := if ctx.backup then Backup(files, op).1 else files;
          Returned((Plain(Updated), backed[op := n]))
  }

  /**
   * `GitLabCIHandler.diff`: the not-found message for a missing file; no
   * diff without edits or without a change; otherwise the unified diff.
   * Whenever it shows no diff and raises nothing, `apply` writes nothing.
   */
  function DiffOutcome(files: map<string, string>, p: Project, ctx: ApplyContext,
                       resolve: Resolver, render: Renderer, udiff: UnifiedDiff, validate: Validator): (r: Outcome<Option<string>>)
    ensures OutputPath(p) !in files ==> r == Returned(Some(OutputMissing(OutputPath(p))))
    ensures OutputPath(p) in files && |GetEdits(ctx.config.defaults, p, render)| == 0 ==> r == Returned(None)
    ensures r.Raised? <==> ApplyOutcome(files, p, ctx, resolve, render, validate).Raised?
    ensures r == Returned(None) ==>
              ApplyOutcome(files, p, ctx, resolve, render, validate).Returned?
              && ApplyOutcome(files, p, ctx, resolve, render, validate).value.1 == files
              && ApplyOutcome(files, p, ctx, resolve, render, validate).value.0.status != Updated
    ensures r.Returned? && r.value.Some? && OutputPath(p) in files ==>
              var n := GenerateEditedContent(files, p, ctx, resolve, render).value.value;
              files[OutputPath(p)] != n && r.value.value == udiff(files[OutputPath(p)], n)
  {
    var op := OutputPath(p);
    if op !in files then Returned(Some(OutputMissing(op)))
    else if |GetEdits(ctx.config.defaults, p, render)| == 0 then Returned(None)
    else
      match GenerateEditedContent(files, p, ctx, resolve, render)
      case Raised => Raised
      case Returned(None) => Returned(None)
      case Returned(Some(n)) => if files[op] == n then Returned(None) else Returned(Some(udiff(files[op], n)))
  }

  /** `GitLabCIHandler.apply` on the file system, editing the lines in place. */
  method Apply(fs: FileSystem, p: Project, ctx: ApplyContext, resolve: Resolver, render: Renderer, validate: Validator)
    returns (r: Outcome<ApplyResult>)
    modifies fs
    ensures ApplyOutcome(old(fs.files), p, ctx, resolve, render, validate) == if r.Raised? then Raised else Returned((r.value, fs.files))
    ensures r.Raised? ==> fs.files == old(fs.files)
  {
    var op := OutputPath(p);
    if !fs.Exists(op) {
      return Returned(WithMessage(Skipped, OutputMissing(op)));
    }
    var edits := GetEdits(ctx.config.defaults, p, render);
    if |edits| == 0 {
      return Returned(WithMessage(Skipped, NO_EDITS));
    }
    var current := fs.files[op];
    var edited := ApplyEdits(current, edits, resolve);
    if edited.Raised? {
      return Raised;
    }
    var n := edited.value;
    var v := validate(Yaml, n);
    if !v.isValid {
      return Returned(WithMessage(Error, ValidationFailed(v.errorMessage)));
    }
    if current == n {
      return Returned(Plain(Unchanged));
    }
    if ctx.dryRun {
      return Returned(Plain(Updated));
    }
    if ctx.backup {
      var _ := fs.CreateBackup(op);
    }
    fs.Write(op, n);
    return Returned(Plain(Updated));
  }
}
