/**
 * The pattern the my-py-lib handler looks for, `re.search` and `re.sub` over
 * it, and what a search finds after a substitution.
 */
module MyPyLibPattern {
  import opened Wrappers
  import opened PyStr

  // ---------------------------------------------------------------------
  // `_MY_PY_LIB_PATTERN`:
  //   my-lib \s* @ \s* git+https://github.com/kimata/my-py-lib (@ [a-f0-9]+)?
  // ---------------------------------------------------------------------

  const LIB := "my-lib"
  const REPO := "git+https://github.com/kimata/my-py-lib"
  const LIB_LEN := 6
  const REPO_LEN := 39

  /** `my-lib` occurs at `i`. */
  predicate LibAt(s: string, i: nat)
    ensures LibAt(s, i) ==> i + LIB_LEN <= |s|
  {
    i + |LIB| <= |s| && s[i..i + |LIB|] == LIB
  }

  /** The repository URL occurs at `b`. */
  predicate RepoAt(s: string, b: nat)
    ensures RepoAt(s, b) ==> b + REPO_LEN <= |s|
  {
    b + |REPO| <= |s| && s[b..b + |REPO|] == REPO
  }

  /** The class `[a-f0-9]`. */
  predicate IsHexDigit(c: char)
  {
    ('0' <= c <= '9') || ('a' <= c <= 'f')
  }

  predicate AllHex(s: string)
  {
    forall i :: 0 <= i < |s| ==> IsHexDigit(s[i])
  }

  /** The first index from `i` on that is not a hex digit (or the end). */
  function HexRun(s: string, i: nat): (j: nat)
    requires i <= |s|
    ensures i <= j <= |s| && (j < |s| ==> !IsHexDigit(s[j]))
    ensures forall k :: i <= k < j ==> IsHexDigit(s[k])
    decreases |s| - i
  {
    if i < |s| && IsHexDigit(s[i]) then HexRun(s, i + 1) else i
  }

  lemma RepoStart(s: string, b: nat)
    requires RepoAt(s, b)
    ensures s[b] == 'g'
  {
    assert s[b] == s[b..b + |REPO|][0];
  }

  /** `match.start()`, `match.end()` and `match.group(1)` of one match. */
  datatype Match = Match(start: nat, end: nat, hash: Option<string>)

  /**
   * The match of the pattern that starts at `i`, if any. Each `\s*` takes all
   * the whitespace there is (what follows it is not whitespace), and the
   * optional group takes `@` and the whole run of hex digits after it when
   * there is at least one.
   */
  function MatchAt(s: string, i: nat): (r: Option<Match>)
    requires i <= |s|
    ensures r.Some? ==> r.value.start == i && i + LIB_LEN + 1 + REPO_LEN <= r.value.end <= |s|
    ensures r.Some? && r.value.hash.Some? ==> |r.value.hash.value| > 0 && AllHex(r.value.hash.value)
  {
    match HeadEnd(s, i)
    case None => None
    case Some(c) => Some(TailMatch(s, i, c))
  }

  /** Where the fixed part of the pattern ends when it occurs at `i`. */
  function HeadEnd(s: string, i: nat): (c: Option<nat>)
    requires i <= |s|
    ensures c.Some? ==> i + LIB_LEN + 1 + REPO_LEN <= c.value <= |s|
  {
    if !LibAt(s, i) then None
    else
      var a := SkipSpace(s, i + LIB_LEN);
      if !(a < |s| && s[a] == '@') then None
      else
        var b := SkipSpace(s, a + 1);
        if !RepoAt(s, b) then None
        else Some(b + REPO_LEN)
  }

  /** The match starting at `i` whose fixed part ends at `c`: with the optional group when it can match. */
  function TailMatch(s: string, i: nat, c: nat): (m: Match)
    requires c <= |s|
    ensures m.start == i && c <= m.end <= |s|
    ensures m.hash.Some? ==> |m.hash.value| > 0 && AllHex(m.hash.value)
  {
    if c + 1 < |s| && s[c] == '@' && IsHexDigit(s[c + 1]) then
      var e := HexRun(s, c + 1);
      Match(i, e, Some(s[c + 1..e]))
    else Match(i, c, None)
  }

  /**
   * The fixed part of the pattern at `i`: `my-lib`, a run of whitespace up
   * to the `@` at `a`, a run of whitespace up to the repository URL at `b`.
   */
  predicate HeadAt(s: string, i: nat, a: nat, b: nat)
  {
    && i + LIB_LEN <= a && a + 1 <= b && b + REPO_LEN <= |s|
    && LibAt(s, i)
    && (forall k :: i + LIB_LEN <= k < a ==> IsSpace(s[k]))
    && s[a] == '@'
    && (forall k :: a + 1 <= k < b ==> IsSpace(s[k]))
    && RepoAt(s, b)
  }

  /**
   * The optional group from `c` on, ending at `e`: `@` and a hex run that
   * cannot be extended when `h` is present, and no `@` followed by a hex
   * digit at `c` when it is absent.
   */
  predicate TailAt(s: string, c: nat, e: nat, h: Option<string>)
  {
    && c <= e <= |s|
    && (h.Some? ==> c + 1 < e && s[c] == '@' && s[c + 1..e] == h.value && AllHex(h.value)
                    && (e == |s| || !IsHexDigit(s[e])))
    && (h.None? ==> e == c && !(c + 1 < |s| && s[c] == '@' && IsHexDigit(s[c + 1])))
  }

  /** `TailMatch` reads exactly the tail there is. */
  lemma TailMatchSpec(s: string, i: nat, c: nat, e: nat, h: Option<string>)
    requires c <= |s|
    ensures TailAt(s, c, TailMatch(s, i, c).end, TailMatch(s, i, c).hash)
    ensures TailAt(s, c, e, h) ==> TailMatch(s, i, c) == Match(i, e, h)
  {
    if TailAt(s, c, e, h) && h.Some? {
      forall k | c + 1 <= k < e ensures IsHexDigit(s[k]) {
        assert s[k] == h.value[k - (c + 1)];
      }
      HexRunOver(s, c + 1, e);
    }
  }

  /** What `MatchAt` finds is a head followed by a tail. */
  lemma MatchAtSound(s: string, i: nat) returns (a: nat, b: nat)
    requires i <= |s| && MatchAt(s, i).Some?
    ensures HeadAt(s, i, a, b) && TailAt(s, b + REPO_LEN, MatchAt(s, i).value.end, MatchAt(s, i).value.hash)
  {
    a, b := HeadEndSound(s, i);
    TailMatchSpec(s, i, b + REPO_LEN, 0, None);
  }

  /** What `HeadEnd` finds is a head. */
  lemma HeadEndSound(s: string, i: nat) returns (a: nat, b: nat)
    requires i <= |s| && HeadEnd(s, i).Some?
    ensures HeadAt(s, i, a, b) && HeadEnd(s, i) == Some(b + REPO_LEN)
  {
    a := SkipSpace(s, i + LIB_LEN);
    b := SkipSpace(s, a + 1);
  }

  /** A head followed by a tail is the match `MatchAt` finds: the pattern matches in one way only. */
  lemma MatchAtComplete(s: string, i: nat, a: nat, b: nat, e: nat, h: Option<string>)
    requires HeadAt(s, i, a, b) && TailAt(s, b + REPO_LEN, e, h)
    ensures MatchAt(s, i) == Some(Match(i, e, h))
  {
    HeadMatches(s, i, a, b);
    TailMatchSpec(s, i, b + REPO_LEN, e, h);
  }

  /** Where the head is, `MatchAt` reads it at the same positions. */
  lemma HeadMatches(s: string, i: nat, a: nat, b: nat)
    requires HeadAt(s, i, a, b)
    ensures i <= |s| && MatchAt(s, i) == Some(TailMatch(s, i, b + REPO_LEN))
  {
    HeadEndComplete(s, i, a, b);
  }

  /** Where the head is, `HeadEnd` reads it at the same positions. */
  lemma HeadEndComplete(s: string, i: nat, a: nat, b: nat)
    requires HeadAt(s, i, a, b)
    ensures i <= |s| && HeadEnd(s, i) == Some(b + REPO_LEN)
  {
    SkipSpaceOver(s, i + LIB_LEN, a);
    RepoStart(s, b);
    SkipSpaceOver(s, a + 1, b);
  }

  /** `SkipSpace` stops exactly at the end of a whitespace run followed by a non-space. */
  lemma SkipSpaceOver(s: string, i: nat, j: nat)
    requires i <= j < |s| && !IsSpace(s[j]) && forall k :: i <= k < j ==> IsSpace(s[k])
    ensures SkipSpace(s, i) == j
  {
  }

  lemma HexRunOver(s: string, i: nat, j: nat)
    requires i <= j <= |s| && (j < |s| ==> !IsHexDigit(s[j])) && forall k :: i <= k < j ==> IsHexDigit(s[k])
    ensures HexRun(s, i) == j
  {
  }

  /** No match starts in `[i, j)`. */
  predicate NoMatch(s: string, i: nat, j: nat)
    requires j <= |s| + 1
  {
    forall k :: i <= k < j ==> MatchAt(s, k).None?
  }

  /** `_MY_PY_LIB_PATTERN.search(s, i)`: the leftmost match at or after `i`. */
  function Search(s: string, i: nat): (r: Option<Match>)
    requires i <= |s|
    ensures r.None? <==> NoMatch(s, i, |s| + 1)
    ensures r.Some? ==> i <= r.value.start <= |s| && MatchAt(s, r.value.start) == r && NoMatch(s, i, r.value.start)
    decreases |s| - i
  {
    if MatchAt(s, i).Some? then MatchAt(s, i)
    else if i == |s| then None
    else Search(s, i + 1)
  }

  /** The result of `find_my_py_lib_dependency`. */
  datatype DependencyMatch = DependencyMatch(hash: Option<string>, start: Option<nat>, end: Option<nat>)

  /**
   * `find_my_py_lib_dependency`: hash, start and end of the first match;
   * all three None when there is none.
   */
  function FindDependency(s: string): (r: DependencyMatch)
    ensures r.start.None? <==> NoMatch(s, 0, |s| + 1)
    ensures r.start.None? ==> r == DependencyMatch(None, None, None)
    ensures r.start.Some? ==> r.end.Some? && r.start.value <= |s|
    ensures r.start.Some? ==>
              MatchAt(s, r.start.value) == Some(Match(r.start.value, r.end.value, r.hash)) && NoMatch(s, 0, r.start.value)
  {
    match Search(s, 0)
    case None => DependencyMatch(None, None, None)
    case Some(m) => DependencyMatch(m.hash, Some(m.start), Some(m.end))
  }

  // ---------------------------------------------------------------------
  // `update_dependency`
  // ---------------------------------------------------------------------

  /** The canonical pinned dependency `update_dependency` writes. */
  function Canonical(hash: string): string
  {
    LIB + (" @ " + (REPO + ("@" + hash)))
  }

  /** `pattern.sub(rep, s[i:])`: every match, left to right and without overlap, replaced by `rep`. */
  function SubAll(s: string, i: nat, rep: string): string
    requires i <= |s|
    decreases |s| - i
  {
    match Search(s, i)
    case None => s[i..]
    case Some(m) => s[i..m.start] + rep + SubAll(s, m.end, rep)
  }

  /** `update_dependency`. */
  function UpdateDependency(s: string, hash: string): string
  {
    SubAll(s, 0, Canonical(hash))
  }

  /** Text without a match is not changed. */
  lemma UpdateWithoutMatch(s: string, hash: string)
    requires FindDependency(s).start.None?
    ensures UpdateDependency(s, hash) == s
  {
  }

  /**
   * The text before the first match is kept, the canonical dependency takes
   * the place of the match, and the rest is the rest of the text updated.
   */
  lemma UpdateFirstMatch(s: string, hash: string)
    requires FindDependency(s).start.Some?
    ensures var m := FindDependency(s);
            var r := UpdateDependency(s, hash);
            && r == s[..m.start.value] + Canonical(hash) + SubAll(s, m.end.value, Canonical(hash))
            && r[..m.start.value] == s[..m.start.value]
  {
    var m := Search(s, 0).value;
    var r := UpdateDependency(s, hash);
    assert r[..m.start] == s[..m.start];
  }

  /** After the end of a match the updated rest starts with the same character as the original rest. */
  lemma SubAllFirst(s: string, i: nat, rep: string)
    requires i <= |s| && |rep| > 0 && rep[0] == LIB[0]
    ensures i == |s| ==> SubAll(s, i, rep) == ""
    ensures i < |s| ==> |SubAll(s, i, rep)| > 0 && SubAll(s, i, rep)[0] == s[i]
  {
    if i < |s| {
      match Search(s, i)
      case None =>
      case Some(m) =>
        if m.start == i {
          assert s[i..i + LIB_LEN] == LIB;
          assert s[i] == LIB[0];
        }
    }
  }

  /** The repository URL has an `m` at 21, 25 and 30 only, and none of them starts `my-l`. */
  lemma RepoLetterM(k: nat)
    requires k < REPO_LEN
    ensures REPO[k] == 'm' ==> k == 21 || k == 25 || k == 30
    ensures REPO[22] != 'y' && REPO[26] != 'y' && REPO[33] != 'l'
  {
  }

  /** `my-l` does not occur inside the repository URL. */
  lemma RepoHasNoLib(t: string, b: nat, n: nat)
    requires RepoAt(t, b) && b <= n && n + 4 <= |t|
    ensures n < b + REPO_LEN ==> t[n..n + 4] != "my-l"
  {
    if n < b + REPO_LEN {
      var k := n - b;
      var r := t[b..b + |REPO|];
      assert r == REPO;
      RepoLetterM(k);
      assert t[n] == r[k] && t[n] == t[n..n + 4][0];
      if k == 21 || k == 25 || k == 30 {
        assert t[n + 1] == r[k + 1] && t[n + 1] == t[n..n + 4][1];
        assert t[n + 3] == r[k + 3] && t[n + 3] == t[n..n + 4][3];
      }
    }
  }

  /** The `my-lib` of a head that starts before an `m` ends before it. */
  lemma LibBeforeM(t: string, n: nat, j: nat, a: nat, b: nat)
    requires j < n < |t| && t[n] == 'm' && HeadAt(t, j, a, b)
    ensures j + LIB_LEN <= n
  {
  }

  /** Neither whitespace run nor the `@` of a head can take in an `m`. */
  lemma SpacesBeforeM(t: string, n: nat, j: nat, a: nat, b: nat)
    requires j + LIB_LEN <= n < |t| && t[n] == 'm' && HeadAt(t, j, a, b)
    ensures a < n && b <= n
  {
    assert !IsSpace(t[n]);
  }

  /** A head cannot read across `my-l` without `my-l` being the start of its `my-lib`. */
  lemma HeadBeforeLib(t: string, n: nat, j: nat, a: nat, b: nat)
    requires j < n && n + 4 <= |t| && t[n..n + 4] == "my-l"
    requires HeadAt(t, j, a, b)
    ensures b + REPO_LEN <= n
  {
    assert t[n] == 'm';
    LibBeforeM(t, n, j, a, b);
    SpacesBeforeM(t, n, j, a, b);
    RepoNotAcrossLib(t, n, b);
  }

  /** The repository URL starting at or before `my-l` ends before it. */
  lemma RepoNotAcrossLib(t: string, n: nat, b: nat)
    requires b <= n && n + 4 <= |t| && t[n..n + 4] == "my-l" && RepoAt(t, b)
    ensures b + REPO_LEN <= n
  {
    RepoHasNoLib(t, b, n);
  }

  /** A head that ends before `n` is also a head in a text that agrees before `n`. */
  lemma HeadAgree(s: string, t: string, n: nat, j: nat, a: nat, b: nat)
    requires n <= |s| && n <= |t| && s[..n] == t[..n] && b + REPO_LEN <= n
    requires HeadAt(t, j, a, b)
    ensures HeadAt(s, j, a, b)
  {
    assert forall k :: 0 <= k < n ==> s[k] == t[k] by {
      forall k | 0 <= k < n ensures s[k] == t[k] {
        assert s[k] == s[..n][k];
      }
    }
    assert s[j..j + LIB_LEN] == t[j..j + LIB_LEN];
    assert s[b..b + REPO_LEN] == t[b..b + REPO_LEN];
  }

  /**
   * A text that agrees with `s` before `n` and has `my-l` at `n` has no
   * match starting before `n` where `s` has none: a match starting before
   * `n` would have to read across `n`, and no part of the pattern can.
   */
  lemma NoEarlierMatch(s: string, t: string, n: nat, j: nat)
    requires j < n <= |s| && n + 4 <= |t| && s[..n] == t[..n] && t[n..n + 4] == "my-l"
    requires MatchAt(s, j).None?
    ensures MatchAt(t, j).None?
  {
    if MatchAt(t, j).Some? {
      var a, b := MatchAtSound(t, j);
      HeadBeforeLib(t, n, j, a, b);
      HeadAgree(s, t, n, j, a, b);
      HeadMatches(s, j, a, b);
    }
  }

  /** Text `x + y` at `n` is `x` at `n` followed by `y`. */
  lemma ConcatAt(t: string, n: nat, x: string, y: string)
    requires n + |x| + |y| <= |t| && t[n..n + |x| + |y|] == x + y
    ensures t[n..n + |x|] == x && t[n + |x|..n + |x| + |y|] == y
  {
    assert t[n..n + |x|] == t[n..n + |x| + |y|][..|x|];
    assert t[n + |x|..n + |x| + |y|] == t[n..n + |x| + |y|][|x|..];
  }

  /** The canonical dependency followed by a non-hex character (or nothing) matches with the new hash. */
  lemma CanonicalMatches(t: string, n: nat, hash: string)
    requires |hash| > 0 && AllHex(hash)
    requires n + |Canonical(hash)| <= |t| && t[n..n + |Canonical(hash)|] == Canonical(hash)
    requires n + |Canonical(hash)| < |t| ==> !IsHexDigit(t[n + |Canonical(hash)|])
    ensures MatchAt(t, n) == Some(Match(n, n + |Canonical(hash)|, Some(hash)))
  {
    var e := n + |Canonical(hash)|;
    var c := n + LIB_LEN + 3 + REPO_LEN;
    var sep, tail := " @ ", "@" + hash;
    ConcatAt(t, n, LIB, sep + (REPO + tail));
    ConcatAt(t, n + LIB_LEN, sep, REPO + tail);
    ConcatAt(t, n + LIB_LEN + 3, REPO, tail);
    ConcatAt(t, c, "@", hash);
    assert t[n + LIB_LEN] == t[n + LIB_LEN..n + LIB_LEN + 3][0] == ' ';
    assert t[n + LIB_LEN + 1] == t[n + LIB_LEN..n + LIB_LEN + 3][1] == '@';
    assert t[n + LIB_LEN + 2] == t[n + LIB_LEN..n + LIB_LEN + 3][2] == ' ';
    assert t[c] == t[c..c + 1][0] == '@';
    assert HeadAt(t, n, n + LIB_LEN + 1, n + LIB_LEN + 3);
    MatchAtComplete(t, n, n + LIB_LEN + 1, n + LIB_LEN + 3, e, Some(hash));
  }

  /**
   * Updating to a hex hash and searching again finds that hash at the place
   * of the first match, provided the first match was not followed by a hex
   * digit (which the new, possibly shorter, hash would absorb).
   */
  lemma FindAfterUpdate(s: string, hash: string)
    requires |hash| > 0 && AllHex(hash)
    requires FindDependency(s).start.Some?
    requires var e := FindDependency(s).end.value; e == |s| || !IsHexDigit(s[e])
    ensures FindDependency(UpdateDependency(s, hash)).hash == Some(hash)
    ensures FindDependency(UpdateDependency(s, hash)).start == FindDependency(s).start
  {
    var m := Search(s, 0).value;
    var n := m.start;
    var rep := Canonical(hash);
    var t := UpdateDependency(s, hash);
    UpdatedText(s, hash);
    CanonicalMatches(t, n, hash);
    NoMatchBefore(s, t, n);
    SearchFirst(t, 0, n);
  }

  /** `NoEarlierMatch` for every start before `n`. */
  lemma NoMatchBefore(s: string, t: string, n: nat)
    requires n <= |s| && n + 4 <= |t| && s[..n] == t[..n] && t[n..n + 4] == "my-l"
    requires NoMatch(s, 0, n)
    ensures NoMatch(t, 0, n)
  {
    forall j | 0 <= j < n ensures MatchAt(t, j).None? {
      NoEarlierMatch(s, t, n, j);
    }
  }

  /** The updated text around the first match: the same before it, the canonical dependency, then what followed it. */
  lemma UpdatedText(s: string, hash: string)
    requires FindDependency(s).start.Some?
    ensures var n, e := FindDependency(s).start.value, FindDependency(s).end.value;
            var rep, t := Canonical(hash), UpdateDependency(s, hash);
            && n + |rep| <= |t| && t[..n] == s[..n] && t[n..n + |rep|] == rep && t[n..n + 4] == "my-l"
            && (e == |s| <==> n + |rep| == |t|)
            && (e < |s| ==> t[n + |rep|] == s[e])
  {
    var m := Search(s, 0).value;
    var rep := Canonical(hash);
    var rest := SubAll(s, m.end, rep);
    var t := UpdateDependency(s, hash);
    UpdateFirstMatch(s, hash);
    CanonicalStart(hash);
    SubAllFirst(s, m.end, rep);
    assert t[m.start..m.start + |rep|] == rep;
    SlicePrefix(t, m.start, rep, 4);
    if m.end < |s| {
      assert t[m.start + |rep|] == rest[0];
    }
  }

  lemma SlicePrefix(t: string, n: nat, x: string, k: nat)
    requires k <= |x| && n + |x| <= |t| && t[n..n + |x|] == x
    ensures t[n..n + k] == x[..k]
  {
    assert t[n..n + k] == t[n..n + |x|][..k];
  }

  lemma CanonicalStart(hash: string)
    ensures |Canonical(hash)| == LIB_LEN + 3 + REPO_LEN + 1 + |hash|
    ensures Canonical(hash)[..4] == "my-l" && Canonical(hash)[0] == LIB[0]
  {
    assert Canonical(hash)[..4] == LIB[..4];
  }

  /** The first match at or after `i` is at `n` when none starts in `[i, n)` and one starts at `n`. */
  lemma SearchFirst(t: string, i: nat, n: nat)
    requires i <= n <= |t| && NoMatch(t, i, n) && MatchAt(t, n).Some?
    ensures Search(t, i) == MatchAt(t, n)
  {
    var r := Search(t, i);
    assert !NoMatch(t, i, |t| + 1) by {
      assert i <= n < |t| + 1 && MatchAt(t, n).Some?;
    }
    assert r.Some?;
    var k := r.value.start;
    assert MatchAt(t, k).Some?;
    assert NoMatch(t, i, k);
    assert k == n;
  }
}
