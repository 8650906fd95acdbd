/**
 * Python `str` operations that the configuration tool relies on, with the
 * semantics of CPython: `str.isspace`, `str.split(sep)`, `str.split()`,
 * `sep.join`, `str.rstrip`, `str.splitlines(keepends=True)`, slicing.
 */
module PyStr {

  /** `c.isspace()` in CPython (also the class `\s` of `re` on `str` patterns). */
  predicate IsSpace(c: char)
  {
    var n := c as int;
    (9 <= n <= 13) || (28 <= n <= 32) || n == 0x85 || n == 0xA0 || n == 0x1680
    || (0x2000 <= n <= 0x200A) || n == 0x2028 || n == 0x2029 || n == 0x202F
    || n == 0x205F || n == 0x3000
  }

  predicate AllSpace(s: string)
  {
    forall i :: 0 <= i < |s| ==> IsSpace(s[i])
  }

  predicate NoSpace(s: string)
  {
    forall i :: 0 <= i < |s| ==> !IsSpace(s[i])
  }

  /** Python `s.startswith(p)`. */
  predicate StartsWith(s: string, p: string)
  {
    |p| <= |s| && s[..|p|] == p
  }

  /** Python `s.endswith(p)`. */
  predicate EndsWith(s: string, p: string)
  {
    |p| <= |s| && s[|s| - |p|..] == p
  }

  /** Python `t in s` for strings. */
  predicate Contains(s: string, t: string)
    decreases |s|
  {
    StartsWith(s, t) || (|s| > 0 && Contains(s[1..], t))
  }

  /** Python `s[:n]` for `n >= 0`. */
  function Take(s: string, n: nat): (r: string)
    ensures |r| == if n <= |s| then n else |s|
    ensures r == s[..|r|]
  {
    if n <= |s| then s[..n] else s
  }

  /** Python `s.rstrip()`: drop trailing whitespace. */
  function RStrip(s: string): (r: string)
    ensures r <= s && AllSpace(s[|r|..])
    ensures r == [] || !IsSpace(r[|r| - 1])
    decreases |s|
  {
    if |s| > 0 && IsSpace(s[|s| - 1]) then RStrip(s[..|s| - 1]) else s
  }

  /** Python `s.rstrip(chars)`: drop trailing characters that belong to `chars`. */
  function RStripChars(s: string, chars: set<char>): (r: string)
    ensures r <= s
    ensures forall i :: |r| <= i < |s| ==> s[i] in chars
    ensures r == [] || r[|r| - 1] !in chars
    decreases |s|
  {
    if |s| > 0 && s[|s| - 1] in chars then RStripChars(s[..|s| - 1], chars) else s
  }

  /** Python `s.split(sep)` for a one-character separator: never empty, keeps empty fields. */
  function Split(s: string, sep: char): (r: seq<string>)
    ensures |r| >= 1
    decreases |s|
  {
    if |s| == 0 then [""]
    else
      var rest := Split(s[1..], sep);
      if s[0] == sep then [""] + rest else [[s[0]] + rest[0]] + rest[1..]
  }

  /** Python `sep.join(parts)`. */
  function Join(parts: seq<string>, sep: string): string
    decreases |parts|
  {
    if |parts| == 0 then ""
    else if |parts| == 1 then parts[0]
    else parts[0] + sep + Join(parts[1..], sep)
  }

  /** Python `"".join(parts)`. */
  function Concat(parts: seq<string>): string
    decreases |parts|
  {
    if |parts| == 0 then "" else parts[0] + Concat(parts[1..])
  }

  lemma {:induction false} ConcatAppend(a: seq<string>, b: seq<string>)
    ensures Concat(a + b) == Concat(a) + Concat(b)
    decreases |a|
  {
    if |a| == 0 {
      assert a + b == b;
    } else {
      assert (a + b)[1..] == a[1..] + b;
      ConcatAppend(a[1..], b);
    }
  }

  /** The fields of `s.split(sep)` never contain `sep`. */
  lemma {:induction false} SplitFieldsFree(s: string, sep: char)
    ensures forall i :: 0 <= i < |Split(s, sep)| ==> sep !in Split(s, sep)[i]
    decreases |s|
  {
    if |s| > 0 {
      SplitFieldsFree(s[1..], sep);
    }
  }

  /** Joining the fields of a split gives the original string back. */
  lemma {:induction false} JoinSplit(s: string, sep: char)
    ensures Join(Split(s, sep), [sep]) == s
    decreases |s|
  {
    if |s| > 0 {
      var rest := Split(s[1..], sep);
      JoinSplit(s[1..], sep);
      if s[0] == sep {
        assert Split(s, sep)[1..] == rest;
      } else {
        var r := Split(s, sep);
        assert r[0] == [s[0]] + rest[0];
        if |rest| == 1 {
          assert |r| == 1;
        } else {
          assert r[1..] == rest[1..];
          assert Join(r, [sep]) == r[0] + [sep] + Join(rest[1..], [sep]);
          assert Join(rest, [sep]) == rest[0] + [sep] + Join(rest[1..], [sep]);
        }
      }
    }
  }

  /** Splitting a join of separator-free fields gives the fields back. */
  lemma {:induction false} SplitJoin(parts: seq<string>, sep: char)
    requires |parts| >= 1
    requires forall i :: 0 <= i < |parts| ==> sep !in parts[i]
    ensures Split(Join(parts, [sep]), sep) == parts
    decreases |parts|, |parts[0]|
  {
    if |parts| == 1 {
      SplitNoSep(parts[0], sep);
    } else if |parts[0]| == 0 {
      var tail := Join(parts[1..], [sep]);
      assert Join(parts, [sep]) == [sep] + tail;
      assert ([sep] + tail)[1..] == tail;
      SplitJoin(parts[1..], sep);
      assert parts == [""] + parts[1..];
    } else {
      var p0 := parts[0];
      var shorter := [p0[1..]] + parts[1..];
      assert shorter[1..] == parts[1..];
      assert forall i :: 0 <= i < |shorter| ==> sep !in shorter[i] by {
        assert forall c :: c in p0[1..] ==> c in p0;
      }
      SplitJoin(shorter, sep);
      var j := Join(parts, [sep]);
      assert j == [p0[0]] + Join(shorter, [sep]);
      assert j[1..] == Join(shorter, [sep]);
      assert p0[0] != sep by { assert p0[0] in p0; }
      assert [p0[0]] + p0[1..] == p0;
    }
  }

  lemma {:induction false} SplitNoSep(s: string, sep: char)
    requires sep !in s
    ensures Split(s, sep) == [s]
    decreases |s|
  {
    if |s| > 0 {
      assert s[0] in s;
      assert forall c :: c in s[1..] ==> c in s;
      SplitNoSep(s[1..], sep);
      assert [s[0]] + s[1..] == s;
    }
  }

  /** The first index from `i` on that is not whitespace (or the end). */
  function SkipSpace(line: string, i: nat): (j: nat)
    requires i <= |line|
    ensures i <= j <= |line| && (j < |line| ==> !IsSpace(line[j]))
    ensures forall k :: i <= k < j ==> IsSpace(line[k])
    decreases |line| - i
  {
    if i < |line| && IsSpace(line[i]) then SkipSpace(line, i + 1) else i
  }

  /** The first index from `i` on that is whitespace (or the end). */
  function SkipToken(line: string, i: nat): (j: nat)
    requires i <= |line|
    ensures i <= j <= |line| && (j < |line| ==> IsSpace(line[j]))
    ensures forall k :: i <= k < j ==> !IsSpace(line[k])
    decreases |line| - i
  {
    if i < |line| && !IsSpace(line[i]) then SkipToken(line, i + 1) else i
  }

  /** Python `s[i:].split()` (no separator): the maximal runs of non-whitespace from `i` on. */
  function SplitWhitespaceFrom(s: string, i: nat): (r: seq<string>)
    requires i <= |s|
    ensures forall k :: 0 <= k < |r| ==> |r[k]| > 0 && NoSpace(r[k])
    ensures |r| == 0 <==> SkipSpace(s, i) == |s|
    ensures |r| > 0 ==> r[0] == s[SkipSpace(s, i)..SkipToken(s, SkipSpace(s, i))]
    decreases |s| - i
  {
    var a := SkipSpace(s, i);
    if a == |s| then []
    else
      var b := SkipToken(s, a);
      [s[a..b]] + SplitWhitespaceFrom(s, b)
  }

  /** Python `s.split()` (no separator). */
  function SplitWhitespace(s: string): seq<string>
  {
    SplitWhitespaceFrom(s, 0)
  }

  /** Characters at which `str.splitlines` ends a line. */
  predicate IsLineBreak(c: char)
  {
    var n := c as int;
    (10 <= n <= 13) || (28 <= n <= 30) || n == 0x85 || n == 0x2028 || n == 0x2029
  }

  function BreakFrom(s: string, i: nat): (j: nat)
    requires i <= |s|
    ensures i <= j <= |s|
    ensures j < |s| ==> IsLineBreak(s[j])
    ensures forall k :: i <= k < j ==> !IsLineBreak(s[k])
    decreases |s| - i
  {
    if i == |s| || IsLineBreak(s[i]) then i else BreakFrom(s, i + 1)
  }

  /** Length of the first line of `s`, terminator included (`\r\n` counts as one terminator). */
  function FirstLineLen(s: string): (n: nat)
    requires |s| > 0
    ensures 0 < n <= |s|
  {
    var j := BreakFrom(s, 0);
    if j == |s| then |s|
    else if s[j] == '\r' && j + 1 < |s| && s[j + 1] == '\n' then j + 2
    else j + 1
  }

  /**
   * A line as `splitlines(keepends=True)` yields it: not empty, and a line
   * break only at its end, where `\r\n` is one two-character break.
   */
  predicate LineShaped(l: string)
  {
    && |l| > 0
    && forall k :: 0 <= k < |l| - 1 && IsLineBreak(l[k]) ==> k == |l| - 2 && l[k] == '\r' && l[k + 1] == '\n'
  }

  /**
   * Lines as `splitlines(keepends=True)` cuts them: each line shaped, every
   * line but the last ending in a break, and a `\r` never separated from
   * the `\n` after it.
   */
  predicate LinesSplit(r: seq<string>)
  {
    && (forall i :: 0 <= i < |r| ==> LineShaped(r[i]))
    && (forall i :: 0 <= i < |r| - 1 ==> IsLineBreak(r[i][|r[i]| - 1]))
    && (forall i :: 0 <= i < |r| - 1 ==> !(r[i][|r[i]| - 1] == '\r' && r[i + 1][0] == '\n'))
  }

  /** Python `s.splitlines(keepends=True)`. */
  function SplitLines(s: string): (r: seq<string>)
    ensures forall i :: 0 <= i < |r| ==> |r[i]| > 0
    ensures LinesSplit(r)
    ensures |s| > 0 ==> |r| > 0 && r[0] == s[..FirstLineLen(s)]
    decreases |s|
  {
    if |s| == 0 then []
    else
      var n := FirstLineLen(s);
      var rest := SplitLines(s[n..]);
      FirstLineShape(s);
      assert |rest| > 0 ==> rest[0][0] == s[n];
      LinesSplitCons(s[..n], rest);
      [s[..n]] + rest
  }

  /** A line shaped piece ending in a break that keeps `\r\n` whole can precede split lines. */
  lemma LinesSplitCons(l: string, rest: seq<string>)
    requires LineShaped(l) && LinesSplit(rest)
    requires |rest| > 0 ==> IsLineBreak(l[|l| - 1]) && !(l[|l| - 1] == '\r' && rest[0][0] == '\n')
    ensures LinesSplit([l] + rest)
  {
    var r := [l] + rest;
    assert forall i :: 1 <= i < |r| ==> r[i] == rest[i - 1];
  }

  /** The first line of `s` is line shaped, ends in a break unless it is all of `s`, and keeps `\r\n` together. */
  lemma FirstLineShape(s: string)
    requires |s| > 0
    ensures var n := FirstLineLen(s);
            && LineShaped(s[..n])
            && (n < |s| ==> IsLineBreak(s[n - 1]) && !(s[n - 1] == '\r' && s[n] == '\n'))
  {
    var j := BreakFrom(s, 0);
    var n := FirstLineLen(s);
    var l := s[..n];
    forall k | 0 <= k < |l| - 1 && IsLineBreak(l[k]) ensures k == |l| - 2 && l[k] == '\r' && l[k + 1] == '\n' {
      assert l[k] == s[k];
    }
  }

  /** The lines of `splitlines(keepends=True)` concatenate back to the input. */
  lemma {:induction false} ConcatSplitLines(s: string)
    ensures Concat(SplitLines(s)) == s
    decreases |s|
  {
    if |s| > 0 {
      var n := FirstLineLen(s);
      ConcatSplitLines(s[n..]);
      assert SplitLines(s)[1..] == SplitLines(s[n..]);
      assert s[..n] + s[n..] == s;
    }
  }

  /**
   * `splitlines(keepends=True)` is the only way to cut `s` into line-shaped
   * pieces that each (but the last) end in a line break, with no `\r\n`
   * split in two.
   */
  lemma {:induction false} SplitLinesUnique(s: string, parts: seq<string>)
    requires Concat(parts) == s && LinesSplit(parts)
    ensures parts == SplitLines(s)
    decreases |parts|
  {
    if |parts| > 0 {
      var l := parts[0];
      var tail := Concat(parts[1..]);
      assert s == l + tail;
      assert s[..|l|] == l;
      if |parts| > 1 {
        assert tail == parts[1] + Concat(parts[2..]);
        assert tail[0] == parts[1][0];
      }
      FirstLineIs(s, l, |parts| > 1);
      var n := FirstLineLen(s);
      assert s[n..] == tail;
      SplitLinesUnique(tail, parts[1..]);
    }
  }

  /** The first line of `l + ...` is `l` when `l` is line shaped and, unless it is everything, ends in a break not split from a `\n`. */
  lemma FirstLineIs(s: string, l: string, more: bool)
    requires LineShaped(l) && |l| <= |s| && s[..|l|] == l
    requires more ==> |l| < |s| && IsLineBreak(l[|l| - 1]) && !(l[|l| - 1] == '\r' && s[|l|] == '\n')
    requires !more ==> |l| == |s|
    ensures FirstLineLen(s) == |l|
  {
    var j := BreakFrom(s, 0);
    forall k | 0 <= k < |l| ensures s[k] == l[k] {
      assert s[..|l|][k] == s[k];
    }
    if j < |l| - 1 {
      assert IsLineBreak(l[j]);
    }
  }

  /** `parts` with `t` appended to its last element. */
  function ExtendLast(parts: seq<string>, t: string): (r: seq<string>)
    requires |parts| >= 1
    ensures |r| == |parts| && r[|r| - 1] == parts[|parts| - 1] + t
    ensures forall i :: 0 <= i < |parts| - 1 ==> r[i] == parts[i]
  {
    parts[..|parts| - 1] + [parts[|parts| - 1] + t]
  }

  lemma ExtendLastEmptyHead(parts: seq<string>, t: string)
    requires |parts| >= 1
    ensures ExtendLast([""] + parts, t) == [""] + ExtendLast(parts, t)
  {
    var a := ExtendLast([""] + parts, t);
    var b := [""] + ExtendLast(parts, t);
    assert |a| == |b|;
    forall i | 0 <= i < |a| ensures a[i] == b[i] {
      if i > 0 {
        assert ([""] + parts)[i] == parts[i - 1];
      }
    }
  }

  lemma ExtendLastConsHead(c: char, parts: seq<string>, t: string)
    requires |parts| >= 1
    ensures var e := ExtendLast(parts, t);
            ExtendLast([[c] + parts[0]] + parts[1..], t) == [[c] + e[0]] + e[1..]
  {
    var e := ExtendLast(parts, t);
    var a := ExtendLast([[c] + parts[0]] + parts[1..], t);
    var b := [[c] + e[0]] + e[1..];
    assert |a| == |b|;
    forall i | 0 <= i < |a| ensures a[i] == b[i] {
      if i == 0 && |parts| == 1 {
        assert ([c] + parts[0]) + t == [c] + (parts[0] + t);
      }
    }
  }

  /** Appending separator-free text extends the last field of a split. */
  lemma {:induction false} SplitAppendFree(s: string, t: string, sep: char)
    requires sep !in t
    ensures Split(s + t, sep) == ExtendLast(Split(s, sep), t)
    decreases |s|
  {
    if |s| == 0 {
      assert s + t == t;
      SplitNoSep(t, sep);
    } else {
      var u := s + t;
      assert u[1..] == s[1..] + t;
      assert u[0] == s[0];
      SplitAppendFree(s[1..], t, sep);
      if s[0] == sep {
        ExtendLastEmptyHead(Split(s[1..], sep), t);
      } else {
        ExtendLastConsHead(s[0], Split(s[1..], sep), t);
      }
    }
  }
}
