/** Python lists of strings: appending the items a list does not hold yet. */
module StrList {

  /**
   * `for x in extra: if x not in items: items.append(x)`: the extra items the
   * list lacks, appended in order. Python dicts order their keys the same way.
   */
  function AppendMissing(items: seq<string>, extra: seq<string>): (r: seq<string>)
    ensures |items| <= |r| <= |items| + |extra|
    decreases |extra|
  {
    if |extra| == 0 then items
    else AppendMissing(if extra[0] in items then items else items + [extra[0]], extra[1..])
  }

  /** `a` occurs in `b` in order, possibly with gaps. */
  predicate Subsequence(a: seq<string>, b: seq<string>)
    decreases |b|
  {
    |a| == 0 || (|b| > 0 && (if a[0] == b[0] then Subsequence(a[1..], b[1..]) else Subsequence(a, b[1..])))
  }

  lemma {:induction false} SubsequenceOfSelf(b: seq<string>)
    ensures Subsequence(b, b)
    decreases |b|
  {
    if |b| > 0 { SubsequenceOfSelf(b[1..]); }
  }

  /** A longer haystack keeps a subsequence. */
  lemma {:induction false} SubsequenceDrop(a: seq<string>, b: seq<string>)
    requires |b| > 0 && Subsequence(a, b[1..])
    ensures Subsequence(a, b)
    decreases |b|, 1
  {
    if |a| > 0 && a[0] == b[0] {
      SubsequenceTail(a, b[1..]);
    }
  }

  /** A shorter needle stays a subsequence. */
  lemma {:induction false} SubsequenceTail(a: seq<string>, c: seq<string>)
    requires |a| > 0 && Subsequence(a, c)
    ensures Subsequence(a[1..], c)
    decreases |c|, 2
  {
    if a[0] == c[0] {
      SubsequenceDrop(a[1..], c);
    } else {
      SubsequenceTail(a, c[1..]);
      SubsequenceDrop(a[1..], c);
    }
  }

  /**
   * Appending the missing extra items keeps the existing list as a prefix,
   * adds exactly the extra items it lacked (each once, in the order they are
   * listed), and leaves a list that already has them all alone.
   */
  lemma {:induction false} AppendMissingSpec(items: seq<string>, extra: seq<string>)
    ensures var r := AppendMissing(items, extra);
      && items <= r
      && (forall x :: x in r <==> x in items || x in extra)
      && (forall i, j :: |items| <= i < j < |r| ==> r[i] != r[j])
      && (forall i :: |items| <= i < |r| ==> r[i] !in items)
      && Subsequence(r[|items|..], extra)
      && ((forall x :: x in extra ==> x in items) ==> r == items)
  {
    AppendMissingMembers(items, extra);
    AppendMissingFresh(items, extra);
    AppendMissingOrder(items, extra);
    AppendMissingNoop(items, extra);
  }

  lemma {:induction false} AppendMissingMembers(items: seq<string>, extra: seq<string>)
    ensures var r := AppendMissing(items, extra);
            items <= r && forall x :: x in r <==> x in items || x in extra
    decreases |extra|
  {
    if |extra| > 0 {
      var e := extra[0];
      AppendMissingMembers(if e in items then items else items + [e], extra[1..]);
      assert extra == [e] + extra[1..];
    }
  }

  lemma {:induction false} AppendMissingFresh(items: seq<string>, extra: seq<string>)
    ensures var r := AppendMissing(items, extra);
            && (forall i, j :: |items| <= i < j < |r| ==> r[i] != r[j])
            && (forall i :: |items| <= i < |r| ==> r[i] !in items)
    decreases |extra|
  {
    if |extra| > 0 {
      var r := AppendMissing(items, extra);
      var e := extra[0];
      var next := if e in items then items else items + [e];
      AppendMissingFresh(next, extra[1..]);
      AppendMissingMembers(next, extra[1..]);
      forall i | |items| <= i < |r| ensures r[i] !in items {
        if i >= |next| {
          assert r[i] !in next;
        } else {
          assert r[i] == next[i] == e;
        }
      }
      forall i, j | |items| <= i < j < |r| ensures r[i] != r[j] {
        if i < |next| {
          assert r[i] == e && e in next;
          assert r[j] !in next;
        }
      }
    }
  }

  lemma {:induction false} AppendMissingOrder(items: seq<string>, extra: seq<string>)
    ensures var r := AppendMissing(items, extra);
            |items| <= |r| && Subsequence(r[|items|..], extra)
    decreases |extra|
  {
    var r := AppendMissing(items, extra);
    if |extra| == 0 {
      assert r[|items|..] == [];
    } else {
      var e := extra[0];
      var next := if e in items then items else items + [e];
      AppendMissingOrder(next, extra[1..]);
      AppendMissingMembers(next, extra[1..]);
      if e in items {
        SubsequenceDrop(r[|items|..], extra);
      } else {
        assert r[|items|..][0] == e;
        assert r[|items|..][1..] == r[|next|..];
      }
    }
  }

  lemma {:induction false} AppendMissingNoop(items: seq<string>, extra: seq<string>)
    ensures (forall x :: x in extra ==> x in items) ==> AppendMissing(items, extra) == items
    decreases |extra|
  {
    if |extra| > 0 && forall x :: x in extra ==> x in items {
      assert extra[0] in items;
      forall x | x in extra[1..] ensures x in items {
        assert x in extra;
      }
      AppendMissingNoop(items, extra[1..]);
    }
  }

  /** Appending the missing items of `a + b` is appending those of `a`, then those of `b`. */
  lemma {:induction false} AppendMissingConcat(items: seq<string>, a: seq<string>, b: seq<string>)
    ensures AppendMissing(items, a + b) == AppendMissing(AppendMissing(items, a), b)
    decreases |a|
  {
    if |a| > 0 {
      assert (a + b)[0] == a[0] && (a + b)[1..] == a[1..] + b;
      AppendMissingConcat(if a[0] in items then items else items + [a[0]], a[1..], b);
    } else {
      assert a + b == b;
    }
  }

  /** The list is a prefix of the result of appending to it. */
  lemma {:induction false} AppendMissingPrefix(items: seq<string>, extra: seq<string>)
    ensures items <= AppendMissing(items, extra)
    decreases |extra|
  {
    if |extra| > 0 {
      AppendMissingPrefix(if extra[0] in items then items else items + [extra[0]], extra[1..]);
    }
  }

  /**
   * Appending what `seen` lacks of `extra` and then appending those items to
   * a list that holds all of `seen` is appending `extra` to it directly.
   */
  lemma {:induction false} AppendMissingSkipSeen(items: seq<string>, seen: seq<string>, extra: seq<string>)
    requires forall y :: y in seen ==> y in items
    ensures AppendMissing(items, AppendMissing(seen, extra)[|seen|..]) == AppendMissing(items, extra)
    decreases |extra|
  {
    var r := AppendMissing(seen, extra);
    AppendMissingPrefix(seen, extra);
    if |extra| == 0 {
      assert r[|seen|..] == [];
    } else {
      var e := extra[0];
      if e in seen {
        AppendMissingSkipSeen(items, seen, extra[1..]);
      } else {
        var seen' := seen + [e];
        var items' := if e in items then items else items + [e];
        AppendMissingPrefix(seen', extra[1..]);
        assert r[|seen|..] == [e] + r[|seen'|..];
        assert ([e] + r[|seen'|..])[1..] == r[|seen'|..];
        AppendMissingSkipSeen(items', seen', extra[1..]);
      }
    }
  }

  /** Appending the missing items of a list that has already been deduplicated is appending those of the list. */
  lemma AppendMissingDedup(items: seq<string>, extra: seq<string>)
    ensures AppendMissing(items, AppendMissing([], extra)) == AppendMissing(items, extra)
  {
    AppendMissingSkipSeen(items, [], extra);
    assert AppendMissing([], extra)[0..] == AppendMissing([], extra);
  }
}
