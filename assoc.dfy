/**
 * Insertion-ordered key/value tables: the model of a Python `dict` and of a
 * tomlkit table. Assigning an existing key replaces the value where it stands;
 * assigning a new key appends it.
 */
module Assoc {
  import opened Wrappers
  import opened StrList

  type Table<V> = seq<(string, V)>

  function Keys<V(==)>(t: Table<V>): (r: seq<string>)
    ensures |r| == |t|
    ensures forall i :: 0 <= i < |t| ==> r[i] == t[i].0
    decreases |t|
  {
    if |t| == 0 then [] else [t[0].0] + Keys(t[1..])
  }

  predicate DistinctKeys<V(==)>(t: Table<V>)
  {
    forall i, j :: 0 <= i < j < |t| ==> t[i].0 != t[j].0
  }

  predicate HasKey<V(==)>(t: Table<V>, k: string)
  {
    k in Keys(t)
  }

  /** Python `t.get(k)`: the value of the first entry with key `k`. */
  function Lookup<V(==)>(t: Table<V>, k: string): (r: Option<V>)
    ensures r.None? <==> !HasKey(t, k)
    decreases |t|
  {
    if |t| == 0 then None
    else if t[0].0 == k then Some(t[0].1)
    else
      assert Keys(t) == [t[0].0] + Keys(t[1..]);
      Lookup(t[1..], k)
  }

  /** A value found by `Lookup` is the value of an entry with that key. */
  lemma {:induction false} LookupFound<V>(t: Table<V>, k: string)
    ensures Lookup(t, k).Some? ==> exists i :: 0 <= i < |t| && t[i] == (k, Lookup(t, k).value)
    decreases |t|
  {
    if |t| > 0 && t[0].0 != k && Lookup(t, k).Some? {
      LookupFound(t[1..], k);
      var i :| 0 <= i < |t[1..]| && t[1..][i] == (k, Lookup(t, k).value);
      assert t[i + 1] == t[1..][i];
    }
  }

  /** Python `t[k] = v`. */
  function Put<V(==)>(t: Table<V>, k: string, v: V): (r: Table<V>)
    decreases |t|
  {
    if |t| == 0 then [(k, v)]
    else if t[0].0 == k then [(k, v)] + t[1..]
    else [t[0]] + Put(t[1..], k, v)
  }

  /** Python `del t[k]` (for a key that is present), a no-op otherwise. */
  function Remove<V(==)>(t: Table<V>, k: string): (r: Table<V>)
    decreases |t|
  {
    if |t| == 0 then []
    else if t[0].0 == k then t[1..]
    else [t[0]] + Remove(t[1..], k)
  }

  lemma {:induction false} LookupPut<V>(t: Table<V>, k: string, v: V, j: string)
    ensures Lookup(Put(t, k, v), j) == if j == k then Some(v) else Lookup(t, j)
    decreases |t|
  {
    if |t| > 0 && t[0].0 != k {
      LookupPut(t[1..], k, v, j);
      assert Put(t, k, v)[1..] == Put(t[1..], k, v);
    }
  }

  lemma {:induction false} KeysPut<V>(t: Table<V>, k: string, v: V)
    ensures Keys(Put(t, k, v)) == if HasKey(t, k) then Keys(t) else Keys(t) + [k]
    decreases |t|
  {
    if |t| > 0 {
      assert Keys(t) == [t[0].0] + Keys(t[1..]);
      if t[0].0 != k {
        KeysPut(t[1..], k, v);
        assert Keys(Put(t, k, v)) == [t[0].0] + Keys(Put(t[1..], k, v));
      } else {
        assert Keys(Put(t, k, v)) == [k] + Keys(t[1..]);
      }
    }
  }

  lemma DistinctKeysOf<V>(t: Table<V>)
    ensures DistinctKeys(t) <==> forall i, j :: 0 <= i < j < |Keys(t)| ==> Keys(t)[i] != Keys(t)[j]
  {
    var ks := Keys(t);
    if DistinctKeys(t) {
      forall i, j | 0 <= i < j < |ks| ensures ks[i] != ks[j] {
        assert ks[i] == t[i].0 && ks[j] == t[j].0;
      }
    } else {
      var i, j :| 0 <= i < j < |t| && t[i].0 == t[j].0;
      assert Keys(t)[i] == Keys(t)[j];
      assert !(forall i, j :: 0 <= i < j < |Keys(t)| ==> Keys(t)[i] != Keys(t)[j]);
    }
  }

  lemma {:induction false} DistinctPut<V>(t: Table<V>, k: string, v: V)
    requires DistinctKeys(t)
    ensures DistinctKeys(Put(t, k, v))
  {
    KeysPut(t, k, v);
    DistinctKeysOf(t);
    DistinctKeysOf(Put(t, k, v));
  }

  /** Assigning a key the value it already has leaves the table as it is. */
  lemma {:induction false} PutSame<V>(t: Table<V>, k: string, v: V)
    requires DistinctKeys(t)
    requires Lookup(t, k) == Some(v)
    ensures Put(t, k, v) == t
    decreases |t|
  {
    if t[0].0 != k {
      assert DistinctKeys(t[1..]) by {
        forall i, j | 0 <= i < j < |t[1..]| ensures t[1..][i].0 != t[1..][j].0 {
          assert t[i + 1].0 != t[j + 1].0;
        }
      }
      PutSame(t[1..], k, v);
      assert [t[0]] + t[1..] == t;
    } else {
      assert [(k, v)] + t[1..] == t;
    }
  }

  lemma {:induction false} LookupRemove<V>(t: Table<V>, k: string, j: string)
    requires DistinctKeys(t)
    ensures Lookup(Remove(t, k), j) == if j == k then None else Lookup(t, j)
    ensures DistinctKeys(Remove(t, k))
    decreases |t|
  {
    if |t| > 0 {
      TailDistinct(t);
      if t[0].0 != k {
        LookupRemove(t[1..], k, j);
        RemoveConsDistinct(t, k);
      }
    }
  }

  lemma TailDistinct<V>(t: Table<V>)
    requires |t| > 0 && DistinctKeys(t)
    ensures DistinctKeys(t[1..])
    ensures forall i :: 0 <= i < |t[1..]| ==> t[1..][i].0 != t[0].0
  {
    forall a, b | 0 <= a < b < |t[1..]| ensures t[1..][a].0 != t[1..][b].0 {
      assert t[a + 1].0 != t[b + 1].0;
    }
    forall i | 0 <= i < |t[1..]| ensures t[1..][i].0 != t[0].0 {
      assert t[i + 1].0 != t[0].0;
    }
  }

  lemma RemoveConsDistinct<V>(t: Table<V>, k: string)
    requires |t| > 0 && t[0].0 != k && DistinctKeys(t) && DistinctKeys(Remove(t[1..], k))
    ensures DistinctKeys(Remove(t, k))
  {
    TailDistinct(t);
    var rest := Remove(t[1..], k);
    var r := Remove(t, k);
    assert r == [t[0]] + rest;
    forall b | 0 <= b < |rest| ensures rest[b].0 != t[0].0 {
      assert rest[b] in rest;
      RemoveSubset(t[1..], k, rest[b]);
    }
    forall a, b | 0 <= a < b < |r| ensures r[a].0 != r[b].0 {
      if a == 0 {
        assert r[b] == rest[b - 1];
      } else {
        assert r[a] == rest[a - 1] && r[b] == rest[b - 1];
      }
    }
  }

  lemma {:induction false} RemoveSubset<V>(t: Table<V>, k: string, e: (string, V))
    requires e in Remove(t, k)
    ensures e in t
    decreases |t|
  {
    if |t| > 0 && t[0].0 != k && e != t[0] {
      assert e in Remove(t[1..], k);
      RemoveSubset(t[1..], k, e);
    }
  }

  /** Two tables with the same key order and the same lookups are equal. */
  lemma {:induction false} TableExt<V>(a: Table<V>, b: Table<V>)
    requires DistinctKeys(a) && Keys(a) == Keys(b)
    requires forall k :: Lookup(a, k) == Lookup(b, k)
    ensures a == b
  {
    assert |a| == |b|;
    forall i | 0 <= i < |a| ensures a[i] == b[i] {
      var k := a[i].0;
      assert b[i].0 == k by { assert Keys(b)[i] == Keys(a)[i]; }
      LookupAt(a, i);
      assert DistinctKeys(b) by { DistinctKeysOf(a); DistinctKeysOf(b); }
      LookupAt(b, i);
      assert Lookup(a, k) == Lookup(b, k);
    }
  }

  lemma {:induction false} LookupAt<V>(t: Table<V>, i: nat)
    requires DistinctKeys(t) && i < |t|
    ensures Lookup(t, t[i].0) == Some(t[i].1)
    decreases i
  {
    if i > 0 {
      assert t[0].0 != t[i].0;
      assert DistinctKeys(t[1..]) by {
        forall a, b | 0 <= a < b < |t[1..]| ensures t[1..][a].0 != t[1..][b].0 {
          assert t[a + 1].0 != t[b + 1].0;
        }
      }
      LookupAt(t[1..], i - 1);
    }
  }

  /** Every entry of `t[k] = v` is either the new entry or an entry of `t`. */
  lemma {:induction false} PutMembers<V>(t: Table<V>, k: string, v: V, e: (string, V))
    requires e in Put(t, k, v)
    ensures e == (k, v) || e in t
    decreases |t|
  {
    if |t| > 0 && t[0].0 != k && e != t[0] {
      assert e in Put(t[1..], k, v);
      PutMembers(t[1..], k, v, e);
    }
  }

  /** Assigning a key twice keeps only the second value. */
  lemma {:induction false} PutPut<V>(t: Table<V>, k: string, v: V, w: V)
    ensures Put(Put(t, k, v), k, w) == Put(t, k, w)
    decreases |t|
  {
    if |t| > 0 && t[0].0 != k {
      PutPut(t[1..], k, v, w);
    }
  }

  /** `t.update(es)`, or `{**t, **dict(es)}`: every pair of `es` assigned in order. */
  function PutAll<V(==)>(t: Table<V>, es: seq<(string, V)>): Table<V>
    decreases |es|
  {
    if |es| == 0 then t else PutAll(Put(t, es[0].0, es[0].1), es[1..])
  }

  /** The value of the last pair of `es` with key `k`. */
  function LookupLast<V(==)>(es: seq<(string, V)>, k: string): (r: Option<V>)
    ensures r.None? <==> !HasKey(es, k)
    decreases |es|
  {
    if |es| == 0 then None
    else
      assert Keys(es) == [es[0].0] + Keys(es[1..]);
      match LookupLast(es[1..], k)
      case Some(v) => Some(v)
      case None => if es[0].0 == k then Some(es[0].1) else None
  }

  /** After assigning all pairs, a key has its last assigned value, or its old one if never assigned. */
  lemma {:induction false} LookupPutAll<V>(t: Table<V>, es: seq<(string, V)>, k: string)
    ensures Lookup(PutAll(t, es), k) == if HasKey(es, k) then LookupLast(es, k) else Lookup(t, k)
    decreases |es|
  {
    if |es| > 0 {
      LookupPutAll(Put(t, es[0].0, es[0].1), es[1..], k);
      LookupPut(t, es[0].0, es[0].1, k);
      assert Keys(es) == [es[0].0] + Keys(es[1..]);
    }
  }

  /** Assigning pairs keeps the old keys in place and appends each new key once, in order of first assignment. */
  lemma {:induction false} KeysPutAll<V>(t: Table<V>, es: seq<(string, V)>)
    ensures Keys(PutAll(t, es)) == AppendMissing(Keys(t), Keys(es))
    ensures DistinctKeys(t) ==> DistinctKeys(PutAll(t, es))
    decreases |es|
  {
    if |es| > 0 {
      var t' := Put(t, es[0].0, es[0].1);
      KeysPutAll(t', es[1..]);
      KeysPut(t, es[0].0, es[0].1);
      if DistinctKeys(t) { DistinctPut(t, es[0].0, es[0].1); }
      assert Keys(es) == [es[0].0] + Keys(es[1..]);
    }
  }

  /** In a table with distinct keys the last entry with a key is its only one. */
  lemma {:induction false} LookupLastDistinct<V>(t: Table<V>, k: string)
    requires DistinctKeys(t)
    ensures LookupLast(t, k) == Lookup(t, k)
    decreases |t|
  {
    if |t| > 0 {
      TailDistinct(t);
      LookupLastDistinct(t[1..], k);
      if t[0].0 == k {
        assert !HasKey(t[1..], k);
      }
    }
  }
}
