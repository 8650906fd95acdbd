/**
 * The parsed TOML document as an ordered tree, and the dotted-path helpers of
 * the pyproject handler (`get_nested_value`, `set_nested_value`,
 * `delete_nested_key`). A path is split on `.` as Python's `str.split(".")` does.
 */
module Toml {
  import opened Wrappers
  import opened Assoc
  import opened PyStr

  /**
   * A TOML value: a string, any other scalar (number, boolean, date or time,
   * kept as uninterpreted text), an array of strings (dependency lists) or a
   * table (ordered keys).
   */
  datatype Value = Str(s: string) | Scalar(text: string) | Array(items: seq<string>) | Table(entries: Table<Value>)

  type Doc = Table<Value>

  /**
   * Python's `x in v` for a string `x`: a key of a table, an item of an
   * array, a substring of a string; None where Python raises TypeError
   * (a scalar that is not iterable).
   */
  function ValueContains(v: Value, x: string): (r: Option<bool>)
    ensures r.None? <==> v.Scalar?
  {
    match v
    case Table(e) => Some(HasKey(e, x))
    case Array(items) => Some(x in items)
    case Str(s) => Some(Contains(s, x))
    case Scalar(_) => None
  }

  /** The one-character strings of `s`, as `for c in s` yields them. */
  function Chars(s: string): (r: seq<string>)
    ensures |r| == |s| && forall i :: 0 <= i < |s| ==> r[i] == [s[i]]
  {
    seq(|s|, i requires 0 <= i < |s| => [s[i]])
  }

  /**
   * What `for k in v` yields: a table's keys, an array's items, a string's
   * characters; None where Python raises TypeError (a scalar).
   */
  function Iterated(v: Value): (r: Option<seq<string>>)
    ensures r.None? <==> v.Scalar?
    ensures v.Table? ==> r == Some(Keys(v.entries))
  {
    match v
    case Table(e) => Some(Keys(e))
    case Array(items) => Some(items)
    case Str(s) => Some(Chars(s))
    case Scalar(_) => None
  }

  /** Every table in the tree has distinct keys, as TOML requires. */
  predicate WF(v: Value)
    decreases v
  {
    v.Table? ==> DistinctKeys(v.entries) && forall i :: 0 <= i < |v.entries| ==> WF(v.entries[i].1)
  }

  lemma LookupWF(t: Doc, k: string)
    requires WF(Table(t))
    ensures Lookup(t, k).Some? ==> WF(Lookup(t, k).value)
  {
    LookupFound(t, k);
    if Lookup(t, k).Some? {
      var i :| 0 <= i < |t| && t[i] == (k, Lookup(t, k).value);
    }
  }

  /** Descend through tables along `keys`; anything that is not a table stops the walk. */
  function GetKeys(v: Value, keys: seq<string>): Option<Value>
    decreases |keys|
  {
    if |keys| == 0 then Some(v)
    else if !v.Table? then None
    else
      match Lookup(v.entries, keys[0])
      case None => None
      case Some(c) => GetKeys(c, keys[1..])
  }

  /** `set_nested_value` on the split path: missing intermediate tables are created; None where Python raises. */
  function SetKeys(t: Doc, keys: seq<string>, v: Value): Option<Doc>
    requires |keys| >= 1
    decreases |keys|
  {
    var k := keys[0];
    if |keys| == 1 then Some(Put(t, k, v))
    else
      match Lookup(t, k)
      case None =>
        (match SetKeys([], keys[1..], v)
         case None => None
         case Some(c) => Some(Put(t, k, Table(c))))
      case Some(c) =>
        if !c.Table? then None
        else
          match SetKeys(c.entries, keys[1..], v)
          case None => None
          case Some(c') => Some(Put(t, k, Table(c')))
  }

  /**
   * `delete_nested_key` on the split path: the new document and whether a
   * key was removed; None where Python raises. The walk stops with False at a
   * missing key or at a non-table before the last step; the final `in` and
   * `del` run on whatever value the walk reached, and raise on a scalar (the
   * `in`) or on a string or array holding the key (the `del`).
   */
  function DeleteKeys(t: Doc, keys: seq<string>): (r: Option<(Doc, bool)>)
    requires |keys| >= 1
    ensures r.Some? && !r.value.1 ==> r.value.0 == t
    decreases |keys|
  {
    var k := keys[0];
    if |keys| == 1 then
      if HasKey(t, k) then Some((Remove(t, k), true)) else Some((t, false))
    else
      match Lookup(t, k)
      case None => Some((t, false))
      case Some(c) =>
        if c.Table? then
          match DeleteKeys(c.entries, keys[1..])
          case None => None
          case Some((c', removed)) => if removed then Some((Put(t, k, Table(c')), true)) else Some((t, false))
        else if |keys| == 2 then
          if ValueContains(c, keys[1]) == Some(false) then Some((t, false)) else None
        else Some((t, false))
  }

  function GetNested(doc: Doc, path: string): Option<Value>
  {
    GetKeys(Table(doc), Split(path, '.'))
  }

  function SetNested(doc: Doc, path: string, v: Value): Option<Doc>
  {
    SetKeys(doc, Split(path, '.'), v)
  }

  function DeleteNested(doc: Doc, path: string): Option<(Doc, bool)>
  {
    DeleteKeys(doc, Split(path, '.'))
  }

  /** Reading a path in two steps is reading the concatenated path. */
  lemma {:induction false} GetKeysAppend(v: Value, a: seq<string>, b: seq<string>)
    ensures GetKeys(v, a + b) == match GetKeys(v, a) case None => None case Some(w) => GetKeys(w, b)
    decreases |a|
  {
    if |a| > 0 {
      assert (a + b)[0] == a[0];
      assert (a + b)[1..] == a[1..] + b;
      if v.Table? && Lookup(v.entries, a[0]).Some? {
        GetKeysAppend(Lookup(v.entries, a[0]).value, a[1..], b);
      }
    } else {
      assert a + b == b;
    }
  }

  /** After a successful set, reading the same path gives the value that was set. */
  lemma {:induction false} GetAfterSet(t: Doc, keys: seq<string>, v: Value)
    requires |keys| >= 1 && SetKeys(t, keys, v).Some?
    ensures GetKeys(Table(SetKeys(t, keys, v).value), keys) == Some(v)
    decreases |keys|
  {
    var k := keys[0];
    var t' := SetKeys(t, keys, v).value;
    if |keys| == 1 {
      LookupPut(t, k, v, k);
    } else {
      var sub := if Lookup(t, k).None? then [] else Lookup(t, k).value.entries;
      GetAfterSet(sub, keys[1..], v);
      LookupPut(t, k, Table(SetKeys(sub, keys[1..], v).value), k);
    }
  }

  /**
   * A set succeeds exactly when no proper prefix of the path leads to a
   * value that is not a table (missing tables are created on the way).
   */
  lemma {:induction false} SetSucceeds(t: Doc, keys: seq<string>, v: Value)
    requires |keys| >= 1
    ensures SetKeys(t, keys, v).Some? <==>
            forall i :: 1 <= i < |keys| ==> (GetKeys(Table(t), keys[..i]).None? || GetKeys(Table(t), keys[..i]).value.Table?)
    decreases |keys|
  {
    var k := keys[0];
    if |keys| > 1 {
      var rest := keys[1..];
      forall i | 1 <= i < |keys|
        ensures GetKeys(Table(t), keys[..i]) == match Lookup(t, k) case None => None case Some(c) => GetKeys(c, rest[..i - 1])
      {
        assert keys[..i][0] == k;
        assert keys[..i][1..] == rest[..i - 1];
      }
      match Lookup(t, k)
      case None =>
        SetFresh(keys[1..], v);
      case Some(c) =>
        if c.Table? {
          SetSucceeds(c.entries, rest, v);
          forall i | 1 <= i < |rest| ensures GetKeys(c, rest[..i]) == GetKeys(Table(c.entries), rest[..i]) { }
          assert GetKeys(c, rest[..0]) == Some(c);
          if !SetKeys(c.entries, rest, v).Some? {
            var j :| 1 <= j < |rest| && !(GetKeys(c, rest[..j]).None? || GetKeys(c, rest[..j]).value.Table?);
            assert GetKeys(Table(t), keys[..j + 1]) == GetKeys(c, rest[..j]);
          }
        } else {
          assert GetKeys(Table(t), keys[..1]) == GetKeys(c, rest[..0]);
        }
    }
  }

  /** Setting a path in an empty table always succeeds. */
  lemma {:induction false} SetFresh(keys: seq<string>, v: Value)
    requires |keys| >= 1
    ensures SetKeys([], keys, v).Some?
    decreases |keys|
  {
    if |keys| > 1 {
      SetFresh(keys[1..], v);
    }
  }

  /** A set leaves every path that is neither a prefix nor an extension of the set path as it was. */
  lemma {:induction false} SetKeepsOthers(t: Doc, keys: seq<string>, v: Value, other: seq<string>)
    requires |keys| >= 1 && SetKeys(t, keys, v).Some?
    requires !(keys <= other) && !(other <= keys)
    ensures GetKeys(Table(SetKeys(t, keys, v).value), other) == GetKeys(Table(t), other)
    decreases |keys|
  {
    var k := keys[0];
    var t' := SetKeys(t, keys, v).value;
    assert |other| >= 1;
    if other[0] != k {
      if |keys| == 1 {
        LookupPut(t, k, v, other[0]);
      } else {
        var sub := if Lookup(t, k).None? then [] else Lookup(t, k).value.entries;
        LookupPut(t, k, Table(SetKeys(sub, keys[1..], v).value), other[0]);
      }
    } else {
      assert keys[..1] == other[..1];
      assert |keys| > 1;
      var sub := if Lookup(t, k).None? then [] else Lookup(t, k).value.entries;
      var sub' := SetKeys(sub, keys[1..], v).value;
      LookupPut(t, k, Table(sub'), k);
      assert keys == [k] + keys[1..] && other == [k] + other[1..];
      PrefixCons(k, keys[1..], other[1..]);
      PrefixCons(k, other[1..], keys[1..]);
      SetKeepsOthers(sub, keys[1..], v, other[1..]);
      if Lookup(t, k).None? {
        assert GetKeys(Table([]), other[1..]) == None by {
          assert |other[1..]| >= 1;
        }
      }
    }
  }

  lemma PrefixCons(k: string, a: seq<string>, b: seq<string>)
    ensures a <= b <==> [k] + a <= [k] + b
  {
    if [k] + a <= [k] + b {
      assert forall i :: 0 <= i < |a| ==> a[i] == ([k] + a)[i + 1];
    }
  }

  /** A delete reports a removal exactly when the path was present. */
  lemma {:induction false} DeleteIffPresent(t: Doc, keys: seq<string>)
    requires |keys| >= 1
    ensures (DeleteKeys(t, keys).Some? && DeleteKeys(t, keys).value.1) <==> GetKeys(Table(t), keys).Some?
    decreases |keys|
  {
    var k := keys[0];
    if |keys| == 1 {
      assert GetKeys(Table(t), keys) == Lookup(t, k);
    } else if Lookup(t, k).Some? && Lookup(t, k).value.Table? {
      DeleteIffPresent(Lookup(t, k).value.entries, keys[1..]);
    } else if Lookup(t, k).Some? {
      assert |keys[1..]| > 0;
    }
  }

  /**
   * A delete raises exactly when the walk reaches, as the parent of the last
   * key, a value that is not a table and that Python cannot test with `in`
   * or finds the key in.
   */
  lemma {:induction false} DeleteRaises(t: Doc, keys: seq<string>)
    requires |keys| >= 1
    ensures var parent := GetKeys(Table(t), keys[..|keys| - 1]);
            DeleteKeys(t, keys).None? <==>
              parent.Some? && !parent.value.Table? && ValueContains(parent.value, keys[|keys| - 1]) != Some(false)
    decreases |keys|
  {
    var k := keys[0];
    var n := |keys|;
    if n > 1 {
      assert keys[..n - 1][0] == k;
      assert keys[..n - 1][1..] == keys[1..][..n - 2];
      assert keys[n - 1] == keys[1..][n - 2];
      match Lookup(t, k)
      case None =>
      case Some(c) =>
        if c.Table? {
          DeleteRaises(c.entries, keys[1..]);
        } else if n > 2 {
          assert |keys[1..][..n - 2]| > 0;
        }
    }
  }

  /** After a delete that reports a removal, the path no longer resolves. */
  lemma {:induction false} GetAfterDelete(t: Doc, keys: seq<string>)
    requires |keys| >= 1 && WF(Table(t)) && DeleteKeys(t, keys).Some? && DeleteKeys(t, keys).value.1
    ensures GetKeys(Table(DeleteKeys(t, keys).value.0), keys) == None
    decreases |keys|
  {
    var k := keys[0];
    if |keys| == 1 {
      LookupRemove(t, k, k);
    } else {
      var c := Lookup(t, k).value;
      LookupWF(t, k);
      GetAfterDelete(c.entries, keys[1..]);
      LookupPut(t, k, Table(DeleteKeys(c.entries, keys[1..]).value.0), k);
    }
  }
}
