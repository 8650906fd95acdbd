/**
 * `merge_pyproject` and `_merge_section`: the structural merge of the shared
 * template into a project's pyproject.toml. A result of None stands for the
 * TypeError (or AttributeError) Python raises when one of the loops tests,
 * subscripts, assigns into or appends to a value that does not support it.
 */
module PyprojectMerge {
  import opened Wrappers
  import opened PyStr
  import opened Assoc
  import opened Toml
  import opened ProjectConfig
  import opened StrList

  /** Fields of `[project]` that always keep the project's own value. */
  const PRESERVE_PROJECT_FIELDS: seq<string> := ["name", "version", "description", "dependencies"]

  /** Tool sections that are never taken from the template. */
  const PRESERVE_SECTIONS: seq<string> := ["tool.hatch.build.targets.wheel", "tool.mypy.packages", "tool.mypy.overrides"]

  const DEV_PATH: string := "dependency-groups.dev"

  /**
   * The key-by-key update loop of `_merge_section`: each template key outside
   * `preserve`, in template order, is assigned into `sec`.
   */
  function Overlay(sec: Doc, tmpl: Doc, preserve: seq<string>): Doc
    decreases |tmpl|
  {
    if |tmpl| == 0 then sec
    else
      var k := tmpl[0].0;
      Overlay(if k in preserve then sec else Put(sec, k, tmpl[0].1), tmpl[1..], preserve)
  }

  lemma DistinctTail<V>(t: Table<V>)
    requires |t| > 0 && DistinctKeys(t)
    ensures DistinctKeys(t[1..]) && !HasKey(t[1..], t[0].0)
  {
    forall a, b | 0 <= a < b < |t[1..]| ensures t[1..][a].0 != t[1..][b].0 {
      assert t[a + 1].0 != t[b + 1].0;
    }
    forall j | 0 <= j < |Keys(t[1..])| ensures Keys(t[1..])[j] != t[0].0 {
      assert Keys(t[1..])[j] == t[j + 1].0;
    }
  }

  lemma HasKeyCons<V>(t: Table<V>, k: string)
    requires |t| > 0
    ensures HasKey(t, k) <==> t[0].0 == k || HasKey(t[1..], k)
    ensures Lookup(t, k) == if t[0].0 == k then Some(t[0].1) else Lookup(t[1..], k)
  {
    assert Keys(t) == [t[0].0] + Keys(t[1..]);
  }

  /** After the update loop, a key has the template's value exactly when it is a template key outside `preserve`. */
  lemma {:induction false} OverlayLookup(sec: Doc, tmpl: Doc, preserve: seq<string>, k: string)
    requires DistinctKeys(tmpl)
    ensures Lookup(Overlay(sec, tmpl, preserve), k)
            == if k !in preserve && HasKey(tmpl, k) then Lookup(tmpl, k) else Lookup(sec, k)
    decreases |tmpl|
  {
    if |tmpl| > 0 {
      var k0 := tmpl[0].0;
      var sec' := if k0 in preserve then sec else Put(sec, k0, tmpl[0].1);
      DistinctTail(tmpl);
      OverlayLookup(sec', tmpl[1..], preserve, k);
      HasKeyCons(tmpl, k);
      if k0 !in preserve {
        LookupPut(sec, k0, tmpl[0].1, k);
      }
    }
  }

  /** Keys already in the section keep their order; new template keys are appended after them. */
  lemma {:induction false} OverlayKeys(sec: Doc, tmpl: Doc, preserve: seq<string>)
    ensures Keys(sec) <= Keys(Overlay(sec, tmpl, preserve))
    ensures DistinctKeys(sec) ==> DistinctKeys(Overlay(sec, tmpl, preserve))
    ensures (forall i :: 0 <= i < |tmpl| ==> tmpl[i].0 in preserve || HasKey(sec, tmpl[i].0))
            ==> Keys(Overlay(sec, tmpl, preserve)) == Keys(sec)
    decreases |tmpl|
  {
    if |tmpl| > 0 {
      var k0 := tmpl[0].0;
      var sec' := if k0 in preserve then sec else Put(sec, k0, tmpl[0].1);
      if k0 !in preserve {
        KeysPut(sec, k0, tmpl[0].1);
        if DistinctKeys(sec) { DistinctPut(sec, k0, tmpl[0].1); }
      }
      OverlayKeys(sec', tmpl[1..], preserve);
      if forall i :: 0 <= i < |tmpl| ==> tmpl[i].0 in preserve || HasKey(sec, tmpl[i].0) {
        assert Keys(sec') == Keys(sec);
        forall i | 0 <= i < |tmpl[1..]| ensures tmpl[1..][i].0 in preserve || HasKey(sec', tmpl[1..][i].0) {
          assert tmpl[1..][i] == tmpl[i + 1];
        }
      }
    }
  }

  /** The first loop of `_merge_section`: the dict `preserved` of the preserve fields the section has, in `preserve` order. */
  function Saved(sec: Doc, preserve: seq<string>): Doc
    decreases |preserve|
  {
    if |preserve| == 0 then []
    else
      var init := Saved(sec, preserve[..|preserve| - 1]);
      var f := preserve[|preserve| - 1];
      match Lookup(sec, f)
      case None => init
      case Some(v) => Put(init, f, v)
  }

  /** The final loop of `_merge_section`: reassign every saved preserve field. */
  function Restore(sec: Doc, saved: Doc): Doc
    decreases |saved|
  {
    if |saved| == 0 then sec else Restore(Put(sec, saved[0].0, saved[0].1), saved[1..])
  }

  /** Only preserve fields are saved, each with the section's own value. */
  lemma {:induction false} SavedFields(sec: Doc, preserve: seq<string>)
    ensures forall i :: 0 <= i < |Saved(sec, preserve)| ==>
              Saved(sec, preserve)[i].0 in preserve && Lookup(sec, Saved(sec, preserve)[i].0) == Some(Saved(sec, preserve)[i].1)
    decreases |preserve|
  {
    if |preserve| > 0 {
      var front := preserve[..|preserve| - 1];
      var init := Saved(sec, front);
      var f := preserve[|preserve| - 1];
      SavedFields(sec, front);
      var r := Saved(sec, preserve);
      forall i | 0 <= i < |r| ensures r[i].0 in preserve && Lookup(sec, r[i].0) == Some(r[i].1) {
        if Lookup(sec, f).Some? {
          PutMembers(init, f, Lookup(sec, f).value, r[i]);
          if r[i] != (f, Lookup(sec, f).value) {
            var j :| 0 <= j < |init| && init[j] == r[i];
            assert init[j].0 in front;
          }
        } else {
          assert r[i] == init[i];
          assert init[i].0 in front;
        }
      }
    }
  }

  /** Restoring saved preserve fields after the update loop changes nothing. */
  lemma {:induction false} RestoreIsIdentity(sec: Doc, tmpl: Doc, preserve: seq<string>, saved: Doc)
    requires DistinctKeys(sec) && DistinctKeys(tmpl)
    requires forall i :: 0 <= i < |saved| ==> saved[i].0 in preserve && Lookup(sec, saved[i].0) == Some(saved[i].1)
    ensures Restore(Overlay(sec, tmpl, preserve), saved) == Overlay(sec, tmpl, preserve)
    decreases |saved|
  {
    if |saved| > 0 {
      var o := Overlay(sec, tmpl, preserve);
      OverlayLookup(sec, tmpl, preserve, saved[0].0);
      OverlayKeys(sec, tmpl, preserve);
      PutSame(o, saved[0].0, saved[0].1);
      RestoreIsIdentity(sec, tmpl, preserve, saved[1..]);
    }
  }

  /**
   * `_merge_section` when the section (`rv`) or the template's section (`tv`)
   * is not a table: no assignment can succeed, so the call either raises or
   * changes nothing. It changes nothing exactly when (1) on a non-table
   * section the first loop's `field in ...` finds no preserve field (finding
   * one subscripts the value, and `in` on a number or boolean raises at once)
   * and (2) the template section can be iterated and yields only preserve
   * fields (any other key is subscripted in the template or assigned into the
   * section). Restoring fields saved from a table section writes back the
   * values just read.
   */
  predicate SectionKept(rv: Value, tv: Value, preserve: seq<string>)
  {
    && (!rv.Table? ==> forall i :: 0 <= i < |preserve| ==> ValueContains(rv, preserve[i]) == Some(false))
    && Iterated(tv).Some?
    && forall i :: 0 <= i < |Iterated(tv).value| ==> Iterated(tv).value[i] in preserve
  }

  /**
   * `_merge_section`: nothing when the template lacks the section, a wholesale
   * copy when the result lacks it; for two tables, save the preserve fields,
   * assign the template's other keys and restore the saved fields; otherwise
   * raise unless `SectionKept`.
   */
  function SectionMerged(result: Doc, template: Doc, section: string, preserve: seq<string>): Option<Doc>
  {
    match Lookup(template, section)
    case None => Some(result)
    case Some(tv) =>
      match Lookup(result, section)
      case None => Some(Put(result, section, tv))
      case Some(rv) =>
        if rv.Table? && tv.Table? then
          Some(Put(result, section, Table(Restore(Overlay(rv.entries, tv.entries, preserve), Saved(rv.entries, preserve)))))
        else if SectionKept(rv, tv, preserve) then Some(result)
        else None
  }

  /** The value is a table whose own keys are distinct. */
  predicate DistinctTable(v: Value)
  {
    v.Table? && DistinctKeys(v.entries)
  }

  /** A section that is a table in the document has distinct keys. */
  predicate SectionDistinct(d: Doc, section: string)
  {
    Lookup(d, section).Some? && Lookup(d, section).value.Table? ==> DistinctTable(Lookup(d, section).value)
  }

  /** The table both-sides case of `_merge_section` leaves: the update loop's result, key by key. */
  lemma MergedTable(rv: Doc, tv: Doc, preserve: seq<string>)
    requires DistinctKeys(rv) && DistinctKeys(tv)
    ensures var mv := Restore(Overlay(rv, tv, preserve), Saved(rv, preserve));
            && mv == Overlay(rv, tv, preserve)
            && (forall k :: Lookup(mv, k) == if k !in preserve && HasKey(tv, k) then Lookup(tv, k) else Lookup(rv, k))
            && Keys(rv) <= Keys(mv)
            && DistinctKeys(mv)
  {
    SavedFields(rv, preserve);
    RestoreIsIdentity(rv, tv, preserve, Saved(rv, preserve));
    forall k ensures Lookup(Overlay(rv, tv, preserve), k) == if k !in preserve && HasKey(tv, k) then Lookup(tv, k) else Lookup(rv, k) {
      OverlayLookup(rv, tv, preserve, k);
    }
    OverlayKeys(rv, tv, preserve);
  }

  /**
   * What `_merge_section` does to one section, key by key: template lacks it,
   * unchanged; result lacks it, the template's whole section including its
   * preserve fields; both have it as tables, template keys outside `preserve`
   * take the template value and everything else (preserve fields, keys only
   * in the result) keeps the result's value, so a preserve field the result
   * lacks is never introduced. All other sections keep their values. When
   * both have it and one is not a table, it fails exactly when `SectionKept`
   * does not hold, and otherwise leaves the document as it was.
   */
  lemma SectionMergedSpec(result: Doc, template: Doc, section: string, preserve: seq<string>)
    requires SectionDistinct(template, section) && SectionDistinct(result, section)
    ensures var r := SectionMerged(result, template, section, preserve);
      && (Lookup(template, section).None? ==> r == Some(result))
      && (Lookup(template, section).Some? && Lookup(result, section).None? ==>
            r.Some? && Lookup(r.value, section) == Lookup(template, section))
      && (r.Some? ==> forall j :: j != section ==> Lookup(r.value, j) == Lookup(result, j))
      && (r.None? <==> (Lookup(template, section).Some? && Lookup(result, section).Some?
                        && !(Lookup(template, section).value.Table? && Lookup(result, section).value.Table?)
                        && !SectionKept(Lookup(result, section).value, Lookup(template, section).value, preserve)))
      && ((Lookup(template, section).Some? && Lookup(result, section).Some?
           && !(Lookup(template, section).value.Table? && Lookup(result, section).value.Table?)
           && SectionKept(Lookup(result, section).value, Lookup(template, section).value, preserve)) ==> r == Some(result))
      && (r.Some? && Lookup(template, section).Some? && Lookup(result, section).Some?
          && Lookup(template, section).value.Table? && Lookup(result, section).value.Table? ==>
            Lookup(r.value, section).Some? &&
            var rv := Lookup(result, section).value.entries;
            var tv := Lookup(template, section).value.entries;
            var mv := Lookup(r.value, section).value;
            && mv.Table?
            && (forall k :: Lookup(mv.entries, k) == if k !in preserve && HasKey(tv, k) then Lookup(tv, k) else Lookup(rv, k))
            && (forall k :: k in preserve ==> Lookup(mv.entries, k) == Lookup(rv, k))
            && Keys(rv) <= Keys(mv.entries))
  {
    var r := SectionMerged(result, template, section, preserve);
    if Lookup(template, section).Some? {
      var tv := Lookup(template, section).value;
      if Lookup(result, section).None? {
        LookupPut(result, section, tv, section);
        forall j | j != section ensures Lookup(r.value, j) == Lookup(result, j) {
          LookupPut(result, section, tv, j);
        }
      } else if Lookup(result, section).value.Table? && tv.Table? {
        var rv := Lookup(result, section).value;
        MergedTable(rv.entries, tv.entries, preserve);
        var mv := Table(Overlay(rv.entries, tv.entries, preserve));
        forall j ensures Lookup(r.value, j) == if j == section then Some(mv) else Lookup(result, j) {
          LookupPut(result, section, mv, j);
        }
      }
    }
  }

  /** The first loop of `_merge_section` on a table section: the preserve fields it saves. */
  method SaveFields(sec: Doc, preserve: seq<string>) returns (preserved: Doc)
    ensures preserved == Saved(sec, preserve)
  {
    preserved := [];
    var i := 0;
    while i < |preserve|
      invariant 0 <= i <= |preserve|
      invariant preserved == Saved(sec, preserve[..i])
    {
      assert preserve[..i + 1][..i] == preserve[..i];
      var found := Lookup(sec, preserve[i]);
      if found.Some? {
        preserved := Put(preserved, preserve[i], found.value);
      }
      i := i + 1;
    }
    assert preserve[..i] == preserve;
  }

  /**
   * The first loop of `_merge_section` on a section that is not a table: it
   * gets through only when `field in ...` answers False for every field.
   */
  method FieldsAbsent(v: Value, preserve: seq<string>) returns (ok: bool)
    ensures ok <==> forall i :: 0 <= i < |preserve| ==> ValueContains(v, preserve[i]) == Some(false)
  {
    var i := 0;
    while i < |preserve|
      invariant 0 <= i <= |preserve|
      invariant forall j :: 0 <= j < i ==> ValueContains(v, preserve[j]) == Some(false)
    {
      if ValueContains(v, preserve[i]) != Some(false) {
        // `in` raised, or it found the field and the subscript raises
        return false;
      }
      i := i + 1;
    }
    return true;
  }

  /** The second loop of `_merge_section` when a side is not a table: it gets through only over preserve fields. */
  method OnlyPreserved(keys: seq<string>, preserve: seq<string>) returns (ok: bool)
    ensures ok <==> forall i :: 0 <= i < |keys| ==> keys[i] in preserve
  {
    var j := 0;
    while j < |keys|
      invariant 0 <= j <= |keys|
      invariant forall m :: 0 <= m < j ==> keys[m] in preserve
    {
      if keys[j] !in preserve {
        // subscripting the template section or assigning into the result raises
        return false;
      }
      j := j + 1;
    }
    return true;
  }

  /** The second and third loops of `_merge_section` on two tables. */
  method UpdateAndRestore(rv: Doc, tv: Doc, preserve: seq<string>, preserved: Doc) returns (sec: Doc)
    ensures sec == Restore(Overlay(rv, tv, preserve), preserved)
  {
    sec := rv;
    var j := 0;
    while j < |tv|
      invariant 0 <= j <= |tv|
      invariant Overlay(sec, tv[j..], preserve) == Overlay(rv, tv, preserve)
    {
      assert tv[j..][1..] == tv[j + 1..];
      var (key, value) := tv[j];
      if key !in preserve {
        sec := Put(sec, key, value);
      }
      j := j + 1;
    }
    ghost var updated := sec;
    var m := 0;
    while m < |preserved|
      invariant 0 <= m <= |preserved|
      invariant Restore(sec, preserved[m..]) == Restore(updated, preserved)
    {
      assert preserved[m..][1..] == preserved[m + 1..];
      sec := Put(sec, preserved[m].0, preserved[m].1);
      m := m + 1;
    }
  }

  /** `_merge_section` on a document, with its three loops. */
  method MergeSection(result: Doc, template: Doc, section: string, preserve: seq<string>) returns (r: Option<Doc>)
    ensures r == SectionMerged(result, template, section, preserve)
  {
    var tl := Lookup(template, section);
    if tl.None? {
      return Some(result);
    }
    var rl := Lookup(result, section);
    if rl.None? {
      return Some(Put(result, section, tl.value));
    }
    var rv, tv := rl.value, tl.value;
    var preserved: Doc := [];
    if rv.Table? {
      preserved := SaveFields(rv.entries, preserve);
    } else {
      var ok := FieldsAbsent(rv, preserve);
      if !ok {
        return None;
      }
    }
    var keys := Iterated(tv);
    if keys.None? {
      return None;
    }
    if !rv.Table? || !tv.Table? {
      var ok := OnlyPreserved(keys.value, preserve);
      return if ok then Some(result) else None;
    }
    var sec := UpdateAndRestore(rv.entries, tv.entries, preserve, preserved);
    return Some(Put(result, section, Table(sec)));
  }

  // ---------------------------------------------------------------------
  // tool sections
  // ---------------------------------------------------------------------

  /** `any(tool_path == ps or tool_path.startswith(ps + ".") for ps in preserve_sections)`. */
  function IsPreservedPath(path: string, sections: seq<string>): (r: bool)
    ensures r <==> exists i :: 0 <= i < |sections| && (path == sections[i] || StartsWith(path, sections[i] + "."))
    decreases |sections|
  {
    if |sections| == 0 then false
    else if path == sections[0] || StartsWith(path, sections[0] + ".") then true
    else
      var r := IsPreservedPath(path, sections[1..]);
      assert r <==> exists i :: 1 <= i < |sections| && (path == sections[i] || StartsWith(path, sections[i] + ".")) by {
        if r {
          var i :| 0 <= i < |sections[1..]| && (path == sections[1..][i] || StartsWith(path, sections[1..][i] + "."));
          assert sections[1..][i] == sections[i + 1];
        }
        forall i | 1 <= i < |sections| && (path == sections[i] || StartsWith(path, sections[i] + ".")) ensures r {
          assert sections[1..][i - 1] == sections[i];
        }
      }
      r
  }

  /** Sub-keys of an existing tool section that keep the project's value. */
  function PreserveSub(toolKey: string): seq<string>
  {
    if toolKey == "hatch" then ["build"]
    else if toolKey == "mypy" then ["packages", "overrides"]
    else []
  }

  /** One iteration of the loop over the template's tool keys: the key at position `i`. */
  function ToolStep(rt: Doc, tt: Doc, sections: seq<string>, i: nat): Option<Doc>
    requires i < |tt|
  {
    var k := tt[i].0;
    if IsPreservedPath("tool." + k, sections) then Some(rt)
    else if HasKey(rt, k) then SectionMerged(rt, tt, k, PreserveSub(k))
    else Some(Put(rt, k, tt[i].1))
  }

  /** The loop over the template's tool keys, from position `i` on, applied to the result's tool table. */
  function ToolsMergedFrom(rt: Doc, tt: Doc, sections: seq<string>, i: nat): Option<Doc>
    requires i <= |tt|
    decreases |tt| - i
  {
    if i == |tt| then Some(rt)
    else
      match ToolStep(rt, tt, sections, i)
      case None => None
      case Some(next) => ToolsMergedFrom(next, tt, sections, i + 1)
  }

  /**
   * One key `k` yielded by the template's `tool` value `tv` when that value
   * or the current `tool` value `cur` is not a table: the loop gets past it
   * only when its path is preserved, or when `k in cur` answers True on a
   * non-table `cur`, no sub-key is to be preserved, and the template's value
   * under `k` iterates to nothing, so `_merge_section` neither reads from nor
   * writes into `cur[k]`. A False answer leads to an assignment into `cur`,
   * and an answer from a template value that is not a table to a subscript
   * of it; both raise.
   */
  predicate ToolKeyKept(cur: Option<Value>, tv: Value, k: string, sections: seq<string>)
  {
    || IsPreservedPath("tool." + k, sections)
    || (&& cur.Some? && !cur.value.Table? && tv.Table?
        && ValueContains(cur.value, k) == Some(true)
        && PreserveSub(k) == []
        && Lookup(tv.entries, k).Some?
        && Iterated(Lookup(tv.entries, k).value) == Some([]))
  }

  /** The tool loop over a non-table side gets through: `tv` is iterable and each key it yields is kept. */
  predicate ToolsKept(cur: Option<Value>, tv: Value, sections: seq<string>)
  {
    && Iterated(tv).Some?
    && forall i :: 0 <= i < |Iterated(tv).value| ==> ToolKeyKept(cur, tv, Iterated(tv).value[i], sections)
  }

  /**
   * The `tool` part of `merge_pyproject`: with two tables (an absent `tool`
   * starting as an empty table) the loop over the template's tool keys;
   * otherwise nothing but the new empty `[tool]` survives, when `ToolsKept`.
   */
  function ToolsMerged(result: Doc, template: Doc, sections: seq<string>): Option<Doc>
  {
    match Lookup(template, "tool")
    case None => Some(result)
    case Some(tv) =>
      var cur := Lookup(result, "tool");
      if tv.Table? && (cur.None? || cur.value.Table?) then
        var base := if cur.None? then [] else cur.value.entries;
        match ToolsMergedFrom(base, tv.entries, sections, 0)
        case None => None
        case Some(rt) => Some(Put(result, "tool", Table(rt)))
      else if ToolsKept(cur, tv, sections) then
        Some(if cur.None? then Put(result, "tool", Table([])) else result)
      else None
  }

  /** What the tool loop leaves under one tool key, given its current value and the template's. */
  function ToolValue(k: string, cur: Option<Value>, tv: Value, sections: seq<string>): Option<Option<Value>>
  {
    if IsPreservedPath("tool." + k, sections) then Some(cur)
    else match cur
      case None => Some(Some(tv))
      case Some(c) =>
        if c.Table? && tv.Table? then
          var sub := PreserveSub(k);
          Some(Some(Table(Restore(Overlay(c.entries, tv.entries, sub), Saved(c.entries, sub)))))
        else if SectionKept(c, tv, PreserveSub(k)) then Some(cur)
        else None
  }

  /** One iteration changes at most the key it handles, as `ToolValue` says. */
  lemma ToolStepLookup(rt: Doc, tt: Doc, sections: seq<string>, i: nat, k: string)
    requires i < |tt| && DistinctKeys(tt)
    ensures ToolStep(rt, tt, sections, i).Some? <==> ToolValue(tt[i].0, Lookup(rt, tt[i].0), tt[i].1, sections).Some?
    ensures ToolStep(rt, tt, sections, i).Some? ==>
            Lookup(ToolStep(rt, tt, sections, i).value, k)
            == if k == tt[i].0 then ToolValue(k, Lookup(rt, k), tt[i].1, sections).value else Lookup(rt, k)
  {
    var k0 := tt[i].0;
    LookupAt(tt, i);
    if !IsPreservedPath("tool." + k0, sections) {
      if HasKey(rt, k0) {
        var rv := Lookup(rt, k0).value;
        if rv.Table? && tt[i].1.Table? {
          var sub := PreserveSub(k0);
          LookupPut(rt, k0, Table(Restore(Overlay(rv.entries, tt[i].1.entries, sub), Saved(rv.entries, sub))), k);
        }
      } else {
        LookupPut(rt, k0, tt[i].1, k);
      }
    }
  }

  /** The tool loop, per key: template tool keys get their `ToolValue`, every other key is kept. */
  lemma {:induction false} ToolsMergedFromLookup(rt: Doc, tt: Doc, sections: seq<string>, i: nat, k: string)
    requires i <= |tt| && DistinctKeys(tt)
    requires ToolsMergedFrom(rt, tt, sections, i).Some?
    ensures var out := ToolsMergedFrom(rt, tt, sections, i).value;
            if exists j :: i <= j < |tt| && tt[j].0 == k
            then ToolValue(k, Lookup(rt, k), Lookup(tt, k).value, sections).Some?
                 && Lookup(out, k) == ToolValue(k, Lookup(rt, k), Lookup(tt, k).value, sections).value
            else Lookup(out, k) == Lookup(rt, k)
    decreases |tt| - i
  {
    if i < |tt| {
      var k0 := tt[i].0;
      LookupAt(tt, i);
      ToolStepLookup(rt, tt, sections, i, k);
      var next := ToolStep(rt, tt, sections, i).value;
      ToolsMergedFromLookup(next, tt, sections, i + 1, k);
      if k == k0 {
        forall j | i + 1 <= j < |tt| ensures tt[j].0 != k { assert tt[i].0 != tt[j].0; }
      } else {
        assert (exists j :: i <= j < |tt| && tt[j].0 == k) <==> (exists j :: i + 1 <= j < |tt| && tt[j].0 == k);
      }
    }
  }

  /** The tool loop fails exactly when one of the template's tool keys cannot be merged into the current value. */
  lemma {:induction false} ToolsMergedFromSome(rt: Doc, tt: Doc, sections: seq<string>, i: nat)
    requires i <= |tt| && DistinctKeys(tt)
    ensures ToolsMergedFrom(rt, tt, sections, i).Some? <==>
            forall j :: i <= j < |tt| ==> ToolValue(tt[j].0, Lookup(rt, tt[j].0), tt[j].1, sections).Some?
    decreases |tt| - i
  {
    if i < |tt| {
      var k0 := tt[i].0;
      ToolStepLookup(rt, tt, sections, i, k0);
      if ToolStep(rt, tt, sections, i).Some? {
        var next := ToolStep(rt, tt, sections, i).value;
        ToolsMergedFromSome(next, tt, sections, i + 1);
        forall j | i + 1 <= j < |tt| ensures Lookup(next, tt[j].0) == Lookup(rt, tt[j].0) {
          assert tt[i].0 != tt[j].0;
          ToolStepLookup(rt, tt, sections, i, tt[j].0);
        }
      }
    }
  }

  /**
   * The `tool` part of `merge_pyproject` fails exactly when, with two tables,
   * one template tool key cannot be merged, or, with a side that is not a
   * table, the loop does not get through (`ToolsKept`); without a template
   * `[tool]` it changes nothing.
   */
  lemma ToolsMergedFails(result: Doc, template: Doc, sections: seq<string>)
    requires SectionDistinct(template, "tool")
    ensures Lookup(template, "tool").None? ==> ToolsMerged(result, template, sections) == Some(result)
    ensures Lookup(template, "tool").Some? ==>
              var tv := Lookup(template, "tool").value;
              var cur := Lookup(result, "tool");
              var base := if cur.Some? && cur.value.Table? then cur.value.entries else [];
              (ToolsMerged(result, template, sections).None? <==>
                 if tv.Table? && (cur.None? || cur.value.Table?) then
                   exists j :: 0 <= j < |tv.entries| && ToolValue(tv.entries[j].0, Lookup(base, tv.entries[j].0), tv.entries[j].1, sections).None?
                 else !ToolsKept(cur, tv, sections))
  {
    if Lookup(template, "tool").Some? {
      var tv := Lookup(template, "tool").value;
      var cur := Lookup(result, "tool");
      if tv.Table? && !(cur.Some? && !cur.value.Table?) {
        var base := if cur.Some? then cur.value.entries else [];
        ToolsMergedFromSome(base, tv.entries, sections, 0);
      }
    }
  }

  /**
   * The `tool` part of `merge_pyproject`, per key: when it succeeds with a
   * template `[tool]` table over a table (or nothing), the result's tool
   * table holds, for each template tool key, what `ToolValue` says, and every
   * other tool key keeps the current value; when a side is not a table, the
   * only change is the empty `[tool]` created for a document without one.
   * The rest of the document is untouched.
   */
  lemma ToolsMergedSpec(result: Doc, template: Doc, sections: seq<string>)
    requires SectionDistinct(template, "tool")
    requires Lookup(template, "tool").Some? && ToolsMerged(result, template, sections).Some?
    ensures var r := ToolsMerged(result, template, sections).value;
            var tv := Lookup(template, "tool").value;
            var cur := Lookup(result, "tool");
            var base := if cur.Some? && cur.value.Table? then cur.value.entries else [];
            && (forall j :: j != "tool" ==> Lookup(r, j) == Lookup(result, j))
            && if tv.Table? && (cur.None? || cur.value.Table?) then
                 && Lookup(r, "tool").Some? && Lookup(r, "tool").value.Table?
                 && (forall k :: HasKey(tv.entries, k) ==>
                       ToolValue(k, Lookup(base, k), Lookup(tv.entries, k).value, sections) == Some(Lookup(Lookup(r, "tool").value.entries, k)))
                 && (forall k :: !HasKey(tv.entries, k) ==> Lookup(Lookup(r, "tool").value.entries, k) == Lookup(base, k))
               else r == if cur.None? then Put(result, "tool", Table([])) else result
  {
    var tv := Lookup(template, "tool").value;
    var cur := Lookup(result, "tool");
    if !(tv.Table? && (cur.None? || cur.value.Table?)) {
      forall j | j != "tool" ensures Lookup(Put(result, "tool", Table([])), j) == Lookup(result, j) {
        LookupPut(result, "tool", Table([]), j);
      }
      return;
    }
    var base := if cur.Some? then cur.value.entries else [];
    var mt := ToolsMergedFrom(base, tv.entries, sections, 0).value;
    forall j ensures Lookup(Put(result, "tool", Table(mt)), j) == if j == "tool" then Some(Table(mt)) else Lookup(result, j) {
      LookupPut(result, "tool", Table(mt), j);
    }
    forall k ensures HasKey(tv.entries, k) ==>
                       ToolValue(k, Lookup(base, k), Lookup(tv.entries, k).value, sections) == Some(Lookup(mt, k))
    {
      ToolsMergedFromLookup(base, tv.entries, sections, 0, k);
      if HasKey(tv.entries, k) {
        LookupFound(tv.entries, k);
        var j :| 0 <= j < |tv.entries| && tv.entries[j] == (k, Lookup(tv.entries, k).value);
      }
    }
    forall k ensures !HasKey(tv.entries, k) ==> Lookup(mt, k) == Lookup(base, k) {
      ToolsMergedFromLookup(base, tv.entries, sections, 0, k);
      if !HasKey(tv.entries, k) {
        forall j | 0 <= j < |tv.entries| ensures tv.entries[j].0 != k {
          assert Keys(tv.entries)[j] == tv.entries[j].0;
        }
      }
    }
  }

  /**
   * One tool key in the tool loop: a preserved path keeps the current value
   * (present or not); a key the result lacks takes the template's value whole;
   * otherwise both must be tables, and the sub-keys listed by `PreserveSub`
   * and the sub-keys only the project has keep the project's value while
   * every other template sub-key takes the template's value; when one of the
   * two is not a table the key fails unless `SectionKept`, and then keeps
   * its value.
   */
  lemma ToolValueSpec(k: string, cur: Option<Value>, tv: Value, sections: seq<string>)
    requires cur.Some? && cur.value.Table? ==> DistinctKeys(cur.value.entries)
    requires tv.Table? ==> DistinctKeys(tv.entries)
    ensures var r := ToolValue(k, cur, tv, sections);
      && (IsPreservedPath("tool." + k, sections) ==> r == Some(cur))
      && (!IsPreservedPath("tool." + k, sections) && cur.None? ==> r == Some(Some(tv)))
      && (!IsPreservedPath("tool." + k, sections) && cur.Some? ==>
            (r.Some? <==> (cur.value.Table? && tv.Table?) || SectionKept(cur.value, tv, PreserveSub(k)))
            && (!(cur.value.Table? && tv.Table?) && r.Some? ==> r == Some(cur))
            && (cur.value.Table? && tv.Table? ==>
                  r.value.Some? && r.value.value.Table? &&
                  var c := cur.value.entries;
                  var m := r.value.value.entries;
                  && Keys(c) <= Keys(m) && DistinctKeys(m)
                  && (forall s :: s in PreserveSub(k) ==> Lookup(m, s) == Lookup(c, s))
                  && (forall s :: s !in PreserveSub(k) && HasKey(tv.entries, s) ==> Lookup(m, s) == Lookup(tv.entries, s))
                  && (forall s :: !HasKey(tv.entries, s) ==> Lookup(m, s) == Lookup(c, s))))
  {
    if !IsPreservedPath("tool." + k, sections) && cur.Some? && cur.value.Table? && tv.Table? {
      MergedTable(cur.value.entries, tv.entries, PreserveSub(k));
    }
  }

  /** A dot-free key after `tool.` never equals or extends a path with a dot at position `n`. */
  lemma NotUnderDotted(k: string, s: string, n: nat)
    requires '.' !in k && 5 <= n < |s| && s[..5] == "tool." && s[n] == '.'
    ensures "tool." + k != s && !StartsWith("tool." + k, s + ".")
  {
    var path := "tool." + k;
    if |path| > n {
      assert path[n] == k[n - 5];
    }
    if |path| >= |s| + 1 {
      assert path[..|s| + 1][n] == path[n];
      assert (s + ".")[n] == s[n];
    }
  }

  /**
   * With no extra preserve sections, no dot-free tool key is skipped: the
   * built-in preserved paths lie below `tool.hatch` and `tool.mypy`, which are
   * merged key by key with `PreserveSub` instead.
   */
  lemma DefaultSectionsSkipNothing(k: string)
    requires '.' !in k
    ensures !IsPreservedPath("tool." + k, PRESERVE_SECTIONS)
  {
    NotUnderDotted(k, PRESERVE_SECTIONS[0], 10);
    NotUnderDotted(k, PRESERVE_SECTIONS[1], 9);
    NotUnderDotted(k, PRESERVE_SECTIONS[2], 9);
  }

  // ---------------------------------------------------------------------
  // extra development dependencies
  // ---------------------------------------------------------------------

  const DEV_KEYS: seq<string> := ["dependency-groups", "dev"]

  /** `dependency-groups.dev` splits into its two keys. */
  lemma DevPathKeys()
    ensures Split(DEV_PATH, '.') == DEV_KEYS
  {
    assert Join(DEV_KEYS, ['.']) == DEV_PATH;
    SplitJoin(DEV_KEYS, '.');
  }

  /** `dep not in dev` answers False for every extra dependency. */
  predicate ExtrasPresent(dev: Value, extra: seq<string>)
  {
    forall i :: 0 <= i < |extra| ==> ValueContains(dev, extra[i]) == Some(true)
  }

  /**
   * The last step of `merge_pyproject`: with extra development dependencies
   * and a `dependency-groups.dev` value, the missing ones are appended. On a
   * value that is not an array, `dep not in dev` is a key or substring test
   * (or raises, on a number or boolean) and appending raises, so the step
   * gets through only when every extra is already found there.
   */
  function DevDepsAdded(doc: Doc, extra: seq<string>): Option<Doc>
  {
    if |extra| == 0 then Some(doc)
    else
      match GetNested(doc, DEV_PATH)
      case None => Some(doc)
      case Some(dev) =>
        if dev.Array? then SetNested(doc, DEV_PATH, Array(AppendMissing(dev.items, extra)))
        else if ExtrasPresent(dev, extra) then Some(doc)
        else None
  }

  /** Where `dependency-groups.dev` resolves, setting it rewrites just that entry of the `dependency-groups` table. */
  lemma DevSet(doc: Doc, v: Value)
    requires GetNested(doc, DEV_PATH).Some?
    ensures Lookup(doc, "dependency-groups").Some? && Lookup(doc, "dependency-groups").value.Table?
    ensures var dg := Lookup(doc, "dependency-groups").value.entries;
            && GetNested(doc, DEV_PATH) == Lookup(dg, "dev")
            && SetNested(doc, DEV_PATH, v) == Some(Put(doc, "dependency-groups", Table(Put(dg, "dev", v))))
  {
    DevPathKeys();
    assert GetNested(doc, DEV_PATH) == GetKeys(Table(doc), DEV_KEYS);
    assert SetNested(doc, DEV_PATH, v) == SetKeys(doc, DEV_KEYS, v);
    DevKeysSet(doc, v);
  }

  lemma DevKeysSet(doc: Doc, v: Value)
    requires GetKeys(Table(doc), DEV_KEYS).Some?
    ensures Lookup(doc, "dependency-groups").Some? && Lookup(doc, "dependency-groups").value.Table?
    ensures var dg := Lookup(doc, "dependency-groups").value.entries;
            && GetKeys(Table(doc), DEV_KEYS) == Lookup(dg, "dev")
            && SetKeys(doc, DEV_KEYS, v) == Some(Put(doc, "dependency-groups", Table(Put(dg, "dev", v))))
  {
    assert DEV_KEYS[1..] == ["dev"] && DEV_KEYS[1..][1..] == [];
  }

  /**
   * The dev-dependency step changes only `dependency-groups.dev`: with extras
   * and an array there, that array becomes the one with the missing extras
   * appended; on a non-array value it fails unless every extra is already
   * found there, and then changes nothing; otherwise the document is
   * unchanged. Every other top-level key is kept.
   */
  lemma DevDepsAddedSpec(doc: Doc, extra: seq<string>)
    ensures var r := DevDepsAdded(doc, extra);
      && ((|extra| == 0 || GetNested(doc, DEV_PATH).None?) ==> r == Some(doc))
      && (r.None? <==> |extra| > 0 && GetNested(doc, DEV_PATH).Some? && !GetNested(doc, DEV_PATH).value.Array?
                       && exists i :: 0 <= i < |extra| && ValueContains(GetNested(doc, DEV_PATH).value, extra[i]) != Some(true))
      && (GetNested(doc, DEV_PATH).Some? && !GetNested(doc, DEV_PATH).value.Array? && r.Some? ==> r == Some(doc))
      && (r.Some? && |extra| > 0 && GetNested(doc, DEV_PATH).Some? && GetNested(doc, DEV_PATH).value.Array? ==>
            GetNested(r.value, DEV_PATH) == Some(Array(AppendMissing(GetNested(doc, DEV_PATH).value.items, extra))))
      && (r.Some? ==> forall j :: j != "dependency-groups" ==> Lookup(r.value, j) == Lookup(doc, j))
  {
    var dev := GetNested(doc, DEV_PATH);
    if |extra| > 0 && dev.Some? && dev.value.Array? {
      var newDev := Array(AppendMissing(dev.value.items, extra));
      DevSet(doc, newDev);
      var dg := Lookup(doc, "dependency-groups").value.entries;
      var r := Put(doc, "dependency-groups", Table(Put(dg, "dev", newDev)));
      assert DevDepsAdded(doc, extra) == Some(r);
      DevPut(doc, dg, newDev);
    }
  }

  lemma DevKeysPut(doc: Doc, dg: Doc, v: Value)
    ensures GetKeys(Table(Put(doc, "dependency-groups", Table(Put(dg, "dev", v)))), DEV_KEYS) == Some(v)
  {
    LookupPut(doc, "dependency-groups", Table(Put(dg, "dev", v)), "dependency-groups");
    LookupPut(dg, "dev", v, "dev");
    assert DEV_KEYS[1..] == ["dev"] && DEV_KEYS[1..][1..] == [];
  }

  lemma DevPut(doc: Doc, dg: Doc, v: Value)
    ensures var r := Put(doc, "dependency-groups", Table(Put(dg, "dev", v)));
            && GetNested(r, DEV_PATH) == Some(v)
            && forall j :: j != "dependency-groups" ==> Lookup(r, j) == Lookup(doc, j)
  {
    var r := Put(doc, "dependency-groups", Table(Put(dg, "dev", v)));
    DevKeysPut(doc, dg, v);
    DevPathKeys();
    assert GetNested(r, DEV_PATH) == GetKeys(Table(r), DEV_KEYS);
    forall j | j != "dependency-groups" ensures Lookup(r, j) == Lookup(doc, j) {
      LookupPut(doc, "dependency-groups", Table(Put(dg, "dev", v)), j);
    }
  }


  // ---------------------------------------------------------------------
  // the whole merge
  // ---------------------------------------------------------------------

  /** `project.get("pyproject", {})` with both option lists defaulting to empty. */
  function OptionsOf(p: Project): PyprojectOptions
  {
    p.pyproject.GetOr(PyprojectOptions([], []))
  }

  /** `merge_pyproject`: the three sections, the tool sub-sections, then the extra dev dependencies. */
  function PyprojectMerged(current: Doc, template: Doc, opts: PyprojectOptions): Option<Doc>
  {
    var r3 :- SectionsMerged(current, template);
    var r4 :- ToolsMerged(r3, template, PRESERVE_SECTIONS + opts.preserveSections);
    DevDepsAdded(r4, opts.extraDevDeps)
  }

  /** The three `_merge_section` calls at the top of `merge_pyproject`. */
  function SectionsMerged(current: Doc, template: Doc): Option<Doc>
  {
    var r1 :- SectionMerged(current, template, "project", PRESERVE_PROJECT_FIELDS);
    var r2 :- SectionMerged(r1, template, "dependency-groups", []);
    SectionMerged(r2, template, "build-system", [])
  }

  /** `merge_pyproject`, step by step: the tool loop and the dev-dependency loop as in the source. */
  method MergePyproject(current: Doc, template: Doc, opts: PyprojectOptions) returns (r: Option<Doc>)
    ensures r == PyprojectMerged(current, template, opts)
  {
    var sections := PRESERVE_SECTIONS + opts.preserveSections;
    var result := current;
    var step := MergeSection(result, template, "project", PRESERVE_PROJECT_FIELDS);
    if step.None? {
      return None;
    }
    result := step.value;
    step := MergeSection(result, template, "dependency-groups", []);
    if step.None? {
      return None;
    }
    result := step.value;
    step := MergeSection(result, template, "build-system", []);
    if step.None? {
      return None;
    }
    result := step.value;
    result :- MergeTools(result, template, sections);
    r := AddDevDeps(result, opts.extraDevDeps);
  }

  /** The `tool` part of `merge_pyproject`: create `[tool]` if needed, then merge template tool keys one by one. */
  method MergeTools(result0: Doc, template: Doc, sections: seq<string>) returns (r: Option<Doc>)
    ensures r == ToolsMerged(result0, template, sections)
  {
    var result := result0;
    var tl := Lookup(template, "tool");
    if tl.Some? {
      var hadTool := HasKey(result, "tool");
      if !hadTool {
        result := Put(result, "tool", Table([]));
        LookupPut(result0, "tool", Table([]), "tool");
      }
      var cur := Lookup(result, "tool").value;
      var tv := tl.value;
      if !tv.Table? || !cur.Table? {
        var ok := ToolKeysKept(Lookup(result0, "tool"), tv, sections);
        return if ok then Some(result) else None;
      }
      var rt :- MergeToolKeys(cur.entries, tv.entries, sections);
      if !hadTool {
        PutPut(result0, "tool", Table([]), Table(rt));
      }
      result := Put(result, "tool", Table(rt));
    }
    return Some(result);
  }

  /** The loop over the template's tool keys when one side is not a table: it changes nothing or raises. */
  method ToolKeysKept(cur: Option<Value>, tv: Value, sections: seq<string>) returns (ok: bool)
    ensures ok == ToolsKept(cur, tv, sections)
  {
    var keys := Iterated(tv);
    if keys.None? {
      return false;
    }
    var i := 0;
    while i < |keys.value|
      invariant 0 <= i <= |keys.value|
      invariant forall j :: 0 <= j < i ==> ToolKeyKept(cur, tv, keys.value[j], sections)
    {
      if !ToolKeyKept(cur, tv, keys.value[i], sections) {
        return false;
      }
      i := i + 1;
    }
    return true;
  }

  /** The loop over the template's tool keys, on the result's tool table. */
  method MergeToolKeys(rt0: Doc, tt: Doc, sections: seq<string>) returns (r: Option<Doc>)
    ensures r == ToolsMergedFrom(rt0, tt, sections, 0)
  {
    var rt := rt0;
    var i := 0;
    while i < |tt|
      invariant 0 <= i <= |tt|
      invariant ToolsMergedFrom(rt, tt, sections, i) == ToolsMergedFrom(rt0, tt, sections, 0)
    {
      var next := MergeToolKey(rt, tt, sections, i);
      if next.None? {
        return None;
      }
      rt := next.value;
      i := i + 1;
    }
    return Some(rt);
  }

  /** One template tool key: skipped when preserved, merged into an existing table, or copied. */
  method MergeToolKey(rt: Doc, tt: Doc, sections: seq<string>, i: nat) returns (r: Option<Doc>)
    requires i < |tt|
    ensures r == ToolStep(rt, tt, sections, i)
  {
    var k := tt[i].0;
    if IsPreservedPath("tool." + k, sections) {
      return Some(rt);
    }
    if HasKey(rt, k) {
      r := MergeSection(rt, tt, k, PreserveSub(k));
    } else {
      r := Some(Put(rt, k, tt[i].1));
    }
  }

  /** The extra dev-dependency loop on a `dev` array: each extra not yet there is appended. */
  method AppendExtras(items0: seq<string>, extra: seq<string>) returns (items: seq<string>)
    ensures items == AppendMissing(items0, extra)
  {
    items := items0;
    var k := 0;
    while k < |extra|
      invariant 0 <= k <= |extra|
      invariant AppendMissing(items, extra[k..]) == AppendMissing(items0, extra)
    {
      assert extra[k..][1..] == extra[k + 1..];
      if extra[k] !in items {
        items := items + [extra[k]];
      }
      k := k + 1;
    }
  }

  /** The extra dev-dependency loop on a `dev` value that is not an array: it gets through only when nothing is missing. */
  method ExtrasFound(dev: Value, extra: seq<string>) returns (ok: bool)
    ensures ok <==> forall i :: 0 <= i < |extra| ==> ValueContains(dev, extra[i]) == Some(true)
  {
    var k := 0;
    while k < |extra|
      invariant 0 <= k <= |extra|
      invariant forall j :: 0 <= j < k ==> ValueContains(dev, extra[j]) == Some(true)
    {
      if ValueContains(dev, extra[k]) != Some(true) {
        // `in` raised, or the missing extra is appended to a non-array
        return false;
      }
      k := k + 1;
    }
    return true;
  }

  /** The extra dev-dependency step, on `dependency-groups.dev` when it exists. */
  method AddDevDeps(result: Doc, extra: seq<string>) returns (r: Option<Doc>)
    ensures r == DevDepsAdded(result, extra)
  {
    if |extra| > 0 {
      var dev := GetNested(result, DEV_PATH);
      if dev.Some? {
        if !dev.value.Array? {
          var ok := ExtrasFound(dev.value, extra);
          return if ok then Some(result) else None;
        }
        var items := AppendExtras(dev.value.items, extra);
        return SetNested(result, DEV_PATH, Array(items));
      }
    }
    return Some(result);
  }

  /** The four sections the merge may change. */
  const MERGED_SECTIONS: seq<string> := ["project", "dependency-groups", "build-system", "tool"]

  /** The intermediate documents of `SectionsMerged`. */
  lemma SectionsSteps(c: Doc, t: Doc)
    requires SectionsMerged(c, t).Some?
    ensures SectionMerged(c, t, "project", PRESERVE_PROJECT_FIELDS).Some?
    ensures var r1 := SectionMerged(c, t, "project", PRESERVE_PROJECT_FIELDS).value;
            && SectionMerged(r1, t, "dependency-groups", []).Some?
            && SectionMerged(SectionMerged(r1, t, "dependency-groups", []).value, t, "build-system", []) == SectionsMerged(c, t)
  {
  }

  /** Lookups of `a` and `b` agree outside `changed`. */
  ghost predicate Agree(a: Doc, b: Doc, changed: seq<string>)
  {
    forall j :: j !in changed ==> Lookup(a, j) == Lookup(b, j)
  }

  /** The state of the merge just before the dev-dependency step. */
  function BeforeDevDeps(current: Doc, template: Doc, opts: PyprojectOptions): Option<Doc>
  {
    var r3 :- SectionsMerged(current, template);
    ToolsMerged(r3, template, PRESERVE_SECTIONS + opts.preserveSections)
  }

  lemma BeforeDevDepsThen(current: Doc, template: Doc, opts: PyprojectOptions)
    ensures PyprojectMerged(current, template, opts)
            == match BeforeDevDeps(current, template, opts)
               case None => None
               case Some(r4) => DevDepsAdded(r4, opts.extraDevDeps)
  {
  }

  /** One single-section stage keeps every other section. */
  lemma SectionStageAgree(d: Doc, template: Doc, section: string, preserve: seq<string>, changed: seq<string>)
    requires SectionDistinct(template, section) && SectionDistinct(d, section)
    requires SectionMerged(d, template, section, preserve).Some? && section in changed
    ensures Agree(SectionMerged(d, template, section, preserve).value, d, changed)
  {
    SectionMergedSpec(d, template, section, preserve);
  }

  lemma AgreeTrans(a: Doc, b: Doc, c: Doc, changed: seq<string>)
    requires Agree(a, b, changed) && Agree(b, c, changed)
    ensures Agree(a, c, changed)
  {
  }

  /** The three single-section stages keep every section they do not merge. */
  lemma SectionsMergedAgree(current: Doc, template: Doc)
    requires forall s :: s in MERGED_SECTIONS ==> SectionDistinct(template, s) && SectionDistinct(current, s)
    requires SectionsMerged(current, template).Some?
    ensures Agree(SectionsMerged(current, template).value, current, MERGED_SECTIONS)
  {
    var c := MERGED_SECTIONS;
    var r1 := SectionMerged(current, template, "project", PRESERVE_PROJECT_FIELDS).value;
    SectionStageAgree(current, template, "project", PRESERVE_PROJECT_FIELDS, c);
    SectionMergedSpec(current, template, "project", PRESERVE_PROJECT_FIELDS);
    assert Lookup(r1, "dependency-groups") == Lookup(current, "dependency-groups");
    var r2 := SectionMerged(r1, template, "dependency-groups", []).value;
    SectionStageAgree(r1, template, "dependency-groups", [], c);
    SectionMergedSpec(r1, template, "dependency-groups", []);
    assert Lookup(r2, "build-system") == Lookup(current, "build-system");
    var r3 := SectionMerged(r2, template, "build-system", []).value;
    SectionStageAgree(r2, template, "build-system", [], c);
    AgreeTrans(r2, r1, current, c);
    AgreeTrans(r3, r2, current, c);
  }

  /** The merge keeps every top-level section other than `project`, `dependency-groups`, `build-system` and `tool`. */
  lemma MergeKeepsOtherSections(current: Doc, template: Doc, opts: PyprojectOptions)
    requires forall s :: s in MERGED_SECTIONS ==> SectionDistinct(template, s) && SectionDistinct(current, s)
    requires PyprojectMerged(current, template, opts).Some?
    ensures Agree(PyprojectMerged(current, template, opts).value, current, MERGED_SECTIONS)
  {
    var c := MERGED_SECTIONS;
    var r3 := SectionsMerged(current, template).value;
    SectionsMergedAgree(current, template);
    var sections := PRESERVE_SECTIONS + opts.preserveSections;
    var r4 := ToolsMerged(r3, template, sections).value;
    ToolsMergedOthers(r3, template, sections);
    DevDepsAddedSpec(r4, opts.extraDevDeps);
    BeforeDevDepsThen(current, template, opts);
    assert Agree(PyprojectMerged(current, template, opts).value, r4, c);
    AgreeTrans(r4, r3, current, c);
    AgreeTrans(PyprojectMerged(current, template, opts).value, r4, current, c);
  }

  /**
   * The identity fields of an existing `[project]` table (name, version,
   * description, dependencies) keep the project's own values, present or
   * absent; other `[project]` keys the template has take the template's value.
   */
  lemma MergeKeepsIdentityFields(current: Doc, template: Doc, opts: PyprojectOptions)
    requires forall s :: s in MERGED_SECTIONS ==> SectionDistinct(template, s) && SectionDistinct(current, s)
    requires PyprojectMerged(current, template, opts).Some?
    requires Lookup(current, "project").Some? && Lookup(current, "project").value.Table?
    ensures var m := PyprojectMerged(current, template, opts).value;
      && Lookup(m, "project").Some? && Lookup(m, "project").value.Table?
      && var mp := Lookup(m, "project").value.entries;
         var cp := Lookup(current, "project").value.entries;
         && (forall f :: f in PRESERVE_PROJECT_FIELDS ==> Lookup(mp, f) == Lookup(cp, f))
         && (Lookup(template, "project").Some? && Lookup(template, "project").value.Table? ==>
               forall f :: f !in PRESERVE_PROJECT_FIELDS && HasKey(Lookup(template, "project").value.entries, f) ==>
                 Lookup(mp, f) == Lookup(Lookup(template, "project").value.entries, f))
  {
    SectionsSteps(current, template);
    var r1 := SectionMerged(current, template, "project", PRESERVE_PROJECT_FIELDS).value;
    SectionMergedSpec(current, template, "project", PRESERVE_PROJECT_FIELDS);
    var r2 := SectionMerged(r1, template, "dependency-groups", []).value;
    SectionMergedOthers(r1, template, "dependency-groups", []);
    var r3 := SectionMerged(r2, template, "build-system", []).value;
    SectionMergedOthers(r2, template, "build-system", []);
    ProjectAfterSections(r3, template, opts);
  }

  /** The tool and dev-dependency steps leave `project` alone. */
  lemma ProjectAfterSections(r3: Doc, template: Doc, opts: PyprojectOptions)
    requires SectionDistinct(template, "tool")
    requires ToolsMerged(r3, template, PRESERVE_SECTIONS + opts.preserveSections).Some?
    requires DevDepsAdded(ToolsMerged(r3, template, PRESERVE_SECTIONS + opts.preserveSections).value, opts.extraDevDeps).Some?
    ensures Lookup(DevDepsAdded(ToolsMerged(r3, template, PRESERVE_SECTIONS + opts.preserveSections).value, opts.extraDevDeps).value, "project")
            == Lookup(r3, "project")
  {
    var sections := PRESERVE_SECTIONS + opts.preserveSections;
    var r4 := ToolsMerged(r3, template, sections).value;
    ToolsMergedOthers(r3, template, sections);
    assert Lookup(r4, "project") == Lookup(r3, "project");
    DevDepsOthers(r4, opts.extraDevDeps);
  }

  /** `_merge_section` keeps every other section. */
  lemma SectionMergedOthers(d: Doc, t: Doc, s: string, preserve: seq<string>)
    requires SectionMerged(d, t, s, preserve).Some?
    ensures forall j :: j != s ==> Lookup(SectionMerged(d, t, s, preserve).value, j) == Lookup(d, j)
  {
    if Lookup(t, s).Some? {
      var tv := Lookup(t, s).value;
      if Lookup(d, s).None? || (Lookup(d, s).value.Table? && tv.Table?) {
        var w := if Lookup(d, s).None? then tv
                 else var rv := Lookup(d, s).value;
                      Table(Restore(Overlay(rv.entries, tv.entries, preserve), Saved(rv.entries, preserve)));
        forall j | j != s ensures Lookup(Put(d, s, w), j) == Lookup(d, j) {
          LookupPut(d, s, w, j);
        }
      }
    }
  }

  /** The tool part of the merge keeps every section but `tool`. */
  lemma ToolsMergedOthers(d: Doc, t: Doc, sections: seq<string>)
    requires ToolsMerged(d, t, sections).Some?
    ensures forall j :: j != "tool" ==> Lookup(ToolsMerged(d, t, sections).value, j) == Lookup(d, j)
  {
    if Lookup(t, "tool").Some? {
      var cur := Lookup(d, "tool");
      var tv := Lookup(t, "tool").value;
      if tv.Table? && (cur.None? || cur.value.Table?) {
        var base := if cur.None? then [] else cur.value.entries;
        var mt := ToolsMergedFrom(base, tv.entries, sections, 0).value;
        forall j | j != "tool" ensures Lookup(Put(d, "tool", Table(mt)), j) == Lookup(d, j) {
          LookupPut(d, "tool", Table(mt), j);
        }
      } else {
        forall j | j != "tool" ensures Lookup(Put(d, "tool", Table([])), j) == Lookup(d, j) {
          LookupPut(d, "tool", Table([]), j);
        }
      }
    }
  }

  /** The dev-dependency step keeps every section but `dependency-groups`. */
  lemma DevDepsOthers(d: Doc, extra: seq<string>)
    requires DevDepsAdded(d, extra).Some?
    ensures forall j :: j != "dependency-groups" ==> Lookup(DevDepsAdded(d, extra).value, j) == Lookup(d, j)
  {
    DevDepsAddedSpec(d, extra);
  }
}
