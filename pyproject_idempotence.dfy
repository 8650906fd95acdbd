/**
 * Running `merge_pyproject` on its own output with the same template and
 * options gives that output back, so applying the pyproject handler a second
 * time reports no change. The template has to have the shape the shared
 * template has: distinct keys, and tables wherever the merge descends.
 */
module PyprojectIdempotence {
  import opened Wrappers
  import opened Assoc
  import opened Toml
  import opened ProjectConfig
  import opened PyprojectMerge
  import opened StrList

  /** Every template key outside `preserve` already has the template's value in `w`. */
  ghost predicate Settled(w: Doc, tv: Doc, preserve: seq<string>)
  {
    forall i :: 0 <= i < |tv| && tv[i].0 !in preserve ==> Lookup(w, tv[i].0) == Some(tv[i].1)
  }

  /** Key-wise reading of `Settled` for a template with distinct keys. */
  lemma SettledKeys(w: Doc, tv: Doc, preserve: seq<string>)
    requires DistinctKeys(tv)
    ensures Settled(w, tv, preserve) <==> forall k :: k !in preserve && HasKey(tv, k) ==> Lookup(w, k) == Lookup(tv, k)
  {
    forall i | 0 <= i < |tv| {
      LookupAt(tv, i);
    }
    forall k | HasKey(tv, k) ensures exists i :: 0 <= i < |tv| && tv[i].0 == k {
      LookupFound(tv, k);
      var i :| 0 <= i < |tv| && tv[i] == (k, Lookup(tv, k).value);
    }
  }

  /** A section the merge handles is a table in the template, when present. */
  predicate SectionIsTable(t: Doc, s: string)
  {
    Lookup(t, s).Some? ==> Lookup(t, s).value.Table?
  }

  /**
   * The shape the merge needs of a template to be stable: distinct keys
   * everywhere, and tables for the four merged sections and every tool
   * sub-section that is not skipped.
   */
  ghost predicate TemplateShaped(t: Doc, sections: seq<string>)
  {
    && WF(Table(t))
    && SectionIsTable(t, "project") && SectionIsTable(t, "dependency-groups")
    && SectionIsTable(t, "build-system") && SectionIsTable(t, "tool")
    && (Lookup(t, "tool").Some? ==>
          var tt := Lookup(t, "tool").value.entries;
          forall j :: 0 <= j < |tt| && !IsPreservedPath("tool." + tt[j].0, sections) ==> tt[j].1.Table?)
  }

  /** The section `s`, when present, satisfies `WF`. */
  ghost predicate SectionWF(d: Doc, s: string)
  {
    Lookup(d, s).Some? ==> WF(Lookup(d, s).value)
  }

  /** Overlaying a template onto a table that already has all its values changes nothing. */
  lemma OverlayFix(x: Doc, tm: Doc, preserve: seq<string>)
    requires DistinctKeys(x) && DistinctKeys(tm) && Settled(x, tm, preserve)
    ensures Overlay(x, tm, preserve) == x
  {
    var o := Overlay(x, tm, preserve);
    SettledKeys(x, tm, preserve);
    forall i | 0 <= i < |tm| ensures tm[i].0 in preserve || HasKey(x, tm[i].0) {
      LookupAt(tm, i);
    }
    OverlayKeys(x, tm, preserve);
    forall k ensures Lookup(o, k) == Lookup(x, k) {
      OverlayLookup(x, tm, preserve, k);
    }
    TableExt(o, x);
  }

  /**
   * A value `w` under a template table `tv` that `_merge_section` leaves as
   * it is: a distinct table that already has the template's values, or a
   * non-table value the merge gets past without touching.
   */
  ghost predicate ValueSettled(w: Value, tv: Value, preserve: seq<string>)
  {
    tv.Table? &&
    if w.Table? then DistinctKeys(w.entries) && Settled(w.entries, tv.entries, preserve)
    else SectionKept(w, tv, preserve)
  }

  /** The section `s` of `d` is present and settled under the template's table. */
  ghost predicate SectionSettled(d: Doc, t: Doc, s: string, preserve: seq<string>)
  {
    Lookup(t, s).Some? && Lookup(t, s).value.Table? ==>
      Lookup(d, s).Some? && ValueSettled(Lookup(d, s).value, Lookup(t, s).value, preserve)
  }

  /** After `_merge_section`, the section has the template's values. */
  lemma SectionSettles(d: Doc, t: Doc, s: string, preserve: seq<string>)
    requires SectionDistinct(t, s) && SectionIsTable(t, s) && SectionDistinct(d, s)
    requires SectionMerged(d, t, s, preserve).Some?
    ensures SectionSettled(SectionMerged(d, t, s, preserve).value, t, s, preserve)
  {
    if Lookup(t, s).Some? {
      var tv := Lookup(t, s).value;
      if Lookup(d, s).None? {
        LookupPut(d, s, tv, s);
        if tv.Table? { SettledKeys(tv.entries, tv.entries, preserve); }
      } else if Lookup(d, s).value.Table? {
        var rv := Lookup(d, s).value;
        MergedTable(rv.entries, tv.entries, preserve);
        SettledKeys(Restore(Overlay(rv.entries, tv.entries, preserve), Saved(rv.entries, preserve)), tv.entries, preserve);
        LookupPut(d, s, Table(Restore(Overlay(rv.entries, tv.entries, preserve), Saved(rv.entries, preserve))), s);
      }
    }
  }

  /** `_merge_section` on a section that already has the template's values changes nothing. */
  lemma SectionFix(d: Doc, t: Doc, s: string, preserve: seq<string>)
    requires DistinctKeys(d) && SectionDistinct(t, s) && SectionIsTable(t, s)
    requires SectionSettled(d, t, s, preserve)
    ensures SectionMerged(d, t, s, preserve) == Some(d)
  {
    if Lookup(t, s).Some? && Lookup(d, s).value.Table? {
      var w := Lookup(d, s).value.entries;
      var tv := Lookup(t, s).value.entries;
      MergedTable(w, tv, preserve);
      OverlayFix(w, tv, preserve);
      PutSame(d, s, Table(w));
    }
  }

  lemma SectionMergedDistinct(d: Doc, t: Doc, s: string, preserve: seq<string>)
    requires DistinctKeys(d) && SectionMerged(d, t, s, preserve).Some?
    ensures DistinctKeys(SectionMerged(d, t, s, preserve).value)
  {
    if Lookup(t, s).Some? {
      var tv := Lookup(t, s).value;
      if Lookup(d, s).None? {
        DistinctPut(d, s, tv);
      } else if Lookup(d, s).value.Table? && tv.Table? {
        var rv := Lookup(d, s).value;
        DistinctPut(d, s, Table(Restore(Overlay(rv.entries, tv.entries, preserve), Saved(rv.entries, preserve))));
      }
    }
  }

  lemma {:induction false} ToolsMergedFromDistinct(rt: Doc, tt: Doc, sections: seq<string>, i: nat)
    requires i <= |tt| && DistinctKeys(rt) && ToolsMergedFrom(rt, tt, sections, i).Some?
    ensures DistinctKeys(ToolsMergedFrom(rt, tt, sections, i).value)
    decreases |tt| - i
  {
    if i < |tt| {
      var k := tt[i].0;
      if !IsPreservedPath("tool." + k, sections) {
        if HasKey(rt, k) {
          SectionMergedDistinct(rt, tt, k, PreserveSub(k));
        } else {
          DistinctPut(rt, k, tt[i].1);
        }
      }
      ToolsMergedFromDistinct(ToolStep(rt, tt, sections, i).value, tt, sections, i + 1);
    }
  }

  lemma ToolsMergedDistinct(d: Doc, t: Doc, sections: seq<string>)
    requires DistinctKeys(d) && SectionDistinct(d, "tool") && ToolsMerged(d, t, sections).Some?
    ensures DistinctKeys(ToolsMerged(d, t, sections).value)
  {
    if Lookup(t, "tool").Some? {
      var cur := Lookup(d, "tool");
      var tv := Lookup(t, "tool").value;
      if tv.Table? && (cur.None? || cur.value.Table?) {
        var base := if cur.None? then [] else cur.value.entries;
        ToolsMergedFromDistinct(base, tv.entries, sections, 0);
        DistinctPut(d, "tool", Table(ToolsMergedFrom(base, tv.entries, sections, 0).value));
      } else {
        DistinctPut(d, "tool", Table([]));
      }
    }
  }

  /** Every tool sub-section the loop does not skip is present and settled under the template's table. */
  ghost predicate ToolsSettled(mt: Doc, tt: Doc, sections: seq<string>)
  {
    forall j :: 0 <= j < |tt| && !IsPreservedPath("tool." + tt[j].0, sections) ==>
      && Lookup(mt, tt[j].0).Some? && DistinctTable(tt[j].1)
      && ValueSettled(Lookup(mt, tt[j].0).value, tt[j].1, PreserveSub(tt[j].0))
  }

  /**
   * The `tool` value of `d` is a distinct table whose sub-sections are
   * settled, or a non-table value the tool loop gets past without touching.
   */
  ghost predicate ToolSettled(d: Doc, t: Doc, sections: seq<string>)
  {
    Lookup(t, "tool").Some? && Lookup(t, "tool").value.Table? ==>
      Lookup(d, "tool").Some? &&
      if Lookup(d, "tool").value.Table? then
        DistinctTable(Lookup(d, "tool").value)
        && ToolsSettled(Lookup(d, "tool").value.entries, Lookup(t, "tool").value.entries, sections)
      else ToolsKept(Lookup(d, "tool"), Lookup(t, "tool").value, sections)
  }

  lemma {:induction false} ToolsFix(rt: Doc, tt: Doc, sections: seq<string>, i: nat)
    requires i <= |tt| && DistinctKeys(rt) && DistinctKeys(tt) && ToolsSettled(rt, tt, sections)
    ensures ToolsMergedFrom(rt, tt, sections, i) == Some(rt)
    decreases |tt| - i
  {
    if i < |tt| {
      var k := tt[i].0;
      if !IsPreservedPath("tool." + k, sections) {
        LookupAt(tt, i);
        SectionFix(rt, tt, k, PreserveSub(k));
      }
      ToolsFix(rt, tt, sections, i + 1);
    }
  }

  /** The tool part of the merge on a document whose tools already have the template's values changes nothing. */
  lemma ToolsMergedFix(d: Doc, t: Doc, sections: seq<string>)
    requires DistinctKeys(d) && SectionDistinct(t, "tool") && SectionIsTable(t, "tool") && ToolSettled(d, t, sections)
    ensures ToolsMerged(d, t, sections) == Some(d)
  {
    if Lookup(t, "tool").Some? && Lookup(d, "tool").value.Table? {
      var mt := Lookup(d, "tool").value.entries;
      ToolsFix(mt, Lookup(t, "tool").value.entries, sections, 0);
      PutSame(d, "tool", Table(mt));
    }
  }

  /** One tool sub-section after the tool loop has the template's values. */
  lemma ToolSettledAt(base: Doc, tt: Doc, sections: seq<string>, j: nat)
    requires WF(Table(base)) && WF(Table(tt)) && j < |tt|
    requires !IsPreservedPath("tool." + tt[j].0, sections) && tt[j].1.Table?
    requires ToolsMergedFrom(base, tt, sections, 0).Some?
    ensures var mt := ToolsMergedFrom(base, tt, sections, 0).value;
            && Lookup(mt, tt[j].0).Some? && DistinctTable(tt[j].1)
            && ValueSettled(Lookup(mt, tt[j].0).value, tt[j].1, PreserveSub(tt[j].0))
  {
    var k := tt[j].0;
    LookupAt(tt, j);
    ToolsMergedFromLookup(base, tt, sections, 0, k);
    assert WF(tt[j].1);
    LookupWF(base, k);
    ToolValueSpec(k, Lookup(base, k), tt[j].1, sections);
    var mt := ToolsMergedFrom(base, tt, sections, 0).value;
    if Lookup(mt, k).value.Table? {
      SettledKeys(Lookup(mt, k).value.entries, tt[j].1.entries, PreserveSub(k));
    }
  }

  /** After the tool part of the merge, the tool sub-sections have the template's values. */
  lemma ToolsSettle(d: Doc, t: Doc, sections: seq<string>)
    requires SectionWF(d, "tool") && TemplateShaped(t, sections)
    requires ToolsMerged(d, t, sections).Some?
    ensures ToolSettled(ToolsMerged(d, t, sections).value, t, sections)
  {
    if Lookup(t, "tool").Some? {
      LookupWF(t, "tool");
      var tt := Lookup(t, "tool").value.entries;
      var cur := Lookup(d, "tool");
      if cur.Some? && !cur.value.Table? {
        // the loop got past a non-table `tool` value and left the document alone
        return;
      }
      var base := if cur.None? then [] else cur.value.entries;
      var mt := ToolsMergedFrom(base, tt, sections, 0).value;
      LookupPut(d, "tool", Table(mt), "tool");
      ToolsMergedFromDistinct(base, tt, sections, 0);
      forall j | 0 <= j < |tt| && !IsPreservedPath("tool." + tt[j].0, sections)
        ensures Lookup(mt, tt[j].0).Some? && DistinctTable(tt[j].1)
                && ValueSettled(Lookup(mt, tt[j].0).value, tt[j].1, PreserveSub(tt[j].0))
      {
        ToolSettledAt(base, tt, sections, j);
      }
    }
  }

  /** What the first run leaves before the dev-dependency step: every merged section has the template's values. */
  ghost predicate Stable(d: Doc, t: Doc, sections: seq<string>)
  {
    && DistinctKeys(d)
    && SectionSettled(d, t, "project", PRESERVE_PROJECT_FIELDS)
    && SectionSettled(d, t, "dependency-groups", [])
    && SectionSettled(d, t, "build-system", [])
    && ToolSettled(d, t, sections)
    && SectionDistinct(d, "dependency-groups")
  }

  lemma TemplateSections(t: Doc)
    requires WF(Table(t))
    ensures forall s :: SectionDistinct(t, s)
  {
    forall s ensures SectionDistinct(t, s) {
      LookupWF(t, s);
    }
  }

  /** One `_merge_section` stage of the first run. */
  lemma SectionStage(d: Doc, t: Doc, s: string, preserve: seq<string>)
    requires SectionDistinct(t, s) && SectionIsTable(t, s) && SectionDistinct(d, s) && DistinctKeys(d)
    requires SectionMerged(d, t, s, preserve).Some?
    ensures var r := SectionMerged(d, t, s, preserve).value;
            && DistinctKeys(r) && SectionSettled(r, t, s, preserve) && SectionDistinct(r, s)
            && forall j :: j != s ==> Lookup(r, j) == Lookup(d, j)
  {
    SectionSettles(d, t, s, preserve);
    SectionMergedDistinct(d, t, s, preserve);
    SectionMergedOthers(d, t, s, preserve);
  }

  lemma SettledSame(a: Doc, b: Doc, t: Doc, s: string, preserve: seq<string>)
    requires Lookup(a, s) == Lookup(b, s) && SectionSettled(a, t, s, preserve)
    ensures SectionSettled(b, t, s, preserve)
  {
  }

  lemma RunProject(c: Doc, t: Doc, r1: Doc)
    requires SectionDistinct(c, "project") && SectionDistinct(t, "project") && SectionIsTable(t, "project") && DistinctKeys(c)
    requires SectionMerged(c, t, "project", PRESERVE_PROJECT_FIELDS) == Some(r1)
    ensures DistinctKeys(r1) && SectionSettled(r1, t, "project", PRESERVE_PROJECT_FIELDS)
    ensures Lookup(r1, "dependency-groups") == Lookup(c, "dependency-groups")
    ensures Lookup(r1, "build-system") == Lookup(c, "build-system") && Lookup(r1, "tool") == Lookup(c, "tool")
  {
    SectionStage(c, t, "project", PRESERVE_PROJECT_FIELDS);
  }

  lemma RunDependencyGroups(r1: Doc, t: Doc, r2: Doc)
    requires SectionDistinct(r1, "dependency-groups") && SectionDistinct(t, "dependency-groups")
    requires SectionIsTable(t, "dependency-groups") && DistinctKeys(r1)
    requires SectionMerged(r1, t, "dependency-groups", []) == Some(r2)
    ensures DistinctKeys(r2) && SectionSettled(r2, t, "dependency-groups", []) && SectionDistinct(r2, "dependency-groups")
    ensures Lookup(r2, "project") == Lookup(r1, "project")
    ensures Lookup(r2, "build-system") == Lookup(r1, "build-system") && Lookup(r2, "tool") == Lookup(r1, "tool")
  {
    SectionStage(r1, t, "dependency-groups", []);
  }

  lemma RunBuildSystem(r2: Doc, t: Doc, r3: Doc)
    requires SectionDistinct(r2, "build-system") && SectionDistinct(t, "build-system")
    requires SectionIsTable(t, "build-system") && DistinctKeys(r2)
    requires SectionMerged(r2, t, "build-system", []) == Some(r3)
    ensures DistinctKeys(r3) && SectionSettled(r3, t, "build-system", [])
    ensures Lookup(r3, "project") == Lookup(r2, "project")
    ensures Lookup(r3, "dependency-groups") == Lookup(r2, "dependency-groups") && Lookup(r3, "tool") == Lookup(r2, "tool")
  {
    SectionStage(r2, t, "build-system", []);
  }

  /** The three section stages of the first run. */
  lemma SectionsRun(c: Doc, t: Doc, r1: Doc, r2: Doc, r3: Doc)
    requires SectionDistinct(c, "project") && SectionDistinct(c, "dependency-groups") && SectionDistinct(c, "build-system")
    requires SectionDistinct(t, "project") && SectionDistinct(t, "dependency-groups") && SectionDistinct(t, "build-system")
    requires DistinctKeys(c)
    requires SectionIsTable(t, "project") && SectionIsTable(t, "dependency-groups") && SectionIsTable(t, "build-system")
    requires SectionMerged(c, t, "project", PRESERVE_PROJECT_FIELDS) == Some(r1)
    requires SectionMerged(r1, t, "dependency-groups", []) == Some(r2)
    requires SectionMerged(r2, t, "build-system", []) == Some(r3)
    ensures DistinctKeys(r3)
    ensures SectionSettled(r3, t, "project", PRESERVE_PROJECT_FIELDS)
    ensures SectionSettled(r3, t, "dependency-groups", [])
    ensures SectionSettled(r3, t, "build-system", [])
    ensures SectionDistinct(r3, "dependency-groups")
    ensures Lookup(r3, "tool") == Lookup(c, "tool")
  {
    RunProject(c, t, r1);
    RunDependencyGroups(r1, t, r2);
    RunBuildSystem(r2, t, r3);
    SettledSame(r1, r2, t, "project", PRESERVE_PROJECT_FIELDS);
    SettledSame(r2, r3, t, "project", PRESERVE_PROJECT_FIELDS);
    SettledSame(r2, r3, t, "dependency-groups", []);
  }

  /** The tool stage keeps the settled sections and settles `[tool]`. */
  lemma ToolsRun(r3: Doc, t: Doc, sections: seq<string>, r4: Doc)
    requires DistinctKeys(r3) && SectionWF(r3, "tool") && TemplateShaped(t, sections)
    requires SectionSettled(r3, t, "project", PRESERVE_PROJECT_FIELDS)
    requires SectionSettled(r3, t, "dependency-groups", [])
    requires SectionSettled(r3, t, "build-system", [])
    requires SectionDistinct(r3, "dependency-groups")
    requires ToolsMerged(r3, t, sections) == Some(r4)
    ensures Stable(r4, t, sections)
  {
    ToolsSettle(r3, t, sections);
    ToolsMergedDistinct(r3, t, sections);
    ToolsMergedOthers(r3, t, sections);
    assert Lookup(r4, "project") == Lookup(r3, "project");
    assert Lookup(r4, "dependency-groups") == Lookup(r3, "dependency-groups");
    assert Lookup(r4, "build-system") == Lookup(r3, "build-system");
  }

  /** The first run reaches a stable document before its dev-dependency step. */
  lemma FirstRun(c: Doc, t: Doc, opts: PyprojectOptions)
    requires WF(Table(c)) && TemplateShaped(t, PRESERVE_SECTIONS + opts.preserveSections)
    requires BeforeDevDeps(c, t, opts).Some?
    ensures Stable(BeforeDevDeps(c, t, opts).value, t, PRESERVE_SECTIONS + opts.preserveSections)
  {
    var sections := PRESERVE_SECTIONS + opts.preserveSections;
    LookupWF(t, "project");
    LookupWF(t, "dependency-groups");
    LookupWF(t, "build-system");
    LookupWF(c, "project");
    LookupWF(c, "dependency-groups");
    LookupWF(c, "build-system");
    SectionsSteps(c, t);
    var r1 := SectionMerged(c, t, "project", PRESERVE_PROJECT_FIELDS).value;
    var r2 := SectionMerged(r1, t, "dependency-groups", []).value;
    var r3 := SectionMerged(r2, t, "build-system", []).value;
    SectionsRun(c, t, r1, r2, r3);
    LookupWF(c, "tool");
    assert SectionWF(r3, "tool");
    ToolsRun(r3, t, sections, ToolsMerged(r3, t, sections).value);
  }

  /**
   * The dev-dependency step is idempotent: its output already holds every
   * extra dependency, so a second pass appends nothing and sets
   * `dependency-groups.dev` to the value it already has.
   */
  lemma DevStepFix(d: Doc, extra: seq<string>, m: Doc)
    requires DistinctKeys(d) && DevDepsAdded(d, extra) == Some(m)
    ensures DistinctKeys(m) && DevDepsAdded(m, extra) == Some(m)
  {
    DevDepsCases(d, extra, m);
    if m != d {
      var items := GetNested(d, DEV_PATH).value.items;
      var a := AppendMissing(items, extra);
      DevSetTwice(d, Array(a), m);
      AppendMissingSpec(items, extra);
      AppendMissingSpec(a, extra);
      assert AppendMissing(a, extra) == a;
    }
  }

  /** Setting `dependency-groups.dev` to the value it was just set to gives the same document back. */
  lemma DevSetTwice(d: Doc, x: Value, m: Doc)
    requires DistinctKeys(d) && GetNested(d, DEV_PATH).Some? && SetNested(d, DEV_PATH, x) == Some(m)
    ensures DistinctKeys(m) && GetNested(m, DEV_PATH) == Some(x) && SetNested(m, DEV_PATH, x) == Some(m)
  {
    DevSet(d, x);
    var dg := Lookup(d, "dependency-groups").value.entries;
    var dg' := Put(dg, "dev", x);
    assert m == Put(d, "dependency-groups", Table(dg'));
    DistinctPut(d, "dependency-groups", Table(dg'));
    DevPut(d, dg, x);
    DevSet(m, x);
    LookupPut(d, "dependency-groups", Table(dg'), "dependency-groups");
    PutPut(dg, "dev", x, x);
    PutSame(m, "dependency-groups", Table(dg'));
  }

  /**
   * The second run's `dependency-groups` stage on the first run's output `m`:
   * when the template also lists `dev`, the stage resets it to the template's
   * value and gives back the document before the dev-dependency step;
   * otherwise it changes nothing.
   */
  lemma GroupsSecond(r4: Doc, t: Doc, extra: seq<string>, m: Doc)
    requires DistinctKeys(r4) && SectionSettled(r4, t, "dependency-groups", [])
    requires SectionDistinct(r4, "dependency-groups") && SectionDistinct(t, "dependency-groups")
    requires SectionIsTable(t, "dependency-groups")
    requires DevDepsAdded(r4, extra) == Some(m)
    ensures SectionMerged(m, t, "dependency-groups", []) == Some(r4) || SectionMerged(m, t, "dependency-groups", []) == Some(m)
  {
    DevDepsCases(r4, extra, m);
    if m == r4 {
      SectionFix(r4, t, "dependency-groups", []);
    } else if Lookup(t, "dependency-groups").Some? {
      GroupsSecondAppended(r4, t, Array(AppendMissing(GetNested(r4, DEV_PATH).value.items, extra)), m);
    }
  }

  /** The dev-dependency step either returns its input or sets `dependency-groups.dev` to the appended list. */
  lemma DevDepsCases(d: Doc, extra: seq<string>, m: Doc)
    requires DevDepsAdded(d, extra) == Some(m)
    ensures || m == d
            || (&& GetNested(d, DEV_PATH).Some? && GetNested(d, DEV_PATH).value.Array?
                && SetNested(d, DEV_PATH, Array(AppendMissing(GetNested(d, DEV_PATH).value.items, extra))) == Some(m))
  {
  }

  /** `GroupsSecond` when the first run's dev-dependency step set `dependency-groups.dev` to `x`. */
  lemma GroupsSecondAppended(r4: Doc, t: Doc, x: Value, m: Doc)
    requires DistinctKeys(r4) && SectionSettled(r4, t, "dependency-groups", [])
    requires SectionDistinct(r4, "dependency-groups") && SectionDistinct(t, "dependency-groups")
    requires Lookup(t, "dependency-groups").Some? && Lookup(t, "dependency-groups").value.Table?
    requires GetNested(r4, DEV_PATH).Some? && SetNested(r4, DEV_PATH, x) == Some(m)
    ensures SectionMerged(m, t, "dependency-groups", []) == Some(r4) || SectionMerged(m, t, "dependency-groups", []) == Some(m)
  {
    DevSet(r4, x);
    var dg := Lookup(r4, "dependency-groups").value.entries;
    var dg' := Put(dg, "dev", x);
    assert m == Put(r4, "dependency-groups", Table(dg'));
    LookupPut(r4, "dependency-groups", Table(dg'), "dependency-groups");
    DistinctPut(r4, "dependency-groups", Table(dg'));
    DistinctPut(dg, "dev", x);
    var tg := Lookup(t, "dependency-groups").value.entries;
    SettledKeys(dg, tg, []);
    forall k ensures Lookup(dg', k) == if k == "dev" then Some(x) else Lookup(dg, k) {
      LookupPut(dg, "dev", x, k);
    }
    if HasKey(tg, "dev") {
      GroupsReset(dg, tg, x);
      var mv := Overlay(dg', tg, []);
      MergedTable(dg', tg, []);
      assert SectionMerged(m, t, "dependency-groups", []) == Some(Put(m, "dependency-groups", Table(mv)));
      PutPut(r4, "dependency-groups", Table(dg'), Table(dg));
      PutSame(r4, "dependency-groups", Table(dg));
    } else {
      SettledKeys(dg', tg, []);
      SectionFix(m, t, "dependency-groups", []);
    }
  }

  /** Overlaying a template table that lists `dev` onto a settled table with a new `dev` restores the settled table. */
  lemma GroupsReset(dg: Doc, tg: Doc, x: Value)
    requires DistinctKeys(dg) && DistinctKeys(tg) && HasKey(tg, "dev")
    requires forall k :: HasKey(tg, k) ==> Lookup(dg, k) == Lookup(tg, k)
    ensures Overlay(Put(dg, "dev", x), tg, []) == dg
  {
    var dg' := Put(dg, "dev", x);
    var mv := Overlay(dg', tg, []);
    DistinctPut(dg, "dev", x);
    KeysPut(dg, "dev", x);
    forall i | 0 <= i < |tg| ensures HasKey(dg', tg[i].0) {
      LookupAt(tg, i);
      LookupPut(dg, "dev", x, tg[i].0);
    }
    OverlayKeys(dg', tg, []);
    forall k ensures Lookup(mv, k) == Lookup(dg, k) {
      OverlayLookup(dg', tg, [], k);
      LookupPut(dg, "dev", x, k);
    }
    TableExt(mv, dg);
  }

  /** The build-system and tool stages of the second run change nothing on a settled document. */
  lemma TailFix(x: Doc, t: Doc, sections: seq<string>)
    requires DistinctKeys(x) && TemplateShaped(t, sections)
    requires SectionSettled(x, t, "build-system", []) && ToolSettled(x, t, sections)
    ensures SectionMerged(x, t, "build-system", []) == Some(x)
    ensures ToolsMerged(x, t, sections) == Some(x)
  {
    LookupWF(t, "build-system");
    LookupWF(t, "tool");
    SectionFix(x, t, "build-system", []);
    ToolsMergedFix(x, t, sections);
  }

  /** A second run on what the first run produced gives the same document. */
  lemma SecondRun(r4: Doc, t: Doc, opts: PyprojectOptions, m: Doc)
    requires Stable(r4, t, PRESERVE_SECTIONS + opts.preserveSections)
    requires TemplateShaped(t, PRESERVE_SECTIONS + opts.preserveSections)
    requires DevDepsAdded(r4, opts.extraDevDeps) == Some(m)
    ensures PyprojectMerged(m, t, opts) == Some(m)
  {
    var sections := PRESERVE_SECTIONS + opts.preserveSections;
    var extra := opts.extraDevDeps;
    LookupWF(t, "project");
    LookupWF(t, "dependency-groups");
    DevStepFix(r4, extra, m);
    DevDepsOthers(r4, extra);
    assert Lookup(m, "project") == Lookup(r4, "project");
    assert Lookup(m, "build-system") == Lookup(r4, "build-system");
    assert Lookup(m, "tool") == Lookup(r4, "tool");
    SectionFix(m, t, "project", PRESERVE_PROJECT_FIELDS);
    GroupsSecond(r4, t, extra, m);
    var m2 := SectionMerged(m, t, "dependency-groups", []).value;
    if m2 == r4 {
      TailFix(r4, t, sections);
    } else {
      TailFix(m, t, sections);
    }
    SecondRunStages(m, t, opts, m2);
  }

  /** The second run, stage by stage: `dependency-groups` may give `m2`, which every later stage leads back to `m`. */
  lemma SecondRunStages(m: Doc, t: Doc, opts: PyprojectOptions, m2: Doc)
    requires SectionMerged(m, t, "project", PRESERVE_PROJECT_FIELDS) == Some(m)
    requires SectionMerged(m, t, "dependency-groups", []) == Some(m2)
    requires SectionMerged(m2, t, "build-system", []) == Some(m2)
    requires ToolsMerged(m2, t, PRESERVE_SECTIONS + opts.preserveSections) == Some(m2)
    requires DevDepsAdded(m2, opts.extraDevDeps) == Some(m)
    ensures PyprojectMerged(m, t, opts) == Some(m)
  {
    assert SectionsMerged(m, t) == Some(m2);
  }

  /**
   * `merge_pyproject` is idempotent: for a project document with distinct
   * keys and a template of the expected shape, merging the merged document
   * again with the same template and options gives it back unchanged.
   */
  lemma MergeIdempotent(c: Doc, t: Doc, opts: PyprojectOptions)
    requires WF(Table(c)) && TemplateShaped(t, PRESERVE_SECTIONS + opts.preserveSections)
    requires PyprojectMerged(c, t, opts).Some?
    ensures PyprojectMerged(PyprojectMerged(c, t, opts).value, t, opts) == PyprojectMerged(c, t, opts)
  {
    BeforeDevDepsThen(c, t, opts);
    FirstRun(c, t, opts);
    SecondRun(BeforeDevDeps(c, t, opts).value, t, opts, PyprojectMerged(c, t, opts).value);
  }
}
