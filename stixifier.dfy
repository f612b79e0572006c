/**
 * The pieces of the stixify pipeline in stixifier/stixifier.py that do not
 * call out to other libraries: choosing the profile's extractors, grouping
 * them by type, and tagging every object of the produced bundle with the
 * processor's extra data.
 */
module Stixifier {
  import opened Wrappers
  import opened Json
  import opened Extractors

  // ---------------------------------------------------------------------------
  // all_extractors(names, _all)

  /** The extractors chosen so far, keyed by slug: all of them, or those whose slug is named. */
  function Selection(exts: seq<Extractor>, names: seq<string>, all: bool): (r: map<string, Extractor>)
    ensures forall s :: s in r ==> r[s].slug == s && r[s] in exts && (all || s in names)
    decreases |exts|
  {
    if |exts| == 0 then map[]
    else
      var e := exts[|exts| - 1];
      var prev := Selection(exts[..|exts| - 1], names, all);
      if all || e.slug in names then prev[e.slug := e] else prev
  }

  /** `all_extractors(names, _all)` over the configured extractors. */
  method AllExtractors(exts: seq<Extractor>, names: seq<string>, all: bool) returns (retval: map<string, Extractor>)
    ensures retval == Selection(exts, names, all)
  {
    retval := map[];
    for i := 0 to |exts|
      invariant retval == Selection(exts[..i], names, all)
    {
      assert exts[..i + 1][..i] == exts[..i];
      var e := exts[i];
      if all || e.slug in names {
        retval := retval[e.slug := e];
      }
    }
    assert exts[..|exts|] == exts;
  }

  /** A slug is chosen exactly when some extractor has it and it is named, or everything is chosen. */
  lemma {:induction false} SelectionKeys(exts: seq<Extractor>, names: seq<string>, all: bool, slug: string)
    ensures slug in Selection(exts, names, all) <==> (all || slug in names) && exists i :: 0 <= i < |exts| && exts[i].slug == slug
    decreases |exts|
  {
    if |exts| > 0 {
      var init := exts[..|exts| - 1];
      SelectionKeys(init, names, all, slug);
      if exists i :: 0 <= i < |init| && init[i].slug == slug {
        var i :| 0 <= i < |init| && init[i].slug == slug;
        assert exts[i] == init[i];
      }
      if exists i :: 0 <= i < |exts| && exts[i].slug == slug {
        var i :| 0 <= i < |exts| && exts[i].slug == slug;
        if i < |init| {
          assert exts[i] == init[i];
        }
      }
    }
  }

  /** With unique slugs every chosen extractor is the one stored under its slug. */
  lemma {:induction false} SelectionValues(exts: seq<Extractor>, names: seq<string>, all: bool, i: nat)
    requires DistinctSlugs(exts)
    requires i < |exts| && (all || exts[i].slug in names)
    ensures exts[i].slug in Selection(exts, names, all) && Selection(exts, names, all)[exts[i].slug] == exts[i]
    decreases |exts|
  {
    var n := |exts| - 1;
    if i < n {
      var init := exts[..n];
      assert init[i] == exts[i];
      SelectionValues(init, names, all, i);
    }
  }

  // ---------------------------------------------------------------------------
  // The extractors_map grouping loop of StixifyProcessor.txt2stix

  /** The group of type `t`, empty when there is none yet. */
  function GroupOf(groups: map<string, map<string, Extractor>>, t: string): map<string, Extractor> {
    if t in groups then groups[t] else map[]
  }

  /**
   * One step of the loop: the extractor is added to the existing group of
   * its type when that group is non-empty, and starts a new group otherwise.
   * Either way it lands in its type's group, and no other group changes.
   */
  function Insert(groups: map<string, map<string, Extractor>>, e: Extractor): (r: map<string, map<string, Extractor>>)
    ensures r == groups[e.typ := GroupOf(groups, e.typ)[e.slug := e]]
  {
    if e.typ in groups && |groups[e.typ]| > 0 then groups[e.typ := groups[e.typ][e.slug := e]]
    else groups[e.typ := map[e.slug := e]]
  }

  /** Extractors grouped by type, then keyed by slug, in the order the loop visits them. */
  function Grouped(exts: seq<Extractor>): map<string, map<string, Extractor>>
    decreases |exts|
  {
    if |exts| == 0 then map[] else Insert(Grouped(exts[..|exts| - 1]), exts[|exts| - 1])
  }

  /** The grouping loop over the chosen extractors' values. */
  method GroupByType(exts: seq<Extractor>) returns (groups: map<string, map<string, Extractor>>)
    ensures groups == Grouped(exts)
  {
    groups := map[];
    for i := 0 to |exts|
      invariant groups == Grouped(exts[..i])
    {
      assert exts[..i + 1][..i] == exts[..i];
      var e := exts[i];
      if e.typ in groups && |groups[e.typ]| > 0 {
        groups := groups[e.typ := groups[e.typ][e.slug := e]];
      } else {
        groups := groups[e.typ := map[e.slug := e]];
      }
    }
    assert exts[..|exts|] == exts;
  }

  /** A group of type `t` is non-empty and holds only extractors of that type, each under its own slug. */
  predicate WellGroup(group: map<string, Extractor>, t: string, exts: seq<Extractor>) {
    |group| > 0 && forall s :: s in group ==> group[s].typ == t && group[s].slug == s && group[s] in exts
  }

  /** Every group is well formed. */
  predicate WellGrouped(groups: map<string, map<string, Extractor>>, exts: seq<Extractor>) {
    forall t :: t in groups ==> WellGroup(groups[t], t, exts)
  }

  /** Adding an extractor keeps a grouping well formed. */
  lemma InsertWellGrouped(groups: map<string, map<string, Extractor>>, exts: seq<Extractor>, e: Extractor)
    requires WellGrouped(groups, exts)
    ensures WellGrouped(Insert(groups, e), exts + [e])
  {
    var r := Insert(groups, e);
    forall t | t in r ensures WellGroup(r[t], t, exts + [e]) {
      if t != e.typ {
        assert r[t] == groups[t];
      }
    }
  }

  /** The groups hold only extractors of their own type, keyed by their slugs, and none is empty. */
  lemma {:induction false} GroupedShape(exts: seq<Extractor>)
    ensures WellGrouped(Grouped(exts), exts)
    decreases |exts|
  {
    if |exts| > 0 {
      var n := |exts| - 1;
      GroupedShape(exts[..n]);
      InsertWellGrouped(Grouped(exts[..n]), exts[..n], exts[n]);
      assert exts[..n] + [exts[n]] == exts;
    }
  }

  /** Adding an extractor with another slug leaves every existing entry in place. */
  lemma InsertKeeps(groups: map<string, map<string, Extractor>>, e: Extractor, t: string, s: string)
    requires t in groups && s in groups[t] && s != e.slug
    ensures t in Insert(groups, e) && s in Insert(groups, e)[t] && Insert(groups, e)[t][s] == groups[t][s]
  {
  }

  /** With unique slugs every extractor sits in the group of its type under its slug. */
  lemma {:induction false} GroupedPlacement(exts: seq<Extractor>, i: nat)
    requires DistinctSlugs(exts) && i < |exts|
    ensures exts[i].typ in Grouped(exts) && exts[i].slug in Grouped(exts)[exts[i].typ]
    ensures Grouped(exts)[exts[i].typ][exts[i].slug] == exts[i]
    decreases |exts|
  {
    var n := |exts| - 1;
    if i < n {
      var init := exts[..n];
      assert init[i] == exts[i];
      GroupedPlacement(init, i);
      InsertKeeps(Grouped(init), exts[n], exts[i].typ, exts[i].slug);
    }
  }

  /** The (type, slug) places of a grouping. */
  function Entries(groups: map<string, map<string, Extractor>>): set<(string, string)> {
    set t, s | t in groups && s in groups[t] :: (t, s)
  }

  /** Adding an extractor adds its place and no other; its place is new when no entry has its slug. */
  lemma EntriesInsert(groups: map<string, map<string, Extractor>>, e: Extractor)
    ensures Entries(Insert(groups, e)) == Entries(groups) + {(e.typ, e.slug)}
  {
    var r := Insert(groups, e);
    forall p | p in Entries(r) ensures p in Entries(groups) + {(e.typ, e.slug)} {
      var (t, s) := p;
      if t != e.typ {
        assert r[t] == groups[t];
      }
    }
    forall p | p in Entries(groups) ensures p in Entries(r) {
      var (t, s) := p;
      if t != e.typ {
        assert r[t] == groups[t];
      }
    }
  }

  /** An extractor whose slug no grouped extractor has takes a new place. */
  lemma NewSlugIsNewEntry(groups: map<string, map<string, Extractor>>, exts: seq<Extractor>, e: Extractor)
    requires WellGrouped(groups, exts)
    requires forall x :: x in exts ==> x.slug != e.slug
    ensures (e.typ, e.slug) !in Entries(groups)
  {
    forall t, s | t in groups && s in groups[t] ensures s != e.slug {
      assert WellGroup(groups[t], t, exts);
      assert groups[t][s] in exts;
    }
  }

  /** Among unique slugs the last one occurs nowhere before it. */
  lemma LastSlugFresh(exts: seq<Extractor>)
    requires DistinctSlugs(exts) && |exts| > 0
    ensures DistinctSlugs(exts[..|exts| - 1])
    ensures forall x :: x in exts[..|exts| - 1] ==> x.slug != exts[|exts| - 1].slug
  {
    var n := |exts| - 1;
    forall x | x in exts[..n] ensures x.slug != exts[n].slug {
      var j :| 0 <= j < n && exts[..n][j] == x;
    }
  }

  /** With unique slugs the groups together hold exactly as many entries as there are extractors. */
  lemma {:induction false} GroupedCount(exts: seq<Extractor>)
    requires DistinctSlugs(exts)
    ensures |Entries(Grouped(exts))| == |exts|
    decreases |exts|
  {
    if |exts| > 0 {
      var n := |exts| - 1;
      var init := exts[..n];
      var e := exts[n];
      var prev := Grouped(init);
      assert Grouped(exts) == Insert(prev, e);
      LastSlugFresh(exts);
      GroupedCount(init);
      GroupedShape(init);
      NewSlugIsNewEntry(prev, init, e);
      EntriesInsert(prev, e);
    }
  }

  // ---------------------------------------------------------------------------
  // extra_data and write_bundle

  /** The key under which every object records the report it came from. */
  const ReportIdKey: string := "_stixify_report_id"

  /** `obj.update(extra)`: every key of `extra` with its value, every other key of `obj` unchanged. */
  function Tagged(obj: Object, extra: Object): (r: Object)
    ensures r.Keys == obj.Keys + extra.Keys
    ensures forall k :: k in extra ==> r[k] == extra[k]
    ensures forall k :: k in obj && k !in extra ==> r[k] == obj[k]
  {
    obj + extra
  }

  /** Tagging twice with the same data changes nothing more. */
  lemma TaggedIdempotent(obj: Object, extra: Object)
    ensures Tagged(Tagged(obj, extra), extra) == Tagged(obj, extra)
  {
    var once := Tagged(obj, extra);
    assert Tagged(once, extra).Keys == once.Keys;
  }

  /** The processor's extra data, which ends up on every object of its bundle. */
  class StixifyProcessor {
    var extraData: Object

    constructor()
      ensures extraData == map[]
    {
      extraData := map[];
    }

    /** `setup(report_prop, extra)`: the given extra data is merged in. */
    method Setup(extra: Object)
      modifies this
      ensures extraData == Tagged(old(extraData), extra)
    {
      extraData := extraData + extra;
    }

    /** The report id is recorded once the bundler has made the report. */
    method RecordReportId(reportId: string)
      modifies this
      ensures extraData == old(extraData)[ReportIdKey := JStr(reportId)]
    {
      extraData := extraData[ReportIdKey := JStr(reportId)];
    }

    /** `write_bundle`: every object of the bundle is updated in place with the extra data. */
    method WriteBundle(objects: array<Object>)
      modifies objects
      ensures forall i :: 0 <= i < objects.Length ==> objects[i] == Tagged(old(objects[i]), extraData)
    {
      for i := 0 to objects.Length
        invariant forall j :: 0 <= j < i ==> objects[j] == Tagged(old(objects[j]), extraData)
        invariant forall j :: i <= j < objects.Length ==> objects[j] == old(objects[j])
      {
        objects[i] := objects[i] + extraData;
      }
    }
  }

  /**
   * Once the report id is recorded, every object written carries it, and
   * every other key of the extra data with its value.
   */
  lemma ObjectsCarryReportId(obj: Object, extra: Object, reportId: string)
    ensures Tagged(obj, extra[ReportIdKey := JStr(reportId)])[ReportIdKey] == JStr(reportId)
    ensures forall k :: k in extra && k != ReportIdKey ==> Tagged(obj, extra[ReportIdKey := JStr(reportId)])[k] == extra[k]
  {
  }
}
