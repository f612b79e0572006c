/**
 * STIX documents as the search view returns them, the "latest version wins"
 * order on physical versions of one logical object, and the collapse that
 * keeps one version per logical `id` (`COLLECT id = doc.id INTO docs` followed
 * by `FIRST(... SORT d.modified OR d.created DESC, d._record_modified DESC)`).
 */
module Docs {
  import opened Wrappers
  import opened Text

  /**
   * One physical STIX record. `key` is the database `_id`
   * (`<collection>/<key>`); `id` is the logical STIX id shared by all versions.
   * Type-specific string attributes (`name`, `value`, `number`,
   * `relationship_type`, `_obstracts_post_id`, ...) live in `attrs`.
   */
  datatype Doc = Doc(
    key: string,
    id: string,
    typ: string,
    created: Option<string>,
    modified: Option<string>,
    recordModified: Option<string>,
    isLatest: bool,
    isRef: bool,
    from: Option<string>,
    to: Option<string>,
    sourceRef: Option<string>,
    targetRef: Option<string>,
    sourceType: Option<string>,
    targetType: Option<string>,
    createdByRef: Option<string>,
    objectMarkingRefs: seq<string>,
    labels: seq<string>,
    reportId: Option<string>,
    objectRefs: seq<string>,
    attrs: map<string, string>)

  /** `doc.<name>` as a string; an absent attribute reads as "" (what `LOWER(null)` gives). */
  function Attr(d: Doc, name: string): string
  {
    if name in d.attrs then d.attrs[name] else ""
  }

  /** `optional IN list`: false for an absent value. */
  predicate InList(v: Option<string>, list: seq<string>)
  {
    v.Some? && v.value in list
  }

  /** `optional IN set`: false for an absent value. */
  predicate InSet(v: Option<string>, s: set<string>)
  {
    v.Some? && v.value in s
  }

  // ---------------------------------------------------------------------------
  // Visibility

  /** The two marking definitions that make an object visible to everyone. */
  const VisibleToAllMarkings: seq<string> := [
    "marking-definition--bab4a63c-aed9-4cf5-a766-dfca5abac2bb",
    "marking-definition--94868c89-83c2-464b-929b-a1a8aa3c8487"
  ]

  /** Carries one of the visible-to-all markings. */
  predicate MarkedVisibleToAll(d: Doc)
  {
    exists m :: m in VisibleToAllMarkings && m in d.objectMarkingRefs
  }

  /**
   * The `visible_to` predicate as a `FILTER` reads it: created by nobody or by
   * `identity`, or carrying one of the visible-to-all markings (a missing
   * `created_by_ref` reads as null there).
   */
  predicate Visible(d: Doc, identity: string)
  {
    || d.createdByRef.None?
    || d.createdByRef == Some(identity)
    || MarkedVisibleToAll(d)
  }

  /**
   * The same test inside `SEARCH`: the view indexes no missing attribute, so
   * the `NULL` of `created_by_ref IN [@visible_to, NULL]` admits no object
   * without a creator; only `identity` itself or a visible-to-all marking does.
   */
  predicate SearchVisible(d: Doc, identity: string)
  {
    d.createdByRef == Some(identity) || MarkedVisibleToAll(d)
  }

  // ---------------------------------------------------------------------------
  // The version order

  /** `d.modified OR d.created`: `modified` unless it is absent or empty. */
  function Stamp(d: Doc): Option<string>
  {
    if d.modified.Some? && d.modified.value != "" then d.modified else d.created
  }

  /** The database order on optional strings: null first, then strings by character code. */
  predicate OptLe(a: Option<string>, b: Option<string>)
  {
    a.None? || (b.Some? && StrLe(a.value, b.value))
  }

  /** `a` sorts no later than `b` under `SORT stamp DESC, _record_modified DESC` read backwards. */
  predicate VersionLe(a: Doc, b: Doc)
  {
    || (OptLe(Stamp(a), Stamp(b)) && Stamp(a) != Stamp(b))
    || (Stamp(a) == Stamp(b) && OptLe(a.recordModified, b.recordModified))
  }

  lemma OptLeTotal(a: Option<string>, b: Option<string>)
    ensures OptLe(a, b) || OptLe(b, a)
  {
    if a.Some? && b.Some? { StrLeTotal(a.value, b.value); }
  }

  lemma OptLeTransitive(a: Option<string>, b: Option<string>, c: Option<string>)
    requires OptLe(a, b) && OptLe(b, c)
    ensures OptLe(a, c)
  {
    if a.Some? { StrLeTransitive(a.value, b.value, c.value); }
  }

  lemma OptLeAntisymmetric(a: Option<string>, b: Option<string>)
    requires OptLe(a, b) && OptLe(b, a)
    ensures a == b
  {
    if a.Some? { StrLeAntisymmetric(a.value, b.value); }
  }

  lemma {:induction false} VersionLeTotal(a: Doc, b: Doc)
    ensures VersionLe(a, b) || VersionLe(b, a)
  {
    OptLeTotal(Stamp(a), Stamp(b));
    OptLeTotal(a.recordModified, b.recordModified);
  }

  lemma {:induction false} VersionLeTransitive(a: Doc, b: Doc, c: Doc)
    requires VersionLe(a, b) && VersionLe(b, c)
    ensures VersionLe(a, c)
  {
    if Stamp(a) != Stamp(b) && Stamp(b) != Stamp(c) {
      OptLeTransitive(Stamp(a), Stamp(b), Stamp(c));
      if Stamp(a) == Stamp(c) {
        OptLeAntisymmetric(Stamp(a), Stamp(b));
      }
    } else if Stamp(a) == Stamp(b) && Stamp(b) == Stamp(c) {
      OptLeTransitive(a.recordModified, b.recordModified, c.recordModified);
    }
  }

  /**
   * The version a group collapses to: one that every version of the group
   * ranks no higher than (the database sort is not stable, so which of two
   * equally ranked versions wins is the engine's choice; this takes the
   * first).
   */
  function Latest(group: seq<Doc>): (r: Doc)
    requires |group| > 0
    ensures r in group
    ensures forall x :: x in group ==> VersionLe(x, r)
    decreases |group|
  {
    VersionLeTotal(group[0], group[0]);
    if |group| == 1 then group[0]
    else
      var tail := group[1..];
      var rest := Latest(tail);
      VersionLeTotal(rest, group[0]);
      assert forall x :: x in group ==> x == group[0] || x in tail;
      if VersionLe(rest, group[0]) then
        assert forall x :: x in group ==> VersionLe(x, group[0]) by {
          forall x | x in tail ensures VersionLe(x, group[0]) {
            VersionLeTransitive(x, rest, group[0]);
          }
        }
        group[0]
      else
        assert rest in group;
        rest
  }

  // ---------------------------------------------------------------------------
  // Grouping by logical id

  /** The versions with logical id `id`, in view order. */
  function WithId(docs: seq<Doc>, id: string): (r: seq<Doc>)
    ensures forall x :: x in r <==> x in docs && x.id == id
    ensures |r| <= |docs|
    decreases |docs|
  {
    if |docs| == 0 then []
    else (if docs[0].id == id then [docs[0]] else []) + WithId(docs[1..], id)
  }

  /** The versions of every other logical id, in view order. */
  function WithoutId(docs: seq<Doc>, id: string): (r: seq<Doc>)
    ensures forall x :: x in r <==> x in docs && x.id != id
    ensures |r| <= |docs|
    ensures (exists x :: x in docs && x.id == id) ==> |r| < |docs|
    decreases |docs|
  {
    if |docs| == 0 then []
    else
      var rest := WithoutId(docs[1..], id);
      assert forall x :: x in docs ==> x == docs[0] || x in docs[1..];
      (if docs[0].id != id then [docs[0]] else []) + rest
  }

  /** The logical ids present in `docs`. */
  function Ids(docs: seq<Doc>): set<string>
  {
    set d | d in docs :: d.id
  }

  /** No two entries share a logical id. */
  predicate DistinctIds(docs: seq<Doc>)
  {
    forall i, j :: 0 <= i < j < |docs| ==> docs[i].id != docs[j].id
  }

  /**
   * `COLLECT id = doc.id INTO docs LET doc = FIRST(...)`: one entry per
   * logical id, the best-ranked version of that id, groups in order of
   * first appearance.
   */
  function Collapse(docs: seq<Doc>): (r: seq<Doc>)
    ensures forall x :: x in r ==> x in docs
    ensures DistinctIds(r)
    ensures Ids(r) == Ids(docs)
    ensures forall x, d :: x in r && d in docs && d.id == x.id ==> VersionLe(d, x)
    decreases |docs|
  {
    if |docs| == 0 then []
    else
      var id := docs[0].id;
      var others := WithoutId(docs, id);
      var best := Latest(WithId(docs, id));
      var rest := Collapse(others);
      IdsSplit(docs, id);
      CollapseStep(docs, id, best, rest);
      [best] + rest
  }

  /** The ids of `docs` are `id` and the ids of the other versions. */
  lemma IdsSplit(docs: seq<Doc>, id: string)
    requires id in Ids(docs)
    ensures Ids(docs) == {id} + Ids(WithoutId(docs, id))
  {
    forall i | i in Ids(docs) ensures i == id || i in Ids(WithoutId(docs, id)) {
      var d :| d in docs && d.id == i;
      if i != id { assert d in WithoutId(docs, id); }
    }
  }

  /** One step of `Collapse`: the best version of the first id in front of the collapsed rest. */
  lemma CollapseStep(docs: seq<Doc>, id: string, best: Doc, rest: seq<Doc>)
    requires best in docs && best.id == id
    requires forall d :: d in docs && d.id == id ==> VersionLe(d, best)
    requires Ids(docs) == {id} + Ids(WithoutId(docs, id))
    requires forall x :: x in rest ==> x in WithoutId(docs, id)
    requires DistinctIds(rest) && Ids(rest) == Ids(WithoutId(docs, id))
    requires forall x, d :: x in rest && d in WithoutId(docs, id) && d.id == x.id ==> VersionLe(d, x)
    ensures var r := [best] + rest;
      && (forall x :: x in r ==> x in docs)
      && DistinctIds(r)
      && Ids(r) == Ids(docs)
      && (forall x, d :: x in r && d in docs && d.id == x.id ==> VersionLe(d, x))
  {
    var r := [best] + rest;
    assert forall x :: x in r ==> x == best || x in rest;
    CollapseStepDistinct(docs, id, best, rest);
    IdsCons(best, rest);
    forall x, d | x in r && d in docs && d.id == x.id ensures VersionLe(d, x) {
      if x != best {
        assert x in WithoutId(docs, id);
        assert d in WithoutId(docs, id);
      }
    }
  }

  /** Putting a version of an id the rest does not have in front keeps the ids distinct. */
  lemma CollapseStepDistinct(docs: seq<Doc>, id: string, best: Doc, rest: seq<Doc>)
    requires best.id == id
    requires forall x :: x in rest ==> x in WithoutId(docs, id)
    requires DistinctIds(rest)
    ensures DistinctIds([best] + rest)
  {
    var r := [best] + rest;
    forall i, j | 0 <= i < j < |r| ensures r[i].id != r[j].id {
      if i == 0 {
        assert r[j] in rest;
      } else {
        assert r[i] == rest[i - 1] && r[j] == rest[j - 1];
      }
    }
  }

  lemma IdsCons(d: Doc, rest: seq<Doc>)
    ensures Ids([d] + rest) == {d.id} + Ids(rest)
  {
    var r := [d] + rest;
    assert forall x :: x in r <==> x == d || x in rest;
  }

  /** A sequence with distinct ids has exactly as many entries as ids. */
  lemma {:induction false} DistinctIdsCount(docs: seq<Doc>)
    requires DistinctIds(docs)
    ensures |Ids(docs)| == |docs|
    decreases |docs|
  {
    if |docs| > 0 {
      var rest := docs[1..];
      assert DistinctIds(rest) by {
        forall i, j | 0 <= i < j < |rest| ensures rest[i].id != rest[j].id {
          assert rest[i] == docs[i + 1] && rest[j] == docs[j + 1];
        }
      }
      DistinctIdsCount(rest);
      IdsCons(docs[0], rest);
      assert [docs[0]] + rest == docs;
      HeadIdFresh(docs);
    }
  }

  /** With distinct ids, the first entry's id is not among the others'. */
  lemma HeadIdFresh(docs: seq<Doc>)
    requires |docs| > 0 && DistinctIds(docs)
    ensures docs[0].id !in Ids(docs[1..])
  {
    var rest := docs[1..];
    forall d | d in rest ensures d.id != docs[0].id {
      var j :| 0 <= j < |rest| && rest[j] == d;
      assert docs[j + 1] == d;
    }
  }

  /** The collapsed result has exactly one entry per logical id of its input. */
  lemma CollapseCount(docs: seq<Doc>)
    ensures |Collapse(docs)| == |Ids(docs)|
  {
    DistinctIdsCount(Collapse(docs));
  }

  /** Every logical id of the input is represented in the collapsed result. */
  lemma CollapseCovers(docs: seq<Doc>, d: Doc)
    requires d in docs
    ensures exists x :: x in Collapse(docs) && x.id == d.id
  {
    assert d.id in Ids(docs);
  }
}
