/**
 * `ArangoDBHelper.delete_report_object`: removing one object from a report.
 *
 * A lookup over the search view finds the object's record and the report's
 * record, both within the report's scope (`_stixify_report_id`), and every
 * record whose `_from`/`_to` is the object's `_id`. Those records are deleted
 * one by one (a failing delete is logged and skipped), their STIX ids are
 * removed from the report's `object_refs`, and the `_is_latest` flags of the
 * touched ids are recomputed by a foreign call whose arguments are modelled.
 *
 * The database is a map from `_id` to record; the search view is a snapshot
 * sequence (the view is eventually consistent with the collections, so the
 * two are independent inputs). The view snapshot is taken to be in the
 * order of the lookup's `SORT doc.object_refs`.
 */
module CascadeDelete {
  import opened Wrappers
  import opened Text
  import opened Docs
  import opened ViewLinks

  /** How the request ends: HTTP 204, the `aql: cannot process request` validation error, or a crash (HTTP 500). */
  datatype Outcome = NoContent | CannotProcess | ServerError

  /** The arguments of `update_is_latest_several_chunked`: the STIX ids, the vertex and the edge collection. */
  datatype Recompute = Recompute(ids: set<string>, collection: string, edgeCollection: string)

  /** What the lookup query returns: the report's `_id`, the object's `[_id, id]`, and the `[_id, id]` pairs to delete. */
  datatype Lookup = Lookup(reportKey: Option<string>, docId: Option<(string, string)>, closure: seq<(string, string)>)

  // ---------------------------------------------------------------------------
  // The lookup query

  /** A record in the report's scope whose `id` is `id`. */
  predicate InScope(d: Doc, reportId: string, id: string)
  {
    d.id == id && d.reportId == Some(reportId)
  }

  /** The first record of the view in the report's scope with the given `id`. */
  function FirstInScope(view: seq<Doc>, reportId: string, id: string): (r: Option<Doc>)
    ensures r.Some? ==> r.value in view && InScope(r.value, reportId, id)
    ensures r.None? ==> forall d :: d in view ==> !InScope(d, reportId, id)
    decreases |view|
  {
    if |view| == 0 then None
    else if InScope(view[0], reportId, id) then Some(view[0])
    else FirstInScope(view[1..], reportId, id)
  }

  /** A record with `_from` or `_to` equal to `key` (a null key matches nothing). */
  predicate Touches(d: Doc, key: string)
  {
    d.from == Some(key) || d.to == Some(key)
  }

  /** `FOR doc IN view SEARCH doc._from == key OR doc._to == key RETURN [doc._id, doc.id]`. */
  function TouchingPairs(view: seq<Doc>, key: string): (r: seq<(string, string)>)
    decreases |view|
  {
    if |view| == 0 then []
    else (if Touches(view[0], key) then [(view[0].key, view[0].id)] else []) + TouchingPairs(view[1..], key)
  }

  lemma {:induction false} TouchingPairsMembers(view: seq<Doc>, key: string)
    ensures forall p :: p in TouchingPairs(view, key) <==> exists d :: d in view && Touches(d, key) && p == (d.key, d.id)
    decreases |view|
  {
    if |view| > 0 {
      TouchingPairsMembers(view[1..], key);
      forall p ensures p in TouchingPairs(view, key) <==> exists d :: d in view && Touches(d, key) && p == (d.key, d.id) {
        if p in TouchingPairs(view, key) && !(Touches(view[0], key) && p == (view[0].key, view[0].id)) {
          assert p in TouchingPairs(view[1..], key);
          var d :| d in view[1..] && Touches(d, key) && p == (d.key, d.id);
          assert d in view;
        }
        if exists d :: d in view && Touches(d, key) && p == (d.key, d.id) {
          var d :| d in view && Touches(d, key) && p == (d.key, d.id);
          if d != view[0] {
            assert d in view[1..];
          }
        }
      }
    }
  }

  /** The lookup query of `delete_report_object`. */
  function LookupQuery(view: seq<Doc>, reportId: string, objectId: string): Lookup
  {
    var obj := FirstInScope(view, reportId, objectId);
    var report := FirstInScope(view, reportId, reportId);
    var docId := if obj.Some? then Some((obj.value.key, obj.value.id)) else None;
    var closure := if obj.Some? then [docId.value] + TouchingPairs(view, obj.value.key) else [];
    Lookup(if report.Some? then Some(report.value.key) else None, docId, closure)
  }

  /**
   * The closure is empty exactly when the object has no record in the
   * report's scope; otherwise it is that record followed by exactly the
   * records touching it, each as its `[_id, id]` pair.
   */
  lemma LookupClosure(view: seq<Doc>, reportId: string, objectId: string)
    ensures var l := LookupQuery(view, reportId, objectId);
      && (l.closure == [] <==> l.docId.None?)
      && (l.docId.None? <==> forall d :: d in view ==> !InScope(d, reportId, objectId))
      && (l.docId.Some? ==>
            && l.closure[0] == l.docId.value && l.docId.value.1 == objectId
            && exists o :: o in view && InScope(o, reportId, objectId) && l.docId.value.0 == o.key)
      && (l.docId.Some? ==> forall p :: p in l.closure[1..] <==> exists d :: d in view && Touches(d, l.docId.value.0) && p == (d.key, d.id))
      && (l.reportKey.Some? <==> exists d :: d in view && InScope(d, reportId, reportId))
  {
    var obj := FirstInScope(view, reportId, objectId);
    var report := FirstInScope(view, reportId, reportId);
    if obj.Some? {
      TouchingPairsMembers(view, obj.value.key);
      assert LookupQuery(view, reportId, objectId).closure[1..] == TouchingPairs(view, obj.value.key);
    }
    if report.None? {
      assert forall d :: d in view ==> !InScope(d, reportId, reportId);
    }
  }

  // ---------------------------------------------------------------------------
  // REMOVE_VALUES and the recompute arguments

  /** `REMOVE_VALUES(refs, ids)`: every occurrence of every id dropped, the rest kept in order. */
  function RemoveValues(refs: seq<string>, ids: seq<string>): (r: seq<string>)
    decreases |refs|
  {
    if |refs| == 0 then []
    else (if refs[0] in ids then [] else [refs[0]]) + RemoveValues(refs[1..], ids)
  }

  /** What survives `REMOVE_VALUES` is exactly the refs that are not removed. */
  lemma {:induction false} RemoveValuesMembers(refs: seq<string>, ids: seq<string>)
    ensures forall x :: x in RemoveValues(refs, ids) <==> x in refs && x !in ids
    decreases |refs|
  {
    if |refs| > 0 {
      RemoveValuesMembers(refs[1..], ids);
      assert forall x :: x in refs <==> x == refs[0] || x in refs[1..];
    }
  }

  /** Refs that mention none of the ids are left exactly as they are. */
  lemma {:induction false} RemoveValuesNone(refs: seq<string>, ids: seq<string>)
    requires forall x :: x in refs ==> x !in ids
    ensures RemoveValues(refs, ids) == refs
    decreases |refs|
  {
    if |refs| > 0 {
      RemoveValuesNone(refs[1..], ids);
      assert [refs[0]] + refs[1..] == refs;
    }
  }

  /** Removing the same values twice changes nothing more. */
  lemma RemoveValuesIdempotent(refs: seq<string>, ids: seq<string>)
    ensures RemoveValues(RemoveValues(refs, ids), ids) == RemoveValues(refs, ids)
  {
    RemoveValuesMembers(refs, ids);
    RemoveValuesNone(RemoveValues(refs, ids), ids);
  }

  /** The collection part of an `_id`: `key.split("/")[0]`. */
  function CollectionOf(key: string): string
  {
    Split(key, '/')[0]
  }

  /** The edge collection paired with a vertex or edge collection. */
  function EdgeCollectionFor(collection: string): (r: string)
    ensures EndsWith(r, EdgeSuffix)
  {
    var prefix := RemoveSuffix(RemoveSuffix(collection, VertexSuffix), EdgeSuffix);
    EndsWithAppend(prefix, EdgeSuffix);
    prefix + EdgeSuffix
  }

  /** A vertex collection is paired with the edge collection of the same prefix. */
  lemma EdgeCollectionOfVertex(prefix: string)
    requires !EndsWith(prefix, EdgeSuffix)
    ensures EdgeCollectionFor(prefix + VertexSuffix) == prefix + EdgeSuffix
  {
    EndsWithAppend(prefix, VertexSuffix);
  }

  /** An edge collection is paired with itself. */
  lemma EdgeCollectionOfEdge(prefix: string)
    requires !EndsWith(prefix, EdgeSuffix)
    ensures EdgeCollectionFor(prefix + EdgeSuffix) == prefix + EdgeSuffix
  {
    EndsWithAppend(prefix, EdgeSuffix);
    SuffixesExclusive(prefix + EdgeSuffix);
  }

  /** The STIX ids of a list of `[_id, id]` pairs, in order. */
  function StixIds(pairs: seq<(string, string)>): (r: seq<string>)
    ensures |r| == |pairs|
    ensures forall i :: 0 <= i < |pairs| ==> r[i] == pairs[i].1
  {
    seq(|pairs|, i requires 0 <= i < |pairs| => pairs[i].1)
  }

  /** The `_id`s of a list of `[_id, id]` pairs. */
  function KeySet(pairs: seq<(string, string)>): (r: set<string>)
    ensures forall k :: k in r <==> exists i :: 0 <= i < |pairs| && pairs[i].0 == k
  {
    set i | 0 <= i < |pairs| :: pairs[i].0
  }

  /** The store after every deletable key of `keys` is gone: keys in `failing` stay. */
  function WithoutDeleted(docs: map<string, Doc>, keys: set<string>, failing: set<string>): (r: map<string, Doc>)
    ensures forall k :: k in r <==> k in docs && (k !in keys || k in failing)
    ensures forall k :: k in r ==> r[k] == docs[k]
  {
    map k | k in docs && (k !in keys || k in failing) :: docs[k]
  }

  /** The report record with the closure's STIX ids removed from its `object_refs`. */
  function UpdatedReports(docs: map<string, Doc>, reportKey: string, stixIds: seq<string>): (r: map<string, Doc>)
    ensures r.Keys == docs.Keys
    ensures forall k :: k in docs && k != reportKey ==> r[k] == docs[k]
    ensures reportKey in docs ==> r[reportKey] == docs[reportKey].(objectRefs := RemoveValues(docs[reportKey].objectRefs, stixIds))
  {
    if reportKey in docs then docs[reportKey := docs[reportKey].(objectRefs := RemoveValues(docs[reportKey].objectRefs, stixIds))]
    else docs
  }

  /** `db.delete_document(key)` when it succeeds; a failing or missing key leaves the store as it is. */
  function Delete(docs: map<string, Doc>, key: string, failing: set<string>): map<string, Doc>
  {
    if key in docs && key !in failing then docs - {key} else docs
  }

  lemma KeySetStep(pairs: seq<(string, string)>, i: nat)
    requires i < |pairs|
    ensures KeySet(pairs[..i + 1]) == KeySet(pairs[..i]) + {pairs[i].0}
  {
    assert pairs[..i + 1] == pairs[..i] + [pairs[i]];
    forall k | k in KeySet(pairs[..i + 1]) ensures k in KeySet(pairs[..i]) + {pairs[i].0} {
      var j :| 0 <= j < i + 1 && pairs[..i + 1][j].0 == k;
      if j < i {
        assert pairs[..i][j] == pairs[..i + 1][j];
      }
    }
    forall k | k in KeySet(pairs[..i]) ensures k in KeySet(pairs[..i + 1]) {
      var j :| 0 <= j < i && pairs[..i][j].0 == k;
      assert pairs[..i + 1][j] == pairs[..i][j];
    }
  }

  /** Deleting one more key extends the set of deleted keys by it. */
  lemma WithoutDeletedStep(docs: map<string, Doc>, keys: set<string>, key: string, failing: set<string>)
    ensures Delete(WithoutDeleted(docs, keys, failing), key, failing) == WithoutDeleted(docs, keys + {key}, failing)
  {
  }

  /**
   * The database the cascade delete works on: records keyed by `_id`.
   */
  class ReportStore {
    var docs: map<string, Doc>

    constructor (docs: map<string, Doc>)
      ensures this.docs == docs
    {
      this.docs := docs;
    }

    /**
     * The delete loop: each pair's STIX id is collected and its record
     * deleted unless the delete fails (a key in `failing`, or a key that is
     * not there), in which case the failure is logged and the loop goes on.
     */
    method DeleteAll(closure: seq<(string, string)>, failing: set<string>) returns (stixIds: seq<string>)
      modifies this
      ensures stixIds == StixIds(closure)
      ensures docs == WithoutDeleted(old(docs), KeySet(closure), failing)
    {
      stixIds := [];
      var i := 0;
      while i < |closure|
        invariant 0 <= i <= |closure|
        invariant stixIds == StixIds(closure[..i])
        invariant docs == WithoutDeleted(old(docs), KeySet(closure[..i]), failing)
      {
        var (key, stixId) := closure[i];
        stixIds := stixIds + [stixId];
        ghost var before := docs;
        if key in docs && key !in failing {
          docs := docs - {key};
        }
        assert docs == Delete(before, key, failing);
        KeySetStep(closure, i);
        WithoutDeletedStep(old(docs), KeySet(closure[..i]), key, failing);
        assert StixIds(closure[..i + 1]) == StixIds(closure[..i]) + [stixId];
        i := i + 1;
      }
      assert closure[..i] == closure;
    }

    /**
     * `delete_report_object(report_id, object_id)`. `lookupOk` and `updateOk`
     * say whether the database accepts the lookup and the `object_refs`
     * update; `failing` holds the `_id`s whose individual delete fails.
     * `recompute` is the call made to recompute `_is_latest`, if any.
     */
    method DeleteReportObject(view: seq<Doc>, reportId: string, objectId: string, failing: set<string>,
                              lookupOk: bool, updateOk: bool)
      returns (outcome: Outcome, recompute: Option<Recompute>)
      modifies this
      ensures var l := LookupQuery(view, reportId, objectId);
        && (!lookupOk ==> outcome == CannotProcess && recompute.None? && docs == old(docs))
        && (lookupOk && l.closure == [] ==> outcome == NoContent && recompute.None? && docs == old(docs))
        && (lookupOk && l.closure != [] && l.reportKey.None? ==>
              outcome == ServerError && recompute.None? && docs == WithoutDeleted(old(docs), KeySet(l.closure), failing))
        && (lookupOk && l.closure != [] && l.reportKey.Some? && !updateOk ==>
              outcome == CannotProcess && recompute.None? && docs == WithoutDeleted(old(docs), KeySet(l.closure), failing))
        && (lookupOk && l.closure != [] && l.reportKey.Some? && updateOk ==>
              && outcome == NoContent
              && docs == UpdatedReports(WithoutDeleted(old(docs), KeySet(l.closure), failing), l.reportKey.value, StixIds(l.closure))
              && recompute == RecomputeFor(l, objectId))
    {
      if !lookupOk {
        return CannotProcess, None;
      }
      var l := LookupQuery(view, reportId, objectId);
      var stixIds := DeleteAll(l.closure, failing);
      if stixIds == [] {
        return NoContent, None;
      }
      if l.reportKey.None? {
        // `None.split("/")` while naming the report's collection
        return ServerError, None;
      }
      if !updateOk {
        return CannotProcess, None;
      }
      docs := UpdatedReports(docs, l.reportKey.value, stixIds);
      recompute := None;
      if l.docId.Some? {
        var collection := CollectionOf(l.docId.value.0);
        recompute := Some(Recompute({objectId} + (set s | s in stixIds), collection, EdgeCollectionFor(collection)));
      }
      outcome := NoContent;
    }
  }

  /** The recompute call of a non-empty lookup: the object and every deleted id, in the object's collection and its edge collection. */
  function RecomputeFor(l: Lookup, objectId: string): Option<Recompute>
  {
    if l.docId.Some? then
      var collection := CollectionOf(l.docId.value.0);
      Some(Recompute({objectId} + (set s | s in StixIds(l.closure)), collection, EdgeCollectionFor(collection)))
    else None
  }

  /**
   * After a completed delete, the report keeps every ref that is not the STIX
   * id of a closure member, in order, and loses every occurrence of the
   * others; every record outside the closure and the report is untouched.
   */
  lemma DeleteLeavesReport(docs: map<string, Doc>, l: Lookup, failing: set<string>, ref: string)
    requires l.reportKey.Some?
    requires l.reportKey.value in docs && (l.reportKey.value !in KeySet(l.closure) || l.reportKey.value in failing)
    ensures var after := UpdatedReports(WithoutDeleted(docs, KeySet(l.closure), failing), l.reportKey.value, StixIds(l.closure));
      && l.reportKey.value in after
      && (ref in after[l.reportKey.value].objectRefs <==> ref in docs[l.reportKey.value].objectRefs && ref !in StixIds(l.closure))
  {
    RemoveValuesMembers(docs[l.reportKey.value].objectRefs, StixIds(l.closure));
  }

  /** A non-empty closure starts with the object's own record, so a recompute call is always made after a completed delete. */
  lemma RecomputeAfterDelete(view: seq<Doc>, reportId: string, objectId: string)
    requires LookupQuery(view, reportId, objectId).closure != []
    ensures var r := RecomputeFor(LookupQuery(view, reportId, objectId), objectId);
      && r.Some? && objectId in r.value.ids
      && EndsWith(r.value.edgeCollection, EdgeSuffix)
      && (forall p :: p in LookupQuery(view, reportId, objectId).closure ==> p.1 in r.value.ids)
  {
    var l := LookupQuery(view, reportId, objectId);
    forall p | p in l.closure ensures p.1 in StixIds(l.closure) {
      var i :| 0 <= i < |l.closure| && l.closure[i] == p;
    }
  }
}
