/**
 * The searches of the query helper over the database-wide search view:
 * `execute_query` (paging and failure), the four partition searches
 * (`get_scos`, `get_smos`, `get_sdos`, `get_sros`) with their "latest version
 * wins" collapse, `get_objects_by_id`, `get_containing_reports` and
 * `get_object_bundle`.
 *
 * The view is a snapshot `seq<Doc>` in the engine's iteration order. The AQL
 * text each search assembles is modelled as the list of conditions it ANDs
 * together (`seq<Filter>`), built step by step as the source appends, inserts
 * and overwrites entries; each builder is proved equivalent to a declarative
 * selection predicate, which is what the properties are stated over.
 */
module Search {
  import opened Wrappers
  import opened Text
  import opened Taxonomy
  import opened QueryParams
  import opened Paging
  import opened Like
  import opened Docs

  /** The errors a search raises: a bad page, a failed query, a missing object. */
  datatype QueryError = BadPage(page: int) | CannotProcess | NoObject

  // ---------------------------------------------------------------------------
  // execute_query

  /** `LIMIT offset, count` over the rows the query produces. */
  function Window<T>(rows: seq<T>, offset: nat, count: nat): (r: seq<T>)
    ensures |r| <= count
    ensures forall i :: 0 <= i < |r| ==> offset + i < |rows| && r[i] == rows[offset + i]
    ensures offset + count <= |rows| ==> |r| == count
    ensures offset < |rows| ==> |r| > 0 || count == 0
  {
    var lo := if offset < |rows| then offset else |rows|;
    var hi := if offset + count < |rows| then offset + count else |rows|;
    rows[lo..hi]
  }

  /**
   * `execute_query(query, paginate=True)` given the rows the query yields
   * before its `LIMIT` and the helper's page number and page size: the page
   * check first, then the database call (which fails when `available` is
   * false), then the envelope with the slice and the full count.
   */
  function ExecuteQuery<T>(rows: seq<T>, page: int, count: int, resultKey: string, available: bool): (r: Result<PageResponse<T>, QueryError>)
    requires page >= 1 && count >= 1
    ensures r.Err? <==> page >= PageLimit || !available
    ensures r.Err? ==> r.error == if page >= PageLimit then BadPage(page) else CannotProcess
    ensures r.Ok? ==> r.value.totalResultsCount == |rows|
    ensures r.Ok? ==> r.value.pageNumber == page && r.value.pageSize == count
    ensures r.Ok? ==> r.value.resultKey == resultKey && r.value.pageResultsCount == |r.value.results|
    ensures r.Ok? ==> r.value.results == Window(rows, PageOffset(page, count), count)
  {
    match GetOffsetAndCount(count, page)
    case Err(InvalidPage(p)) => Err(BadPage(p))
    case Ok((offset, cnt)) =>
      if !available then Err(CannotProcess)
      else Ok(PaginatedResponse(Window(rows, offset, cnt), page, cnt, |rows|, resultKey))
  }

  /** The multiple of `c` below `i` is at most `c - 1` away. */
  lemma QuotientBounds(i: nat, c: int)
    requires c >= 1
    ensures (i / c) * c <= i < (i / c) * c + c
  {
    assert i == (i / c) * c + i % c;
  }

  /** Row `i` is on page `i / count + 1`: the pages tile the rows. */
  lemma ExecuteQueryPage<T>(rows: seq<T>, page: int, count: int, resultKey: string, i: nat)
    requires 1 <= page < PageLimit && count >= 1
    requires i < |rows|
    requires i / count + 1 == page
    ensures ExecuteQuery(rows, page, count, resultKey, true).Ok?
    ensures rows[i] in ExecuteQuery(rows, page, count, resultKey, true).value.results
  {
    var offset := PageOffset(page, count);
    var w := Window(rows, offset, count);
    TimesIsProduct(page - 1, count);
    QuotientBounds(i, count);
    assert offset == (i / count) * count;
    assert offset <= i < offset + count;
    var hi := if offset + count < |rows| then offset + count else |rows|;
    assert w == rows[offset..hi];
    assert w[i - offset] == rows[i];
  }

  /** Everything on a page is one of the rows. */
  lemma WindowInRows<T>(rows: seq<T>, offset: nat, count: nat)
    ensures forall x :: x in Window(rows, offset, count) ==> x in rows
  {
    var w := Window(rows, offset, count);
    forall x | x in w ensures x in rows {
      var i :| 0 <= i < |w| && w[i] == x;
      assert rows[offset + i] == x;
    }
  }

  // ---------------------------------------------------------------------------
  // Search conditions

  /** One condition of a `SEARCH`/`FILTER` clause. */
  datatype Filter =
    | TypeIn(types: set<string>)                  // doc.type IN @types
    | TypeInList(typeList: seq<string>)           // FILTER doc.type IN @types (bundle)
    | IsRelationship                              // doc.type == 'relationship'
    | Latest                                      // doc._is_latest == TRUE
    | LatestOrScoEndpoint                         // (_is_latest OR _target_type/_source_type IN @sco_types)
    | ValueContains(value: string)                // the per-type observable value search
    | Matches(matcher: map<string, string>)       // MATCHES(doc, @matcher)
    | LabelsContain(labelTerm: string)            // doc.labels[? ANY FILTER CONTAINS(CURRENT, @labels)]
    | NameLike(namePattern: string)               // doc.name LIKE @name
    | VisibleTo(identity: string)                 // the visible_to FILTER (bundle)
    | SearchVisibleTo(identity: string)           // the visible_to SEARCH condition (SDOs, SROs)
    | SourceTypeIn(sourceTypes: seq<string>)      // doc._source_type IN @source_ref_type
    | TargetTypeIn(targetTypes: seq<string>)      // doc._target_type IN @target_ref_type
    | RelationshipTypeLike(relPattern: string)    // doc.relationship_type LIKE @relationship_type
    | NotRef                                      // doc._is_ref != TRUE
    | TargetRefIs(targetId: string)               // doc.target_ref == @target_ref
    | SourceRefIs(sourceId: string)               // doc.source_ref == @source_ref
    | Touches(seed: string)                       // (doc.source_ref == @id OR doc.target_ref == @id)
    | EndpointTypeIn(endpointTypes: seq<string>)  // (doc._target_type IN @types OR doc._source_type IN @types)
    | InBundle(keys: set<string>, seedId: string) // (doc._id IN bundle_ids OR (doc.id == @id AND doc._is_latest))

  /**
   * The observable property the `value` search reads, per observable type, in
   * the order of the arms
   * (the 24 `doc.type == ... AND CONTAINS(LOWER(doc.<field>), @search_value)` arms).
   */
  const ScoValueFields: seq<(string, string)> := [
    ("artifact", "payload_bin"),
    ("autonomous-system", "number"),
    ("bank-account", "iban_number"),
    ("bank-card", "number"),
    ("cryptocurrency-transaction", "hash"),
    ("cryptocurrency-wallet", "hash"),
    ("directory", "path"),
    ("domain-name", "value"),
    ("email-addr", "value"),
    ("email-message", "body"),
    ("file", "name"),
    ("ipv4-addr", "value"),
    ("ipv6-addr", "value"),
    ("mac-addr", "value"),
    ("mutex", "value"),
    ("network-traffic", "protocols"),
    ("phone-number", "number"),
    ("process", "pid"),
    ("software", "name"),
    ("url", "value"),
    ("user-account", "display_name"),
    ("user-agent", "string"),
    ("windows-registry-key", "key"),
    ("x509-certificate", "subject")
  ]

  /** The property listed for type `t` in `table`, if any. */
  function FieldFor(t: string, table: seq<(string, string)>): (r: Option<string>)
    decreases |table|
  {
    if |table| == 0 then None
    else if table[0].0 == t then Some(table[0].1)
    else FieldFor(t, table[1..])
  }

  /** `CONTAINS(LOWER(doc.<name>), v)`. */
  predicate FieldContains(d: Doc, name: string, v: string)
  {
    Contains(Lower(Attr(d, name)), v)
  }

  /** The observable value search: the type's own property, or the generic `value`, `name` or `number`. */
  predicate ScoValueMatch(d: Doc, v: string)
  {
    || (FieldFor(d.typ, ScoValueFields).Some? && FieldContains(d, FieldFor(d.typ, ScoValueFields).value, v))
    || FieldContains(d, "value", v)
    || FieldContains(d, "name", v)
    || FieldContains(d, "number", v)
  }

  /** `MATCHES(doc, matcher)`: every listed attribute is present with exactly that value. */
  predicate MatchesAll(d: Doc, matcher: map<string, string>)
  {
    forall k :: k in matcher ==> k in d.attrs && d.attrs[k] == matcher[k]
  }

  predicate Holds(f: Filter, d: Doc)
  {
    match f
    case TypeIn(types) => d.typ in types
    case TypeInList(types) => d.typ in types
    case IsRelationship => d.typ == RelationshipType
    case Latest => d.isLatest
    case LatestOrScoEndpoint => d.isLatest || InSet(d.targetType, ScoTypes) || InSet(d.sourceType, ScoTypes)
    case ValueContains(v) => ScoValueMatch(d, v)
    case Matches(m) => MatchesAll(d, m)
    case LabelsContain(l) => exists x :: x in d.labels && Contains(x, l)
    case NameLike(p) => LikeMatch(Attr(d, "name"), p)
    case VisibleTo(identity) => Visible(d, identity)
    case SearchVisibleTo(identity) => SearchVisible(d, identity)
    case SourceTypeIn(types) => InList(d.sourceType, types)
    case TargetTypeIn(types) => InList(d.targetType, types)
    case RelationshipTypeLike(p) => LikeMatch(Attr(d, "relationship_type"), p)
    case NotRef => !d.isRef
    case TargetRefIs(t) => d.targetRef == Some(t)
    case SourceRefIs(s) => d.sourceRef == Some(s)
    case Touches(seed) => d.sourceRef == Some(seed) || d.targetRef == Some(seed)
    case EndpointTypeIn(types) => InList(d.targetType, types) || InList(d.sourceType, types)
    case InBundle(keys, seed) => d.key in keys || (d.id == seed && d.isLatest)
  }

  /** The conditions joined with `AND`. */
  predicate AllHold(fs: seq<Filter>, d: Doc)
    decreases |fs|
  {
    |fs| == 0 || (Holds(fs[0], d) && AllHold(fs[1..], d))
  }

  /** `AllHold` is `AND` over every listed condition. */
  lemma {:induction false} AllHoldEvery(fs: seq<Filter>, d: Doc)
    ensures AllHold(fs, d) <==> forall f :: f in fs ==> Holds(f, d)
    decreases |fs|
  {
    if |fs| > 0 {
      AllHoldEvery(fs[1..], d);
      assert forall f :: f in fs <==> f == fs[0] || f in fs[1..];
    }
  }

  lemma {:induction false} AllHoldAppendAt(a: seq<Filter>, b: seq<Filter>, d: Doc)
    ensures AllHold(a + b, d) <==> AllHold(a, d) && AllHold(b, d)
    decreases |a|
  {
    if |a| == 0 {
      assert a + b == b;
    } else {
      AllHoldAppendAt(a[1..], b, d);
      assert (a + b)[0] == a[0] && (a + b)[1..] == a[1..] + b;
    }
  }

  lemma AllHoldSingle(f: Filter, d: Doc)
    ensures AllHold([f], d) <==> Holds(f, d)
  {
    assert [f][1..] == [];
  }

  lemma AllHoldAppend(a: seq<Filter>, b: seq<Filter>)
    ensures forall d :: AllHold(a + b, d) <==> AllHold(a, d) && AllHold(b, d)
  {
    forall d ensures AllHold(a + b, d) <==> AllHold(a, d) && AllHold(b, d) {
      AllHoldAppendAt(a, b, d);
    }
  }

  lemma AllHoldSnoc(fs: seq<Filter>, f: Filter)
    ensures forall d :: AllHold(fs + [f], d) <==> AllHold(fs, d) && Holds(f, d)
  {
    forall d ensures AllHold(fs + [f], d) <==> AllHold(fs, d) && Holds(f, d) {
      AllHoldAppendAt(fs, [f], d);
      AllHoldSingle(f, d);
    }
  }

  lemma AllHoldCons(f: Filter, fs: seq<Filter>)
    ensures forall d :: AllHold([f] + fs, d) <==> Holds(f, d) && AllHold(fs, d)
  {
    forall d ensures AllHold([f] + fs, d) <==> Holds(f, d) && AllHold(fs, d) {
      AllHoldAppendAt([f], fs, d);
      AllHoldSingle(f, d);
    }
  }

  lemma AllHoldPair(f: Filter, g: Filter)
    ensures forall d :: AllHold([f, g], d) <==> Holds(f, d) && Holds(g, d)
  {
    assert [f, g] == [f] + [g];
    AllHoldCons(f, [g]);
    forall d ensures AllHold([g], d) <==> Holds(g, d) {
      AllHoldSingle(g, d);
    }
  }

  /** A condition that is added only when `c` holds. */
  function Opt(c: bool, f: Filter): seq<Filter>
  {
    if c then [f] else []
  }

  /** The documents of the view that satisfy every condition, in view order. */
  function Select(view: seq<Doc>, fs: seq<Filter>): (r: seq<Doc>)
    ensures forall x :: x in r <==> x in view && AllHold(fs, x)
    decreases |view|
  {
    if |view| == 0 then []
    else (if AllHold(fs, view[0]) then [view[0]] else []) + Select(view[1..], fs)
  }

  // ---------------------------------------------------------------------------
  // What each partition search selects

  /** The four partition searches; the observable one takes a `MATCHES` map, the relationship one the `SRO_OBJECTS_ONLY_LATEST` setting. */
  datatype Partition = Sco(matcher: map<string, string>) | Smo | Sdo | Sro(onlyLatest: bool)

  /** A query parameter condition: an unset parameter imposes nothing. */
  predicate IfSet(param: string, holds: bool)
  {
    param != "" ==> holds
  }

  predicate ScoSelected(query: Query, matcher: map<string, string>, d: Doc)
  {
    && d.typ in RequestedTypes(ScoTypes, QueryAsArray(query, "types"))
    && d.isLatest
    && IfSet(Param(query, "value"), ScoValueMatch(d, Lower(Param(query, "value"))))
    && MatchesAll(d, matcher)
  }

  predicate SmoSelected(query: Query, d: Doc)
  {
    d.typ in RequestedTypes(SmoTypes, QueryAsArray(query, "types")) && d.isLatest
  }

  predicate SdoSelected(query: Query, d: Doc)
  {
    && d.typ in RequestedTypes(SdoTypes, QueryAsArray(query, "types"))
    && d.isLatest
    && IfSet(Param(query, "name"), LikeMatch(Attr(d, "name"), LikeString(Param(query, "name"))))
    && IfSet(Param(query, "visible_to"), SearchVisible(d, Param(query, "visible_to")))
    && IfSet(Param(query, "labels"), exists x :: x in d.labels && Contains(x, Param(query, "labels")))
  }

  /** The optional relationship conditions; an empty list, "" or `true` switches each one off. */
  predicate SroConditions(sourceTypes: seq<string>, targetTypes: seq<string>, relType: string, withRefs: bool,
                          targetRef: string, sourceRef: string, d: Doc)
  {
    && (sourceTypes != [] ==> InList(d.sourceType, sourceTypes))
    && (targetTypes != [] ==> InList(d.targetType, targetTypes))
    && IfSet(relType, LikeMatch(Attr(d, "relationship_type"), LikeString(relType)))
    && (!withRefs ==> !d.isRef)
    && IfSet(targetRef, d.targetRef == Some(targetRef))
    && IfSet(sourceRef, d.sourceRef == Some(sourceRef))
  }

  predicate SroSelected(query: Query, onlyLatest: bool, d: Doc)
  {
    && d.typ == RelationshipType
    && (d.isLatest || (!onlyLatest && (InSet(d.targetType, ScoTypes) || InSet(d.sourceType, ScoTypes))))
    && SroConditions(QueryAsArray(query, "source_ref_type"), QueryAsArray(query, "target_ref_type"),
                     Param(query, "relationship_type"), QueryAsBool(query, "include_embedded_refs", true),
                     Param(query, "target_ref"), Param(query, "source_ref"), d)
    && IfSet(Param(query, "visible_to"), SearchVisible(d, Param(query, "visible_to")))
  }

  predicate Selected(p: Partition, query: Query, d: Doc)
  {
    match p
    case Sco(matcher) => ScoSelected(query, matcher, d)
    case Smo => SmoSelected(query, d)
    case Sdo => SdoSelected(query, d)
    case Sro(onlyLatest) => SroSelected(query, onlyLatest, d)
  }

  /** The versions a partition search matches before collapsing, in view order. */
  function Matching(view: seq<Doc>, p: Partition, query: Query): (r: seq<Doc>)
    ensures forall x :: x in r <==> x in view && Selected(p, query, x)
    decreases |view|
  {
    if |view| == 0 then []
    else (if Selected(p, query, view[0]) then [view[0]] else []) + Matching(view[1..], p, query)
  }

  /** Filtering by conditions equivalent to a partition's predicate gives that partition's matches. */
  lemma {:induction false} SelectIsMatching(view: seq<Doc>, fs: seq<Filter>, p: Partition, query: Query)
    requires forall d :: AllHold(fs, d) <==> Selected(p, query, d)
    ensures Select(view, fs) == Matching(view, p, query)
    decreases |view|
  {
    if |view| > 0 {
      SelectIsMatching(view[1..], fs, p, query);
    }
  }

  /** A partition search: collapse the matches, then page them. */
  function PartitionSearch(view: seq<Doc>, p: Partition, query: Query, page: PageNumber, count: PageSize, resultKey: string, available: bool): Result<PageResponse<Doc>, QueryError>
  {
    ExecuteQuery(Collapse(Matching(view, p, query)), page, count, resultKey, available)
  }

  /**
   * Paging a collapsed result: one entry per logical id, each the latest
   * version of that id and itself a match; at most `count` entries; a total
   * that counts the distinct ids; and, when they all fit on page 1, every
   * id on it.
   */
  lemma PagedCollapse(m: seq<Doc>, page: int, count: int, resultKey: string, available: bool)
    requires page >= 1 && count >= 1
    ensures var r := ExecuteQuery(Collapse(m), page, count, resultKey, available);
      r.Ok? ==>
        && (forall x :: x in r.value.results ==> x in m)
        && DistinctIds(r.value.results)
        && (forall x, d :: x in r.value.results && d in m && d.id == x.id ==> VersionLe(d, x))
        && |r.value.results| <= count
        && r.value.totalResultsCount == |Ids(m)|
        && (page == 1 && |Ids(m)| <= count ==> Ids(r.value.results) == Ids(m))
  {
    CollapseCount(m);
    CollapsedWindow(m, PageOffset(page, count), count);
  }

  /** A page of the collapsed matches: latest versions of distinct ids, all of them when they fit on the first page. */
  lemma CollapsedWindow(m: seq<Doc>, offset: nat, count: nat)
    ensures var w := Window(Collapse(m), offset, count);
      && (forall x :: x in w ==> x in m)
      && DistinctIds(w)
      && (forall x, d :: x in w && d in m && d.id == x.id ==> VersionLe(d, x))
      && (offset == 0 && |Ids(m)| <= count ==> Ids(w) == Ids(m))
  {
    var rows := Collapse(m);
    WindowInRows(rows, offset, count);
    WindowDistinct(rows, offset, count);
    if offset == 0 && |Ids(m)| <= count {
      CollapseCount(m);
      assert Window(rows, offset, count) == rows;
    }
  }

  /** A page of rows with distinct ids has distinct ids. */
  lemma WindowDistinct(rows: seq<Doc>, offset: nat, count: nat)
    requires DistinctIds(rows)
    ensures DistinctIds(Window(rows, offset, count))
  {
    var w := Window(rows, offset, count);
    forall i, j | 0 <= i < j < |w| ensures w[i].id != w[j].id {
      assert w[i] == rows[offset + i] && w[j] == rows[offset + j];
    }
  }

  /** What a partition search promises, stated over the partition's selection predicate. */
  lemma PartitionSearchProperties(view: seq<Doc>, p: Partition, query: Query, page: PageNumber, count: PageSize, resultKey: string, available: bool)
    ensures var r := PartitionSearch(view, p, query, page, count, resultKey, available);
      && (r.Err? <==> page >= PageLimit || !available)
      && (r.Ok? ==>
        && (forall x :: x in r.value.results ==> x in view && Selected(p, query, x))
        && DistinctIds(r.value.results)
        && (forall x, d :: x in r.value.results && d in view && Selected(p, query, d) && d.id == x.id ==> VersionLe(d, x))
        && |r.value.results| <= count
        && r.value.totalResultsCount == |Ids(Matching(view, p, query))|
        && (page == 1 && |Ids(Matching(view, p, query))| <= count ==>
              Ids(r.value.results) == Ids(Matching(view, p, query))))
  {
    PagedCollapse(Matching(view, p, query), page, count, resultKey, available);
  }

  // ---------------------------------------------------------------------------
  // The filter builders

  /** Two conditions, each added only when its flag holds. */
  lemma AllHoldTwoOptAt(c1: bool, f1: Filter, c2: bool, f2: Filter, d: Doc)
    ensures AllHold(Opt(c1, f1) + Opt(c2, f2), d) <==> (c1 ==> Holds(f1, d)) && (c2 ==> Holds(f2, d))
  {
    AllHoldAppendAt(Opt(c1, f1), Opt(c2, f2), d);
    AllHoldSingle(f1, d);
    AllHoldSingle(f2, d);
  }

  lemma AllHoldPairAt(f: Filter, g: Filter, d: Doc)
    ensures AllHold([f, g], d) <==> Holds(f, d) && Holds(g, d)
  {
    assert [f, g][1..] == [g];
    AllHoldSingle(g, d);
  }

  /** The whole condition list of `get_scos(matcher)`, for the values read from the query. */
  function ScoFilterList(query: Query, matcher: map<string, string>): seq<Filter>
  {
    var value := Param(query, "value");
    [TypeIn(RequestedTypes(ScoTypes, QueryAsArray(query, "types"))), Latest]
    + (Opt(|matcher| > 0, Matches(matcher)) + Opt(value != "", ValueContains(Lower(value))))
  }

  /** The condition list selects exactly the observables `get_scos` is meant to return. */
  lemma ScoFilterListMeaning(query: Query, matcher: map<string, string>)
    ensures forall d :: AllHold(ScoFilterList(query, matcher), d) <==> ScoSelected(query, matcher, d)
  {
    forall d ensures AllHold(ScoFilterList(query, matcher), d) <==> ScoSelected(query, matcher, d) {
      ScoFilterListAt(query, matcher, d);
    }
  }

  lemma ScoFilterListAt(query: Query, matcher: map<string, string>, d: Doc)
    ensures AllHold(ScoFilterList(query, matcher), d) <==> ScoSelected(query, matcher, d)
  {
    var value := Param(query, "value");
    var head := [TypeIn(RequestedTypes(ScoTypes, QueryAsArray(query, "types"))), Latest];
    var other := Opt(|matcher| > 0, Matches(matcher)) + Opt(value != "", ValueContains(Lower(value)));
    AllHoldAppendAt(head, other, d);
    AllHoldPairAt(head[0], Latest, d);
    AllHoldTwoOptAt(|matcher| > 0, Matches(matcher), value != "", ValueContains(Lower(value)), d);
    ScoSelectedHolds(query, matcher, d);
  }

  /** `ScoSelected` read as the conditions of the list. */
  lemma ScoSelectedHolds(query: Query, matcher: map<string, string>, d: Doc)
    ensures ScoSelected(query, matcher, d)
        <==> && Holds(TypeIn(RequestedTypes(ScoTypes, QueryAsArray(query, "types"))), d) && Holds(Latest, d)
             && (|matcher| > 0 ==> Holds(Matches(matcher), d))
             && (Param(query, "value") != "" ==> Holds(ValueContains(Lower(Param(query, "value"))), d))
  {
    HoldsScoConditions(RequestedTypes(ScoTypes, QueryAsArray(query, "types")), matcher, Lower(Param(query, "value")), d);
    if |matcher| == 0 {
      assert matcher == map[];
    }
  }

  /** What the observable conditions test. */
  lemma HoldsScoConditions(types: set<string>, matcher: map<string, string>, value: string, d: Doc)
    ensures Holds(TypeIn(types), d) == (d.typ in types)
    ensures Holds(Matches(matcher), d) == MatchesAll(d, matcher)
    ensures Holds(ValueContains(value), d) == ScoValueMatch(d, value)
  {
  }

  /** The conditions of `get_scos(matcher)`. */
  method ScoFilters(query: Query, matcher: map<string, string>) returns (fs: seq<Filter>)
    ensures forall d :: AllHold(fs, d) <==> ScoSelected(query, matcher, d)
  {
    var types := ScoTypes;
    var otherFilters: seq<Filter> := [];
    var newTypes := QueryAsArray(query, "types");
    if newTypes != [] {
      types := set t | t in types && t in newTypes;
    }
    assert types == RequestedTypes(ScoTypes, newTypes);
    var value := Param(query, "value");
    if value != "" {
      otherFilters := otherFilters + [ValueContains(Lower(value))];
    }
    assert otherFilters == Opt(value != "", ValueContains(Lower(value)));
    ghost var before := otherFilters;
    if |matcher| > 0 {
      otherFilters := [Matches(matcher)] + otherFilters;
    }
    assert otherFilters == Opt(|matcher| > 0, Matches(matcher)) + before;
    fs := [TypeIn(types), Latest] + otherFilters;
    ScoFilterListMeaning(query, matcher);
  }

  /** The conditions of `get_smos`. */
  method SmoFilters(query: Query) returns (fs: seq<Filter>)
    ensures forall d :: AllHold(fs, d) <==> SmoSelected(query, d)
  {
    var types := SmoTypes;
    var newTypes := QueryAsArray(query, "types");
    if newTypes != [] {
      types := set t | t in types && t in newTypes;
    }
    AllHoldPair(TypeIn(types), Latest);
    fs := [TypeIn(types), Latest];
  }

  /** The whole condition list of `get_sdos`: the `SEARCH` list, then the `FILTER` list. */
  function SdoFilterList(query: Query): seq<Filter>
  {
    var name := Param(query, "name");
    var visibleTo := Param(query, "visible_to");
    var labels := Param(query, "labels");
    [TypeIn(RequestedTypes(SdoTypes, QueryAsArray(query, "types")))]
    + ([Latest] + Opt(name != "", NameLike(LikeString(name))) + Opt(visibleTo != "", SearchVisibleTo(visibleTo))
       + Opt(labels != "", LabelsContain(labels)))
  }

  /** The condition list selects exactly the domain objects `get_sdos` is meant to return. */
  lemma SdoFilterListMeaning(query: Query)
    ensures forall d :: AllHold(SdoFilterList(query), d) <==> SdoSelected(query, d)
  {
    forall d ensures AllHold(SdoFilterList(query), d) <==> SdoSelected(query, d) {
      SdoFilterListAt(query, d);
    }
  }

  lemma SdoFilterListAt(query: Query, d: Doc)
    ensures AllHold(SdoFilterList(query), d) <==> SdoSelected(query, d)
  {
    var name := Param(query, "name");
    var visibleTo := Param(query, "visible_to");
    var labels := Param(query, "labels");
    var typeIn := TypeIn(RequestedTypes(SdoTypes, QueryAsArray(query, "types")));
    var rest := [Latest] + Opt(name != "", NameLike(LikeString(name))) + Opt(visibleTo != "", SearchVisibleTo(visibleTo))
      + Opt(labels != "", LabelsContain(labels));
    AllHoldAppendAt([typeIn], rest, d);
    AllHoldSingle(typeIn, d);
    AllHoldSingle(Latest, d);
    AllHoldAppendThreeAt([Latest], name != "", NameLike(LikeString(name)), visibleTo != "", SearchVisibleTo(visibleTo),
                         labels != "", LabelsContain(labels), d);
    SdoSelectedHolds(query, d);
  }

  /** `SdoSelected` read as the conditions of the list. */
  lemma SdoSelectedHolds(query: Query, d: Doc)
    ensures SdoSelected(query, d)
        <==> && Holds(TypeIn(RequestedTypes(SdoTypes, QueryAsArray(query, "types"))), d) && Holds(Latest, d)
             && (Param(query, "name") != "" ==> Holds(NameLike(LikeString(Param(query, "name"))), d))
             && (Param(query, "visible_to") != "" ==> Holds(SearchVisibleTo(Param(query, "visible_to")), d))
             && (Param(query, "labels") != "" ==> Holds(LabelsContain(Param(query, "labels")), d))
  {
  }

  /** The conditions of `get_sdos`: the `SEARCH` list and the `FILTER` list. */
  method SdoFilters(query: Query) returns (fs: seq<Filter>)
    ensures forall d :: AllHold(fs, d) <==> SdoSelected(query, d)
  {
    var types := SdoTypes;
    var newTypes := QueryAsArray(query, "types");
    if newTypes != [] {
      types := set t | t in types && t in newTypes;
    }
    assert types == RequestedTypes(SdoTypes, newTypes);
    var otherFilters: seq<Filter> := [];
    var searchFilters: seq<Filter> := [Latest];
    var labels := Param(query, "labels");
    if labels != "" {
      otherFilters := otherFilters + [LabelsContain(labels)];
    }
    assert otherFilters == Opt(labels != "", LabelsContain(labels));
    ghost var before := searchFilters;
    var name := Param(query, "name");
    if name != "" {
      searchFilters := searchFilters + [NameLike(LikeString(name))];
    }
    assert searchFilters == before + Opt(name != "", NameLike(LikeString(name)));
    before := searchFilters;
    var visibleTo := Param(query, "visible_to");
    if visibleTo != "" {
      searchFilters := searchFilters + [SearchVisibleTo(visibleTo)];
    }
    assert searchFilters == before + Opt(visibleTo != "", SearchVisibleTo(visibleTo));
    fs := [TypeIn(types)] + (searchFilters + otherFilters);
    SdoFilterListMeaning(query);
  }

  /** Appending a condition that is added only when `c` holds. */
  lemma AllHoldAppendOpt(fs: seq<Filter>, c: bool, f: Filter)
    ensures forall d :: AllHold(fs + Opt(c, f), d) <==> AllHold(fs, d) && (c ==> Holds(f, d))
  {
    forall d ensures AllHold(fs + Opt(c, f), d) <==> AllHold(fs, d) && (c ==> Holds(f, d)) {
      AllHoldAppendOptAt(fs, c, f, d);
    }
  }

  lemma AllHoldAppendOptAt(fs: seq<Filter>, c: bool, f: Filter, d: Doc)
    ensures AllHold(fs + Opt(c, f), d) <==> AllHold(fs, d) && (c ==> Holds(f, d))
  {
    AllHoldAppendAt(fs, Opt(c, f), d);
    AllHoldSingle(f, d);
  }

  /** The `SEARCH` list of `get_sros`: its first condition, then the optional ones in the order they are appended. */
  function SroSearchFilters(head: Filter, sourceTypes: seq<string>, targetTypes: seq<string>, relType: string, withRefs: bool,
                            targetRef: string, sourceRef: string): seq<Filter>
  {
    [head]
    + Opt(sourceTypes != [], SourceTypeIn(sourceTypes))
    + Opt(targetTypes != [], TargetTypeIn(targetTypes))
    + Opt(relType != "", RelationshipTypeLike(LikeString(relType)))
    + Opt(!withRefs, NotRef)
    + Opt(targetRef != "", TargetRefIs(targetRef))
    + Opt(sourceRef != "", SourceRefIs(sourceRef))
  }

  /** The list holds exactly when its first condition and the optional relationship conditions do. */
  lemma SroSearchFiltersMeaning(head: Filter, sourceTypes: seq<string>, targetTypes: seq<string>, relType: string, withRefs: bool,
                                targetRef: string, sourceRef: string)
    ensures forall d :: AllHold(SroSearchFilters(head, sourceTypes, targetTypes, relType, withRefs, targetRef, sourceRef), d)
                    <==> Holds(head, d) && SroConditions(sourceTypes, targetTypes, relType, withRefs, targetRef, sourceRef, d)
  {
    forall d ensures AllHold(SroSearchFilters(head, sourceTypes, targetTypes, relType, withRefs, targetRef, sourceRef), d)
                    <==> Holds(head, d) && SroConditions(sourceTypes, targetTypes, relType, withRefs, targetRef, sourceRef, d) {
      SroSearchFiltersAt(head, sourceTypes, targetTypes, relType, withRefs, targetRef, sourceRef, d);
    }
  }

  lemma SroSearchFiltersAt(head: Filter, sourceTypes: seq<string>, targetTypes: seq<string>, relType: string, withRefs: bool,
                           targetRef: string, sourceRef: string, d: Doc)
    ensures AllHold(SroSearchFilters(head, sourceTypes, targetTypes, relType, withRefs, targetRef, sourceRef), d)
        <==> Holds(head, d) && SroConditions(sourceTypes, targetTypes, relType, withRefs, targetRef, sourceRef, d)
  {
    AllHoldSixAt(head, sourceTypes != [], SourceTypeIn(sourceTypes), targetTypes != [], TargetTypeIn(targetTypes),
                 relType != "", RelationshipTypeLike(LikeString(relType)), !withRefs, NotRef,
                 targetRef != "", TargetRefIs(targetRef), sourceRef != "", SourceRefIs(sourceRef), d);
    SroConditionsHold(sourceTypes, targetTypes, relType, withRefs, targetRef, sourceRef, d);
  }

  /** The relationship conditions, read as the conditions on the list. */
  lemma SroConditionsHold(sourceTypes: seq<string>, targetTypes: seq<string>, relType: string, withRefs: bool,
                          targetRef: string, sourceRef: string, d: Doc)
    ensures SroConditions(sourceTypes, targetTypes, relType, withRefs, targetRef, sourceRef, d)
        <==> && (sourceTypes != [] ==> Holds(SourceTypeIn(sourceTypes), d))
             && (targetTypes != [] ==> Holds(TargetTypeIn(targetTypes), d))
             && (relType != "" ==> Holds(RelationshipTypeLike(LikeString(relType)), d))
             && (!withRefs ==> Holds(NotRef, d))
             && (targetRef != "" ==> Holds(TargetRefIs(targetRef), d))
             && (sourceRef != "" ==> Holds(SourceRefIs(sourceRef), d))
  {
    HoldsEndpointConditions(sourceTypes, targetTypes, relType, d);
    HoldsRefConditions(targetRef, sourceRef, d);
  }

  /** What the endpoint-type and relationship-type conditions test. */
  lemma HoldsEndpointConditions(sourceTypes: seq<string>, targetTypes: seq<string>, relType: string, d: Doc)
    ensures Holds(SourceTypeIn(sourceTypes), d) == InList(d.sourceType, sourceTypes)
    ensures Holds(TargetTypeIn(targetTypes), d) == InList(d.targetType, targetTypes)
    ensures Holds(RelationshipTypeLike(LikeString(relType)), d) == LikeMatch(Attr(d, "relationship_type"), LikeString(relType))
  {
  }

  /** What the embedded-ref and endpoint-ref conditions test. */
  lemma HoldsRefConditions(targetRef: string, sourceRef: string, d: Doc)
    ensures Holds(NotRef, d) == !d.isRef
    ensures Holds(TargetRefIs(targetRef), d) == (d.targetRef == Some(targetRef))
    ensures Holds(SourceRefIs(sourceRef), d) == (d.sourceRef == Some(sourceRef))
  {
  }

  /** A head condition followed by six conditions, each added only when its flag holds. */
  lemma AllHoldSixAt(head: Filter, c1: bool, f1: Filter, c2: bool, f2: Filter, c3: bool, f3: Filter,
                     c4: bool, f4: Filter, c5: bool, f5: Filter, c6: bool, f6: Filter, d: Doc)
    ensures AllHold([head] + Opt(c1, f1) + Opt(c2, f2) + Opt(c3, f3) + Opt(c4, f4) + Opt(c5, f5) + Opt(c6, f6), d)
        <==> && Holds(head, d) && (c1 ==> Holds(f1, d)) && (c2 ==> Holds(f2, d)) && (c3 ==> Holds(f3, d))
             && (c4 ==> Holds(f4, d)) && (c5 ==> Holds(f5, d)) && (c6 ==> Holds(f6, d))
  {
    AllHoldSingle(head, d);
    AllHoldAppendThreeAt([head], c1, f1, c2, f2, c3, f3, d);
    AllHoldAppendThreeAt([head] + Opt(c1, f1) + Opt(c2, f2) + Opt(c3, f3), c4, f4, c5, f5, c6, f6, d);
  }

  /** Appending three conditions, each added only when its flag holds. */
  lemma AllHoldAppendThreeAt(fs: seq<Filter>, c1: bool, f1: Filter, c2: bool, f2: Filter, c3: bool, f3: Filter, d: Doc)
    ensures AllHold(fs + Opt(c1, f1) + Opt(c2, f2) + Opt(c3, f3), d)
        <==> AllHold(fs, d) && (c1 ==> Holds(f1, d)) && (c2 ==> Holds(f2, d)) && (c3 ==> Holds(f3, d))
  {
    AllHoldAppendOptAt(fs, c1, f1, d);
    AllHoldAppendOptAt(fs + Opt(c1, f1), c2, f2, d);
    AllHoldAppendOptAt(fs + Opt(c1, f1) + Opt(c2, f2), c3, f3, d);
  }

  /** Overwriting the first condition of a list leaves what was appended to it. */
  lemma UpdateHeadAppend(fs: seq<Filter>, x: Filter, tail: seq<Filter>)
    requires |fs| >= 1
    ensures (fs + tail)[0 := x] == fs[0 := x] + tail
  {
    assert forall j :: 0 <= j < |tail| ==> (fs + tail)[0 := x][|fs| + j] == tail[j];
  }

  /** Overwriting the first condition keeps the optional ones. */
  lemma SroSearchFiltersHead(head: Filter, x: Filter, sourceTypes: seq<string>, targetTypes: seq<string>, relType: string, withRefs: bool,
                             targetRef: string, sourceRef: string)
    ensures SroSearchFilters(head, sourceTypes, targetTypes, relType, withRefs, targetRef, sourceRef)[0 := x]
         == SroSearchFilters(x, sourceTypes, targetTypes, relType, withRefs, targetRef, sourceRef)
  {
    var o1 := Opt(sourceTypes != [], SourceTypeIn(sourceTypes));
    var o2 := Opt(targetTypes != [], TargetTypeIn(targetTypes));
    var o3 := Opt(relType != "", RelationshipTypeLike(LikeString(relType)));
    var o4 := Opt(!withRefs, NotRef);
    var o5 := Opt(targetRef != "", TargetRefIs(targetRef));
    var o6 := Opt(sourceRef != "", SourceRefIs(sourceRef));
    assert [head][0 := x] == [x];
    UpdateHeadAppend([head], x, o1);
    UpdateHeadAppend([head] + o1, x, o2);
    UpdateHeadAppend([head] + o1 + o2, x, o3);
    UpdateHeadAppend([head] + o1 + o2 + o3, x, o4);
    UpdateHeadAppend([head] + o1 + o2 + o3 + o4, x, o5);
    UpdateHeadAppend([head] + o1 + o2 + o3 + o4 + o5, x, o6);
  }

  /** The whole condition list of `get_sros`, for the values read from the query. */
  function SroFilterList(query: Query, onlyLatest: bool): seq<Filter>
  {
    var visibleTo := Param(query, "visible_to");
    [IsRelationship]
    + (SroSearchFilters(if onlyLatest then Latest else LatestOrScoEndpoint,
                        QueryAsArray(query, "source_ref_type"), QueryAsArray(query, "target_ref_type"),
                        Param(query, "relationship_type"), QueryAsBool(query, "include_embedded_refs", true),
                        Param(query, "target_ref"), Param(query, "source_ref"))
       + Opt(visibleTo != "", SearchVisibleTo(visibleTo)))
  }

  /** The condition list selects exactly the relationships `get_sros` is meant to return. */
  lemma SroFilterListMeaning(query: Query, onlyLatest: bool)
    ensures forall d :: AllHold(SroFilterList(query, onlyLatest), d) <==> SroSelected(query, onlyLatest, d)
  {
    var visibleTo := Param(query, "visible_to");
    var head := if onlyLatest then Latest else LatestOrScoEndpoint;
    var sourceTypes := QueryAsArray(query, "source_ref_type");
    var targetTypes := QueryAsArray(query, "target_ref_type");
    var relType := Param(query, "relationship_type");
    var withRefs := QueryAsBool(query, "include_embedded_refs", true);
    var targetRef := Param(query, "target_ref");
    var sourceRef := Param(query, "source_ref");
    var search := SroSearchFilters(head, sourceTypes, targetTypes, relType, withRefs, targetRef, sourceRef);
    SroSearchFiltersMeaning(head, sourceTypes, targetTypes, relType, withRefs, targetRef, sourceRef);
    AllHoldAppendOpt(search, visibleTo != "", SearchVisibleTo(visibleTo));
    AllHoldCons(IsRelationship, search + Opt(visibleTo != "", SearchVisibleTo(visibleTo)));
  }

  /** The `SEARCH` list of `get_sros` as the optional conditions are appended to `_is_latest`. */
  method SroSearchList(query: Query) returns (searchFilters: seq<Filter>)
    ensures searchFilters == SroSearchFilters(Latest, QueryAsArray(query, "source_ref_type"), QueryAsArray(query, "target_ref_type"),
                                              Param(query, "relationship_type"), QueryAsBool(query, "include_embedded_refs", true),
                                              Param(query, "target_ref"), Param(query, "source_ref"))
  {
    searchFilters := [Latest];
    ghost var before := searchFilters;
    var sourceTypes := QueryAsArray(query, "source_ref_type");
    before := searchFilters;
    if sourceTypes != [] {
      searchFilters := searchFilters + [SourceTypeIn(sourceTypes)];
    }
    assert searchFilters == before + Opt(sourceTypes != [], SourceTypeIn(sourceTypes));
    var targetTypes := QueryAsArray(query, "target_ref_type");
    before := searchFilters;
    if targetTypes != [] {
      searchFilters := searchFilters + [TargetTypeIn(targetTypes)];
    }
    assert searchFilters == before + Opt(targetTypes != [], TargetTypeIn(targetTypes));
    var relType := Param(query, "relationship_type");
    before := searchFilters;
    if relType != "" {
      searchFilters := searchFilters + [RelationshipTypeLike(LikeString(relType))];
    }
    assert searchFilters == before + Opt(relType != "", RelationshipTypeLike(LikeString(relType)));
    var withRefs := QueryAsBool(query, "include_embedded_refs", true);
    before := searchFilters;
    if !withRefs {
      searchFilters := searchFilters + [NotRef];
    }
    assert searchFilters == before + Opt(!withRefs, NotRef);
    var targetRef := Param(query, "target_ref");
    before := searchFilters;
    if targetRef != "" {
      searchFilters := searchFilters + [TargetRefIs(targetRef)];
    }
    assert searchFilters == before + Opt(targetRef != "", TargetRefIs(targetRef));
    var sourceRef := Param(query, "source_ref");
    before := searchFilters;
    if sourceRef != "" {
      searchFilters := searchFilters + [SourceRefIs(sourceRef)];
    }
    assert searchFilters == before + Opt(sourceRef != "", SourceRefIs(sourceRef));
  }

  /**
   * The conditions of `get_sros`; without `SRO_OBJECTS_ONLY_LATEST` the first
   * (`_is_latest`) condition is overwritten by the wider one that also keeps
   * older relationships touching an observable.
   */
  method SroFilters(query: Query, onlyLatest: bool) returns (fs: seq<Filter>)
    ensures forall d :: AllHold(fs, d) <==> SroSelected(query, onlyLatest, d)
  {
    var searchFilters := SroSearchList(query);
    if !onlyLatest {
      SroSearchFiltersHead(Latest, LatestOrScoEndpoint, QueryAsArray(query, "source_ref_type"), QueryAsArray(query, "target_ref_type"),
                           Param(query, "relationship_type"), QueryAsBool(query, "include_embedded_refs", true),
                           Param(query, "target_ref"), Param(query, "source_ref"));
      searchFilters := searchFilters[0 := LatestOrScoEndpoint];
    }
    var visibleTo := Param(query, "visible_to");
    ghost var before := searchFilters;
    if visibleTo != "" {
      searchFilters := searchFilters + [SearchVisibleTo(visibleTo)];
    }
    assert searchFilters == before + Opt(visibleTo != "", SearchVisibleTo(visibleTo));
    fs := [IsRelationship] + searchFilters;
    SroFilterListMeaning(query, onlyLatest);
  }

  // ---------------------------------------------------------------------------
  // Objects without a creator under `visible_to`

  /**
   * What `get_sdos` evidently means by `created_by_ref IN [@visible_to, NULL]`:
   * the search without `visible_to`, then visibility as the bundle's `FILTER`
   * reads it, which admits objects nobody created.
   */
  predicate SdoSelectedIntended(query: Query, d: Doc)
  {
    SdoSelected(query - {"visible_to"}, d) && IfSet(Param(query, "visible_to"), Visible(d, Param(query, "visible_to")))
  }

  /** The same reading for `get_sros`. */
  predicate SroSelectedIntended(query: Query, onlyLatest: bool, d: Doc)
  {
    SroSelected(query - {"visible_to"}, onlyLatest, d) && IfSet(Param(query, "visible_to"), Visible(d, Param(query, "visible_to")))
  }

  /** Removing `visible_to` leaves every other parameter as it was. */
  lemma ParamWithoutVisibleTo(query: Query, key: string)
    requires key != "visible_to"
    ensures Param(query - {"visible_to"}, key) == Param(query, key)
    ensures QueryAsArray(query - {"visible_to"}, key) == QueryAsArray(query, key)
    ensures forall b :: QueryAsBool(query - {"visible_to"}, key, b) == QueryAsBool(query, key, b)
  {
  }

  /** The domain-object search as written: the other conditions, then the `SEARCH` visibility. */
  lemma SdoSelectedSplit(query: Query, d: Doc)
    ensures SdoSelected(query, d)
        <==> SdoSelected(query - {"visible_to"}, d) && IfSet(Param(query, "visible_to"), SearchVisible(d, Param(query, "visible_to")))
  {
    ParamWithoutVisibleTo(query, "types");
    ParamWithoutVisibleTo(query, "name");
    ParamWithoutVisibleTo(query, "labels");
  }

  /** The relationship search as written: the other conditions, then the `SEARCH` visibility. */
  lemma SroSelectedSplit(query: Query, onlyLatest: bool, d: Doc)
    ensures SroSelected(query, onlyLatest, d)
        <==> SroSelected(query - {"visible_to"}, onlyLatest, d) && IfSet(Param(query, "visible_to"), SearchVisible(d, Param(query, "visible_to")))
  {
    ParamWithoutVisibleTo(query, "source_ref_type");
    ParamWithoutVisibleTo(query, "target_ref_type");
    ParamWithoutVisibleTo(query, "relationship_type");
    ParamWithoutVisibleTo(query, "include_embedded_refs");
    ParamWithoutVisibleTo(query, "target_ref");
    ParamWithoutVisibleTo(query, "source_ref");
  }

  /**
   * As written, `visible_to` drops a latest domain object that has neither a
   * creator nor a marking, although the `NULL` in the list was meant to keep it.
   */
  lemma SdoCreatorlessDropped()
    ensures var query := map["visible_to" := "identity--x"];
            var d := Doc("indicator/1", "indicator--1", "indicator", None, None, None, true, false, None, None,
                         None, None, None, None, None, [], [], None, [], map[]);
            !SdoSelected(query, d) && SdoSelectedIntended(query, d)
  {
    var query := map["visible_to" := "identity--x"];
    var d := Doc("indicator/1", "indicator--1", "indicator", None, None, None, true, false, None, None,
                 None, None, None, None, None, [], [], None, [], map[]);
    assert query - {"visible_to"} == map[];
    assert "indicator" in SdoTypes;
    SdoSelectedSplit(query, d);
  }

  /** As written, `visible_to` drops a latest relationship that has neither a creator nor a marking. */
  lemma SroCreatorlessDropped(onlyLatest: bool)
    ensures var query := map["visible_to" := "identity--x"];
            var d := Doc("relationship/1", "relationship--1", RelationshipType, None, None, None, true, false, None, None,
                         None, None, None, None, None, [], [], None, [], map[]);
            !SroSelected(query, onlyLatest, d) && SroSelectedIntended(query, onlyLatest, d)
  {
    var query := map["visible_to" := "identity--x"];
    var d := Doc("relationship/1", "relationship--1", RelationshipType, None, None, None, true, false, None, None,
                 None, None, None, None, None, [], [], None, [], map[]);
    assert query - {"visible_to"} == map[];
    SroSelectedSplit(query, onlyLatest, d);
  }

  /**
   * The intended domain-object search keeps everything the written one does,
   * differs from it only on objects without a creator, and shows those to
   * every identity.
   */
  lemma SdoIntendedVisibility(query: Query, d: Doc)
    ensures SdoSelected(query, d) ==> SdoSelectedIntended(query, d)
    ensures d.createdByRef.Some? ==> (SdoSelectedIntended(query, d) <==> SdoSelected(query, d))
    ensures d.createdByRef.None? ==> (SdoSelectedIntended(query, d) <==> SdoSelected(query - {"visible_to"}, d))
  {
    SdoSelectedSplit(query, d);
  }

  /** The intended relationship search, likewise. */
  lemma SroIntendedVisibility(query: Query, onlyLatest: bool, d: Doc)
    ensures SroSelected(query, onlyLatest, d) ==> SroSelectedIntended(query, onlyLatest, d)
    ensures d.createdByRef.Some? ==> (SroSelectedIntended(query, onlyLatest, d) <==> SroSelected(query, onlyLatest, d))
    ensures d.createdByRef.None? ==> (SroSelectedIntended(query, onlyLatest, d) <==> SroSelected(query - {"visible_to"}, onlyLatest, d))
  {
    SroSelectedSplit(query, onlyLatest, d);
  }

  // ---------------------------------------------------------------------------
  // The observable list endpoint

  /** The `MATCHES` map the observable list endpoint passes: the `post_id` parameter, when given. */
  function ScoMatcher(query: Query): (r: map<string, string>)
    ensures Param(query, "post_id") == "" ==> r == map[]
    ensures Param(query, "post_id") != "" ==> r.Keys == {"_obstracts_post_id"} && r["_obstracts_post_id"] == query["post_id"]
  {
    var post := Param(query, "post_id");
    if post != "" then map["_obstracts_post_id" := post] else map[]
  }

  /** With `post_id`, every observable listed belongs to that post. */
  lemma ScoPostFilter(view: seq<Doc>, query: Query, page: PageNumber, count: PageSize, resultKey: string, available: bool, x: Doc)
    requires Param(query, "post_id") != ""
    requires PartitionSearch(view, Sco(ScoMatcher(query)), query, page, count, resultKey, available).Ok?
    requires x in PartitionSearch(view, Sco(ScoMatcher(query)), query, page, count, resultKey, available).value.results
    ensures "_obstracts_post_id" in x.attrs && x.attrs["_obstracts_post_id"] == query["post_id"]
  {
    PartitionSearchProperties(view, Sco(ScoMatcher(query)), query, page, count, resultKey, available);
  }

  /** The observable `value` search is case-insensitive: any capitalisation of the term selects the same objects. */
  lemma ScoValueCaseInsensitive(query: Query, matcher: map<string, string>, d: Doc)
    requires "value" in query && query["value"] != ""
    ensures ScoSelected(query, matcher, d) == ScoSelected(query["value" := Lower(query["value"])], matcher, d)
  {
    LowerIdempotent(query["value"]);
    var q2 := query["value" := Lower(query["value"])];
    assert QueryAsArray(q2, "types") == QueryAsArray(query, "types");
  }

  // ---------------------------------------------------------------------------
  // get_objects_by_id

  /** The first latest version of `id` in view order (`LIMIT 1`). */
  function FirstLatest(view: seq<Doc>, id: string): (r: Option<Doc>)
    ensures r.None? <==> forall d :: d in view ==> !(d.id == id && d.isLatest)
    ensures r.Some? ==> r.value in view && r.value.id == id && r.value.isLatest
    decreases |view|
  {
    if |view| == 0 then None
    else if view[0].id == id && view[0].isLatest then Some(view[0])
    else
      assert forall d :: d in view ==> d == view[0] || d in view[1..];
      FirstLatest(view[1..], id)
  }

  /** `get_objects_by_id(id)`: the latest version of the object, or "not found". */
  function GetObjectsById(view: seq<Doc>, id: string, available: bool): (r: Result<Doc, QueryError>)
    ensures r.Ok? ==> r.value in view && r.value.id == id && r.value.isLatest
    ensures r == Err(CannotProcess) <==> !available
    ensures r == Err(NoObject) <==> available && forall d :: d in view ==> !(d.id == id && d.isLatest)
  {
    if !available then Err(CannotProcess)
    else
      match FirstLatest(view, id)
      case None => Err(NoObject)
      case Some(d) => Ok(d)
  }

  // ---------------------------------------------------------------------------
  // get_containing_reports

  /** `RETURN DISTINCT doc._stixify_report_id` over every version of `id`. */
  function ReportIdsOf(view: seq<Doc>, id: string): (r: set<string>)
    ensures forall rid :: rid in r <==> exists d :: d in view && d.id == id && d.reportId == Some(rid)
  {
    set d | d in view && d.id == id && d.reportId.Some? :: d.reportId.value
  }

  predicate IsContainingReport(reportIds: set<string>, d: Doc)
  {
    d.typ == "report" && d.id in reportIds
  }

  /** The report documents whose id is one of `reportIds`, in view order: every version, not only the latest. */
  function ReportsWithIds(view: seq<Doc>, reportIds: set<string>): (r: seq<Doc>)
    ensures forall x :: x in r <==> x in view && IsContainingReport(reportIds, x)
    decreases |view|
  {
    if |view| == 0 then []
    else (if IsContainingReport(reportIds, view[0]) then [view[0]] else []) + ReportsWithIds(view[1..], reportIds)
  }

  /** `get_containing_reports(id)`: every version of every report that lists a version of `id` as its own, paged. */
  function ContainingReports(view: seq<Doc>, id: string, page: PageNumber, count: PageSize, resultKey: string, available: bool): Result<PageResponse<Doc>, QueryError>
  {
    ExecuteQuery(ReportsWithIds(view, ReportIdsOf(view, id)), page, count, resultKey, available)
  }

  /**
   * The containing-reports search returns report documents only, each the
   * report of some version of the object, and counts all of them.
   */
  lemma ContainingReportsProperties(view: seq<Doc>, id: string, page: PageNumber, count: PageSize, resultKey: string, available: bool)
    ensures var r := ContainingReports(view, id, page, count, resultKey, available);
      && (r.Err? <==> page >= PageLimit || !available)
      && (r.Ok? ==> forall x :: x in r.value.results ==>
            x in view && x.typ == "report" && exists d :: d in view && d.id == id && d.reportId == Some(x.id))
      && (r.Ok? ==> r.value.totalResultsCount == |ReportsWithIds(view, ReportIdsOf(view, id))|)
  {
    WindowInRows(ReportsWithIds(view, ReportIdsOf(view, id)), PageOffset(page, count), count);
  }

  // ---------------------------------------------------------------------------
  // get_object_bundle

  /** The physical ids a relationship contributes to the bundle: its own, `_from` and `_to`. */
  function EdgeKeys(d: Doc): set<string>
  {
    {d.key} + (if d.from.Some? then {d.from.value} else {}) + (if d.to.Some? then {d.to.value} else {})
  }

  /** `FLATTEN(FOR doc ... RETURN [doc._id, doc._from, doc._to])` over the given relationships. */
  function KeysOf(rels: seq<Doc>): (r: set<string>)
    ensures forall k :: k in r <==> exists d :: d in rels && k in EdgeKeys(d)
    decreases |rels|
  {
    if |rels| == 0 then {}
    else
      var rest := KeysOf(rels[1..]);
      assert forall d :: d in rels ==> d == rels[0] || d in rels[1..];
      EdgeKeys(rels[0]) + rest
  }

  /** A relationship of the first phase: latest, touching the seed, and passing the optional ref and endpoint-type conditions. */
  predicate BundleEdge(query: Query, seed: string, d: Doc)
  {
    && (d.sourceRef == Some(seed) || d.targetRef == Some(seed))
    && d.isLatest
    && (!QueryAsBool(query, "include_embedded_refs", true) ==> !d.isRef)
    && (QueryAsArray(query, "types") != [] ==>
          InList(d.targetType, QueryAsArray(query, "types")) || InList(d.sourceType, QueryAsArray(query, "types")))
  }

  /** The physical ids collected by the first phase. */
  ghost function BundleIds(view: seq<Doc>, query: Query, seed: string): set<string>
  {
    set d, k | d in view && BundleEdge(query, seed, d) && k in EdgeKeys(d) :: k
  }

  /**
   * A document of the bundle: collected by the first phase or the latest
   * version of the seed, then of a requested type and visible to the caller.
   */
  ghost predicate InObjectBundle(view: seq<Doc>, query: Query, seed: string, d: Doc)
  {
    && (d.key in BundleIds(view, query, seed) || (d.id == seed && d.isLatest))
    && (QueryAsArray(query, "types") != [] ==> d.typ in QueryAsArray(query, "types"))
    && IfSet(Param(query, "visible_to"), Visible(d, Param(query, "visible_to")))
  }

  /** The bundle's documents, in view order. */
  ghost function BundleRows(view: seq<Doc>, query: Query, seed: string): (r: seq<Doc>)
    ensures forall x :: x in r <==> x in view && InObjectBundle(view, query, seed, x)
  {
    BundleRowsOf(view, view, query, seed)
  }

  ghost function BundleRowsOf(view: seq<Doc>, rows: seq<Doc>, query: Query, seed: string): (r: seq<Doc>)
    ensures forall x :: x in r <==> x in rows && InObjectBundle(view, query, seed, x)
    decreases |rows|
  {
    if |rows| == 0 then []
    else (if InObjectBundle(view, query, seed, rows[0]) then [rows[0]] else []) + BundleRowsOf(view, rows[1..], query, seed)
  }

  /** The conditions of the first phase: touching the seed, latest, then the optional ones in the order they are appended. */
  function BundleRelFilters(query: Query, seed: string): seq<Filter>
  {
    var types := QueryAsArray(query, "types");
    [Touches(seed), Latest]
    + (Opt(!QueryAsBool(query, "include_embedded_refs", true), NotRef) + Opt(types != [], EndpointTypeIn(types)))
  }

  lemma BundleRelFiltersMeaning(query: Query, seed: string)
    ensures forall d :: AllHold(BundleRelFilters(query, seed), d) <==> BundleEdge(query, seed, d)
  {
    forall d ensures AllHold(BundleRelFilters(query, seed), d) <==> BundleEdge(query, seed, d) {
      BundleRelFiltersAt(query, seed, d);
    }
  }

  lemma BundleRelFiltersAt(query: Query, seed: string, d: Doc)
    ensures AllHold(BundleRelFilters(query, seed), d) <==> BundleEdge(query, seed, d)
  {
    var types := QueryAsArray(query, "types");
    var withRefs := QueryAsBool(query, "include_embedded_refs", true);
    AllHoldAppendAt([Touches(seed), Latest], Opt(!withRefs, NotRef) + Opt(types != [], EndpointTypeIn(types)), d);
    AllHoldPairAt(Touches(seed), Latest, d);
    AllHoldTwoOptAt(!withRefs, NotRef, types != [], EndpointTypeIn(types), d);
    BundleEdgeHolds(query, seed, d);
  }

  /** `BundleEdge` read as the conditions of the list. */
  lemma BundleEdgeHolds(query: Query, seed: string, d: Doc)
    ensures BundleEdge(query, seed, d)
        <==> && Holds(Touches(seed), d) && Holds(Latest, d)
             && (!QueryAsBool(query, "include_embedded_refs", true) ==> Holds(NotRef, d))
             && (QueryAsArray(query, "types") != [] ==> Holds(EndpointTypeIn(QueryAsArray(query, "types")), d))
  {
  }

  /** The conditions of the second phase, given the ids the first phase collected. */
  function BundleDocFilters(keys: set<string>, query: Query, seed: string): seq<Filter>
  {
    var types := QueryAsArray(query, "types");
    var visibleTo := Param(query, "visible_to");
    [InBundle(keys, seed)] + Opt(types != [], TypeInList(types)) + Opt(visibleTo != "", VisibleTo(visibleTo))
  }

  lemma BundleDocFiltersMeaning(view: seq<Doc>, query: Query, seed: string)
    ensures forall d :: AllHold(BundleDocFilters(BundleIds(view, query, seed), query, seed), d) <==> InObjectBundle(view, query, seed, d)
  {
    forall d ensures AllHold(BundleDocFilters(BundleIds(view, query, seed), query, seed), d) <==> InObjectBundle(view, query, seed, d) {
      BundleDocFiltersAt(BundleIds(view, query, seed), view, query, seed, d);
    }
  }

  lemma BundleDocFiltersAt(keys: set<string>, view: seq<Doc>, query: Query, seed: string, d: Doc)
    requires keys == BundleIds(view, query, seed)
    ensures AllHold(BundleDocFilters(keys, query, seed), d) <==> InObjectBundle(view, query, seed, d)
  {
    var types := QueryAsArray(query, "types");
    var visibleTo := Param(query, "visible_to");
    AllHoldSingle(InBundle(keys, seed), d);
    AllHoldAppendOptAt([InBundle(keys, seed)], types != [], TypeInList(types), d);
    AllHoldAppendOptAt([InBundle(keys, seed)] + Opt(types != [], TypeInList(types)), visibleTo != "", VisibleTo(visibleTo), d);
    InObjectBundleHolds(keys, view, query, seed, d);
  }

  /** `InObjectBundle` read as the conditions of the list. */
  lemma InObjectBundleHolds(keys: set<string>, view: seq<Doc>, query: Query, seed: string, d: Doc)
    requires keys == BundleIds(view, query, seed)
    ensures InObjectBundle(view, query, seed, d)
        <==> && Holds(InBundle(keys, seed), d)
             && (QueryAsArray(query, "types") != [] ==> Holds(TypeInList(QueryAsArray(query, "types")), d))
             && (Param(query, "visible_to") != "" ==> Holds(VisibleTo(Param(query, "visible_to")), d))
  {
  }

  /** The ids collected from the relationships the first phase selects. */
  lemma BundleKeys(view: seq<Doc>, relFs: seq<Filter>, query: Query, seed: string)
    requires forall d :: AllHold(relFs, d) <==> BundleEdge(query, seed, d)
    ensures KeysOf(Select(view, relFs)) == BundleIds(view, query, seed)
  {
    var rels := Select(view, relFs);
    forall k ensures k in KeysOf(rels) <==> k in BundleIds(view, query, seed) {
      if k in BundleIds(view, query, seed) {
        var d :| d in view && BundleEdge(query, seed, d) && k in EdgeKeys(d);
        assert d in rels;
      }
    }
  }

  /** Filtering by the two phases' conditions gives the bundle's documents. */
  lemma {:induction false} SelectIsBundle(view: seq<Doc>, rows: seq<Doc>, fs: seq<Filter>, query: Query, seed: string)
    requires forall d :: AllHold(fs, d) <==> InObjectBundle(view, query, seed, d)
    ensures Select(rows, fs) == BundleRowsOf(view, rows, query, seed)
    decreases |rows|
  {
    if |rows| > 0 {
      SelectIsBundle(view, rows[1..], fs, query, seed);
    }
  }

  /**
   * The bundle is one hop: every document in it is the seed itself, a
   * latest relationship touching the seed, or an endpoint of one.
   */
  lemma BundleIsOneHop(view: seq<Doc>, query: Query, seed: string, x: Doc)
    requires x in BundleRows(view, query, seed)
    ensures || (x.id == seed && x.isLatest)
            || exists d :: d in view && BundleEdge(query, seed, d) && (x.key == d.key || Some(x.key) == d.from || Some(x.key) == d.to)
  {
    assert InObjectBundle(view, query, seed, x);
    if !(x.id == seed && x.isLatest) {
      CollectedKey(view, query, seed, x.key);
    }
  }

  /** A collected id is the `_id`, `_from` or `_to` of a first-phase relationship. */
  lemma CollectedKey(view: seq<Doc>, query: Query, seed: string, k: string)
    requires k in BundleIds(view, query, seed)
    ensures exists d :: d in view && BundleEdge(query, seed, d) && (k == d.key || Some(k) == d.from || Some(k) == d.to)
  {
    var d, k' :| d in view && BundleEdge(query, seed, d) && k' in EdgeKeys(d) && k' == k;
  }

  /**
   * With no type or visibility restriction the bundle holds the seed's
   * latest versions and every latest relationship touching the seed
   * together with its two endpoints.
   */
  lemma BundleHoldsNeighbours(view: seq<Doc>, query: Query, seed: string, d: Doc, x: Doc)
    requires QueryAsArray(query, "types") == [] && Param(query, "visible_to") == ""
    requires d in view && BundleEdge(query, seed, d)
    requires x in view && (x.key == d.key || Some(x.key) == d.from || Some(x.key) == d.to)
    ensures x in BundleRows(view, query, seed)
  {
    assert x.key in EdgeKeys(d);
  }

  // ---------------------------------------------------------------------------
  // The helper object

  /**
   * `ArangoDBHelper`: one per request. The constructor reads the query
   * string and fixes the page number and page size; every search of the
   * request pages with them.
   */
  class ArangoDBHelper {
    const query: Query
    const resultKey: string
    const page: PageNumber
    const count: PageSize
    /** The `SRO_OBJECTS_ONLY_LATEST` setting. */
    const sroObjectsOnlyLatest: bool

    constructor(query: Query, resultKey: string, sroObjectsOnlyLatest: bool)
      ensures this.query == query && this.resultKey == resultKey
      ensures this.sroObjectsOnlyLatest == sroObjectsOnlyLatest
      ensures (this.page, this.count) == GetPageParams(query)
    {
      this.query := query;
      this.resultKey := resultKey;
      this.sroObjectsOnlyLatest := sroObjectsOnlyLatest;
      var (p, c) := GetPageParams(query);
      this.page := p;
      this.count := c;
    }

    /** `get_scos(matcher)`. */
    method GetScos(matcher: map<string, string>, view: seq<Doc>, available: bool)
      returns (r: Result<PageResponse<Doc>, QueryError>)
      ensures r == PartitionSearch(view, Sco(matcher), query, page, count, resultKey, available)
      ensures r.Ok? ==> forall x :: x in r.value.results ==> x.typ in ScoTypes && x.isLatest && MatchesAll(x, matcher)
    {
      var fs := ScoFilters(query, matcher);
      SelectIsMatching(view, fs, Sco(matcher), query);
      r := ExecuteQuery(Collapse(Select(view, fs)), page, count, resultKey, available);
      PartitionSearchProperties(view, Sco(matcher), query, page, count, resultKey, available);
    }

    /** `get_smos`. */
    method GetSmos(view: seq<Doc>, available: bool)
      returns (r: Result<PageResponse<Doc>, QueryError>)
      ensures r == PartitionSearch(view, Smo, query, page, count, resultKey, available)
      ensures r.Ok? ==> forall x :: x in r.value.results ==> x.typ in SmoTypes && x.isLatest
    {
      var fs := SmoFilters(query);
      SelectIsMatching(view, fs, Smo, query);
      r := ExecuteQuery(Collapse(Select(view, fs)), page, count, resultKey, available);
      PartitionSearchProperties(view, Smo, query, page, count, resultKey, available);
    }

    /** `get_sdos`. */
    method GetSdos(view: seq<Doc>, available: bool)
      returns (r: Result<PageResponse<Doc>, QueryError>)
      ensures r == PartitionSearch(view, Sdo, query, page, count, resultKey, available)
      ensures r.Ok? ==> forall x :: x in r.value.results ==> x.typ in SdoTypes && x.isLatest
    {
      var fs := SdoFilters(query);
      SelectIsMatching(view, fs, Sdo, query);
      r := ExecuteQuery(Collapse(Select(view, fs)), page, count, resultKey, available);
      PartitionSearchProperties(view, Sdo, query, page, count, resultKey, available);
    }

    /** `get_sros`. */
    method GetSros(view: seq<Doc>, available: bool)
      returns (r: Result<PageResponse<Doc>, QueryError>)
      ensures r == PartitionSearch(view, Sro(sroObjectsOnlyLatest), query, page, count, resultKey, available)
      ensures r.Ok? ==> forall x :: x in r.value.results ==> x.typ == RelationshipType
      ensures r.Ok? && sroObjectsOnlyLatest ==> forall x :: x in r.value.results ==> x.isLatest
    {
      var fs := SroFilters(query, sroObjectsOnlyLatest);
      SelectIsMatching(view, fs, Sro(sroObjectsOnlyLatest), query);
      r := ExecuteQuery(Collapse(Select(view, fs)), page, count, resultKey, available);
      PartitionSearchProperties(view, Sro(sroObjectsOnlyLatest), query, page, count, resultKey, available);
    }

    /** `get_containing_reports(id)`. */
    method GetContainingReports(id: string, view: seq<Doc>, available: bool)
      returns (r: Result<PageResponse<Doc>, QueryError>)
      ensures r == ContainingReports(view, id, page, count, resultKey, available)
      ensures r.Ok? ==> forall x :: x in r.value.results ==> x in view && x.typ == "report"
    {
      var reportIds := ReportIdsOf(view, id);
      r := ExecuteQuery(ReportsWithIds(view, reportIds), page, count, resultKey, available);
      ContainingReportsProperties(view, id, page, count, resultKey, available);
    }

    /**
     * `get_object_bundle(stix_id)`: the seed and everything one relationship
     * away from it. The type list restricts both phases (endpoint types in the
     * first, the document's type in the second); `visible_to` restricts only
     * the second.
     */
    method GetObjectBundle(seed: string, view: seq<Doc>, available: bool)
      returns (r: Result<PageResponse<Doc>, QueryError>)
      ensures r == ExecuteQuery(BundleRows(view, query, seed), page, count, resultKey, available)
    {
      var relSearchFilters: seq<Filter> := [];
      var searchFilters: seq<Filter> := [];
      var withRefs := QueryAsBool(query, "include_embedded_refs", true);
      if !withRefs {
        relSearchFilters := relSearchFilters + [NotRef];
      }
      assert relSearchFilters == Opt(!withRefs, NotRef);
      var types := QueryAsArray(query, "types");
      if types != [] {
        relSearchFilters := relSearchFilters + [EndpointTypeIn(types)];
        searchFilters := searchFilters + [TypeInList(types)];
      }
      assert relSearchFilters == Opt(!withRefs, NotRef) + Opt(types != [], EndpointTypeIn(types));
      assert searchFilters == Opt(types != [], TypeInList(types));
      var visibleFilter: seq<Filter> := [];
      var visibleTo := Param(query, "visible_to");
      if visibleTo != "" {
        visibleFilter := visibleFilter + [VisibleTo(visibleTo)];
      }
      assert visibleFilter == Opt(visibleTo != "", VisibleTo(visibleTo));
      var relFs := [Touches(seed), Latest] + relSearchFilters;
      assert relFs == BundleRelFilters(query, seed);
      BundleRelFiltersMeaning(query, seed);
      var rels := Select(view, relFs);
      var bundleIds := KeysOf(rels);
      BundleKeys(view, relFs, query, seed);
      var fs := [InBundle(bundleIds, seed)] + searchFilters + visibleFilter;
      assert fs == BundleDocFilters(BundleIds(view, query, seed), query, seed);
      BundleDocFiltersMeaning(view, query, seed);
      SelectIsBundle(view, view, fs, query, seed);
      r := ExecuteQuery(Select(view, fs), page, count, resultKey, available);
    }
  }
}
