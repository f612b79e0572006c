/**
 * The search view over the STIX collections: its primary sort and stored
 * values at creation, which fields of a collection it indexes (chosen by the
 * collection's name suffix), and the `links` map that attaches collections
 * to it. Creating, fetching and pushing the view to the database are left
 * out; the view's `links` map is the state the operations update.
 */
module ViewLinks {
  import opened Wrappers
  import opened Text

  /** The fields the view keeps a primary sort on, in order. */
  const SortFields: seq<string> := ["id", "type", "created", "modified", "name"]

  /** The indexed fields of a vertex (STIX object) collection. */
  const FilterFieldsVertex: seq<string> := ["type", "name", "labels", "_stix2arango_note"]

  /** The indexed fields of an edge (relationship) collection. */
  const FilterFieldsEdge: seq<string> := ["source_ref", "target_ref", "relationship_type", "_stix2arango_note"]

  /** No entry occurs twice. */
  predicate NoDuplicates(s: seq<string>)
  {
    forall i, j :: 0 <= i < j < |s| ==> s[i] != s[j]
  }

  /**
   * `list(set(xs))`: every entry once. The order of a Python set is not
   * fixed; this keeps the last occurrence of each entry.
   */
  function Dedup(xs: seq<string>): (r: seq<string>)
    ensures NoDuplicates(r)
    ensures forall x :: x in r <==> x in xs
    decreases |xs|
  {
    if |xs| == 0 then []
    else
      var rest := Dedup(xs[1..]);
      assert forall x :: x in xs <==> x == xs[0] || x in xs[1..];
      if xs[0] in xs[1..] then rest else [xs[0]] + rest
  }

  /** `FILTER_FIELDS`: the duplicate-free union of the edge and vertex fields. */
  function FilterFields(): (r: seq<string>)
    ensures NoDuplicates(r)
    ensures forall x :: x in r <==> x in FilterFieldsVertex || x in FilterFieldsEdge
  {
    Dedup(FilterFieldsEdge + FilterFieldsVertex)
  }

  /** One entry of `primarySort`. */
  datatype SortEntry = SortEntry(field: string, direction: string)

  /** The properties a new view is created with. */
  datatype ViewProperties = ViewProperties(primarySort: seq<SortEntry>, storedValues: seq<seq<string>>)

  /** The `primarySort` list: every sort field ascending, immediately followed by the same field descending. */
  method PrimarySort() returns (primarySort: seq<SortEntry>)
    ensures |primarySort| == 2 * |SortFields| == 10
    ensures forall i :: 0 <= i < |SortFields| ==>
              primarySort[2 * i] == SortEntry(SortFields[i], "asc") && primarySort[2 * i + 1] == SortEntry(SortFields[i], "desc")
  {
    primarySort := [];
    for i := 0 to |SortFields|
      invariant |primarySort| == 2 * i
      invariant forall j :: 0 <= j < i ==>
                  primarySort[2 * j] == SortEntry(SortFields[j], "asc") && primarySort[2 * j + 1] == SortEntry(SortFields[j], "desc")
    {
      var field := SortFields[i];
      primarySort := primarySort + [SortEntry(field, "asc")];
      primarySort := primarySort + [SortEntry(field, "desc")];
    }
  }

  /** The properties `create_view` asks for: the primary sort and one stored-values group holding every filter field once. */
  method CreateViewProperties() returns (props: ViewProperties)
    ensures |props.primarySort| == 10
    ensures forall i :: 0 <= i < |SortFields| ==>
              props.primarySort[2 * i] == SortEntry(SortFields[i], "asc") && props.primarySort[2 * i + 1] == SortEntry(SortFields[i], "desc")
    ensures |props.storedValues| == 1 && NoDuplicates(props.storedValues[0])
    ensures forall x :: x in props.storedValues[0] <==> x in FilterFieldsVertex || x in FilterFieldsEdge
  {
    var primarySort := PrimarySort();
    props := ViewProperties(primarySort, [FilterFields()]);
  }

  // ---------------------------------------------------------------------------
  // Link projection

  /** A link: the collection's fields the view indexes (each with default options). */
  datatype Link = Link(fields: seq<string>)

  const VertexSuffix: string := "_vertex_collection"
  const EdgeSuffix: string := "_edge_collection"

  /** `get_link_properties(collection_name)`. */
  function GetLinkProperties(name: string): (r: Option<Link>)
  {
    if EndsWith(name, VertexSuffix) then Some(Link(FilterFieldsVertex))
    else if EndsWith(name, EdgeSuffix) then Some(Link(FilterFieldsEdge))
    else None
  }

  /** No name ends with both suffixes. */
  lemma SuffixesExclusive(name: string)
    ensures !(EndsWith(name, VertexSuffix) && EndsWith(name, EdgeSuffix))
  {
    assert EndsWith(name, VertexSuffix) ==> name[|name| - 12] == VertexSuffix[6] == 'x';
    assert EndsWith(name, EdgeSuffix) ==> name[|name| - 12] == EdgeSuffix[4] == 'e';
  }

  /** Vertex collections index the vertex fields, edge collections the edge fields, anything else nothing. */
  lemma LinkProjection(name: string)
    ensures EndsWith(name, VertexSuffix) ==> GetLinkProperties(name) == Some(Link(FilterFieldsVertex))
    ensures EndsWith(name, EdgeSuffix) ==> GetLinkProperties(name) == Some(Link(FilterFieldsEdge))
    ensures GetLinkProperties(name).None? <==> !EndsWith(name, VertexSuffix) && !EndsWith(name, EdgeSuffix)
  {
    SuffixesExclusive(name);
  }

  /** A collection as `db.collections()` lists it. */
  datatype Collection = Collection(name: string, system: bool)

  /** The `links` map after `link_one_collection(name)`. */
  function LinkOne(links: map<string, Option<Link>>, name: string): map<string, Option<Link>>
  {
    if GetLinkProperties(name).Some? && name != "" then links[name := GetLinkProperties(name)] else links
  }

  /** One step of the intended relink loop: system collections skipped, unrecognised names dropped. */
  function RelinkStep(links: map<string, Option<Link>>, c: Collection): map<string, Option<Link>>
  {
    if c.system then links
    else if GetLinkProperties(c.name).Some? then links[c.name := GetLinkProperties(c.name)]
    else links - {c.name}
  }

  /** The intended relink over every listed collection, in order. */
  function RelinkAllSpec(links: map<string, Option<Link>>, cols: seq<Collection>): map<string, Option<Link>>
    decreases |cols|
  {
    if |cols| == 0 then links else RelinkStep(RelinkAllSpec(links, cols[..|cols| - 1]), cols[|cols| - 1])
  }

  /** The relink loop as written: stops with an error at the first collection it cannot link. */
  function LinkAllAsWritten(links: map<string, Option<Link>>, cols: seq<Collection>): (Result<(), string>, map<string, Option<Link>>)
    decreases |cols|
  {
    if |cols| == 0 then (Ok(()), links)
    else if cols[0].system then LinkAllAsWritten(links, cols[1..])
    else
      var links' := links[cols[0].name := GetLinkProperties(cols[0].name)];
      if GetLinkProperties(cols[0].name).None? then (Err("unhashable type: 'dict'"), links')
      else LinkAllAsWritten(links', cols[1..])
  }

  /** A collection the view can link. */
  predicate Linkable(c: Collection)
  {
    !c.system && GetLinkProperties(c.name).Some?
  }

  /**
   * The search view's `links` map: collection name to link. A value of
   * `None` is what the relink loop stores for an unrecognised collection
   * before it fails.
   */
  class SearchView {
    var links: map<string, Option<Link>>

    constructor (links: map<string, Option<Link>>)
      ensures this.links == links
    {
      this.links := links;
    }

    /** `link_one_collection(db, view_name, collection_name)`. */
    method LinkOneCollection(name: string)
      modifies this
      ensures links == LinkOne(old(links), name)
    {
      var link := GetLinkProperties(name);
      if link.Some? && name != "" {
        links := links[name := link];
      }
    }

    /**
     * `link_all_collections(db, view)` as written: a non-system collection
     * with neither suffix is stored as `None` and then deleted by the
     * collection descriptor instead of its name, which raises.
     */
    method LinkAllCollections(cols: seq<Collection>) returns (r: Result<(), string>)
      modifies this
      ensures (r, links) == LinkAllAsWritten(old(links), cols)
    {
      var i := 0;
      while i < |cols|
        invariant 0 <= i <= |cols|
        invariant LinkAllAsWritten(links, cols[i..]) == LinkAllAsWritten(old(links), cols)
      {
        var c := cols[i];
        assert cols[i..][1..] == cols[i + 1..];
        if c.system {
          i := i + 1;
          continue;
        }
        links := links[c.name := GetLinkProperties(c.name)];
        if links[c.name].None? {
          return Err("unhashable type: 'dict'");
        }
        i := i + 1;
      }
      assert cols[i..] == [];
      r := Ok(());
    }

    /** The relink loop as intended: an unrecognised collection's entry is dropped and the loop goes on. */
    method RelinkAll(cols: seq<Collection>)
      modifies this
      ensures links == RelinkAllSpec(old(links), cols)
    {
      for i := 0 to |cols|
        invariant links == RelinkAllSpec(old(links), cols[..i])
      {
        var c := cols[i];
        assert cols[..i + 1][..i] == cols[..i];
        if c.system {
          continue;
        }
        var link := GetLinkProperties(c.name);
        links := links[c.name := link];
        if link.None? {
          links := links - {c.name};
        }
      }
      assert cols[..|cols|] == cols;
    }
  }

  /** Linking one collection touches no other entry. */
  lemma LinkOneFrame(links: map<string, Option<Link>>, name: string, other: string)
    requires other != name
    ensures other in LinkOne(links, name) <==> other in links
    ensures other in links ==> LinkOne(links, name)[other] == links[other]
  {
  }

  /** Linking one collection maps it to its projection exactly when it has one. */
  lemma LinkOneSets(links: map<string, Option<Link>>, name: string)
    ensures GetLinkProperties(name).Some? ==> name in LinkOne(links, name) && LinkOne(links, name)[name] == GetLinkProperties(name)
    ensures GetLinkProperties(name).None? ==> LinkOne(links, name) == links
  {
    if GetLinkProperties(name).Some? {
      assert name != "";
    }
  }

  /** Linking the same collection twice is the same as linking it once. */
  lemma LinkOneIdempotent(links: map<string, Option<Link>>, name: string)
    ensures LinkOne(LinkOne(links, name), name) == LinkOne(links, name)
  {
  }

  /**
   * After the intended relink, a name listed as a non-system collection is
   * mapped to its projection when it has one and absent otherwise; every
   * other entry is what it was.
   */
  lemma {:induction false} RelinkAllEntry(links: map<string, Option<Link>>, cols: seq<Collection>, n: string)
    ensures (exists c :: c in cols && !c.system && c.name == n) ==>
              if GetLinkProperties(n).Some? then n in RelinkAllSpec(links, cols) && RelinkAllSpec(links, cols)[n] == GetLinkProperties(n)
              else n !in RelinkAllSpec(links, cols)
    ensures (forall c :: c in cols && !c.system ==> c.name != n) ==>
              (n in RelinkAllSpec(links, cols) <==> n in links) && (n in links ==> RelinkAllSpec(links, cols)[n] == links[n])
    decreases |cols|
  {
    if |cols| > 0 {
      var init := cols[..|cols| - 1];
      var last := cols[|cols| - 1];
      RelinkAllEntry(links, init, n);
      assert forall c :: c in cols <==> c in init || c == last;
    }
  }

  /** Relinking twice gives the same links as relinking once. */
  lemma RelinkAllIdempotent(links: map<string, Option<Link>>, cols: seq<Collection>)
    ensures RelinkAllSpec(RelinkAllSpec(links, cols), cols) == RelinkAllSpec(links, cols)
  {
    var once := RelinkAllSpec(links, cols);
    var twice := RelinkAllSpec(once, cols);
    forall n ensures (n in twice <==> n in once) && (n in once ==> twice[n] == once[n]) {
      RelinkAllEntry(links, cols, n);
      RelinkAllEntry(once, cols, n);
    }
  }

  /** Every link the intended relink keeps or adds is a real projection, unless it was already there. */
  lemma RelinkAllLinked(links: map<string, Option<Link>>, cols: seq<Collection>, c: Collection)
    requires c in cols && Linkable(c)
    ensures c.name in RelinkAllSpec(links, cols) && RelinkAllSpec(links, cols)[c.name].Some?
  {
    RelinkAllEntry(links, cols, c.name);
  }

  /**
   * The loop as written fails exactly when some listed non-system
   * collection has neither suffix; when it does not fail it agrees with the
   * intended relink.
   */
  lemma {:induction false} LinkAllAsWrittenAgrees(links: map<string, Option<Link>>, cols: seq<Collection>)
    ensures LinkAllAsWritten(links, cols).0.Err? <==> exists c :: c in cols && !c.system && GetLinkProperties(c.name).None?
    ensures LinkAllAsWritten(links, cols).0.Ok? ==> LinkAllAsWritten(links, cols).1 == RelinkAllSpec(links, cols)
    decreases |cols|
  {
    if |cols| > 0 {
      var c := cols[0];
      var links' := if c.system then links else links[c.name := GetLinkProperties(c.name)];
      LinkAllAsWrittenAgrees(links', cols[1..]);
      assert forall x :: x in cols <==> x == c || x in cols[1..];
      if LinkAllAsWritten(links, cols).0.Ok? {
        assert RelinkStep(links, c) == links';
        RelinkAllPrepend(links, c, cols[1..]);
        assert [c] + cols[1..] == cols;
      }
    }
  }

  /** Running the intended loop over `[c] + rest` is running it over `rest` after `c`. */
  lemma {:induction false} RelinkAllPrepend(links: map<string, Option<Link>>, c: Collection, rest: seq<Collection>)
    ensures RelinkAllSpec(links, [c] + rest) == RelinkAllSpec(RelinkStep(links, c), rest)
    decreases |rest|
  {
    if |rest| == 0 {
      assert RelinkAllSpec(links, [c]) == RelinkStep(RelinkAllSpec(links, []), c);
    } else {
      var s := [c] + rest;
      assert s[..|s| - 1] == [c] + rest[..|rest| - 1];
      RelinkAllPrepend(links, c, rest[..|rest| - 1]);
    }
  }

  /** A database with one user collection that has neither suffix makes the loop as written fail. */
  lemma LinkAllCollectionsFails()
    ensures LinkAllAsWritten(map[], [Collection("notes", false)]).0 == Err("unhashable type: 'dict'")
    ensures RelinkAllSpec(map[], [Collection("notes", false)]) == map[]
  {
    assert !EndsWith("notes", VertexSuffix) && !EndsWith("notes", EdgeSuffix);
    assert [Collection("notes", false)][1..] == [];
    assert [Collection("notes", false)][..0] == [];
  }
}
