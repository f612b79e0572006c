/**
 * The txt2stix extractor serializer of stixifier/serializers.py: the public
 * projection of one extractor and the catalogue of extractors of the
 * requested types, keyed by slug.
 */
module Extractors {
  import opened Wrappers
  import opened Json

  /**
   * An extractor from the txt2stix configuration: its slug, type and file
   * attributes, and `props`, what `key in extractor` and `extractor[key]`
   * see of it.
   */
  datatype Extractor = Extractor(slug: string, typ: string, file: Option<string>, props: Object)

  /** The keys `cleanup_extractor` copies, in the order it copies them. */
  const CleanupKeys: seq<string> :=
    ["name", "type", "description", "notes", "file", "created", "modified", "created_by", "version", "stix_mapping"]

  /** The public projection of one extractor: `id` is the slug, and the listed keys it has are copied. */
  function Cleaned(e: Extractor): (r: Object)
    ensures "id" in r && r["id"] == JStr(e.slug)
    ensures forall k :: k in r <==> k == "id" || (k in CleanupKeys && k in e.props)
    ensures forall k :: k in r && k != "id" ==> r[k] == e.props[k]
  {
    map k | k in {"id"} + (set x | x in CleanupKeys && x in e.props) :: if k == "id" then JStr(e.slug) else e.props[k]
  }

  /** `cleanup_extractor(dct)`. */
  method CleanupExtractor(e: Extractor) returns (r: Object)
    ensures r == Cleaned(e)
  {
    r := map["id" := JStr(e.slug)];
    for i := 0 to |CleanupKeys|
      invariant "id" in r && r["id"] == JStr(e.slug)
      invariant forall k :: k in r <==> k == "id" || (k in CleanupKeys[..i] && k in e.props)
      invariant forall k :: k in r && k != "id" ==> r[k] == e.props[k]
    {
      var key := CleanupKeys[i];
      assert CleanupKeys[..i + 1] == CleanupKeys[..i] + [key];
      if key in e.props {
        r := r[key := e.props[key]];
      }
    }
    assert CleanupKeys[..|CleanupKeys|] == CleanupKeys;
    assert r.Keys == Cleaned(e).Keys;
  }

  /**
   * The projection the catalogue shows: the cleaned extractor whose `file`
   * entry, when the extractor has a file, is the URL the include location
   * maps it to. The URL join is a parameter.
   */
  function Projected(e: Extractor, fileUrl: string -> string): (r: Object)
    ensures "id" in r && r["id"] == JStr(e.slug)
    ensures e.file.Some? ==> "file" in r && r["file"] == JStr(fileUrl(e.file.value))
    ensures forall k :: k in r <==> k == "id" || (k in CleanupKeys && k in e.props) || (k == "file" && e.file.Some?)
    ensures forall k :: k in r && k != "id" && !(k == "file" && e.file.Some?) ==> r[k] == e.props[k]
  {
    var c := Cleaned(e);
    if e.file.Some? then c["file" := JStr(fileUrl(e.file.value))] else c
  }

  /** The catalogue of the extractors seen so far: a later extractor replaces an earlier one with the same slug. */
  function Catalogue(exts: seq<Extractor>, types: seq<string>, fileUrl: string -> string): map<string, Object>
    decreases |exts|
  {
    if |exts| == 0 then map[]
    else
      var e := exts[|exts| - 1];
      var prev := Catalogue(exts[..|exts| - 1], types, fileUrl);
      if e.typ in types then prev[e.slug := Projected(e, fileUrl)] else prev
  }

  /** `Txt2stixExtractorSerializer.all_extractors(types)` over the configured extractors. */
  method AllExtractors(exts: seq<Extractor>, types: seq<string>, fileUrl: string -> string) returns (retval: map<string, Object>)
    ensures retval == Catalogue(exts, types, fileUrl)
  {
    retval := map[];
    for i := 0 to |exts|
      invariant retval == Catalogue(exts[..i], types, fileUrl)
    {
      var e := exts[i];
      assert exts[..i + 1][..i] == exts[..i];
      if e.typ in types {
        var c := CleanupExtractor(e);
        retval := retval[e.slug := c];
        if e.file.Some? {
          retval := retval[e.slug := retval[e.slug]["file" := JStr(fileUrl(e.file.value))]];
        }
      }
    }
    assert exts[..|exts|] == exts;
  }

  /** The catalogue holds a slug exactly when some extractor of a requested type has it. */
  lemma {:induction false} CatalogueKeys(exts: seq<Extractor>, types: seq<string>, fileUrl: string -> string, slug: string)
    ensures slug in Catalogue(exts, types, fileUrl) <==> exists i :: 0 <= i < |exts| && exts[i].slug == slug && exts[i].typ in types
    decreases |exts|
  {
    if |exts| > 0 {
      var init := exts[..|exts| - 1];
      CatalogueKeys(init, types, fileUrl, slug);
      if exists i :: 0 <= i < |init| && init[i].slug == slug && init[i].typ in types {
        var i :| 0 <= i < |init| && init[i].slug == slug && init[i].typ in types;
        assert exts[i] == init[i];
      }
      if exists i :: 0 <= i < |exts| && exts[i].slug == slug && exts[i].typ in types {
        var i :| 0 <= i < |exts| && exts[i].slug == slug && exts[i].typ in types;
        if i < |init| {
          assert exts[i] == init[i];
        }
      }
    }
  }

  /** Slugs are unique among the configured extractors. */
  predicate DistinctSlugs(exts: seq<Extractor>) {
    forall i, j :: 0 <= i < j < |exts| ==> exts[i].slug != exts[j].slug
  }

  /** With unique slugs, each extractor of a requested type appears under its slug as its projection. */
  lemma {:induction false} CatalogueValues(exts: seq<Extractor>, types: seq<string>, fileUrl: string -> string, i: nat)
    requires DistinctSlugs(exts)
    requires i < |exts| && exts[i].typ in types
    ensures exts[i].slug in Catalogue(exts, types, fileUrl)
    ensures Catalogue(exts, types, fileUrl)[exts[i].slug] == Projected(exts[i], fileUrl)
    decreases |exts|
  {
    var n := |exts| - 1;
    if i < n {
      var init := exts[..n];
      assert init[i] == exts[i];
      CatalogueValues(init, types, fileUrl, i);
    }
  }
}
