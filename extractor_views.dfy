/**
 * The extractor endpoints of stixifier/views.py: the catalogue filtered by
 * the `type` and `name` query parameters, and the lookup of one entry.
 */
module ExtractorViews {
  import opened Wrappers
  import opened Text
  import opened Json
  import opened Extractors

  /** The extractor types listed when no `type` parameter is given. */
  const ExtractorTypes: seq<string> := ["lookup", "pattern", "ai"]

  /** A catalogue entry without a string `name` makes the name filter raise. */
  datatype ViewError = NameNotString

  /** The HTTP response of a lookup. */
  datatype HttpResponse = HttpResponse(status: int, body: Json)

  /** The types to list: the comma-separated `type` parameter when it is given and not empty, the three known types otherwise. */
  function RequestedTypes(typeParam: Option<string>): seq<string> {
    if typeParam.Some? && typeParam.value != "" then Split(typeParam.value, ',') else ExtractorTypes
  }

  /** The entry has a string `name` that contains `name`, both lower-cased. */
  predicate NameMatches(entry: Object, name: string) {
    "name" in entry && entry["name"].JStr? && Contains(Lower(entry["name"].s), name)
  }

  /** The entry has no `name`, or one that is not a string. */
  predicate NameMissing(entry: Object) {
    !("name" in entry && entry["name"].JStr?)
  }

  /**
   * The name filter over a listing: with an empty name everything is kept;
   * otherwise an entry without a string name makes it fail, and the entries
   * whose lower-cased name contains the name are kept with their values.
   */
  function FilterByName(all: map<string, Object>, name: string): (r: Result<map<string, Object>, ViewError>)
    ensures r.Err? <==> name != "" && exists s :: s in all && NameMissing(all[s])
    ensures r.Ok? ==> forall s :: s in r.value <==> s in all && (name == "" || NameMatches(all[s], name))
    ensures r.Ok? ==> forall s :: s in r.value ==> r.value[s] == all[s]
  {
    if name == "" then Ok(all)
    else if exists s :: s in all && NameMissing(all[s]) then Err(NameNotString)
    else Ok(map s | s in all && NameMatches(all[s], name) :: all[s])
  }

  /** The lower-cased `name` parameter, empty when it is absent. */
  function NameParam(nameParam: Option<string>): string {
    Lower(if nameParam.Some? then nameParam.value else "")
  }

  /**
   * `ExtractorsView.get_all()`: the catalogue of the requested types,
   * filtered by the `name` parameter.
   */
  function GetAll(typeParam: Option<string>, nameParam: Option<string>, exts: seq<Extractor>, fileUrl: string -> string): Result<map<string, Object>, ViewError>
  {
    FilterByName(Catalogue(exts, RequestedTypes(typeParam), fileUrl), NameParam(nameParam))
  }

  /** Every slug `get_all` lists belongs to an extractor of a requested type, and its entry matches the name filter. */
  lemma GetAllSound(typeParam: Option<string>, nameParam: Option<string>, exts: seq<Extractor>, fileUrl: string -> string, slug: string)
    requires GetAll(typeParam, nameParam, exts, fileUrl).Ok?
    requires slug in GetAll(typeParam, nameParam, exts, fileUrl).value
    ensures exists i :: 0 <= i < |exts| && exts[i].slug == slug && exts[i].typ in RequestedTypes(typeParam)
    ensures var entry := GetAll(typeParam, nameParam, exts, fileUrl).value[slug];
      NameParam(nameParam) == "" || NameMatches(entry, NameParam(nameParam))
  {
    var types := RequestedTypes(typeParam);
    var all := Catalogue(exts, types, fileUrl);
    assert slug in all;
    CatalogueKeys(exts, types, fileUrl, slug);
  }

  /**
   * With unique slugs, every extractor of a requested type whose projection
   * matches the name filter is listed under its slug, as its projection.
   */
  lemma GetAllComplete(typeParam: Option<string>, nameParam: Option<string>, exts: seq<Extractor>, fileUrl: string -> string, i: nat)
    requires GetAll(typeParam, nameParam, exts, fileUrl).Ok?
    requires DistinctSlugs(exts) && i < |exts| && exts[i].typ in RequestedTypes(typeParam)
    requires NameParam(nameParam) == "" || NameMatches(Projected(exts[i], fileUrl), NameParam(nameParam))
    ensures exts[i].slug in GetAll(typeParam, nameParam, exts, fileUrl).value
    ensures GetAll(typeParam, nameParam, exts, fileUrl).value[exts[i].slug] == Projected(exts[i], fileUrl)
  {
    CatalogueValues(exts, RequestedTypes(typeParam), fileUrl, i);
  }

  /** With neither parameter, `get_all` lists the whole catalogue of the three known types. */
  lemma GetAllDefault(exts: seq<Extractor>, fileUrl: string -> string)
    ensures GetAll(None, None, exts, fileUrl) == Ok(Catalogue(exts, ["lookup", "pattern", "ai"], fileUrl))
  {
    assert Lower("") == "";
  }

  /**
   * `txt2stixView.retrieve()`: the entry under the requested id when there
   * is a non-empty one; otherwise a 404 whose body carries the message
   * "item not found" and the code 404.
   */
  function Retrieve(items: map<string, Object>, id: Option<string>): (r: HttpResponse)
    ensures r.status == 200 <==> id.Some? && id.value in items && |items[id.value]| > 0
    ensures r.status == 200 ==> r.body == JDict(items[id.value])
    ensures r.status != 200 ==> r.status == 404 && r.body == JDict(map["message" := JStr("item not found"), "code" := JInt(404)])
  {
    if id.Some? && id.value in items && |items[id.value]| > 0 then HttpResponse(200, JDict(items[id.value]))
    else HttpResponse(404, JDict(map["message" := JStr("item not found"), "code" := JInt(404)]))
  }

  /**
   * Every extractor of a listed type can be retrieved by its slug from an
   * unfiltered listing, and the body is its projection.
   */
  lemma RetrieveListed(typeParam: Option<string>, exts: seq<Extractor>, fileUrl: string -> string, i: nat)
    requires DistinctSlugs(exts)
    requires i < |exts| && exts[i].typ in RequestedTypes(typeParam)
    ensures GetAll(typeParam, None, exts, fileUrl).Ok?
    ensures Retrieve(GetAll(typeParam, None, exts, fileUrl).value, Some(exts[i].slug))
         == HttpResponse(200, JDict(Projected(exts[i], fileUrl)))
  {
    CatalogueValues(exts, RequestedTypes(typeParam), fileUrl, i);
    var p := Projected(exts[i], fileUrl);
    assert "id" in p;
  }
}
