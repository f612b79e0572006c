/**
 * The request's query string as the helper sees it (`request.query_params.dict()`)
 * and the two readers `query_as_array` and `query_as_bool`.
 */
module QueryParams {
  import opened Wrappers
  import opened Text

  /** The query string: one value per key (the last one, as `QueryDict.dict()` keeps). */
  type Query = map<string, string>

  /** `query.get(key)`. */
  function Get(query: Query, key: string): (r: Option<string>)
    ensures r.Some? <==> key in query
    ensures r.Some? ==> r.value == query[key]
  {
    if key in query then Some(query[key]) else None
  }

  /**
   * The value of a parameter as the walrus tests `if v := query.get(key)` see it:
   * an absent and an empty parameter both read as "".
   */
  function Param(query: Query, key: string): (r: string)
    ensures r != "" <==> key in query && query[key] != ""
    ensures r != "" ==> r == query[key]
  {
    if key in query then query[key] else ""
  }

  /** `query_as_array(key)`: [] for an absent or empty parameter, else its comma split. */
  function QueryAsArray(query: Query, key: string): (r: seq<string>)
    ensures Param(query, key) == "" ==> r == []
    ensures Param(query, key) != "" ==> |r| >= 1 && Join(r, ',') == query[key]
    ensures forall i :: 0 <= i < |r| ==> ',' !in r[i]
  {
    var v := Param(query, key);
    if v == "" then []
    else
      JoinSplit(v, ',');
      SplitPiecesFree(v, ',');
      Split(v, ',')
  }

  /** The spellings `query_as_bool` accepts as true, after lower-casing. */
  const TrueWords: set<string> := {"true", "yes", "1", "y"}

  /** `query_as_bool(key, default)`. */
  function QueryAsBool(query: Query, key: string, default: bool): (r: bool)
    ensures Param(query, key) == "" ==> r == default
    ensures Param(query, key) != "" ==> (r <==> Lower(query[key]) in TrueWords)
  {
    var v := Param(query, key);
    if v == "" then default else Lower(v) in TrueWords
  }

  /** Any capitalisation of a true word reads as true. */
  lemma QueryAsBoolCaseInsensitive(query: Query, key: string, default: bool)
    requires key in query && query[key] != ""
    ensures QueryAsBool(query, key, default) == QueryAsBool(query[key := Lower(query[key])], key, default)
  {
    LowerIdempotent(query[key]);
  }

  /** A parameter without commas is read back as a one-element array. */
  lemma {:induction false} QueryAsArraySingle(query: Query, key: string)
    requires key in query && query[key] != "" && ',' !in query[key]
    ensures QueryAsArray(query, key) == [query[key]]
  {
    SplitFree(query[key], ',');
  }
}
