/**
 * `get_sort_stmt`: the `SORT` clause built from the `sort` query parameter.
 * A token is parsed with the regular expression `(.+)_((a|de)sc)ending`
 * applied by `re.match`, i.e. anchored at the start only, with a greedy
 * `.+` that does not cross a newline.
 */
module SortClause {
  import opened Wrappers
  import opened Text
  import opened QueryParams
  import opened Taxonomy

  /**
   * The regular-expression match tried with `.+` covering `s[..i]`, then
   * shorter and shorter: the first (greedy) split point at or below `i`
   * that is followed by `_ascending` or `_descending`.
   */
  function SortMatchAt(s: string, i: nat): (r: Option<(string, string)>)
    requires i <= |s|
    ensures r.Some? ==> 1 <= |r.value.0| <= i && r.value.0 == s[..|r.value.0|]
    ensures r.Some? ==> r.value.1 in {"asc", "desc"}
    ensures r.Some? ==> '\n' !in r.value.0
    decreases i
  {
    if i < 1 then None
    else if '\n' !in s[..i] && "_ascending" <= s[i..] then Some((s[..i], "asc"))
    else if '\n' !in s[..i] && "_descending" <= s[i..] then Some((s[..i], "desc"))
    else SortMatchAt(s, i - 1)
  }

  /** `re.match(r"(.+)_((a|de)sc)ending", s)`: the field and the direction group. */
  function SortTokenMatch(s: string): (r: Option<(string, string)>)
  {
    SortMatchAt(s, |s|)
  }

  /** Every split point above the one of `f_ascending`/`f_descending` leaves too few characters. */
  lemma {:induction false} SortMatchAtAbove(s: string, f: string, suffix: string, i: nat)
    requires suffix == "_ascending" || suffix == "_descending"
    requires s == f + suffix && |f| <= i <= |s|
    requires |f| >= 1 && '\n' !in f
    ensures SortMatchAt(s, i) == SortMatchAt(s, |f|)
    decreases i
  {
    if i > |f| {
      if suffix == "_descending" && i == |f| + 1 {
        assert s[i] == 'd';
      }
      SortMatchAtAbove(s, f, suffix, i - 1);
    }
  }

  /** A token `f_ascending` or `f_descending` splits back into `f` and its direction. */
  lemma SortTokenRoundTrip(f: string, ascending: bool)
    requires |f| >= 1 && '\n' !in f
    ensures SortTokenMatch(f + (if ascending then "_ascending" else "_descending"))
            == Some((f, if ascending then "asc" else "desc"))
  {
    var suffix := if ascending then "_ascending" else "_descending";
    var s := f + suffix;
    SortMatchAtAbove(s, f, suffix, |s|);
    assert s[..|f|] == f && s[|f|..] == suffix;
    if !ascending {
      assert s[|f|..][1] == 'd';
    }
  }

  /** The upper-cased direction group. */
  function Upper(direction: string): string
  {
    if direction == "asc" then "ASC" else "DESC"
  }

  /** `SORT <expr> ASC|DESC` for a matched field and direction group. */
  function SortClauseOf(field: string, direction: string, customs: map<string, string>, docName: string): (r: string)
    ensures "SORT " <= r && (EndsWith(r, " ASC") || EndsWith(r, " DESC"))
  {
    var d := " " + Upper(direction);
    var expr := if field in customs && customs[field] != "" then customs[field] else docName + "." + field;
    EndsWithAppend("SORT " + expr, d);
    "SORT " + expr + d
  }

  /**
   * `get_sort_stmt(sort_options, customs, doc_name)`: the first option when
   * no `sort` parameter is given; "" for a token that is not an option;
   * `None` (Python's implicit return) for an option the expression does not
   * match; otherwise `SORT <expr> ASC|DESC`, where `<expr>` is the custom
   * expression of the field when one is given, else `<doc_name>.<field>`.
   */
  function GetSortStmt(query: Query, sortOptions: seq<string>, customs: map<string, string>, docName: string): (r: Option<string>)
    requires |sortOptions| > 0
    ensures r == Some("") <==> Get(query, "sort").Some? && query["sort"] !in sortOptions
    ensures r.Some? && r.value != "" ==> "SORT " <= r.value && (EndsWith(r.value, " ASC") || EndsWith(r.value, " DESC"))
  {
    var sortField := if "sort" in query then query["sort"] else sortOptions[0];
    if sortField !in sortOptions then Some("")
    else
      match SortTokenMatch(sortField)
      case None => None
      case Some((field, direction)) => Some(SortClauseOf(field, direction, customs, docName))
  }

  /** A recognised `f_ascending`/`f_descending` token gives `SORT doc.f ASC|DESC` when `f` has no custom expression. */
  lemma SortStmtOfToken(query: Query, sortOptions: seq<string>, docName: string, f: string, ascending: bool)
    requires |f| >= 1 && '\n' !in f
    requires Get(query, "sort") == Some(f + (if ascending then "_ascending" else "_descending"))
    requires query["sort"] in sortOptions
    ensures GetSortStmt(query, sortOptions, map[], docName) == Some("SORT " + docName + "." + f + (if ascending then " ASC" else " DESC"))
  {
    SortTokenRoundTrip(f, ascending);
    assert " " + Upper("asc") == " ASC";
    assert " " + Upper("desc") == " DESC";
    var e := docName + "." + f;
    assert "SORT " + e + " ASC" == "SORT " + docName + "." + f + " ASC";
    assert "SORT " + e + " DESC" == "SORT " + docName + "." + f + " DESC";
  }

  /** Without a `sort` parameter the first option is used, whatever its position in the list. */
  lemma SortStmtDefault(query: Query, sortOptions: seq<string>, docName: string, f: string, ascending: bool)
    requires |f| >= 1 && '\n' !in f
    requires "sort" !in query
    requires |sortOptions| > 0 && sortOptions[0] == f + (if ascending then "_ascending" else "_descending")
    ensures GetSortStmt(query, sortOptions, map[], docName) == Some("SORT " + docName + "." + f + (if ascending then " ASC" else " DESC"))
  {
    SortTokenRoundTrip(f, ascending);
    assert " " + Upper("asc") == " ASC";
    assert " " + Upper("desc") == " DESC";
    var e := docName + "." + f;
    assert "SORT " + e + " ASC" == "SORT " + docName + "." + f + " ASC";
    assert "SORT " + e + " DESC" == "SORT " + docName + "." + f + " DESC";
  }

  /** The domain-object search sorts by name, ascending, when no `sort` is given. */
  lemma SdoDefaultSort(query: Query)
    requires "sort" !in query
    ensures GetSortStmt(query, SdoSortFields, map[], "doc") == Some("SORT doc.name ASC")
  {
    assert SdoSortFields[0] == "name" + "_ascending";
    assert '\n' !in "name";
    assert "SORT " + "doc" + "." + "name" + " ASC" == "SORT doc.name ASC";
    SortStmtDefault(query, SdoSortFields, "doc", "name", true);
  }

  /** The observable search sorts by type, ascending, when no `sort` is given. */
  lemma ScoDefaultSort(query: Query)
    requires "sort" !in query
    ensures GetSortStmt(query, ScoSortFields, map[], "doc") == Some("SORT doc.type ASC")
  {
    assert ScoSortFields[0] == "type" + "_ascending";
    assert '\n' !in "type";
    assert "SORT " + "doc" + "." + "type" + " ASC" == "SORT doc.type ASC";
    SortStmtDefault(query, ScoSortFields, "doc", "type", true);
  }
}
