# dogesec_commons: the ArangoDB query layer and the txt2stix glue

This project models the shared core of the dogesec services: the object API's
query layer over an ArangoDB view of STIX documents and the setup of that view,
the extractor catalogue and the stixify processor that tags every bundle object
with its report, the `sort` ordering filter, and the error envelope that every
REST response uses.

- **Query layer (`ArangoDBHelper`)**:
  - Query-string handling: `positive_int`, the page parameters, `query_as_array` and `query_as_bool`.
  - The `LIKE` literal escaping.
  - The `SORT` clause built from a `<field>_(ascending|descending)` token.
  - Paging, with its 2^32 page limit.
  - The four partition searches (SCO, SMO, SDO and SRO). Each picks the latest version of each logical id.
  - Lookup of one object by id.
  - The one-hop object bundle.
  - The reports that contain an object.
  - The cascading delete of an object from a report. This deletes the object and its edges, removes their ids from the report's `object_refs`, and asks for `_is_latest` to be recomputed.
- **View setup (`db_view_creator.py`)**: the view's primary sort and stored values, the link projection for each collection, and linking one collection or all of them.
- **Stixifier**:
  - The extractor serializer (`cleanup_extractor`, `all_extractors`).
  - The extractor views (`get_all`, `retrieve`).
  - `all_extractors` of the processor and the grouping of extractors by type.
  - The `extra_data` that `write_bundle` merges into every object.
  - The `Ordering` filter.
- **Errors**: `custom_exception_handler`.

The database is a sequence of documents, a "view snapshot" (`Docs.Doc`). A query is what it selects from that snapshot. A failing database call is a boolean parameter (`available`, `lookupOk`, `updateOk`). Where the source mutates state, the model does too:
- `ArangoDBHelper` is a class that fixes its page and page size when it is constructed.
- The view's links are a `map` field of `SearchView`.
- The report store is a `map` field of `ReportStore`.
- `extra_data` is a field of `StixifyProcessor`.
- A bundle's objects are an `array`, updated in place.

Modules:
- Shared data: `Wrappers` (Option/Result), `Text` (lower-casing, split/join, strip, suffixes), `Json`, `Taxonomy` (the type sets and sort-field lists), `Docs` (documents, visibility, versions, collapse to the latest version).
- Query layer: `QueryParams`, `Paging`, `Like`, `SortClause`, `Search`, `CascadeDelete`.
- View setup: `ViewLinks`.
- Stixifier: `Ordering`, `Extractors`, `ExtractorViews`, `Stixifier`.
- Errors: `Exceptions`.

## Model

| member | source | states |
|---|---|---|
| Taxonomy.RequestedTypes | dogesec_commons/objects/helpers.py:374-377 | the searched types are the partition's type set, narrowed to the requested types when a `types` list is given, and never a type outside the partition |
| Text.Lower | dogesec_commons/objects/helpers.py:178 | lower-casing keeps the length and maps each character by itself (ASCII upper case to lower case) |
| Text.LowerIdempotent | dogesec_commons/objects/helpers.py:316-317 | lower-casing twice equals lower-casing once |
| Text.JoinSplit | dogesec_commons/objects/helpers.py:168-172 | joining the pieces of `split(",")` with "," gives back the string |
| Text.SplitPiecesFree | dogesec_commons/objects/helpers.py:172 | no piece of a split contains the separator |
| Text.SplitFree | dogesec_commons/objects/helpers.py:172 | a string without the separator splits into itself alone |
| Text.Strip | dogesec_commons/stixifier/utils.py:62 | `strip()` leaves no white space at either end |
| Text.StripOccurs | dogesec_commons/stixifier/utils.py:62 | the stripped string is the original with only white space removed at the ends |
| Text.StripUnspaced | dogesec_commons/stixifier/utils.py:62 | a string without white space at its ends is its own strip |
| Text.RemoveSuffix | dogesec_commons/objects/helpers.py:660-662 | `removesuffix` drops the suffix exactly when the string ends with it, and otherwise returns the string |
| Text.ContainsAt | dogesec_commons/stixifier/views.py:157 | `t in s` holds exactly when `t` occurs at some index of `s` |
| Text.StrLeTotal | dogesec_commons/objects/helpers.py:367 | the string order used for `modified OR created` is total |
| Text.StrLeTransitive | dogesec_commons/objects/helpers.py:367 | the string order is transitive |
| Text.StrLeAntisymmetric | dogesec_commons/objects/helpers.py:367 | the string order is antisymmetric |
| QueryParams.Get | dogesec_commons/objects/helpers.py:169 | `query.get(key)` is present exactly when the key is, with its value |
| QueryParams.QueryAsArray | dogesec_commons/objects/helpers.py:168-172 | an absent or empty parameter gives the empty list; otherwise a non-empty list of comma-free pieces whose join is the parameter |
| QueryParams.QueryAsArraySingle | dogesec_commons/objects/helpers.py:168-172 | a parameter without a comma is a one-element list |
| QueryParams.QueryAsBool | dogesec_commons/objects/helpers.py:174-178 | an absent or empty parameter gives the default; otherwise true exactly when its lower-cased value is one of true, yes, 1, y |
| QueryParams.QueryAsBoolCaseInsensitive | dogesec_commons/objects/helpers.py:178 | the boolean does not depend on the parameter's case |
| Paging.ParseIntDecimal | dogesec_commons/objects/helpers.py:122 | `int()` of the decimal text of any integer gives that integer back |
| Paging.NatDigitsValue | dogesec_commons/objects/helpers.py:122 | the digits of a natural number read back as that number |
| Paging.PositiveInt | dogesec_commons/objects/helpers.py:117-128 | whenever `int()` reads a positive n from the text (padded, signed, zero-led or underscored spellings included), the result is n capped at a non-zero cutoff; an absent, unparsable, zero or negative value gives the default |
| Paging.PositiveIntNonCanonical | dogesec_commons/objects/helpers.py:122-127 | `" +0_07 "` is read as 7 |
| Paging.PositiveIntOfPositive | dogesec_commons/objects/helpers.py:122-127 | a positive number gives itself, capped at a non-zero cutoff |
| Paging.PositiveIntOfNonPositive | dogesec_commons/objects/helpers.py:123-124 | zero or a negative number gives the default |
| Paging.GetPageParams | dogesec_commons/objects/helpers.py:180-188 | the page is the positive number `int()` reads from `page`, else 1; the page size is the positive number read from `page_size` capped at 200, else 50; so the page is at least 1 and the size between 1 and 200 |
| Paging.PageParamsOfPositive | dogesec_commons/objects/helpers.py:180-188 | positive `page` and `page_size` are taken as given, with the size capped at 200 |
| Paging.TimesIsProduct | dogesec_commons/objects/helpers.py:303 | the offset product computed by repeated addition is the product |
| Paging.GetOffsetAndCount | dogesec_commons/objects/helpers.py:299-304 | a page of 2^32 or more is an `invalid page` error; otherwise the count is kept and the offset is not negative |
| Paging.OffsetIsProduct | dogesec_commons/objects/helpers.py:299-304 | the offset is `(page - 1) * count`, with a page of 0 read as 1, and consecutive pages are `count` apart |
| Paging.PaginatedResponse | dogesec_commons/objects/helpers.py:190-202 | the envelope carries the data under the result key with its length, the full count, the page number, and the page size (50 when it is 0) |
| Like.LikeString | dogesec_commons/objects/helpers.py:152-154 | the pattern is the escaped literal between two `%` |
| Like.GetLikeLiteralEscapesEach | dogesec_commons/objects/helpers.py:148-150 | the two chained replaces escape each `_` and `%` by a backslash, character by character |
| Like.LikeLiteralLength | dogesec_commons/objects/helpers.py:148-150 | the literal is one character longer for each wildcard |
| Like.UnescapeLikeLiteral | dogesec_commons/objects/helpers.py:148-150 | for a term without backslashes, unescaping the literal gives back the term |
| Like.LikeStringIsContains | dogesec_commons/objects/helpers.py:152-154 | for a term without backslashes, `LIKE %term%` holds exactly when the value contains the term |
| Like.BackslashTermIsNotLiteral | dogesec_commons/objects/helpers.py:148-150 | a term holding a backslash is not matched literally: `"a"` matches `LIKE %\a%` but does not contain `\a` |
| Like.LikeMatchPercent | dogesec_commons/objects/helpers.py:154 | `%` matches every value |
| SortClause.SortMatchAt | dogesec_commons/objects/helpers.py:157-163 | a match of `(.+)_((a\|de)sc)ending` yields a non-empty prefix of the token as field and `asc` or `desc` as direction |
| SortClause.SortTokenRoundTrip | dogesec_commons/objects/helpers.py:157-163 | the token `<field>_ascending` / `<field>_descending` is parsed back into that field and direction |
| SortClause.SortClauseOf | dogesec_commons/objects/helpers.py:164-166 | the clause is `SORT …` ending in ` ASC` or ` DESC` |
| SortClause.GetSortStmt | dogesec_commons/objects/helpers.py:156-166 | the statement is empty exactly when the given `sort` is not an option; otherwise it is a `SORT` clause (or no value when the pattern fails) |
| SortClause.SortStmtOfToken | dogesec_commons/objects/helpers.py:158-166 | an offered `<field>_<dir>ending` token gives `SORT doc.<field> <DIR>` |
| SortClause.SortStmtDefault | dogesec_commons/objects/helpers.py:158 | without `sort`, the first option is used |
| SortClause.SdoDefaultSort | dogesec_commons/objects/helpers.py:434 | the default domain-object order is `SORT doc.name ASC` |
| SortClause.ScoDefaultSort | dogesec_commons/objects/helpers.py:364 | the default observable order is `SORT doc.type ASC` |
| Docs.OptLeTotal | dogesec_commons/objects/helpers.py:367 | the `modified OR created` stamp order, with missing stamps lowest, is total |
| Docs.OptLeTransitive | dogesec_commons/objects/helpers.py:367 | the stamp order is transitive |
| Docs.OptLeAntisymmetric | dogesec_commons/objects/helpers.py:367 | the stamp order is antisymmetric |
| Docs.VersionLeTotal | dogesec_commons/objects/helpers.py:367 | the version order (stamp, then `_record_modified`) is total |
| Docs.VersionLeTransitive | dogesec_commons/objects/helpers.py:367 | the version order is transitive |
| Docs.Latest | dogesec_commons/objects/helpers.py:367 | the `FIRST` of a non-empty group sorted descending is a member no other member is newer than |
| Docs.WithId | dogesec_commons/objects/helpers.py:366 | the group of an id holds exactly the documents with that id |
| Docs.WithoutId | dogesec_commons/objects/helpers.py:366 | the rest holds exactly the documents with other ids, and is shorter when the id occurred |
| Docs.Collapse | dogesec_commons/objects/helpers.py:366-367 | `COLLECT id` then the latest version gives one document per id, each a member and the newest of its id, covering exactly the ids of the input |
| Docs.CollapseCount | dogesec_commons/objects/helpers.py:366-367 | the collapse has as many entries as there are distinct ids |
| Docs.CollapseCovers | dogesec_commons/objects/helpers.py:366-367 | every input document's id is represented |
| Docs.DistinctIdsCount | dogesec_commons/objects/helpers.py:366 | a list with distinct ids has as many ids as entries |
| Search.Window | dogesec_commons/objects/helpers.py:369 | `LIMIT offset, count` gives at most `count` consecutive rows from `offset`, exactly `count` when enough rows remain |
| Search.WindowInRows | dogesec_commons/objects/helpers.py:369 | every row of a page comes from the input |
| Search.ExecuteQuery | dogesec_commons/objects/helpers.py:277-297 | page 2^32 or more is an invalid-page error and a database failure is `cannot process request`; otherwise the page's rows with the full count, page number, page size and result key |
| Search.ExecuteQueryPage | dogesec_commons/objects/helpers.py:299-304 | row `i` appears on page `i / count + 1` |
| Search.Select | dogesec_commons/objects/helpers.py:362-363 | `SEARCH … FILTER …` keeps exactly the documents every condition holds for |
| Search.AllHoldEvery | dogesec_commons/objects/helpers.py:359 | `AND`-joined conditions hold exactly when each of them holds |
| Search.AllHoldAppend | dogesec_commons/objects/helpers.py:359 | appending conditions conjoins them |
| Search.Matching | dogesec_commons/objects/helpers.py:362-363 | the matches of a partition are exactly the view documents it selects |
| Search.SelectIsMatching | dogesec_commons/objects/helpers.py:362-363 | running the built conditions selects exactly the partition's matches |
| Search.PagedCollapse | dogesec_commons/objects/helpers.py:366-369 | a page of the collapsed matches has distinct ids, each the latest matching version, at most `count` of them; the total counts the ids; page 1 lists every id when they fit |
| Search.CollapsedWindow | dogesec_commons/objects/helpers.py:366-369 | a page of the collapse consists of latest versions with distinct ids |
| Search.WindowDistinct | dogesec_commons/objects/helpers.py:366-369 | a page of rows with distinct ids keeps them distinct |
| Search.PartitionSearchProperties | dogesec_commons/objects/helpers.py:362-371 | a partition search fails exactly for a bad page or a database failure; otherwise every result is a selected view document, latest among the selected versions of its id, ids distinct, at most `count`, total equal to the number of matching ids |
| Search.ScoFilterListMeaning | dogesec_commons/objects/helpers.py:306-362 | the observable conditions hold exactly for a latest document of the requested observable types that satisfies the matcher and, when `value` is given, the value search |
| Search.HoldsScoConditions | dogesec_commons/objects/helpers.py:316-356 | the type, `MATCHES` and value conditions mean type membership, matching every matcher entry, and the per-type/generic containment |
| Search.ScoFilters | dogesec_commons/objects/helpers.py:306-362 | the built observable conditions select exactly the observable selection |
| Search.SmoFilters | dogesec_commons/objects/helpers.py:374-385 | the built meta-object conditions select exactly latest documents of the requested meta-object types |
| Search.SdoFilterListMeaning | dogesec_commons/objects/helpers.py:398-432 | the domain-object conditions hold exactly for the selected domain objects: type, latest, `labels` containment, `name` LIKE, and, under `visible_to`, created by that identity or carrying a visible-to-all marking (the `SEARCH` `NULL` admits no object without a creator) |
| Search.SdoFilters | dogesec_commons/objects/helpers.py:398-433 | the built domain-object conditions select exactly the domain-object selection, with the `SEARCH` visibility |
| Search.SroSearchFiltersMeaning | dogesec_commons/objects/helpers.py:531-554 | the relationship conditions hold exactly when the head condition and each given parameter's condition hold |
| Search.HoldsEndpointConditions | dogesec_commons/objects/helpers.py:533-543 | the source/target type and relationship-type conditions mean list membership and `LIKE %term%` |
| Search.HoldsRefConditions | dogesec_commons/objects/helpers.py:545-554 | `_is_ref != TRUE`, `target_ref ==` and `source_ref ==` mean what they say |
| Search.SroFilterListMeaning | dogesec_commons/objects/helpers.py:526-574 | the relationship conditions, with the head widened to SCO endpoints when only-latest is off, hold exactly for the selected relationships; under `visible_to`, only those created by that identity or carrying a visible-to-all marking |
| Search.SroSearchList | dogesec_commons/objects/helpers.py:531-554 | the search filters are built in the source's order from the parameters |
| Search.SroFilters | dogesec_commons/objects/helpers.py:526-574 | the built relationship conditions select exactly the relationship selection, with the `SEARCH` visibility |
| Search.ScoMatcher | dogesec_commons/objects/views.py:292-296 | the matcher is `{_obstracts_post_id: post_id}` when `post_id` is given and not empty, empty otherwise |
| Search.ScoPostFilter | dogesec_commons/objects/views.py:292-296 | every listed observable with `post_id` carries that post id |
| Search.ScoValueCaseInsensitive | dogesec_commons/objects/helpers.py:316-317 | the `value` search does not depend on the term's case |
| Search.FirstLatest | dogesec_commons/objects/helpers.py:451-457 | the first latest record with the id, or none exactly when there is no such record |
| Search.GetObjectsById | dogesec_commons/objects/helpers.py:446-460 | a found object is a latest record with the id; `No object with id` exactly when none exists; a failing query is `cannot process request` |
| Search.ReportIdsOf | dogesec_commons/objects/helpers.py:514-518 | the report ids are exactly the `_stixify_report_id`s of the records with the id |
| Search.ReportsWithIds | dogesec_commons/objects/helpers.py:519-520 | the reports kept are exactly the view's `report` documents whose id is one of them |
| Search.ContainingReportsProperties | dogesec_commons/objects/helpers.py:508-524 | every containing report listed is a report recorded as the origin of some version of the object |
| Search.KeysOf | dogesec_commons/objects/helpers.py:489 | the collected keys are exactly the `_id`, `_from` and `_to` of the edges found |
| Search.BundleRelFiltersMeaning | dogesec_commons/objects/helpers.py:467-500 | the first-phase conditions hold exactly for latest relationships touching the seed that pass the embedded-ref and endpoint-type restrictions |
| Search.BundleDocFiltersMeaning | dogesec_commons/objects/helpers.py:476-505 | the second-phase conditions hold exactly for the bundle members: a collected key or the latest seed, of a requested type and visible when asked |
| Search.BundleKeys | dogesec_commons/objects/helpers.py:489 | the collected keys of the selected edges are the bundle's keys |
| Search.SelectIsBundle | dogesec_commons/objects/helpers.py:490-495 | the second phase selects exactly the bundle rows |
| Search.BundleIsOneHop | dogesec_commons/objects/helpers.py:462-506 | every bundle member is the latest seed or an edge touching it or an endpoint of such an edge |
| Search.CollectedKey | dogesec_commons/objects/helpers.py:489 | every collected key comes from an edge of the first phase |
| Search.BundleHoldsNeighbours | dogesec_commons/objects/helpers.py:462-506 | without type or visibility restrictions, every edge touching the seed and both its endpoints are in the bundle |
| Search.ArangoDBHelper.constructor | dogesec_commons/objects/helpers.py:270-274 | the helper keeps the query and the result key and fixes the page parameters |
| Search.ArangoDBHelper.GetScos | dogesec_commons/objects/helpers.py:306-372 | the observable search is the partition search of its selection, and every result is a latest observable satisfying the matcher |
| Search.ArangoDBHelper.GetSmos | dogesec_commons/objects/helpers.py:374-396 | the meta-object search is the partition search, and every result is a latest meta-object |
| Search.ParamWithoutVisibleTo | dogesec_commons/objects/helpers.py:417-418 | removing `visible_to` from the query leaves every other parameter, list and boolean as it was |
| Search.SdoSelectedSplit | dogesec_commons/objects/helpers.py:417-432 | the domain-object selection is the selection without `visible_to`, narrowed by the `SEARCH` visibility when it is given |
| Search.SroSelectedSplit | dogesec_commons/objects/helpers.py:562-574 | the relationship selection is the selection without `visible_to`, narrowed by the `SEARCH` visibility when it is given |
| Search.SdoCreatorlessDropped | dogesec_commons/objects/helpers.py:423-432 | with `visible_to=identity--x`, a latest indicator without creator or marking is not selected, though the intended selection keeps it |
| Search.SroCreatorlessDropped | dogesec_commons/objects/helpers.py:568-574 | with `visible_to=identity--x`, a latest relationship without creator or marking is not selected, though the intended selection keeps it |
| Search.SdoIntendedVisibility | dogesec_commons/objects/helpers.py:423-424 | the intended domain-object selection keeps everything the written one does, agrees with it on objects with a creator, and shows objects without one to every identity |
| Search.SroIntendedVisibility | dogesec_commons/objects/helpers.py:568-569 | the intended relationship selection keeps everything the written one does, agrees with it on relationships with a creator, and shows those without one to every identity |
| Search.ArangoDBHelper.GetSdos | dogesec_commons/objects/helpers.py:398-444 | the domain-object search is the partition search over the `SEARCH` selection, and every result is a latest domain object |
| Search.ArangoDBHelper.GetSros | dogesec_commons/objects/helpers.py:526-585 | the relationship search is the partition search over the `SEARCH` selection; every result is a relationship, and latest when only-latest is on |
| Search.ArangoDBHelper.GetContainingReports | dogesec_commons/objects/helpers.py:508-524 | the containing-reports page is the paged list of reports whose id is a report id of the object |
| Search.ArangoDBHelper.GetObjectBundle | dogesec_commons/objects/helpers.py:462-506 | the bundle is the paged two-phase selection |
| CascadeDelete.FirstInScope | dogesec_commons/objects/helpers.py:600-607 | the first record of the report with the id, or none exactly when the report has no such record |
| CascadeDelete.TouchingPairsMembers | dogesec_commons/objects/helpers.py:610-612 | the touching pairs are exactly the `[_id, id]` of the edges from or to the key |
| CascadeDelete.LookupClosure | dogesec_commons/objects/helpers.py:599-624 | the closure is empty exactly when the object is not in the report; otherwise it starts with the object's record followed by exactly the edges touching it; the report key is found exactly when the report record is |
| CascadeDelete.RemoveValuesMembers | dogesec_commons/objects/helpers.py:642 | `REMOVE_VALUES` keeps exactly the refs not among the removed ids |
| CascadeDelete.RemoveValuesNone | dogesec_commons/objects/helpers.py:642 | removing ids that do not occur changes nothing |
| CascadeDelete.RemoveValuesIdempotent | dogesec_commons/objects/helpers.py:642 | removing the same ids twice equals removing them once |
| CascadeDelete.EdgeCollectionFor | dogesec_commons/objects/helpers.py:660-663 | the recompute's edge collection ends in `_edge_collection` |
| CascadeDelete.EdgeCollectionOfVertex | dogesec_commons/objects/helpers.py:660-663 | a vertex collection's edge collection replaces the suffix |
| CascadeDelete.EdgeCollectionOfEdge | dogesec_commons/objects/helpers.py:660-663 | an edge collection is its own edge collection |
| CascadeDelete.StixIds | dogesec_commons/objects/helpers.py:630-631 | the STIX ids are the second members of the pairs, in order |
| CascadeDelete.KeySet | dogesec_commons/objects/helpers.py:630-633 | the deleted keys are exactly the first members of the pairs |
| CascadeDelete.WithoutDeleted | dogesec_commons/objects/helpers.py:630-635 | the store loses exactly the closure's records whose delete succeeds, and nothing else changes |
| CascadeDelete.UpdatedReports | dogesec_commons/objects/helpers.py:639-651 | only the report record changes, and only its `object_refs`, which lose the deleted ids |
| CascadeDelete.ReportStore.DeleteAll | dogesec_commons/objects/helpers.py:630-635 | the loop collects every STIX id in order and deletes every key whose delete does not fail |
| CascadeDelete.ReportStore.DeleteReportObject | dogesec_commons/objects/helpers.py:587-665 | a failing lookup is `cannot process`; an empty closure is 204 with nothing deleted; a missing report key fails after the deletes; a failing update is `cannot process`; otherwise 204 with the report's refs updated and the recompute called for the object, the deleted ids and the edge collection |
| CascadeDelete.DeleteLeavesReport | dogesec_commons/objects/helpers.py:630-651 | after a completed delete the report keeps exactly its refs that were not deleted |
| CascadeDelete.RecomputeAfterDelete | dogesec_commons/objects/helpers.py:655-664 | a non-empty closure always leads to a recompute that covers the object and every deleted id, on an edge collection |
| ViewLinks.Dedup | dogesec_commons/objects/db_view_creator.py:39 | `list(set(...))` has no duplicates and holds exactly the input's elements |
| ViewLinks.FilterFields | dogesec_commons/objects/db_view_creator.py:27-39 | the stored fields are exactly the vertex and edge filter fields, each once |
| ViewLinks.PrimarySort | dogesec_commons/objects/db_view_creator.py:55-58 | ten entries: each sort field ascending then descending, in order |
| ViewLinks.CreateViewProperties | dogesec_commons/objects/db_view_creator.py:53-63 | the view is created with that primary sort and the deduplicated filter fields as its one stored-values list |
| ViewLinks.SuffixesExclusive | dogesec_commons/objects/db_view_creator.py:69-79 | no name ends with both collection suffixes |
| ViewLinks.LinkProjection | dogesec_commons/objects/db_view_creator.py:69-79 | vertex collections get the vertex fields, edge collections the edge fields, and every other name none |
| ViewLinks.SearchView.constructor | dogesec_commons/objects/db_view_creator.py:83 | the view starts with the given links |
| ViewLinks.SearchView.LinkOneCollection | dogesec_commons/objects/db_view_creator.py:82-89 | one collection is linked when it has a link projection and a name |
| ViewLinks.LinkOneFrame | dogesec_commons/objects/db_view_creator.py:85-86 | linking one collection leaves every other link as it was |
| ViewLinks.LinkOneSets | dogesec_commons/objects/db_view_creator.py:84-86 | the collection's link becomes its projection; an unlinkable name changes nothing |
| ViewLinks.LinkOneIdempotent | dogesec_commons/objects/db_view_creator.py:82-89 | linking the same collection twice equals linking it once |
| ViewLinks.SearchView.LinkAllCollections | dogesec_commons/objects/db_view_creator.py:92-105 | the loop as written: the new links, or the error raised by deleting with the collection record as key |
| ViewLinks.LinkAllAsWrittenAgrees | dogesec_commons/objects/db_view_creator.py:92-105 | the loop as written fails exactly when a non-system collection has no projection, and otherwise agrees with the intended relinking |
| ViewLinks.LinkAllCollectionsFails | dogesec_commons/objects/db_view_creator.py:99-101 | one non-system collection without a suffix makes the loop raise, where the intended behaviour drops it |
| ViewLinks.SearchView.RelinkAll | dogesec_commons/objects/db_view_creator.py:92-105 | the corrected loop sets or removes each non-system collection's link and skips system ones |
| ViewLinks.RelinkAllEntry | dogesec_commons/objects/db_view_creator.py:95-102 | a non-system collection's link after relinking is its projection (absent when it has none); other links are kept |
| ViewLinks.RelinkAllIdempotent | dogesec_commons/objects/db_view_creator.py:92-105 | relinking twice equals relinking once |
| ViewLinks.RelinkAllLinked | dogesec_commons/objects/db_view_creator.py:92-105 | every linkable non-system collection ends up linked |
| ViewLinks.RelinkAllPrepend | dogesec_commons/objects/db_view_creator.py:95-102 | relinking a list is relinking its head, then its tail |
| Ordering.GetOrderingMapping | dogesec_commons/stixifier/utils.py:68-74 | the loop builds the mapping of every valid field's `_descending` and `_ascending` tokens |
| Ordering.OrderingMappingKeys | dogesec_commons/stixifier/utils.py:68-74 | the tokens are exactly `<k>_ascending` and `<k>_descending` for the valid fields `k` |
| Ordering.OrderingMappingValues | dogesec_commons/stixifier/utils.py:71-73 | a field with no later duplicate maps `_ascending` to its value and `_descending` to `-value` |
| Ordering.SuffixesDiffer | dogesec_commons/stixifier/utils.py:72-73 | a descending token never equals an ascending one |
| Ordering.GetDefaultOrdering | dogesec_commons/stixifier/utils.py:91-95 | a string `ordering` gives a one-element tuple (its mapping, or None when it has none); anything else gives None |
| Ordering.TokenTerm | dogesec_commons/stixifier/utils.py:62 | a token contributes its stripped mapping when it has one, and nothing otherwise |
| Ordering.RecognisedTermsEmpty | dogesec_commons/stixifier/utils.py:62 | no recognised terms exactly when no stripped token is in the mapping |
| Ordering.RecognisedTermsFrom | dogesec_commons/stixifier/utils.py:62 | every recognised term is the mapping of some stripped token |
| Ordering.RecognisedTermsAppend | dogesec_commons/stixifier/utils.py:62 | the terms of two token lists are the terms of each, in order |
| Ordering.Present | dogesec_commons/stixifier/utils.py:62 | the terms as present entries, in order |
| Ordering.GetOrderingDefault | dogesec_commons/stixifier/utils.py:58-66 | without `sort`, or with none of its tokens recognised, the default ordering is used |
| Ordering.GetOrderingRecognised | dogesec_commons/stixifier/utils.py:58-65 | with a recognised token, the ordering is the recognised terms in token order |
| Ordering.SingleToken | dogesec_commons/stixifier/utils.py:58-65 | one known token gives exactly its mapped term |
| Exceptions.MessageList | dogesec_commons/utils/exceptions.py:8-9 | the messages become the detail list, one string each, in order |
| Exceptions.Converted | dogesec_commons/utils/exceptions.py:8-9 | a Django validation error becomes a REST validation error with the same messages and code, and raises `AttributeError` exactly when it has no `code` attribute; other exceptions pass unchanged |
| Exceptions.ListErrorRaises | dogesec_commons/utils/exceptions.py:8-9 | a Django error built from a list (no `code`) raises, one built from a single message converts |
| Exceptions.SetDefault | dogesec_commons/utils/exceptions.py:22 | `setdefault` adds the key with the value only when it is missing |
| Exceptions.ReshapedEnvelope | dogesec_commons/utils/exceptions.py:13-22 | the reshaped data is `{code, details, message}` with the status code and the status text as message; details is the `detail`-wrapped list, the `{code, message}` from a string, or the data |
| Exceptions.DetailUnwrapping | dogesec_commons/utils/exceptions.py:14-15 | a dict with only `detail` is reshaped as its detail |
| Exceptions.DetailWithMoreKeys | dogesec_commons/utils/exceptions.py:14-21 | a dict with `detail` and more keys becomes the details unchanged |
| Exceptions.IntendedEnvelope | dogesec_commons/utils/exceptions.py:16-22 | with the list test as an alternative to the string test, a string keeps its own message and no details |
| Exceptions.StringMessageBuried | dogesec_commons/utils/exceptions.py:16-22 | a 404 with detail "Not found." comes back with "Not Found" as message where "Not found." was intended |
| Exceptions.Response.constructor | dogesec_commons/utils/exceptions.py:12 | the response holds the framework's status and data |
| Exceptions.Response.Reshape | dogesec_commons/utils/exceptions.py:14-22 | the in-place reshaping gives the reshaped data |
| Exceptions.CustomExceptionHandler | dogesec_commons/utils/exceptions.py:7-23 | raises exactly when the conversion does, with no response; otherwise no response exactly when the framework gives none, and else the framework's status code and status text with the data reshaped (the status text as default message) |
| Extractors.Cleaned | dogesec_commons/stixifier/serializers.py:87-94 | `id` is the slug, the other keys are exactly the listed keys the extractor has, with its values |
| Extractors.CleanupExtractor | dogesec_commons/stixifier/serializers.py:87-94 | the copying loop builds the cleaned projection |
| Extractors.Projected | dogesec_commons/stixifier/serializers.py:82-84 | the cleaned projection with `file` replaced by its URL when the extractor has a file |
| Extractors.AllExtractors | dogesec_commons/stixifier/serializers.py:75-85 | the loop builds the catalogue |
| Extractors.CatalogueKeys | dogesec_commons/stixifier/serializers.py:80-82 | the catalogue lists a slug exactly when an extractor of a requested type has it |
| Extractors.CatalogueValues | dogesec_commons/stixifier/serializers.py:80-84 | with unique slugs, each extractor of a requested type is listed as its projection |
| ExtractorViews.FilterByName | dogesec_commons/stixifier/views.py:156-157 | an empty name keeps everything; otherwise an entry without a string name fails, and exactly the entries whose lower-cased name contains the name are kept, unchanged |
| ExtractorViews.GetAllSound | dogesec_commons/stixifier/views.py:149-158 | every listed slug belongs to an extractor of a requested type and matches the name filter |
| ExtractorViews.GetAllComplete | dogesec_commons/stixifier/views.py:149-158 | every extractor of a requested type that matches the name is listed as its projection |
| ExtractorViews.GetAllDefault | dogesec_commons/stixifier/views.py:149-158 | without parameters, the catalogue of lookup, pattern and ai extractors |
| ExtractorViews.Retrieve | dogesec_commons/stixifier/views.py:108-115 | 200 with the item exactly when a non-empty item exists under the id; otherwise 404 with `{message: "item not found", code: 404}` |
| ExtractorViews.RetrieveListed | dogesec_commons/stixifier/views.py:108-115 | every extractor of a listed type can be retrieved by its slug as its projection |
| Stixifier.Selection | dogesec_commons/stixifier/stixifier.py:24-30 | every selected entry is a configured extractor under its own slug, named or with all selected |
| Stixifier.AllExtractors | dogesec_commons/stixifier/stixifier.py:24-30 | the loop builds the selection |
| Stixifier.SelectionKeys | dogesec_commons/stixifier/stixifier.py:27-29 | a slug is selected exactly when it is named (or all are wanted) and some extractor has it |
| Stixifier.SelectionValues | dogesec_commons/stixifier/stixifier.py:27-29 | with unique slugs, each selected extractor is listed as itself |
| Stixifier.Insert | dogesec_commons/stixifier/stixifier.py:88-91 | both branches put the extractor under its type and slug, keeping the rest of its group |
| Stixifier.GroupByType | dogesec_commons/stixifier/stixifier.py:85-91 | the loop builds the grouping |
| Stixifier.InsertWellGrouped | dogesec_commons/stixifier/stixifier.py:87-91 | one insertion keeps every group keyed by its members' type and slug |
| Stixifier.GroupedShape | dogesec_commons/stixifier/stixifier.py:85-91 | every grouped extractor is a configured extractor, under its type and slug |
| Stixifier.InsertKeeps | dogesec_commons/stixifier/stixifier.py:88-91 | inserting keeps every other slug's entry |
| Stixifier.GroupedPlacement | dogesec_commons/stixifier/stixifier.py:85-91 | with unique slugs, every extractor is found under its type and slug |
| Stixifier.EntriesInsert | dogesec_commons/stixifier/stixifier.py:88-91 | an insertion adds exactly its own (type, slug) entry |
| Stixifier.GroupedCount | dogesec_commons/stixifier/stixifier.py:85-91 | with unique slugs, the grouping has exactly one entry per extractor |
| Stixifier.Tagged | dogesec_commons/stixifier/stixifier.py:134-135 | `obj.update(extra)` has both key sets, extra's values winning |
| Stixifier.TaggedIdempotent | dogesec_commons/stixifier/stixifier.py:134-135 | tagging twice equals tagging once |
| Stixifier.StixifyProcessor.constructor | dogesec_commons/stixifier/stixifier.py:49 | `extra_data` starts empty |
| Stixifier.StixifyProcessor.Setup | dogesec_commons/stixifier/stixifier.py:64-66 | `setup` merges `extra` into `extra_data` |
| Stixifier.StixifyProcessor.RecordReportId | dogesec_commons/stixifier/stixifier.py:106 | the report id is recorded under `_stixify_report_id` |
| Stixifier.StixifyProcessor.WriteBundle | dogesec_commons/stixifier/stixifier.py:132-135 | every bundle object is updated in place with `extra_data` |
| Stixifier.ObjectsCarryReportId | dogesec_commons/stixifier/stixifier.py:132-135 | every written object carries the report id and every other extra entry |

## Left out

- The database client, AQL text, logging and HTTP plumbing: a query is modelled by what it selects from a snapshot of the view. A failing database call is a boolean parameter.
- Result order: the searches sort and then `COLLECT`, which emits its groups in id order, so the sort order does not survive. The contracts do not depend on order: which documents land on page 2 and later is not modelled, and neither is their order within a page.
- Text.StrLe: `modified OR created` stamps are compared by code point, not by the server's ICU collation. The two agree for ISO-8601 timestamps written in one format.
- Null inside `SEARCH` versus `FILTER`: a missing attribute (`None`) matches no `SEARCH` equality, not even one to `NULL`, because the view indexes no missing attribute; in a `FILTER` it reads as null. The model does not distinguish an attribute stored as null from a missing one.
- `KEEP(doc, KEYS(doc, true))`, which strips the underscore-prefixed keys from each returned document: documents are returned whole.
- `update_is_latest_several_chunked` is outside this model: the delete states only the arguments it is called with.
- The view snapshot and the store the delete writes to are independent inputs. The model does not tie the lookup to the store.
- `remove_invalid_fields` of the ordering filter is the identity: with plain field names as the valid fields, every mapped term is valid.
- `get_valid_fields` and the view's `ordering` attribute are parameters.
- Lower-casing and white space are ASCII; Python's full Unicode tables are not modelled.
- The page-size settings `MAXIMUM_PAGE_SIZE` and `DEFAULT_PAGE_SIZE` are fixed at their defaults of 200 and 50 (dogesec_commons/objects/conf.py:3-4); a deployment's settings can override them.
- The delete's lookup sorts by `object_refs` before taking the first record of the object and of the report (dogesec_commons/objects/helpers.py:603); the view snapshot is taken to be in that order already, so the sort itself is not modelled.
- Where the handler raises (a Django validation error without `code`), the framework's resulting 500 response is not modelled: the model stops at the raised error.
- Dict key order and Python set order: `list(set(...))` is modelled as a duplicate-free list with the same elements.
- `Dedup`: when there are duplicates it keeps the last occurrence, and the order is not Python's.
- Which exception (`KeyError` or `AttributeError`) the name filter raises: both become one error.
- The include URL join (`urljoin` with `TXT2STIX_INCLUDE_URL`) is a function parameter of the catalogue.
- txt2stix itself (parsing the extraction config, the bundler, AI extraction), file2txt, uploading, and temporary files: only the extractor records and the bundle objects enter the model.
- Paginating `list()` of the extractor views is Django REST framework's pagination, not modelled.

## Findings

| source | as written | input that shows it | evidently intended | confidence | as-written member | corrected member |
|---|---|---|---|---|---|---|
| dogesec_commons/objects/db_view_creator.py:99-101 | `del links[collection]` deletes with the collection record (a dict) as key | any non-system collection whose name ends in neither `_vertex_collection` nor `_edge_collection`, e.g. `notes` | `del links[collection_name]`: drop the link and go on | not executed | ViewLinks.LinkAllCollectionsFails | ViewLinks.RelinkAllEntry |
| dogesec_commons/utils/exceptions.py:16-21 | the list test is a separate `if`, so the `else` wraps the `{code, message}` dict just built from a string | a 404 whose data is `{"detail": "Not found."}` | `elif`: a string message stays the response's message | not executed | Exceptions.StringMessageBuried | Exceptions.IntendedEnvelope |
| dogesec_commons/objects/helpers.py:423-424 | `doc.created_by_ref IN [@visible_to, NULL]` sits in `SEARCH`, where a missing `created_by_ref` matches no `NULL` | `visible_to=identity--x` and a latest indicator with neither `created_by_ref` nor `object_marking_refs` | objects without a creator visible to everyone, as the bundle's `FILTER` has it (helpers.py:486); likewise `get_sros` at helpers.py:568-569 | medium, not executed | Search.SdoCreatorlessDropped | Search.SdoIntendedVisibility |
