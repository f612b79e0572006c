/**
 * The pagination contract of the helper: `positive_int`, `get_page_params`,
 * `get_offset_and_count` and the paginated response envelope. `int()` is
 * modelled for ASCII input: surrounding whitespace, an optional sign, and
 * decimal digits with single underscores between them.
 */
module Paging {
  import opened Wrappers
  import opened Text
  import opened QueryParams

  /** `MAXIMUM_PAGE_SIZE` and `DEFAULT_PAGE_SIZE` at their defaults (settings may override them). */
  const MaximumPageSize: nat := 200
  const DefaultPageSize: nat := 50

  /** A page number as `get_page_params` produces it. */
  type PageNumber = p: int | p >= 1 witness 1

  /** A page size as `get_page_params` produces it. */
  type PageSize = n: int | 1 <= n <= MaximumPageSize witness 1

  /** The page guard of `get_offset_and_count`: 2^32. */
  const PageLimit: int := 0x1_0000_0000

  // ---------------------------------------------------------------------------
  // int(s)

  predicate IsDigit(c: char) { '0' <= c <= '9' }

  function DigitValue(c: char): (r: nat)
    requires IsDigit(c)
    ensures r < 10
  {
    c as int - '0' as int
  }

  function DigitChar(d: nat): (c: char)
    requires d < 10
    ensures IsDigit(c) && DigitValue(c) == d
  {
    (d + '0' as int) as char
  }

  /** Python's integer-literal digit grammar: a digit, then (an optional `_` and a digit)*. */
  predicate DigitGroups(s: string) {
    && DigitChars(s)
    && |s| > 0 && IsDigit(s[0]) && IsDigit(s[|s| - 1])
    && forall i :: 0 <= i < |s| && s[i] == '_' ==> i + 1 < |s| && IsDigit(s[i + 1])
  }

  /** Only digits and underscores. */
  predicate DigitChars(s: string) {
    forall i :: 0 <= i < |s| ==> IsDigit(s[i]) || s[i] == '_'
  }

  /** The value of the digits of `s`, underscores skipped. */
  function DigitsValue(s: string): nat
    requires DigitChars(s)
    decreases |s|
  {
    if |s| == 0 then 0
    else if s[|s| - 1] == '_' then DigitsValue(s[..|s| - 1])
    else DigitsValue(s[..|s| - 1]) * 10 + DigitValue(s[|s| - 1])
  }

  /** `int(s)` on a string: `None` where Python raises `ValueError`. */
  function ParseInt(s: string): (r: Option<int>)
    ensures r.Some? ==> |Strip(s)| > 0
  {
    var t := Strip(s);
    if |t| > 0 && (t[0] == '-' || t[0] == '+') then
      var d := t[1..];
      if DigitGroups(d) then
        var v: int := DigitsValue(d);
        Some(if t[0] == '-' then -v else v)
      else None
    else if DigitGroups(t) then Some(DigitsValue(t))
    else None
  }

  /** The decimal spelling of a natural number (what `str(n)` prints). */
  function NatDigits(n: nat): (s: string)
    ensures |s| > 0 && forall i :: 0 <= i < |s| ==> IsDigit(s[i])
    decreases n
  {
    if n < 10 then [DigitChar(n)] else NatDigits(n / 10) + [DigitChar(n % 10)]
  }

  /** `str(n)`. */
  function DecimalString(n: int): (s: string)
  {
    if n < 0 then "-" + NatDigits(-n) else NatDigits(n)
  }

  lemma {:induction false} NatDigitsValue(n: nat)
    ensures DigitsValue(NatDigits(n)) == n
    decreases n
  {
    var s := NatDigits(n);
    if n >= 10 {
      NatDigitsValue(n / 10);
      assert s[..|s| - 1] == NatDigits(n / 10);
    }
  }

  /** A decimal spelling has no surrounding whitespace. */
  lemma DecimalStringUnspaced(n: int)
    ensures Strip(DecimalString(n)) == DecimalString(n)
  {
    var s := DecimalString(n);
    assert IsDigit(s[|s| - 1]);
    StripUnspaced(s);
  }

  /** `int(str(n)) == n`: parsing reads back every decimal spelling. */
  lemma {:induction false} ParseIntDecimal(n: int)
    ensures ParseInt(DecimalString(n)) == Some(n)
  {
    var m: nat := if n < 0 then -n else n;
    var d := NatDigits(m);
    NatDigitsValue(m);
    assert DigitGroups(d);
    DecimalStringUnspaced(n);
    var s := DecimalString(n);
    if n < 0 {
      assert s[1..] == d;
    } else {
      assert IsDigit(s[0]);
    }
  }

  // ---------------------------------------------------------------------------
  // positive_int and get_page_params

  /**
   * `positive_int(s, cutoff, default)`: a strictly positive integer parsed from
   * `s` (clamped to `cutoff` when `cutoff` is non-zero), else `default`.
   * `None` stands for the absent parameter, on which `int()` raises `TypeError`.
   */
  function PositiveInt(s: Option<string>, cutoff: nat, default: int): (r: int)
    ensures r == default || r >= 1
    ensures r != default && cutoff > 0 ==> r <= cutoff
    ensures r != default ==> s.Some? && ParseInt(s.value).Some? && ParseInt(s.value).value >= r
    ensures s.Some? && ParseInt(s.value).Some? && ParseInt(s.value).value > 0 ==>
      r == if cutoff > 0 && ParseInt(s.value).value > cutoff then cutoff else ParseInt(s.value).value
    ensures (s.None? || ParseInt(s.value).None? || ParseInt(s.value).value <= 0) ==> r == default
  {
    if s.None? then default
    else
      match ParseInt(s.value)
      case None => default
      case Some(n) =>
        if n <= 0 then default
        else if cutoff > 0 then (if n < cutoff then n else cutoff)
        else n
  }

  /** A positive number is read back as itself, clamped to the cutoff. */
  lemma PositiveIntOfPositive(n: int, cutoff: nat, default: int)
    requires n > 0
    ensures PositiveInt(Some(DecimalString(n)), cutoff, default) == if cutoff > 0 && n > cutoff then cutoff else n
  {
    ParseIntDecimal(n);
  }

  /** Zero and negative numbers fall back to the default. */
  lemma PositiveIntOfNonPositive(n: int, cutoff: nat, default: int)
    requires n <= 0
    ensures PositiveInt(Some(DecimalString(n)), cutoff, default) == default
  {
    ParseIntDecimal(n);
  }

  /** `int()` also reads padded, signed, zero-led and underscored spellings: `" +0_07 "` is a page size of 7. */
  lemma PositiveIntNonCanonical()
    ensures PositiveInt(Some(" +0_07 "), MaximumPageSize, DefaultPageSize) == 7
  {
    StripPadded();
    ZeroLedValue();
    assert "+0_07"[1..] == "0_07";
  }

  lemma StripPadded()
    ensures Strip(" +0_07 ") == "+0_07"
  {
    var s := " +0_07 ";
    assert IsSpace(s[0]) && s[1..] == "+0_07 ";
    assert !IsSpace('+');
    assert StripLeft(s) == StripLeft("+0_07 ") == "+0_07 ";
    var t := "+0_07 ";
    assert IsSpace(t[|t| - 1]) && t[..|t| - 1] == "+0_07";
    assert !IsSpace('7');
    assert StripRight(t) == StripRight("+0_07") == "+0_07";
  }

  lemma ZeroLedValue()
    ensures DigitGroups("0_07") && DigitsValue("0_07") == 7
  {
    assert "0_07"[..3] == "0_0" && "0_0"[..2] == "0_" && "0_"[..1] == "0" && "0"[..0] == "";
  }

  /** `get_page_params(query)`: the page number (no cap) and the page size (capped). */
  function GetPageParams(query: Query): (r: (int, int))
    ensures r.0 >= 1
    ensures 1 <= r.1 <= MaximumPageSize
    ensures "page" !in query ==> r.0 == 1
    ensures "page_size" !in query ==> r.1 == DefaultPageSize
    ensures "page" in query && ParseInt(query["page"]).Some? && ParseInt(query["page"]).value > 0 ==>
      r.0 == ParseInt(query["page"]).value
    ensures "page" in query && (ParseInt(query["page"]).None? || ParseInt(query["page"]).value <= 0) ==> r.0 == 1
    ensures "page_size" in query && ParseInt(query["page_size"]).Some? && ParseInt(query["page_size"]).value > 0 ==>
      r.1 == if ParseInt(query["page_size"]).value > MaximumPageSize then MaximumPageSize else ParseInt(query["page_size"]).value
    ensures "page_size" in query && (ParseInt(query["page_size"]).None? || ParseInt(query["page_size"]).value <= 0) ==>
      r.1 == DefaultPageSize
  {
    (PositiveInt(Get(query, "page"), 0, 1),
     PositiveInt(Get(query, "page_size"), MaximumPageSize, DefaultPageSize))
  }

  /** A positive `page` is taken as is; a positive `page_size` is clamped to the maximum. */
  lemma PageParamsOfPositive(query: Query, page: int, size: int)
    requires page > 0 && size > 0
    requires Get(query, "page") == Some(DecimalString(page))
    requires Get(query, "page_size") == Some(DecimalString(size))
    ensures GetPageParams(query) == (page, if size > MaximumPageSize then MaximumPageSize else size)
  {
    PositiveIntOfPositive(page, 0, 1);
    PositiveIntOfPositive(size, MaximumPageSize, DefaultPageSize);
  }

  // ---------------------------------------------------------------------------
  // get_offset_and_count

  /**
   * `a * b`, spelled as repeated addition: the offset arithmetic then stays
   * linear for the solver. `TimesIsProduct` ties it to `*`.
   */
  function Times(a: int, b: int): (r: int)
    ensures a >= 0 && b >= 0 ==> r >= 0
    decreases if a < 0 then -a else a
  {
    if a == 0 then 0
    else if a > 0 then Times(a - 1, b) + b
    else Times(a + 1, b) - b
  }

  lemma {:induction false} TimesIsProduct(a: int, b: int)
    ensures Times(a, b) == a * b
    decreases if a < 0 then -a else a
  {
    if a > 0 {
      TimesIsProduct(a - 1, b);
      assert a * b == (a - 1) * b + b;
    } else if a < 0 {
      TimesIsProduct(a + 1, b);
      assert a * b == (a + 1) * b - b;
    }
  }

  /** The offset of page `page`: `(page - 1) * count`. */
  function PageOffset(page: int, count: int): (r: nat)
    requires page >= 1 && count >= 0
  {
    Times(page - 1, count)
  }

  /** The `ValidationError` raised for an unusable page number. */
  datatype PageError = InvalidPage(page: int)

  /** `get_offset_and_count(count, page)`; a page of 0 reads as page 1. */
  function GetOffsetAndCount(count: int, page: int): (r: Result<(int, int), PageError>)
    ensures r.Err? <==> page >= PageLimit
    ensures r.Err? ==> r.error == InvalidPage(page)
    ensures r.Ok? ==> r.value.1 == count
    ensures r.Ok? && page >= 0 && count >= 0 ==> r.value.0 >= 0
  {
    var p := if page == 0 then 1 else page;
    if p >= PageLimit then Err(InvalidPage(p))
    else Ok((Times(p - 1, count), count))
  }

  /**
   * Below the limit the offset is `(page - 1) * count` with a falsy page read
   * as page 1; consecutive pages start one page size apart.
   */
  lemma OffsetIsProduct(count: int, page: int)
    requires page < PageLimit
    ensures GetOffsetAndCount(count, page) == Ok((((if page == 0 then 1 else page) - 1) * count, count))
    ensures 1 <= page < PageLimit - 1 ==> GetOffsetAndCount(count, page + 1).value.0 == GetOffsetAndCount(count, page).value.0 + count
  {
    TimesIsProduct((if page == 0 then 1 else page) - 1, count);
  }

  // ---------------------------------------------------------------------------
  // The paginated response envelope

  datatype PageResponse<T> = PageResponse(
    pageSize: int,
    pageNumber: int,
    pageResultsCount: nat,
    totalResultsCount: int,
    resultKey: string,
    results: seq<T>)

  /**
   * `get_paginated_response`: the slice length and the full count are
   * reported separately; a page size of 0 is replaced by the default.
   */
  function PaginatedResponse<T>(data: seq<T>, pageNumber: int, pageSize: int, fullCount: int, resultKey: string): (r: PageResponse<T>)
    ensures r.pageResultsCount == |r.results| && r.results == data
    ensures r.totalResultsCount == fullCount
    ensures r.pageSize == if pageSize == 0 then DefaultPageSize else pageSize
    ensures r.pageNumber == pageNumber && r.resultKey == resultKey
  {
    PageResponse(if pageSize == 0 then DefaultPageSize else pageSize, pageNumber, |data|, fullCount, resultKey, data)
  }
}
