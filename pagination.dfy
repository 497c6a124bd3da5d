/**
 * The `paginate` middleware of src/utils/pagination.js: it turns the raw
 * `page`, `limit` and `sort` query values into the options object it stores
 * on the request. A missing query value is `None`.
 */
module Pagination {
  import opened Wrappers
  import opened JsBuiltins

  const DefaultPage: int := 1
  const DefaultLimit: int := 25
  const SortField: string := "updatedAt"

  /** `{ updatedAt: direction }`: 1 ascending, -1 descending. */
  datatype SortSpec = SortSpec(field: string, direction: int)

  datatype PaginationOptions = PaginationOptions(page: int, limit: int, sort: SortSpec)

  /** `parseInt(raw, 10)` of a query value; `parseInt(undefined, 10)` is NaN. */
  function ParseQuery(raw: Option<string>): Option<int> {
    match raw
    case None => None
    case Some(s) => ParseInt(s)
  }

  /** `parseInt(raw, 10) || fallback`: NaN and 0 are falsy. */
  function IntOr(raw: Option<string>, fallback: int): (r: int)
    ensures ParseQuery(raw).Some? && ParseQuery(raw).value != 0 ==> r == ParseQuery(raw).value
    ensures ParseQuery(raw).None? || ParseQuery(raw).value == 0 ==> r == fallback
  {
    var parsed := ParseQuery(raw);
    if parsed.Some? && parsed.value != 0 then parsed.value else fallback
  }

  function Paginate(rawPage: Option<string>, rawLimit: Option<string>, rawSort: Option<string>): (r: PaginationOptions)
    ensures r.page == IntOr(rawPage, DefaultPage) && r.limit == IntOr(rawLimit, DefaultLimit)
    ensures r.page != 0 && r.limit != 0
    ensures r.sort.field == "updatedAt"
    ensures r.sort.direction == 1 || r.sort.direction == -1
    ensures r.sort.direction == 1 <==> rawSort == Some("asc")
  {
    PaginationOptions(
      IntOr(rawPage, DefaultPage),
      IntOr(rawLimit, DefaultLimit),
      SortSpec(SortField, if rawSort == Some("asc") then 1 else -1))
  }

  /** With no query values at all: page 1, 25 per page, newest first. */
  lemma PaginateDefaults()
    ensures Paginate(None, None, None) == PaginationOptions(1, 25, SortSpec("updatedAt", -1))
  {
  }

  /** Any non-zero integer written in decimal passes through unchanged:
      there is no lower bound beyond non-zero and no upper bound. */
  lemma PaginatePassesThrough(page: int, limit: int, rawSort: Option<string>)
    requires page != 0 && limit != 0
    ensures Paginate(Some(Decimal(page)), Some(Decimal(limit)), rawSort).page == page
    ensures Paginate(Some(Decimal(page)), Some(Decimal(limit)), rawSort).limit == limit
  {
    ParseIntDecimal(page, "");
    ParseIntDecimal(limit, "");
    assert Decimal(page) + "" == Decimal(page);
    assert Decimal(limit) + "" == Decimal(limit);
  }

  /** An explicit zero is falsy, so it falls back to the default. */
  lemma PaginateZeroFallsBack(rawSort: Option<string>)
    ensures Paginate(Some("0"), Some("0"), rawSort).page == 1
    ensures Paginate(Some("0"), Some("0"), rawSort).limit == 25
  {
    ParseIntDecimal(0, "");
    assert Decimal(0) + "" == "0";
  }

  /** Text that does not start with a number is NaN, so it falls back to the default. */
  lemma PaginateNonNumericFallsBack(rawPage: string, rawLimit: string, rawSort: Option<string>)
    requires Unsigned(rawPage) == [] || !IsDigit(Unsigned(rawPage)[0])
    requires Unsigned(rawLimit) == [] || !IsDigit(Unsigned(rawLimit)[0])
    ensures Paginate(Some(rawPage), Some(rawLimit), rawSort).page == 1
    ensures Paginate(Some(rawPage), Some(rawLimit), rawSort).limit == 25
  {
  }

  /** `"desc"` and every other value except `"asc"` sort descending. */
  lemma PaginateSortDescending(rawSort: Option<string>)
    requires rawSort != Some("asc")
    ensures Paginate(None, None, rawSort).sort == SortSpec("updatedAt", -1)
  {
  }
}
