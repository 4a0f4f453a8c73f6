/**
 * PageResponse: one page of a listing with its page count and navigation
 * flags. The page count is the source's double-precision ceiling, taken
 * here as the exact rational ceiling and then narrowed to int as Java's
 * cast does (saturating, with NaN giving 0).
 */
module Paging {
  import opened Wrappers
  import opened JavaStrings

  const NULL_POINTER: string := "NullPointerException"

  datatype Page<T> = Page(
    records: seq<T>,
    total: int,
    pageNum: int,
    pageSize: int,
    totalPages: int,
    hasNext: bool,
    hasPrevious: bool)

  /** The (int) cast of a double: values beyond the int range saturate. */
  function Saturate(x: int): (r: int)
    ensures IsInt32(r)
    ensures IsInt32(x) ==> r == x
    ensures x > INT_MAX ==> r == INT_MAX
    ensures x < INT_MIN ==> r == INT_MIN
  {
    if x > INT_MAX then INT_MAX else if x < INT_MIN then INT_MIN else x
  }

  /** The exact ceiling of a / b for b != 0. */
  function CeilDiv(a: int, b: int): (r: int)
    requires b != 0
    ensures b > 0 ==> (r - 1) * b < a <= r * b
  {
    if b > 0 then -((-a) / b) else -(a / (-b))
  }

  /**
   * (int) Math.ceil((double) total / pageSize): a zero page size divides to
   * an infinity (or NaN for 0 / 0), which the cast turns into the int
   * extremes (or 0).
   */
  function TotalPages(total: int, pageSize: int): (r: int)
    ensures IsInt32(r)
    ensures pageSize == 0 ==> r == (if total > 0 then INT_MAX else if total < 0 then INT_MIN else 0)
    ensures pageSize != 0 ==> r == Saturate(CeilDiv(total, pageSize))
  {
    if pageSize == 0 then (if total > 0 then INT_MAX else if total < 0 then INT_MIN else 0)
    else Saturate(CeilDiv(total, pageSize))
  }

  /** The paging constructor; a null total, page number or page size cannot be unboxed. */
  function NewPage<T>(records: seq<T>, total: Option<int>, pageNum: Option<int>, pageSize: Option<int>): (r: Result<Page<T>, string>)
    ensures r.Success? <==> total.Some? && pageNum.Some? && pageSize.Some?
    ensures r.Success? ==> (r.value.hasNext <==> r.value.pageNum < r.value.totalPages)
    ensures r.Success? ==> (r.value.hasPrevious <==> r.value.pageNum > 1)
    ensures r.Success? ==> r.value.totalPages == TotalPages(total.value, pageSize.value)
    ensures r.Success? ==> r.value.records == records && r.value.total == total.value
  {
    if total.None? || pageNum.None? || pageSize.None? then Failure(NULL_POINTER)
    else
      var pages := TotalPages(total.value, pageSize.value);
      Success(Page(records, total.value, pageNum.value, pageSize.value, pages, pageNum.value < pages, pageNum.value > 1))
  }

  /** With a positive page size and a count in range, the pages just cover the records: the last page is non-empty. */
  lemma PagesCoverTotal(total: int, pageSize: int)
    requires 0 <= total <= INT_MAX && pageSize > 0
    ensures var n := TotalPages(total, pageSize);
      && 0 <= n
      && (n - 1) * pageSize < total <= n * pageSize
      && (n == 0 <==> total == 0)
  {
    var c := CeilDiv(total, pageSize);
    MulSign(c, pageSize);
    MulSign(c - 1, pageSize);
    assert c >= 0;
    if c >= 1 {
      MulAtLeast(c - 1, pageSize);
    }
    assert c <= total;
  }

  lemma MulSign(x: int, b: int)
    requires b > 0
    ensures x * b > 0 <==> x > 0
    ensures x * b < 0 <==> x < 0
  {
  }

  lemma MulAtLeast(x: int, b: int)
    requires x >= 0 && b >= 1
    ensures x * b >= x
  {
  }

  /** A page is the last one exactly when its number reaches the page count. */
  lemma LastPageHasNoNext<T>(records: seq<T>, total: int, pageSize: int)
    requires 0 <= total <= INT_MAX && pageSize > 0 && total > 0
    ensures var n := TotalPages(total, pageSize);
      !NewPage(records, Some(total), Some(n), Some(pageSize)).value.hasNext
      && (n > 1 ==> NewPage(records, Some(total), Some(n - 1), Some(pageSize)).value.hasNext)
  {
  }

  /** empty(): no records, page 1 of size 10, no pages and no neighbours. */
  function Empty<T>(): (r: Page<T>)
    ensures r.records == [] && r.total == 0 && r.pageNum == 1 && r.pageSize == 10
    ensures r.totalPages == 0 && !r.hasNext && !r.hasPrevious
  {
    Page([], 0, 1, 10, 0, false, false)
  }

  /** empty() is exactly what the constructor builds for no records on page 1 of size 10. */
  lemma EmptyAgreesWithConstructor<T>()
    ensures NewPage<T>([], Some(0), Some(1), Some(10)) == Success(Empty<T>())
  {
  }
}
