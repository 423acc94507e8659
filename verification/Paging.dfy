/** Page arithmetic on 64-bit integers and the rows LIMIT and OFFSET select. */
module Paging {
  import opened Basics
  import opened Domain

  const DEFAULT_PAGE_SIZE := 20
  const MAX_PAGE_SIZE := 100

  datatype Page<T> = Page(items: seq<T>, total: Int64, page: Int64, pageSize: Int64) {
    function TotalPages(): Int64 {
      if pageSize <= 0 then 0 else Quotient(Wrap64(Wrap64(total + pageSize) - 1), pageSize)
    }

    predicate HasNextPage() {
      page < TotalPages()
    }
  }

  /** Go's division by a positive number rounds towards zero. */
  function Quotient(a: Int64, b: Int64): Int64
    requires b > 0
  {
    var n: int := a;
    if n >= 0 then (QuotientBound(n, b); n / b) else (QuotientBound(-n, b); -((-n) / b))
  }

  lemma QuotientBound(a: nat, b: nat)
    requires b > 0
    ensures 0 <= a / b <= a
  {
    assert a == b * (a / b) + a % b;
    MulAtMost(1, b, a / b);
  }

  /** The page and size a listing is read with: a page before the first is the first, a missing size is
      the default and an excessive one the maximum. */
  function NormalizePagination(page: Int64, pageSize: Int64): (r: (Int64, Int64))
    ensures 1 <= r.0 && page <= r.0 && r.0 in {page, 1}
    ensures r.1 == if pageSize < 1 then 20 else if pageSize > 100 then 100 else pageSize
  {
    (if page < 1 then 1 else page,
     if pageSize < 1 then DEFAULT_PAGE_SIZE else if pageSize > MAX_PAGE_SIZE then MAX_PAGE_SIZE else pageSize)
  }

  function Offset(page: Int64, pageSize: Int64): Int64 {
    Wrap64(Wrap64(page - 1) * pageSize)
  }

  /** LIMIT and OFFSET on a result; a negative one is a database error. */
  function Window<T>(rows: seq<T>, limit: int, offset: int): Result<seq<T>, Error> {
    if limit < 0 || offset < 0 then Failure(Internal)
    else if offset >= |rows| then Success([])
    else if |rows| - offset <= limit then Success(rows[offset..])
    else Success(rows[offset..offset + limit])
  }

  lemma MulAtMost(a: nat, b: nat, n: nat)
    requires a <= b
    ensures a * n <= b * n
  {}

  /** The offset of a page is the true product exactly while the product fits 64 bits. */
  lemma OffsetExactIff(page: Int64, pageSize: Int64)
    requires page >= 1 && 1 <= pageSize <= MAX_PAGE_SIZE
    ensures Offset(page, pageSize) == (page - 1) * pageSize <==> (page - 1) * pageSize < INT64_LIMIT
  {
    MulAtMost(0, page - 1, pageSize);
  }

  /** Up to page 2^56 no normalized page size overflows. */
  lemma OffsetFits(page: Int64, pageSize: Int64)
    requires 1 <= page <= 0x100_0000_0000_0000 && 1 <= pageSize <= MAX_PAGE_SIZE
    ensures Offset(page, pageSize) == (page - 1) * pageSize >= 0
  {
    MulAtMost(page - 1, 0x100_0000_0000_0000, pageSize);
    MulAtMost(0, page - 1, pageSize);
    OffsetExactIff(page, pageSize);
  }

  // ----- pages of a fixed result

  /** Pages 1 to n one after the other, each at the offset the program computes for it. */
  function FirstPages<T>(rows: seq<T>, size: Int64, n: Int64): seq<T>
    requires n >= 0
  {
    if n == 0 then []
    else FirstPages(rows, size, n - 1)
         + match Window(rows, size, Offset(n, size)) case Success(page) => page case Failure(_) => []
  }

  function Cut(n: nat, bound: nat): nat {
    if n <= bound then n else bound
  }

  lemma OnePageMore<T>(rows: seq<T>, size: nat, start: nat)
    ensures Window(rows, size, start).Success?
    ensures rows[..Cut(start, |rows|)] + Window(rows, size, start).value == rows[..Cut(start + size, |rows|)]
  {}

  lemma {:induction false} FirstPagesArePrefix<T>(rows: seq<T>, size: Int64, n: Int64)
    requires 1 <= size <= MAX_PAGE_SIZE && n >= 0 && (n - 1) * size < INT64_LIMIT
    ensures n * size >= 0 && FirstPages(rows, size, n) == rows[..Cut(n * size, |rows|)]
  {
    if n > 0 {
      MulAtMost(0, n - 1, size);
      assert n * size == (n - 1) * size + size && (n - 2) * size == (n - 1) * size - size;
      FirstPagesArePrefix(rows, size, n - 1);
      OffsetExactIff(n, size);
      OnePageMore(rows, size, (n - 1) * size);
    }
  }

  lemma CeilingCovers(total: nat, size: nat, pages: nat)
    requires size > 0 && pages == (total + size - 1) / size
    ensures pages * size >= total
    ensures forall k: nat :: k < pages <==> k * size < total
  {
    var t := total + size - 1;
    assert t == size * (t / size) + t % size;
    assert size * pages == pages * size;
    forall k: nat ensures k < pages <==> k * size < total {
      if k < pages {
        MulAtMost(k + 1, pages, size);
        assert (k + 1) * size == k * size + size;
      } else {
        MulAtMost(pages, k, size);
      }
    }
  }

  /** The number of pages is the total divided by the page size, rounded up, exactly while the sum it
      is computed from fits 64 bits. */
  lemma TotalPagesExactIff<T>(page: Page<T>)
    requires page.total >= 0 && 1 <= page.pageSize <= MAX_PAGE_SIZE
    ensures page.TotalPages() == (page.total + page.pageSize - 1) / page.pageSize
       <==> page.total + page.pageSize - 1 < INT64_LIMIT
  {
    var n := page.total + page.pageSize - 1;
    if n >= INT64_LIMIT {
      assert Wrap64(Wrap64(page.total + page.pageSize) - 1) == n - 2 * INT64_LIMIT;
      NotNegative(2 * INT64_LIMIT - n, page.pageSize);
      CeilingCovers(page.total, page.pageSize, n / page.pageSize);
    } else {
      assert Wrap64(Wrap64(page.total + page.pageSize) - 1) == n;
    }
  }

  lemma NotNegative(a: nat, b: nat)
    requires b > 0
    ensures a / b >= 0
  {}

  /** No offset of an existing page overflows. */
  lemma PageOffset<T>(page: Page<T>, k: Int64)
    requires page.total >= 0 && 1 <= page.pageSize <= MAX_PAGE_SIZE
    requires page.total + page.pageSize - 1 < INT64_LIMIT
    requires 1 <= k <= page.TotalPages()
    ensures 0 <= Offset(k, page.pageSize) == (k - 1) * page.pageSize < page.total
  {
    TotalPagesExactIff(page);
    CeilingCovers(page.total, page.pageSize, page.TotalPages());
    MulAtMost(0, k - 1, page.pageSize);
    OffsetExactIff(k, page.pageSize);
  }

  /** Enough pages are all the rows. */
  lemma PagesThatCover<T>(rows: seq<T>, size: Int64, n: Int64)
    requires 1 <= size <= MAX_PAGE_SIZE && n >= 0 && (n - 1) * size < INT64_LIMIT
    requires n * size >= |rows|
    ensures FirstPages(rows, size, n) == rows
  {
    FirstPagesArePrefix(rows, size, n);
  }

  /** The pages of a result partition it: pages 1 to TotalPages at the program's offsets, one after the
      other, are the rows, each exactly once and in order, and there is a next page exactly while rows
      remain. */
  lemma PagesPartition<T>(rows: seq<T>, page: Page<T>)
    requires page.total == |rows| && page.page >= 1 && 1 <= page.pageSize <= MAX_PAGE_SIZE
    requires |rows| + page.pageSize - 1 < INT64_LIMIT
    ensures page.TotalPages() >= 0
    ensures FirstPages(rows, page.pageSize, page.TotalPages()) == rows
    ensures page.HasNextPage() <==> page.page * page.pageSize < |rows|
  {
    var size, pages := page.pageSize, page.TotalPages();
    TotalPagesExactIff(page);
    QuotientBound(|rows| + size - 1, size);
    CeilingCovers(|rows|, size, pages);
    assert (pages - 1) * size < INT64_LIMIT by {
      if pages > 0 { PageOffset(page, pages); } else { assert (pages - 1) * size == -size; }
    }
    PagesThatCover(rows, size, pages);
  }

  /** Row i of page k is row (k - 1) * size + i of the result, and every page but the last is full. */
  lemma PageContents<T>(rows: seq<T>, page: Page<T>, k: Int64)
    requires page.total == |rows| && 1 <= page.pageSize <= MAX_PAGE_SIZE
    requires |rows| + page.pageSize - 1 < INT64_LIMIT && 1 <= k <= page.TotalPages()
    ensures var (size, start) := (page.pageSize, (k - 1) * page.pageSize);
            var read := Window(rows, size, Offset(k, size));
            && 0 <= start < |rows| && read.Success?
            && |read.value| == (if |rows| - start <= size then |rows| - start else size)
            && forall i :: 0 <= i < |read.value| ==> read.value[i] == rows[start + i]
  {
    PageOffset(page, k);
  }
}
