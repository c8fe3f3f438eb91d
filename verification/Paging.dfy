/** The page arithmetic of the paged listings, over a fixed ordered result. */
module Paging {

  datatype Page<+T> = Page(content: seq<T>, page: nat, size: nat, totalElements: nat, totalPages: nat, last: bool)

  /** `Math.ceil(n / size)` */
  function CeilDiv(n: nat, size: nat): nat
    requires size > 0
  {
    if n % size == 0 then n / size else n / size + 1
  }

  function TotalPages(totalElements: nat, size: nat): nat {
    if size == 0 then 1 else CeilDiv(totalElements, size)
  }

  /** OFFSET, then LIMIT; a limit of 0 is not put into the query. */
  function SkipTake<T>(rows: seq<T>, skip: nat, take: nat): seq<T> {
    var from := if skip <= |rows| then rows[skip..] else [];
    if take == 0 || |from| <= take then from else from[..take]
  }

  function FindPaged<T>(rows: seq<T>, page: nat, size: nat): Page<T> {
    var totalPages := TotalPages(|rows|, size);
    Page(SkipTake(rows, page * size, size), page, size, |rows|, totalPages,
         totalPages == 0 || page >= totalPages - 1)
  }

  /** The contents of pages 0 to n-1, one after the other. */
  function Concatenated<T>(rows: seq<T>, size: nat, n: nat): seq<T> {
    if n == 0 then [] else Concatenated(rows, size, n - 1) + FindPaged(rows, n - 1, size).content
  }

  lemma MultiplyMonotone(a: nat, b: nat, size: nat)
    requires a <= b
    ensures a * size <= b * size
  {
  }

  lemma CeilDivCovers(n: nat, size: nat, k: nat)
    requires size > 0
    ensures k >= CeilDiv(n, size) <==> k * size >= n
  {
    var q, r := n / size, n % size;
    assert n == q * size + r && (q + 1) * size == q * size + size;
    if k > q {
      MultiplyMonotone(q + 1, k, size);
    } else {
      MultiplyMonotone(k, q, size);
      if k < q {
        MultiplyMonotone(k + 1, q, size);
        assert (k + 1) * size == k * size + size;
      }
    }
  }

  /** The first n rows, or all of them. */
  function Head<T>(rows: seq<T>, n: nat): seq<T> {
    if n <= |rows| then rows[..n] else rows
  }

  lemma HeadAndPage<T>(rows: seq<T>, start: nat, size: nat)
    requires size > 0
    ensures Head(rows, start) + SkipTake(rows, start, size) == Head(rows, start + size)
  {
  }

  lemma NextStart(n: nat, size: nat)
    requires n > 0
    ensures n * size == (n - 1) * size + size
  {
  }

  lemma {:induction false} ConcatenatedIsPrefix<T>(rows: seq<T>, size: nat, n: nat)
    requires size > 0
    ensures Concatenated(rows, size, n) == Head(rows, n * size)
  {
    if n != 0 {
      ConcatenatedIsPrefix(rows, size, n - 1);
      NextStart(n, size);
      HeadAndPage(rows, (n - 1) * size, size);
    }
  }

  /** Pages 0 to totalPages-1 hold every row once, in order, for any page size. */
  lemma PagesPartition<T>(rows: seq<T>, size: nat)
    ensures Concatenated(rows, size, TotalPages(|rows|, size)) == rows
  {
    if size == 0 {
      assert Concatenated(rows, size, 1) == [] + SkipTake(rows, 0, 0);
    } else {
      var n := TotalPages(|rows|, size);
      ConcatenatedIsPrefix(rows, size, n);
      CeilDivCovers(|rows|, size, n);
    }
  }

  /** `last` says exactly that no row follows the page. */
  lemma LastIffNoneFollow<T>(rows: seq<T>, page: nat, size: nat)
    requires size > 0
    ensures FindPaged(rows, page, size).last <==> (page + 1) * size >= |rows|
    ensures FindPaged(rows, page, size).last <==> forall p :: p > page ==> FindPaged(rows, p, size).content == []
  {
    CeilDivCovers(|rows|, size, page + 1);
    if FindPaged(rows, page, size).last {
      forall p | p > page
        ensures FindPaged(rows, p, size).content == []
      {
        MultiplyMonotone(page + 1, p, size);
      }
    } else {
      assert FindPaged(rows, page + 1, size).content != [];
    }
  }

  /**
   A page tells the request and the totals: it holds the rows from page * size on, `size` of them
   or as many as there are, and totalPages is the least number of pages that hold them all.
   */
  lemma PageTells<T>(rows: seq<T>, page: nat, size: nat)
    requires size > 0
    ensures var p := FindPaged(rows, page, size);
            && p.page == page && p.size == size && p.totalElements == |rows|
            && (forall k: nat :: k >= p.totalPages <==> k * size >= |rows|)
            && (page * size >= |rows| ==> p.content == [])
            && (page * size < |rows| <= page * size + size ==> p.content == rows[page * size..])
            && (page * size + size < |rows| ==> p.content == rows[page * size..page * size + size])
  {
    forall k: nat
      ensures k >= CeilDiv(|rows|, size) <==> k * size >= |rows|
    {
      CeilDivCovers(|rows|, size, k);
    }
  }

  /** Size 0 puts no limit into the query: one page, the last, holds everything. */
  lemma UnlimitedPage<T>(rows: seq<T>, page: nat)
    ensures FindPaged(rows, page, 0) == Page(rows, page, 0, |rows|, 1, true)
  {
  }
}
