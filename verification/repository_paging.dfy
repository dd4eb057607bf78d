/**
 Pages of a query's ordered result. The offset is a product of 64-bit numbers and is read as a
 signed one; the store takes no notice of an offset or limit that is negative.
 */
module RepositoryPaging {

  const TWO_TO_THE_63 := 0x8000_0000_0000_0000
  const TWO_TO_THE_64 := 0x1_0000_0000_0000_0000

  type Uint64 = n: int | 0 <= n < TWO_TO_THE_64

  /** A page number from 0 on, and how many rows a page has; 0 for all of them. */
  datatype Pageable = Pageable(page: Uint64, size: Uint64)

  datatype Page<+T> = Page(content: seq<T>, totalElements: nat, totalPages: nat, pageable: Pageable)

  function Signed(n: Uint64): int {
    if n < TWO_TO_THE_63 then n else n - TWO_TO_THE_64
  }

  /** The rows a query skips. */
  function Offset(p: Pageable): nat {
    var o := Signed(p.page * p.size % TWO_TO_THE_64);
    if o < 0 then 0 else o
  }

  /** The rows from `offset` on, no more than `limit` unless that is negative. */
  function Rows<T>(rows: seq<T>, offset: nat, limit: int): seq<T> {
    if offset >= |rows| then []
    else if limit < 0 || |rows| - offset <= limit then rows[offset..]
    else rows[offset..offset + limit]
  }

  function Ceil(x: real): int {
    -((-x).Floor)
  }

  function TotalPages(count: nat, size: Uint64): int {
    if count == 0 then 0
    else if size == 0 then 1
    else Ceil(count as real / size as real)
  }

  lemma RealProductGrows(a: real, b: real, c: real)
    requires c > 0.0
    ensures a < b ==> a * c < b * c
    ensures a <= b ==> a * c <= b * c
  {
  }

  lemma ProductAsReal(a: int, b: int)
    ensures (a * b) as real == a as real * b as real
  {
  }

  lemma QuotientTimes(x: real, c: real)
    requires c > 0.0
    ensures x / c * c == x
  {
  }

  lemma CeilOfQuotient(x: real, c: real, n: int)
    requires c > 0.0 && n == Ceil(x / c)
    ensures (n - 1) as real * c < x <= n as real * c
  {
    var q := x / c;
    QuotientTimes(x, c);
    assert (n - 1) as real < q <= n as real;
    RealProductGrows((n - 1) as real, q, c);
    RealProductGrows(q, n as real, c);
  }

  lemma CeilIsLeast(count: nat, size: nat, n: int)
    requires size > 0 && n == Ceil(count as real / size as real)
    ensures (n - 1) * size < count <= n * size
  {
    CeilOfQuotient(count as real, size as real, n);
    ProductAsReal(n - 1, size);
    ProductAsReal(n, size);
  }

  lemma NonPositiveProduct(a: int, b: nat)
    ensures a <= 0 ==> a * b <= 0
  {
  }

  /** The total is the least number of pages that hold all rows. */
  lemma TotalPagesIsLeast(count: nat, size: Uint64)
    requires size > 0
    ensures TotalPages(count, size) >= 0
    ensures count <= TotalPages(count, size) * size
    ensures count > 0 ==> (TotalPages(count, size) - 1) * size < count && TotalPages(count, size) > 0
  {
    if count > 0 {
      CeilIsLeast(count, size, TotalPages(count, size));
      NonPositiveProduct(TotalPages(count, size), size);
    }
  }

  lemma NonNegativeProduct(a: nat, b: nat)
    ensures a * b >= 0
  {
  }

  lemma TotalPagesNatural(count: nat, size: Uint64)
    ensures TotalPages(count, size) >= 0
  {
    if size > 0 {
      TotalPagesIsLeast(count, size);
    }
  }

  function GetPage<T>(rows: seq<T>, p: Pageable): Page<T> {
    var content := if p.size > 0 then Rows(rows, Offset(p), Signed(p.size)) else rows;
    TotalPagesNatural(|rows|, p.size);
    Page(content, |rows|, TotalPages(|rows|, p.size), p)
  }

  /** What a page says of the whole result: every page the same number of rows, and the number of pages -
      none without rows, one without a size, and otherwise the least that hold all rows. */
  lemma PageCounts<T>(rows: seq<T>, p: Pageable)
    ensures var page := GetPage(rows, p);
            && page.totalElements == |rows| && page.pageable == p
            && (page.totalPages == 0 <==> rows == [])
            && (p.size == 0 && rows != [] ==> page.totalPages == 1)
            && (p.size > 0 ==> |rows| <= page.totalPages * p.size)
            && (p.size > 0 && rows != [] ==> (page.totalPages - 1) * p.size < |rows|)
  {
    if p.size > 0 {
      TotalPagesIsLeast(|rows|, p.size);
    }
  }

  // ----- what the pages are

  /** The contents of the first `n` pages, one after another. */
  function FirstPages<T>(rows: seq<T>, size: Uint64, n: nat): seq<T>
    requires n < TWO_TO_THE_64
  {
    if n == 0 then [] else FirstPages(rows, size, n - 1) + GetPage(rows, Pageable(n - 1, size)).content
  }

  lemma ProductGrows(n: int, m: int, size: nat)
    ensures n <= m ==> n * size <= m * size
  {
  }

  /** The rows from `at` on, at most `size` of them. */
  function From<T>(rows: seq<T>, at: nat, size: nat): seq<T> {
    if at >= |rows| then [] else if at + size < |rows| then rows[at..at + size] else rows[at..]
  }

  /** Where the product does not wrap, a page has the rows from there on, as many as fit. */
  lemma ContentWithoutWrap<T>(rows: seq<T>, p: Pageable)
    requires p.size > 0 && p.page * p.size < TWO_TO_THE_63 && |rows| < TWO_TO_THE_63
    ensures p.page * p.size >= 0 && GetPage(rows, p).content == From(rows, p.page * p.size, p.size)
  {
    NonNegativeProduct(p.page, p.size);
    SmallModulo(p.page * p.size);
  }

  lemma SmallModulo(n: int)
    requires 0 <= n < TWO_TO_THE_64
    ensures n % TWO_TO_THE_64 == n
  {
  }

  /** The first `n` rows, or all of them. */
  function Taken<T>(rows: seq<T>, n: nat): seq<T> {
    if n < |rows| then rows[..n] else rows
  }

  lemma TakenGrows<T>(rows: seq<T>, at: nat, size: nat)
    ensures Taken(rows, at + size) == Taken(rows, at) + From(rows, at, size)
  {
  }

  lemma {:induction false} FirstPagesAre<T>(rows: seq<T>, size: Uint64, n: nat)
    requires size > 0 && |rows| < TWO_TO_THE_63 && n < TWO_TO_THE_64 && (n > 0 ==> (n - 1) * size < TWO_TO_THE_63)
    ensures n * size >= 0 && FirstPages(rows, size, n) == Taken(rows, n * size)
  {
    if n > 0 {
      if n > 1 {
        ProductGrows(n - 2, n - 1, size);
      }
      FirstPagesAre(rows, size, n - 1);
      ContentWithoutWrap(rows, Pageable(n - 1, size));
      TakenGrows(rows, (n - 1) * size, size);
      assert n * size == (n - 1) * size + size;
    }
  }

  lemma PageNumbersAreSmall(count: nat, size: Uint64)
    requires size > 0 && count < TWO_TO_THE_63
    ensures 0 <= TotalPages(count, size) <= count
    ensures count > 0 ==> (TotalPages(count, size) - 1) * size < count
    ensures count <= TotalPages(count, size) * size
  {
    TotalPagesIsLeast(count, size);
    if count > 0 {
      ProductAtLeast(TotalPages(count, size) - 1, size);
    }
  }

  lemma ProductAtLeast(a: nat, b: nat)
    requires b > 0
    ensures a <= a * b
  {
  }

  // ----- floating point

  const TWO_TO_THE_53 := 0x20_0000_0000_0000

  /** A double next to `x`: within half a unit in the last place, which is at most `x / 2^53`, and - as
      all integers up to 2^53 are doubles - never beyond the next integer, or below 2^53 from above it. */
  predicate Rounds(x: real, d: real) {
    && (x - d) * TWO_TO_THE_53 as real <= x
    && (x <= TWO_TO_THE_53 as real ==> x.Floor as real <= d <= Ceil(x) as real)
    && (x >= TWO_TO_THE_53 as real ==> d >= TWO_TO_THE_53 as real)
  }

  lemma RealProductOrder(a: real, b: real, c: real)
    requires c > 0.0
    ensures a < b <==> a * c < b * c
  {
    RealProductGrows(a, b, c);
    RealProductGrows(b, a, c);
  }

  lemma RealProductsSwap(a: real, b: real, c: real)
    ensures (a * b) * c == (a * c) * b
  {
  }

  lemma RealProductSplits(a: real, b: real, c: real)
    ensures (a - b) * c == a * c - b * c
  {
  }

  /** Rounding moves a quotient of fewer than 2^53 by less than one over the divisor. */
  lemma RoundingIsSmall(count: real, c: real, q: real, d: real)
    requires c > 0.0 && q * c == count && 0.0 < count < TWO_TO_THE_53 as real && Rounds(q, d)
    ensures d * c > count - 1.0
  {
    var t, e := TWO_TO_THE_53 as real, q - d;
    RealProductOrder(q, e * t, c);
    RealProductsSwap(e, t, c);
    assert (e * c) * t <= count;
    RealProductOrder(e * c, 1.0, t);
    RealProductSplits(q, d, c);
  }

  /** Rounding keeps a quotient above the whole number of pages that are full. */
  lemma RoundingStaysAbove(count: int, c: real, q: real, d: real, full: int)
    requires c > 0.0 && q * c == count as real && 0 < count < TWO_TO_THE_53 && Rounds(q, d)
    requires full as real * c <= (count - 1) as real
    ensures full as real < d
  {
    RoundingIsSmall(count as real, c, q, d);
    RealProductOrder(full as real, d, c);
  }

  lemma QuotientIsSmall(q: real, c: real, bound: real)
    requires c >= 1.0 && q * c <= bound
    ensures q <= bound || bound < 0.0
  {
  }

  /** Rounding never moves a quotient past the next whole number. */
  lemma RoundingStaysBelow(count: int, c: real, q: real, d: real)
    requires c >= 1.0 && q * c == count as real && 0 < count < TWO_TO_THE_53 && Rounds(q, d)
    ensures d <= Ceil(q) as real
  {
    QuotientIsSmall(q, c, count as real);
  }

  lemma RoundingKeepsCeil(count: int, c: real, q: real, d: real, n: int)
    requires c >= 1.0 && q * c == count as real && 0 < count < TWO_TO_THE_53 && Rounds(q, d)
    requires Ceil(q) == n && (n - 1) as real * c <= (count - 1) as real
    ensures Ceil(d) == n
  {
    RoundingStaysAbove(count, c, q, d, n - 1);
    RoundingStaysBelow(count, c, q, d);
  }

  lemma RoundedQuotientCeil(x: real, c: real, q: real, count: int, d: real)
    requires c >= 1.0 && q == x / c && x == count as real && 0 < count < TWO_TO_THE_53 && Rounds(q, d)
    requires (Ceil(q) - 1) as real * c <= (count - 1) as real
    ensures Ceil(d) == Ceil(q)
  {
    QuotientTimes(x, c);
    RoundingKeepsCeil(count, c, q, d, Ceil(q));
  }

  /** The double a page size becomes: exact up to 2^53. */
  predicate IsDivisor(size: Uint64, divisor: real) {
    if size <= TWO_TO_THE_53 then divisor == size as real else divisor > 0.0 && Rounds(size as real, divisor)
  }

  /** The quotient of doubles rounds up to the same total, for fewer than 2^53 rows and any size - sizes
      above 2^53 may be rounded themselves, but then one page holds all rows. */
  lemma FloatTotalPages(count: nat, size: Uint64, divisor: real, exact: real, quotient: real)
    requires 0 < count < TWO_TO_THE_53 && size > 0 && IsDivisor(size, divisor)
    requires divisor > 0.0 && exact == count as real / divisor && Rounds(exact, quotient)
    ensures Ceil(quotient) == TotalPages(count, size)
  {
    if size <= TWO_TO_THE_53 {
      SmallSizeTotalPages(count, size);
    } else {
      LargeSizeTotalPages(count, size, divisor);
    }
    RoundedQuotientCeil(count as real, divisor, exact, count, quotient);
  }

  lemma SmallSizeTotalPages(count: nat, size: Uint64)
    requires count > 0 && size > 0
    ensures (TotalPages(count, size) - 1) as real * size as real <= (count - 1) as real
  {
    TotalPagesIsLeast(count, size);
    ProductAsReal(TotalPages(count, size) - 1, size);
  }

  lemma SmallQuotient(x: real, c: real)
    requires 0.0 < x < c
    ensures 0.0 < x / c < 1.0
  {
    var q := x / c;
    QuotientTimes(x, c);
    RealProductOrder(0.0, q, c);
    RealProductOrder(q, 1.0, c);
  }

  lemma LargeSizeTotalPages(count: nat, size: Uint64, divisor: real)
    requires 0 < count < TWO_TO_THE_53 < size && Rounds(size as real, divisor)
    ensures divisor >= 1.0 && TotalPages(count, size) == 1 == Ceil(count as real / divisor)
  {
    SmallQuotient(count as real, divisor);
    SmallQuotient(count as real, size as real);
  }

  lemma CountedPageIsNotEmpty<T>(rows: seq<T>, size: Uint64, k: nat)
    requires size > 0 && |rows| < TWO_TO_THE_63 && k < TotalPages(|rows|, size)
    ensures k < TWO_TO_THE_64 && GetPage(rows, Pageable(k, size)).content != []
  {
    PageNumbersAreSmall(|rows|, size);
    ProductGrows(k, TotalPages(|rows|, size) - 1, size);
    ContentWithoutWrap(rows, Pageable(k, size));
  }

  /** The pages that are counted concatenate to the whole result, and none of them is empty. Without a
      size every page is the whole result, and it counts as one page unless it is empty. */
  lemma PagesConcatenate<T>(rows: seq<T>, size: Uint64)
    requires |rows| < TWO_TO_THE_63
    ensures 0 <= TotalPages(|rows|, size) < TWO_TO_THE_64
    ensures FirstPages(rows, size, TotalPages(|rows|, size)) == rows
    ensures forall k: nat | k < TotalPages(|rows|, size) :: GetPage(rows, Pageable(k, size)).content != []
    ensures size == 0 ==> forall k: Uint64 :: GetPage(rows, Pageable(k, 0)).content == rows
  {
    if size == 0 {
      assert rows != [] ==> FirstPages(rows, 0, 1) == FirstPages(rows, 0, 0) + rows;
    } else {
      PageNumbersAreSmall(|rows|, size);
      FirstPagesAre(rows, size, TotalPages(|rows|, size));
      forall k: nat | k < TotalPages(|rows|, size) ensures GetPage(rows, Pageable(k, size)).content != [] {
        CountedPageIsNotEmpty(rows, size, k);
      }
    }
  }

  /** A page past the last is empty exactly when its wrapped offset is past the last row too -
      always, while the product stays below 2^63. */
  lemma LaterPagesAreEmpty<T>(rows: seq<T>, p: Pageable)
    requires p.size > 0 && |rows| < TWO_TO_THE_63 && p.page >= TotalPages(|rows|, p.size)
    ensures GetPage(rows, p).content == [] <==> Offset(p) >= |rows|
    ensures p.page * p.size < TWO_TO_THE_63 ==> GetPage(rows, p).content == []
  {
    PageNumbersAreSmall(|rows|, p.size);
    ProductGrows(TotalPages(|rows|, p.size), p.page, p.size);
    if p.page * p.size < TWO_TO_THE_63 {
      ContentWithoutWrap(rows, p);
    }
  }

  /** The first page whose offset is 2^63 or more. */
  function FirstWrapped(size: Uint64): nat
    requires size > 0
  {
    (TWO_TO_THE_63 + size - 1) / size
  }

  lemma RoundedUpQuotient(a: nat, size: nat)
    requires size > 0
    ensures ((a + size - 1) / size - 1) * size < a <= (a + size - 1) / size * size || a == 0
  {
    var f := (a + size - 1) / size;
    assert a + size - 1 == f * size + (a + size - 1) % size;
    assert (f - 1) * size == f * size - size;
  }

  lemma FirstWrappedIs(size: Uint64)
    requires size > 0
    ensures FirstWrapped(size) * size >= TWO_TO_THE_63 && (FirstWrapped(size) - 1) * size < TWO_TO_THE_63
    ensures 0 < FirstWrapped(size) <= TWO_TO_THE_63 && FirstWrapped(size) * size < TWO_TO_THE_64
  {
    var f := FirstWrapped(size);
    RoundedUpQuotient(TWO_TO_THE_63, size);
    NonPositiveProduct(f, size);
    ProductAtLeast(f - 1, size);
    ProductGrows(1, f - 1, size);
    assert f * size == (f - 1) * size + size;
  }

  lemma WrappedPageIsTheFirst<T>(rows: seq<T>, p: Pageable)
    requires p.size > 0 && 0 < |rows| < TWO_TO_THE_63 && TWO_TO_THE_63 <= p.page * p.size < TWO_TO_THE_64
    ensures GetPage(rows, p).content == GetPage(rows, Pageable(0, p.size)).content != []
  {
    SmallModulo(p.page * p.size);
    assert 0 * p.size == 0;
  }

  /** Up to which page the pages are right, for every size and result: below the first page whose offset
      is 2^63 each has the rows from its offset on, as many as fit - and that page, past the last one
      counted, shows the first rows again. */
  lemma PagesAreRightUntilWrapped<T>(rows: seq<T>, p: Pageable)
    requires p.size > 0 && 0 < |rows| < TWO_TO_THE_63
    ensures p.page < FirstWrapped(p.size) ==>
              p.page * p.size >= 0 && GetPage(rows, p).content == From(rows, p.page * p.size, p.size)
    ensures p.page == FirstWrapped(p.size) ==>
              p.page >= TotalPages(|rows|, p.size)
                && GetPage(rows, p).content == GetPage(rows, Pageable(0, p.size)).content != []
  {
    FirstWrappedIs(p.size);
    ProductGrows(p.page, FirstWrapped(p.size) - 1, p.size);
    if p.page < FirstWrapped(p.size) {
      ContentWithoutWrap(rows, p);
    } else if p.page == FirstWrapped(p.size) {
      WrappedPageIsTheFirst(rows, p);
      PastTheLast(|rows|, p);
    }
  }

  /** A page whose offset is past the last row is none of those counted. */
  lemma PastTheLast(count: nat, p: Pageable)
    requires p.size > 0 && 0 < count < TWO_TO_THE_63 && p.page * p.size >= count
    ensures p.page >= TotalPages(count, p.size)
  {
    PageNumbersAreSmall(count, p.size);
    ProductGrows(p.page, TotalPages(count, p.size) - 1, p.size);
  }
}
