/**
  Page arithmetic of ListTasks and FindTasks, in signed 64-bit machine integers,
  and the proof that the pages of a list partition it.
*/
module Paging {
  const TWO64 := 0x1_0000_0000_0000_0000
  const MAX64 := 0x7FFF_FFFF_FFFF_FFFF
  const MIN64 := -0x8000_0000_0000_0000

  /** The value a Go int64 holds after an operation whose exact result is `x`. */
  function Wrap64(x: int): (r: int)
    ensures MIN64 <= r <= MAX64
    ensures r == x <==> MIN64 <= x <= MAX64
  {
    var m := x % TWO64;
    if m > MAX64 then m - TWO64 else m
  }

  /** Go's `/`, which truncates toward zero. */
  function TruncatedQuotient(a: int, b: int): int
    requires b > 0
  {
    if a >= 0 then a / b else -((-a) / b)
  }

  function NormalLimit(limit: int): int {
    if limit <= 0 then 10 else if limit > 100 then 100 else limit
  }

  function NormalPage(page: int): int {
    if page <= 0 then 1 else page
  }

  function Offset(page: int, limit: int): int {
    Wrap64(Wrap64(page - 1) * limit)
  }

  function TotalPages(total: int, limit: int): int {
    if total > 0 && limit > 0
    then TruncatedQuotient(Wrap64(Wrap64(total + limit) - 1), limit)
    else 0
  }

  /** Normalisation is idempotent and always lands in the documented ranges. */
  lemma NormalisationSettles(page: int, limit: int)
    ensures 1 <= NormalLimit(limit) <= 100 && 1 <= NormalPage(page)
    ensures NormalLimit(NormalLimit(limit)) == NormalLimit(limit)
    ensures NormalPage(NormalPage(page)) == NormalPage(page)
    ensures 1 <= limit <= 100 ==> NormalLimit(limit) == limit
    ensures 1 <= page ==> NormalPage(page) == page
    ensures limit < 1 ==> NormalLimit(limit) == 10
    ensures limit > 100 ==> NormalLimit(limit) == 100
    ensures page < 1 ==> NormalPage(page) == 1
  {
  }

  lemma MultiplyMonotone(a: int, b: int, limit: int)
    requires a <= b && limit >= 0
    ensures a * limit <= b * limit
  {
  }

  /** The offset is the exact product if and only if the product fits in 64 bits. */
  lemma OffsetExact(page: int, limit: int)
    requires 1 <= page <= MAX64 && 1 <= limit <= 100
    ensures Offset(page, limit) == (page - 1) * limit <==> (page - 1) * limit <= MAX64
    ensures (page - 1) * 100 <= MAX64 ==> Offset(page, limit) == (page - 1) * limit >= 0
    ensures MIN64 <= Offset(page, limit) <= MAX64
    ensures exists k :: Offset(page, limit) == (page - 1) * limit - Turns(k)
  {
    var x := (page - 1) * limit;
    ProductBounds(page, limit);
    assert Offset(page, limit) == Wrap64(x);
    var k := WrapTurns(x);
  }

  /** `k` full turns of a 64-bit integer. */
  function Turns(k: int): int {
    k * TWO64
  }

  lemma WrapTurns(x: int) returns (k: int)
    ensures Wrap64(x) == x - Turns(k)
  {
    k := if x % TWO64 > MAX64 then x / TWO64 + 1 else x / TWO64;
  }

  lemma ProductBounds(page: int, limit: int)
    requires 1 <= page && 1 <= limit <= 100
    ensures 0 <= (page - 1) * limit <= (page - 1) * 100
  {
    MultiplyMonotone(0, page - 1, limit);
    MultiplyMonotone(limit, 100, page - 1);
  }

  /** `n` is `total` divided by `limit`, rounded up. */
  predicate IsCeiling(n: int, total: int, limit: int) {
    n >= 0 && total <= n * limit && (n > 0 ==> (n - 1) * limit < total)
  }

  /** The page count is the exact ceiling if and only if total + limit - 1 fits in 64 bits. */
  lemma TotalPagesIsCeiling(total: int, limit: int)
    requires 0 <= total <= MAX64 && 1 <= limit <= 100
    ensures IsCeiling(TotalPages(total, limit), total, limit) <==> total + limit - 1 <= MAX64
    ensures total + limit - 1 > MAX64 ==> TotalPages(total, limit) <= 0
  {
    var n := TotalPages(total, limit);
    if total + limit - 1 > MAX64 {
      assert Wrap64(total + limit) == total + limit - TWO64;
      assert Wrap64(total + limit - TWO64 - 1) == total + limit - 1 - TWO64;
      MultiplyMonotone(n, 0, limit);
    } else if total > 0 {
      RoundUp(total, limit);
      assert Wrap64(Wrap64(total + limit) - 1) == total + limit - 1;
    }
  }

  lemma RoundUp(total: int, limit: int)
    requires total > 0 && limit > 0
    ensures IsCeiling((total + limit - 1) / limit, total, limit)
  {
    var n := (total + limit - 1) / limit;
    var r := (total + limit - 1) % limit;
    assert total + limit - 1 == n * limit + r;
    assert (n - 1) * limit == n * limit - limit;
  }

  // ---- slices ---------------------------------------------------------------

  /** `OFFSET offset LIMIT limit`; a non-positive offset and a negative limit are not emitted. */
  function Slice<T>(s: seq<T>, offset: int, limit: int): seq<T> {
    var lo := if offset <= 0 then 0 else if offset > |s| then |s| else offset;
    var hi := if limit < 0 || lo + limit > |s| then |s| else lo + limit;
    s[lo..hi]
  }

  function Page<T>(s: seq<T>, page: int, limit: int): seq<T> {
    Slice(s, Offset(page, limit), limit)
  }

  /** Pages 1..n, one after another. */
  function Pages<T>(s: seq<T>, n: nat, limit: int): seq<T> {
    if n == 0 then [] else Pages(s, n - 1, limit) + Page(s, n, limit)
  }

  /** The part of `s` from `lo` on, at most `limit` elements long. */
  function Window<T>(s: seq<T>, lo: nat, limit: nat): seq<T> {
    if lo >= |s| then [] else if lo + limit > |s| then s[lo..] else s[lo..lo + limit]
  }

  lemma SliceIsWindow<T>(s: seq<T>, lo: nat, limit: nat)
    ensures Slice(s, lo, limit) == Window(s, lo, limit)
  {
  }

  /** A slice, element by element, also where the offset is not positive or the limit negative. */
  lemma SliceIsExact<T>(s: seq<T>, offset: int, limit: int)
    ensures var lo := if offset <= 0 then 0 else offset;
            && |Slice(s, offset, limit)|
               == (if lo >= |s| then 0 else if limit < 0 || lo + limit > |s| then |s| - lo else limit)
            && forall i :: 0 <= i < |Slice(s, offset, limit)| ==> Slice(s, offset, limit)[i] == s[lo + i]
  {
  }

  lemma PageIs<T>(s: seq<T>, page: int, limit: int)
    requires 1 <= page <= MAX64 && 1 <= limit <= 100 && (page - 1) * limit <= MAX64
    ensures 0 <= (page - 1) * limit
    ensures Page(s, page, limit) == Window(s, (page - 1) * limit, limit)
  {
    MultiplyMonotone(0, page - 1, limit);
    OffsetExact(page, limit);
    SliceIsWindow(s, (page - 1) * limit, limit);
  }

  function Least(a: int, b: int): int {
    if a < b then a else b
  }

  lemma WindowExtends<T>(s: seq<T>, lo: nat, limit: nat)
    requires lo < |s|
    ensures s[..lo] + Window(s, lo, limit) == s[..Least(lo + limit, |s|)]
  {
  }

  lemma {:induction false} PagesArePrefix<T>(s: seq<T>, n: nat, limit: int)
    requires 1 <= limit <= 100 && |s| <= MAX64
    requires n > 0 ==> (n - 1) * limit < |s|
    ensures 0 <= n * limit
    ensures Pages(s, n, limit) == s[..Least(n * limit, |s|)]
  {
    MultiplyMonotone(0, n, limit);
    if n > 0 {
      var lo := (n - 1) * limit;
      assert n * limit == lo + limit;
      if n > 1 {
        MultiplyMonotone(n - 2, n - 1, limit);
      }
      PagesArePrefix(s, n - 1, limit);
      AtMostProduct(n - 1, limit);
      PageIs(s, n, limit);
      WindowExtends(s, lo, limit);
    }
  }

  lemma AtMostProduct(a: nat, limit: int)
    requires limit >= 1
    ensures a <= a * limit
  {
  }

  /** A page whose offset does not overflow is non-empty exactly when it is one of the counted pages. */
  lemma PageNonEmpty<T>(s: seq<T>, page: int, limit: int)
    requires 1 <= limit <= 100 && |s| + limit - 1 <= MAX64
    requires 1 <= page <= MAX64 && (page - 1) * limit <= MAX64
    ensures Page(s, page, limit) != [] <==> page <= TotalPages(|s|, limit)
  {
    PageIs(s, page, limit);
    CountedPages(|s|, page, limit);
  }

  /** The counted pages are those that start before the end. */
  lemma CountedPages(total: int, page: int, limit: int)
    requires 1 <= limit <= 100 && 0 <= total && total + limit - 1 <= MAX64 && 1 <= page
    ensures page <= TotalPages(total, limit) <==> (page - 1) * limit < total
  {
    var n := TotalPages(total, limit);
    TotalPagesIsCeiling(total, limit);
    if page <= n {
      MultiplyMonotone(page - 1, n - 1, limit);
    } else {
      MultiplyMonotone(n, page - 1, limit);
    }
  }

  /**
    Exactly which pages are served rightly, over all page numbers: a page is non-empty just
    when it is one of the counted pages, unless its offset overflows to a place inside the
    list, or before it.
  */
  lemma PageNonEmptyExactly<T>(s: seq<T>, page: int, limit: int)
    requires 1 <= page <= MAX64 && 1 <= limit <= 100 && |s| + limit - 1 <= MAX64
    ensures (Page(s, page, limit) != [] <==> page <= TotalPages(|s|, limit))
            <==> s == [] || (page - 1) * limit <= MAX64 || Offset(page, limit) >= |s|
  {
    if (page - 1) * limit <= MAX64 {
      PageNonEmpty(s, page, limit);
    } else {
      CountedPages(|s|, page, limit);
    }
  }

  /**
    Concatenating pages 1..TotalPages gives the list back, every element once and in order,
    if and only if the count does not overflow.
  */
  lemma PagesPartition<T>(s: seq<T>, limit: int)
    requires 1 <= limit <= 100 && |s| <= MAX64
    ensures TotalPages(|s|, limit) >= 0 && Pages(s, TotalPages(|s|, limit), limit) == s
            <==> |s| + limit - 1 <= MAX64
  {
    var n := TotalPages(|s|, limit);
    TotalPagesIsCeiling(|s|, limit);
    if |s| + limit - 1 <= MAX64 {
      PagesArePrefix(s, n, limit);
    } else if n == 0 {
      assert Pages(s, 0, limit) == [];
    }
  }

  /** The bound is needed: at page 2^62 + 1 with limit 4 the caller is served page 1 again. */
  lemma OverflowingPageRepeatsTheFirst<T>(s: seq<T>)
    requires s != [] && |s| + 3 <= MAX64
    ensures var page := 0x4000_0000_0000_0001;
            page > TotalPages(|s|, 4) && Page(s, page, 4) == Page(s, 1, 4) != []
  {
    PageNonEmptyExactly(s, 0x4000_0000_0000_0001, 4);
  }
}
