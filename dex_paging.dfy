/**
 * The National Dex pager: the page count, the slice shown for a page, and
 * the rule that enables the Prev and Next buttons.
 */
module DexPaging {
  import opened JsBuiltins

  /** `Math.max(1, Math.ceil(count / pageSize))`. */
  function TotalPages(count: nat, pageSize: nat): nat
    requires pageSize > 0
  {
    var pages := (count + pageSize - 1) / pageSize;
    if pages < 1 then 1 else pages
  }

  /** There is always at least one page; for a non-empty list the count is the
      ceiling of `count / pageSize`: the pages before the last do not hold
      everything, and all the pages together hold at least everything. */
  lemma TotalPagesSpec(count: nat, pageSize: nat)
    requires pageSize > 0
    ensures TotalPages(count, pageSize) >= 1
    ensures count == 0 ==> TotalPages(count, pageSize) == 1
    ensures count > 0 ==>
      (TotalPages(count, pageSize) - 1) * pageSize < count <= TotalPages(count, pageSize) * pageSize
  {
    var n := count + pageSize - 1;
    var pages := n / pageSize;
    assert n == pages * pageSize + n % pageSize && 0 <= n % pageSize < pageSize;
    if count == 0 {
      assert pages == 0;
    } else {
      assert pages >= 1;
      assert (pages - 1) * pageSize == pages * pageSize - pageSize;
    }
  }

  /** `filtered.slice(start, start + pageSize)` with `start = (page - 1) * pageSize`.
      `page` is an unbounded integer: nothing keeps it positive. */
  function PageSlice<T>(filtered: seq<T>, page: int, pageSize: nat): seq<T> {
    var start := (page - 1) * pageSize;
    Slice(filtered, start, start + pageSize)
  }

  lemma MulMonotone(a: nat, b: nat, c: nat)
    requires a <= b
    ensures a * c <= b * c
  {
  }

  /** On a page within `[1, totalPages]` the slice is
      `filtered[(page-1)*pageSize .. min(page*pageSize, |filtered|)]`; it holds
      at most `pageSize` entries, and at least one when `filtered` is non-empty. */
  lemma PageSliceInRange<T>(filtered: seq<T>, page: int, pageSize: nat)
    requires pageSize > 0 && 1 <= page <= TotalPages(|filtered|, pageSize)
    ensures var lo := (page - 1) * pageSize;
      var hi := if page * pageSize <= |filtered| then page * pageSize else |filtered|;
      && lo <= hi
      && PageSlice(filtered, page, pageSize) == filtered[lo..hi]
    ensures |PageSlice(filtered, page, pageSize)| <= pageSize
    ensures |filtered| > 0 ==> |PageSlice(filtered, page, pageSize)| > 0
  {
    var n := |filtered|;
    var tp := TotalPages(n, pageSize);
    TotalPagesSpec(n, pageSize);
    var lo := (page - 1) * pageSize;
    MulMonotone(0, page - 1, pageSize);
    MulMonotone(page - 1, tp - 1, pageSize);
    MulSucc(page - 1, pageSize);
    assert 0 <= lo && lo + pageSize == page * pageSize;
    assert n > 0 ==> lo < n;
    assert n == 0 ==> lo == 0;
  }

  lemma MulSucc(a: int, c: int)
    ensures (a + 1) * c == a * c + c
  {
  }

  /** A page past the last one, and page 0, show nothing. */
  lemma PageSliceOutOfRange<T>(filtered: seq<T>, page: int, pageSize: nat)
    requires pageSize > 0
    requires page > TotalPages(|filtered|, pageSize) || page == 0
    ensures PageSlice(filtered, page, pageSize) == []
  {
    var tp := TotalPages(|filtered|, pageSize);
    TotalPagesSpec(|filtered|, pageSize);
    if page > tp {
      MulMonotone(tp, page - 1, pageSize);
    }
  }

  /** The slices of pages `1..k`, one after the other. */
  function ConcatPages<T>(filtered: seq<T>, pageSize: nat, k: nat): seq<T>
    decreases k
  {
    if k == 0 then [] else ConcatPages(filtered, pageSize, k - 1) + PageSlice(filtered, k, pageSize)
  }

  /** The first `k` pages spell out the first `min(k*pageSize, |filtered|)` entries. */
  lemma {:induction false} ConcatPagesPrefix<T>(filtered: seq<T>, pageSize: nat, k: nat)
    requires pageSize > 0 && k <= TotalPages(|filtered|, pageSize)
    ensures ConcatPages(filtered, pageSize, k)
      == filtered[..if k * pageSize <= |filtered| then k * pageSize else |filtered|]
    decreases k
  {
    if k > 0 {
      var n := |filtered|;
      var lo := (k - 1) * pageSize;
      var hi := if k * pageSize <= n then k * pageSize else n;
      MulMonotone(0, k - 1, pageSize);
      assert 0 <= lo;
      PageSliceInRange(filtered, k, pageSize);
      assert lo <= hi <= n;
      ConcatPagesPrefix(filtered, pageSize, k - 1);
      var before := ConcatPages(filtered, pageSize, k - 1);
      var page := PageSlice(filtered, k, pageSize);
      assert before == filtered[..lo];
      assert page == filtered[lo..hi];
      assert ConcatPages(filtered, pageSize, k) == before + page;
      PrefixSplit(filtered, lo, hi);
    }
  }

  lemma PrefixSplit<T>(s: seq<T>, lo: nat, hi: nat)
    requires lo <= hi <= |s|
    ensures s[..lo] + s[lo..hi] == s[..hi]
  {
  }

  /** Pages `1..totalPages` together give back `filtered`, in order. */
  lemma ConcatAllPages<T>(filtered: seq<T>, pageSize: nat)
    requires pageSize > 0
    ensures ConcatPages(filtered, pageSize, TotalPages(|filtered|, pageSize)) == filtered
  {
    var tp := TotalPages(|filtered|, pageSize);
    ConcatPagesPrefix(filtered, pageSize, tp);
    TotalPagesSpec(|filtered|, pageSize);
    assert filtered[..|filtered|] == filtered;
  }

  /** `setPagerUi`: Prev is disabled on the first page and before it. */
  predicate PrevDisabled(page: int) {
    page <= 1
  }

  /** `setPagerUi`: Next is disabled on the last page and beyond it. */
  predicate NextDisabled(page: int, totalPages: nat) {
    page >= totalPages
  }

  /** Three entries, two per page: page 1 shows the first two, page 2 the
      third, and there are two pages. */
  lemma ThreeEntriesTwoPerPage<T>(a: T, b: T, c: T)
    ensures TotalPages(3, 2) == 2
    ensures PageSlice([a, b, c], 1, 2) == [a, b]
    ensures PageSlice([a, b, c], 2, 2) == [c]
    ensures PrevDisabled(1) && !NextDisabled(1, 2)
    ensures !PrevDisabled(2) && NextDisabled(2, 2)
  {
  }
}
