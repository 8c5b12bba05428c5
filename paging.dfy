/**
 * The page materialiser `ApiList<T>(source, pageIndex, pageSize)`: the
 * `Skip(pageIndex * pageSize).Take(pageSize)` window of an ordered source.
 * As with LINQ's Skip and Take, a negative skip skips nothing and a negative
 * size takes nothing; a page past the end is empty, never an error.
 */
module Paging {

  /** Number of elements skipped before page `pageIndex`. */
  function PageStart(pageIndex: int, pageSize: int): nat {
    if pageIndex * pageSize > 0 then pageIndex * pageSize else 0
  }

  /** Largest number of elements a page of size `pageSize` can hold. */
  function PageCapacity(pageSize: int): nat {
    if pageSize > 0 then pageSize else 0
  }

  function Min(a: int, b: int): int { if a <= b then a else b }

  /** Length of page `pageIndex` of a source of length `n`: a full page, the remainder, or nothing. */
  function PageLength(n: int, pageIndex: int, pageSize: int): (len: nat)
    ensures n >= 0 ==> len <= n
  {
    if PageStart(pageIndex, pageSize) >= n then 0
    else Min(PageCapacity(pageSize), n - PageStart(pageIndex, pageSize))
  }

  /** One page of `s`: a contiguous, order-preserving window starting at `PageStart`. */
  function ApiPage<T>(s: seq<T>, pageIndex: int, pageSize: int): (r: seq<T>)
    ensures |r| == PageLength(|s|, pageIndex, pageSize)
    ensures forall k :: 0 <= k < |r| ==> r[k] == s[PageStart(pageIndex, pageSize) + k]
  {
    var start := PageStart(pageIndex, pageSize);
    if start >= |s| then []
    else s[start..start + Min(PageCapacity(pageSize), |s| - start)]
  }

  /** Page 0 is the prefix of the source that fits on one page. */
  lemma FirstPageIsPrefix<T>(s: seq<T>, pageSize: int)
    ensures PageLength(|s|, 0, pageSize) <= |s|
    ensures ApiPage(s, 0, pageSize) == s[..PageLength(|s|, 0, pageSize)]
  {
    assert PageStart(0, pageSize) == 0;
  }

  /** A page never holds more than its size, and every element of a page is from the source. */
  lemma PageBounds<T>(s: seq<T>, pageIndex: int, pageSize: int)
    ensures |ApiPage(s, pageIndex, pageSize)| <= PageCapacity(pageSize)
    ensures forall x :: x in ApiPage(s, pageIndex, pageSize) ==> x in s
  {
    var r := ApiPage(s, pageIndex, pageSize);
    forall x | x in r ensures x in s {
      var k :| 0 <= k < |r| && r[k] == x;
      assert s[PageStart(pageIndex, pageSize) + k] == x;
    }
  }

  /** Element `k` of the source is element `k % pageSize` of page `k / pageSize`. */
  lemma PageElementAt<T>(s: seq<T>, pageSize: int, k: int)
    requires pageSize > 0 && 0 <= k < |s|
    ensures k % pageSize < |ApiPage(s, k / pageSize, pageSize)|
    ensures ApiPage(s, k / pageSize, pageSize)[k % pageSize] == s[k]
  {
    var q, m := k / pageSize, k % pageSize;
    assert q * pageSize + m == k;
    assert q >= 0;
    assert q * pageSize >= 0;
    assert PageStart(q, pageSize) == q * pageSize;
  }

  /** The first `n` pages, one after the other. */
  function Pages<T>(s: seq<T>, n: nat, pageSize: int): seq<T> {
    if n == 0 then [] else Pages(s, n - 1, pageSize) + ApiPage(s, n - 1, pageSize)
  }

  /** For a positive size and a non-negative index, a page is the slice between two clamped offsets. */
  lemma PageIsSlice<T>(s: seq<T>, pageIndex: nat, pageSize: int)
    requires pageSize > 0
    ensures pageIndex * pageSize >= 0
    ensures ApiPage(s, pageIndex, pageSize)
         == s[Min(pageIndex * pageSize, |s|)..Min(pageIndex * pageSize + pageSize, |s|)]
  {
    var a := pageIndex * pageSize;
    assert a >= 0;
    assert PageStart(pageIndex, pageSize) == a;
  }

  /** The offset of the page after page `i` is one page size further. */
  lemma NextOffset(i: nat, pageSize: int)
    requires pageSize > 0
    ensures i * pageSize >= 0 && (i + 1) * pageSize == i * pageSize + pageSize
  {
  }

  /** Appending page `n - 1` to the first `n - 1` pages extends the covered prefix to `hi`. */
  lemma PagesStep<T>(s: seq<T>, n: nat, pageSize: int, lo: nat, hi: nat)
    requires n > 0 && lo <= hi <= |s|
    requires Pages(s, n - 1, pageSize) == s[..lo]
    requires ApiPage(s, n - 1, pageSize) == s[lo..hi]
    ensures Pages(s, n, pageSize) == s[..hi]
  {
    assert s[..hi] == s[..lo] + s[lo..hi];
  }

  /** Pages 0 .. n-1, concatenated, are exactly the first `n * pageSize` elements: no gap, no overlap. */
  lemma {:induction false} PagesCover<T>(s: seq<T>, n: nat, pageSize: int)
    requires pageSize > 0
    ensures n * pageSize >= 0
    ensures Pages(s, n, pageSize) == s[..Min(n * pageSize, |s|)]
  {
    if n > 0 {
      PagesCover(s, n - 1, pageSize);
      PageIsSlice(s, n - 1, pageSize);
      NextOffset(n - 1, pageSize);
      PagesStep(s, n, pageSize, Min((n - 1) * pageSize, |s|), Min(n * pageSize, |s|));
    }
  }
}
