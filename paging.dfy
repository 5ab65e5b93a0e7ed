/**
 * The storefront's pagination: `sorted.slice((page - 1) * 12, page * 12)`
 * with `Array.prototype.slice`'s index rules, and
 * `Math.ceil(sorted.length / 12)` pages.
 */
module Paging {

  const ProductsPerPage: nat := 12

  function Min(a: int, b: int): int { if a <= b then a else b }

  /** A `slice` bound: a negative one counts from the end, and both are clamped to `[0, n]`. */
  function RelativeIndex(i: int, n: nat): (r: nat)
    ensures r <= n
    ensures 0 <= i ==> r == Min(i, n)
    ensures i < 0 ==> r == if n + i < 0 then 0 else n + i
  {
    if i < 0 then (if n + i < 0 then 0 else n + i) else if i > n then n else i
  }

  /** `s.slice(start, end)` */
  function Slice<T>(s: seq<T>, start: int, end: int): (r: seq<T>)
    ensures |r| <= |s|
    ensures 0 <= start <= end ==> r == s[Min(start, |s|)..Min(end, |s|)]
  {
    var a := RelativeIndex(start, |s|);
    var b := RelativeIndex(end, |s|);
    if a < b then s[a..b] else []
  }

  /** The products page `page` shows. */
  function Page<T>(s: seq<T>, page: int): (r: seq<T>)
    ensures page >= 1 ==> |r| <= ProductsPerPage
    ensures page >= 1 ==> r == s[Min((page - 1) * ProductsPerPage, |s|)..Min(page * ProductsPerPage, |s|)]
  {
    Slice(s, (page - 1) * ProductsPerPage, page * ProductsPerPage)
  }

  /** `Math.ceil(n / 12)`: the fewest pages of 12 that hold `n` items. */
  function TotalPages(n: nat): (t: nat)
    ensures t * ProductsPerPage >= n
    ensures t == 0 || (t - 1) * ProductsPerPage < n
  {
    (n + ProductsPerPage - 1) / ProductsPerPage
  }

  /** The first page is the first twelve items, or all of them when there are fewer. */
  lemma FirstPage<T>(s: seq<T>)
    ensures Page(s, 1) == s[..Min(ProductsPerPage, |s|)]
  {
  }

  /** From page 1 on, a page shows something exactly up to the last page. */
  lemma PageNonEmptyIff<T>(s: seq<T>, page: int)
    requires page >= 1
    ensures Page(s, page) != [] <==> page <= TotalPages(|s|)
  {
    var t := TotalPages(|s|);
    if page <= t {
      assert (page - 1) * ProductsPerPage <= (t - 1) * ProductsPerPage;
    } else {
      assert (page - 1) * ProductsPerPage >= t * ProductsPerPage;
    }
  }

  /** Pages `1..k`, one after the other. */
  function Pages<T>(s: seq<T>, k: nat): seq<T> {
    if k == 0 then [] else Pages(s, k - 1) + Page(s, k)
  }

  /** The first `k` pages are the first `12 k` items. */
  lemma {:induction false} PagesPrefix<T>(s: seq<T>, k: nat)
    ensures Pages(s, k) == s[..Min(k * ProductsPerPage, |s|)]
  {
    if k > 0 {
      PagesPrefix(s, k - 1);
      var lo := Min((k - 1) * ProductsPerPage, |s|);
      var hi := Min(k * ProductsPerPage, |s|);
      assert s[..lo] + s[lo..hi] == s[..hi];
    }
  }

  /** Pages `1..TotalPages` together show every item once, in order. */
  lemma PagesCover<T>(s: seq<T>)
    ensures Pages(s, TotalPages(|s|)) == s
  {
    PagesPrefix(s, TotalPages(|s|));
  }
}
