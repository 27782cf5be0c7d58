/**
 * The paging rule both scripts use on the workbook listing: ask for pages
 * 1, 2, ... of PAGE_SIZE items and stop at the first page that fails, comes
 * back empty, or reaches the server's reported total.
 */
module Pagination {
  import opened Wrappers

  const PAGE_SIZE: nat := 100

  /** One listing page: its items and `pagination.totalAvailable`, or an HTTP error status. */
  datatype PageReply<T> = PageOk(items: seq<T>, totalAvailable: Option<int>) | PageError(status: int) {
    /** `int(pagination.get('totalAvailable', 0))` */
    function Total(): int
      requires PageOk?
    {
      totalAvailable.GetOr(0)
    }
  }

  /** Everything a listing fetch yields: the collected items or the first error status. */
  datatype Fetched<T> = Collected(items: seq<T>) | Failed(status: int)

  /** Page `page` ends the loop: the request raises, the page is empty, or the total is reached. */
  predicate StopsAt<T>(reply: PageReply<T>, page: nat) {
    reply.PageError? || |reply.items| == 0 || page * PAGE_SIZE >= reply.Total()
  }

  /**
   * The server's side of the bargain the loop relies on: some page stops it.
   * A listing for which no page ever stops makes the source loop forever.
   */
  ghost predicate Terminates<T>(pages: nat -> PageReply<T>) {
    exists n :: 1 <= n && StopsAt(pages(n), n)
  }

  ghost predicate IsFirstStop<T>(pages: nat -> PageReply<T>, n: nat) {
    1 <= n && StopsAt(pages(n), n) && forall k :: 1 <= k < n ==> !StopsAt(pages(k), k)
  }

  /** If page `b` stops the loop, some page no later than `b` is the first to stop it. */
  lemma {:induction false} FirstStopExists<T>(pages: nat -> PageReply<T>, b: nat)
    requires 1 <= b && StopsAt(pages(b), b)
    ensures exists n: nat :: n <= b && IsFirstStop(pages, n)
    decreases b
  {
    if !IsFirstStop(pages, b) {
      var k :| 1 <= k < b && StopsAt(pages(k), k);
      FirstStopExists(pages, k);
    }
  }

  lemma FirstStopUnique<T>(pages: nat -> PageReply<T>, m: nat, n: nat)
    requires IsFirstStop(pages, m) && IsFirstStop(pages, n)
    ensures m == n
  {
  }

  /** The page the loop stops at; pages 1 to FirstStop(pages) are the ones requested. */
  ghost function FirstStop<T>(pages: nat -> PageReply<T>): (n: nat)
    requires Terminates(pages)
    ensures IsFirstStop(pages, n)
  {
    var b :| 1 <= b && StopsAt(pages(b), b);
    FirstStopExists(pages, b);
    var n: nat :| n <= b && IsFirstStop(pages, n);
    n
  }

  /** A page that stops the loop, with none before it, decides the collection. */
  lemma StopsFirstAt<T>(pages: nat -> PageReply<T>, n: nat)
    requires 1 <= n && StopsAt(pages(n), n)
    requires forall k :: 1 <= k < n ==> !StopsAt(pages(k), k)
    ensures Terminates(pages) && FirstStop(pages) == n
    ensures pages(n).PageError? ==> Collection(pages) == Failed(pages(n).status)
    ensures pages(n).PageOk? ==> Collection(pages) == Collected(Gathered(pages, 1, n + 1))
  {
    assert IsFirstStop(pages, n);
    FirstStopUnique(pages, n, FirstStop(pages));
  }

  /** The items of pages lo .. hi-1, concatenated in page order. */
  function Gathered<T>(pages: nat -> PageReply<T>, lo: nat, hi: nat): seq<T>
    requires forall k :: lo <= k < hi ==> pages(k).PageOk?
    decreases hi
  {
    if hi <= lo then [] else Gathered(pages, lo, hi - 1) + pages(hi - 1).items
  }

  /** What the loop returns: the items of pages 1 .. FirstStop, or the stopping page's error. */
  ghost function Collection<T>(pages: nat -> PageReply<T>): Fetched<T>
    requires Terminates(pages)
  {
    var n := FirstStop(pages);
    match pages(n)
    case PageError(status) => Failed(status)
    case PageOk(_, _) => Collected(Gathered(pages, 1, n + 1))
  }

  /** The page numbers 1 .. n in order. */
  function PageRange(n: nat): (r: seq<nat>)
    ensures |r| == n && forall i :: 0 <= i < n ==> r[i] == i + 1
  {
    seq(n, i requires 0 <= i < n => i + 1)
  }

  /** The number of pages needed to hold `total` items: ceil(total / PAGE_SIZE). */
  function PagesFor(total: nat): nat {
    (total + PAGE_SIZE - 1) / PAGE_SIZE
  }

  /**
   * A server that reports `total` items and answers every needed page with a
   * non-empty page is asked for exactly ceil(total / 100) pages.
   */
  lemma PagesForTotal<T>(pages: nat -> PageReply<T>, total: nat)
    requires total >= 1
    requires forall k :: 1 <= k <= PagesFor(total) ==>
      pages(k).PageOk? && |pages(k).items| > 0 && pages(k).totalAvailable == Some(total)
    ensures Terminates(pages) && FirstStop(pages) == PagesFor(total)
  {
    var n := PagesFor(total);
    assert n * PAGE_SIZE >= total;
    assert (n - 1) * PAGE_SIZE < total;
    forall k | 1 <= k < n ensures !StopsAt(pages(k), k) {
      assert k * PAGE_SIZE <= (n - 1) * PAGE_SIZE;
    }
    assert IsFirstStop(pages, n);
    FirstStopUnique(pages, n, FirstStop(pages));
  }

  /** With totalAvailable = 150, pages of 100 and 50 items: two requests, 150 items. */
  lemma TwoRequestsFor150<T>(pages: nat -> PageReply<T>, first: seq<T>, second: seq<T>)
    requires |first| == 100 && |second| == 50
    requires pages(1) == PageOk(first, Some(150)) && pages(2) == PageOk(second, Some(150))
    ensures Terminates(pages) && FirstStop(pages) == 2
    ensures Collection(pages) == Collected(first + second) && |first + second| == 150
  {
    PagesForTotal(pages, 150);
    assert Gathered(pages, 1, 2) == first;
  }

  /** An empty first page ends the loop at once with nothing collected. */
  lemma EmptyFirstPage<T>(pages: nat -> PageReply<T>, total: Option<int>)
    requires pages(1) == PageOk([], total)
    ensures Terminates(pages) && FirstStop(pages) == 1 && Collection(pages) == Collected([])
  {
    assert IsFirstStop(pages, 1);
    FirstStopUnique(pages, 1, FirstStop(pages));
    assert Gathered(pages, 1, 2) == [];
  }
}
