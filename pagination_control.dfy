/**
 * The pagination control under the bacteria list: whether it renders, the list of page links with
 * ellipsis markers that `getPageNumbers` builds, the clamped Previous/Next targets, and the page-size
 * selector.
 */
module PaginationControl {
  import opened Wrappers
  import Text

  /** Pages shown around the current one, and half of it rounded down. */
  const MaxPagesToShow: int := 5
  const HalfPages: int := 2
  /** The marker pushed into the page list where an ellipsis ("...") is rendered. */
  const Ellipsis: int := -1
  /** The values offered by the "Items per page" selector. */
  const PageSizeOptions: seq<string> := ["5", "10", "20", "50"]

  /** The control renders nothing unless there is more than one page and the current list is not empty. */
  predicate Renders(totalPages: int, bacteriaCount: int) {
    !(totalPages <= 1 || bacteriaCount == 0)
  }

  /** The consecutive pages `lo, lo + 1, ..., hi`, empty when `hi < lo`. */
  function Range(lo: int, hi: int): (r: seq<int>)
    ensures |r| == if hi < lo then 0 else hi - lo + 1
    ensures forall k :: 0 <= k < |r| ==> r[k] == lo + k
    decreases hi - lo
  {
    if hi < lo then [] else Range(lo, hi - 1) + [hi]
  }

  /** The page numbers in the list (every entry that is not an ellipsis) increase strictly from left to right. */
  predicate ShownInOrder(pages: seq<int>) {
    forall i, j :: 0 <= i < j < |pages| && pages[i] != Ellipsis && pages[j] != Ellipsis ==> pages[i] < pages[j]
  }

  /** Every page number in the list is a real page. */
  predicate WithinBounds(pages: seq<int>, totalPages: int) {
    forall i :: 0 <= i < |pages| && pages[i] != Ellipsis ==> 1 <= pages[i] <= totalPages
  }

  /** Every ellipsis sits between two page numbers and stands for at least one page left out between them. */
  predicate EllipsesStandForPages(pages: seq<int>) {
    forall i :: 0 <= i < |pages| && pages[i] == Ellipsis ==>
      0 < i < |pages| - 1 && pages[i - 1] != Ellipsis && pages[i + 1] != Ellipsis && pages[i - 1] + 1 < pages[i + 1]
  }

  /** Page `p` is left out of the list behind the ellipsis at some position. */
  predicate HiddenBehindEllipsis(pages: seq<int>, p: int) {
    exists i :: 0 < i < |pages| - 1 && pages[i] == Ellipsis && pages[i - 1] < p < pages[i + 1]
  }

  /** Every page of `1..totalPages` is either listed or stands behind an ellipsis. */
  predicate CoversAllPages(pages: seq<int>, totalPages: int) {
    forall p :: 1 <= p <= totalPages ==> p in pages || HiddenBehindEllipsis(pages, p)
  }

  /** What `getPageNumbers` promises about the list it returns for `currentPage` of `totalPages`. */
  predicate PageWindow(pages: seq<int>, currentPage: int, totalPages: int) {
    && (totalPages <= MaxPagesToShow + 2 ==> pages == Range(1, totalPages))
    && (totalPages > MaxPagesToShow + 2 ==>
          && 4 <= |pages| <= MaxPagesToShow + 4
          && pages[0] == 1
          && pages[|pages| - 1] == totalPages
          && (1 <= currentPage <= totalPages ==> currentPage in pages)
          && (pages[1] == Ellipsis <==> currentPage > HalfPages + 2)
          && (pages[|pages| - 2] == Ellipsis <==> currentPage < totalPages - HalfPages - 1))
    && ShownInOrder(pages)
    && WithinBounds(pages, totalPages)
    && EllipsesStandForPages(pages)
    && CoversAllPages(pages, totalPages)
  }

  /** `self.indexOf(x)`: the first index holding `x`, or -1. */
  function IndexOf(s: seq<int>, x: int): (k: int)
    ensures -1 <= k < |s|
    ensures k == -1 <==> x !in s
    ensures k >= 0 ==> s[k] == x && x !in s[..k]
  {
    if s == [] then -1
    else if s[0] == x then 0
    else
      var k := IndexOf(s[1..], x);
      assert s[1..][..k + 1] == s[..k + 2][1..] by { if k >= 0 { assert s[1..][..k] == s[1..k + 1]; } }
      if k == -1 then -1 else k + 1
  }

  /**
   * `self.filter((num, index) => num === -1 || self.indexOf(num) === index)`, over the suffix starting
   * at `i`: ellipses are always kept, a page number only at its first occurrence.
   */
  function KeepFirstOccurrences(self: seq<int>, i: nat): seq<int>
    requires i <= |self|
    decreases |self| - i
  {
    if i == |self| then []
    else
      (if self[i] == Ellipsis || IndexOf(self, self[i]) == i then [self[i]] else [])
      + KeepFirstOccurrences(self, i + 1)
  }

  /** When page numbers never repeat, the de-duplicating filter removes nothing. */
  lemma {:induction false} KeepFirstOccurrencesNoOp(self: seq<int>, i: nat)
    requires i <= |self|
    requires ShownInOrder(self)
    ensures KeepFirstOccurrences(self, i) == self[i..]
    decreases |self| - i
  {
    if i < |self| {
      KeepFirstOccurrencesNoOp(self, i + 1);
      if self[i] != Ellipsis {
        FirstOccurrence(self, i);
      }
    }
  }

  /** In an ordered list a page number is found at its own position. */
  lemma FirstOccurrence(self: seq<int>, i: nat)
    requires i < |self| && self[i] != Ellipsis
    requires ShownInOrder(self)
    ensures IndexOf(self, self[i]) == i
  {
    var k := IndexOf(self, self[i]);
    assert self[..i + 1][i] == self[i];
  }

  /** The final de-duplicating filter of `getPageNumbers` leaves a well-formed window unchanged. */
  lemma WindowKeepsAllEntries(pages: seq<int>, currentPage: int, totalPages: int)
    requires PageWindow(pages, currentPage, totalPages)
    ensures KeepFirstOccurrences(pages, 0) == pages
  {
    KeepFirstOccurrencesNoOp(pages, 0);
  }

  /** The facts about the assembled list that do not depend on how the window bounds were chosen. */
  lemma WindowShape(totalPages: int, startPage: int, endPage: int, lead: bool, trail: bool, pages: seq<int>)
    requires totalPages > MaxPagesToShow + 2
    requires 2 <= startPage <= endPage <= totalPages - 1
    requires endPage - startPage <= MaxPagesToShow - 1
    requires lead <==> startPage > 2
    requires trail <==> endPage < totalPages - 1
    requires pages == [1] + (if lead then [Ellipsis] else []) + Range(startPage, endPage)
                      + (if trail then [Ellipsis] else []) + [totalPages]
    ensures 4 <= |pages| <= MaxPagesToShow + 4
    ensures pages[0] == 1 && pages[|pages| - 1] == totalPages
    ensures pages[1] == Ellipsis <==> lead
    ensures pages[|pages| - 2] == Ellipsis <==> trail
    ensures forall p :: startPage <= p <= endPage ==> p in pages
    ensures ShownInOrder(pages) && WithinBounds(pages, totalPages) && EllipsesStandForPages(pages)
    ensures CoversAllPages(pages, totalPages)
  {
    var L := if lead then 1 else 0;
    WindowLayout(totalPages, startPage, endPage, lead, trail, pages);
    LayoutOrdered(pages, totalPages, startPage, endPage, L);
    LayoutCovers(pages, totalPages, startPage, endPage, L);
  }

  /**
   * The list is page 1, then an ellipsis when `L` is 1, then the pages `startPage..endPage`, then an
   * ellipsis when one position is left before the last, then `totalPages`.
   */
  predicate Layout(pages: seq<int>, totalPages: int, startPage: int, endPage: int, L: int) {
    && (L == 0 || L == 1)
    && 2 + L + (endPage - startPage + 1) <= |pages| <= 3 + L + (endPage - startPage + 1)
    && forall k :: 0 <= k < |pages| ==>
      pages[k] == (if k == 0 then 1
                   else if k < 1 + L then Ellipsis
                   else if k < 2 + L + (endPage - startPage) then startPage + (k - 1 - L)
                   else if k < |pages| - 1 then Ellipsis
                   else totalPages)
  }

  lemma WindowLayout(totalPages: int, startPage: int, endPage: int, lead: bool, trail: bool, pages: seq<int>)
    requires 2 <= startPage <= endPage
    requires pages == [1] + (if lead then [Ellipsis] else []) + Range(startPage, endPage)
                      + (if trail then [Ellipsis] else []) + [totalPages]
    ensures Layout(pages, totalPages, startPage, endPage, if lead then 1 else 0)
    ensures |pages| == 2 + (if lead then 1 else 0) + (endPage - startPage + 1) + (if trail then 1 else 0)
  {
    var L := if lead then 1 else 0;
    var mid := Range(startPage, endPage);
    var n := |mid|;
    assert |pages| == 2 + L + n + (if trail then 1 else 0);
    forall k | 0 <= k < |pages|
      ensures pages[k] == (if k == 0 then 1
                           else if k < 1 + L then Ellipsis
                           else if k < 1 + L + n then startPage + (k - 1 - L)
                           else if k < |pages| - 1 then Ellipsis
                           else totalPages)
    {
      if 1 + L <= k < 1 + L + n {
        assert pages[k] == mid[k - 1 - L];
      }
    }
  }

  lemma LayoutOrdered(pages: seq<int>, totalPages: int, startPage: int, endPage: int, L: int)
    requires 2 <= startPage <= endPage <= totalPages - 1
    requires L == 1 <==> startPage > 2
    requires |pages| == 3 + L + (endPage - startPage + 1) <==> endPage < totalPages - 1
    requires Layout(pages, totalPages, startPage, endPage, L)
    ensures ShownInOrder(pages) && WithinBounds(pages, totalPages) && EllipsesStandForPages(pages)
  {
  }

  lemma LayoutCovers(pages: seq<int>, totalPages: int, startPage: int, endPage: int, L: int)
    requires 2 <= startPage <= endPage <= totalPages - 1
    requires L == 1 <==> startPage > 2
    requires |pages| == 3 + L + (endPage - startPage + 1) <==> endPage < totalPages - 1
    requires Layout(pages, totalPages, startPage, endPage, L)
    ensures forall p :: startPage <= p <= endPage ==> p in pages
    ensures CoversAllPages(pages, totalPages)
  {
    forall p | startPage <= p <= endPage ensures p in pages {
      assert pages[1 + L + (p - startPage)] == p;
    }
    forall p | 1 <= p <= totalPages ensures p in pages || HiddenBehindEllipsis(pages, p) {
      if p == 1 {
        assert pages[0] == p;
      } else if p == totalPages {
        assert pages[|pages| - 1] == p;
      } else if p < startPage {
        assert pages[1] == Ellipsis && pages[0] < p < pages[2];
      } else if p > endPage {
        assert pages[|pages| - 2] == Ellipsis && pages[|pages| - 3] < p < pages[|pages| - 1];
      } else {
        assert pages[1 + L + (p - startPage)] == p;
      }
    }
  }

  /** The window built from the bounds `getPageNumbers` chooses meets the window's promises. */
  lemma SlidingWindow(currentPage: int, totalPages: int, startPage: int, endPage: int, lead: bool, trail: bool,
                      pages: seq<int>)
    requires totalPages > MaxPagesToShow + 2
    requires lead <==> currentPage > HalfPages + 2
    requires trail <==> currentPage < totalPages - HalfPages - 1
    requires startPage == if currentPage >= totalPages - HalfPages then totalPages - MaxPagesToShow + 1
                         else if 2 > currentPage - HalfPages then 2 else currentPage - HalfPages
    requires endPage == if currentPage <= HalfPages + 1 then MaxPagesToShow
                       else if totalPages - 1 < currentPage + HalfPages then totalPages - 1 else currentPage + HalfPages
    requires pages == [1] + (if lead then [Ellipsis] else []) + Range(startPage, endPage)
                      + (if trail then [Ellipsis] else []) + [totalPages]
    ensures PageWindow(pages, currentPage, totalPages)
  {
    WindowShape(totalPages, startPage, endPage, lead, trail, pages);
    assert 1 <= currentPage <= totalPages ==>
      currentPage == 1 || currentPage == totalPages || startPage <= currentPage <= endPage;
  }

  /** With at most seven pages, listing all of them meets the window's promises. */
  lemma AllPagesWindow(currentPage: int, totalPages: int)
    requires totalPages <= MaxPagesToShow + 2
    ensures PageWindow(Range(1, totalPages), currentPage, totalPages)
  {
    var r := Range(1, totalPages);
    forall p | 1 <= p <= totalPages ensures p in r {
      assert r[p - 1] == p;
    }
  }

  /**
   * `getPageNumbers`: up to seven pages are all listed; beyond that the first and last page, a window of
   * at most five pages around the current one, and an ellipsis on each side where pages are left out.
   */
  method GetPageNumbers(currentPage: int, totalPages: int) returns (pages: seq<int>)
    ensures PageWindow(pages, currentPage, totalPages)
  {
    var pageNumbers: seq<int>;
    if totalPages <= MaxPagesToShow + 2 {
      pageNumbers := ListAllPages(currentPage, totalPages);
    } else {
      pageNumbers := ListAroundCurrent(currentPage, totalPages);
    }
    WindowKeepsAllEntries(pageNumbers, currentPage, totalPages);
    pages := KeepFirstOccurrences(pageNumbers, 0);
  }

  /** The first branch of `getPageNumbers`: push every page from 1 to `totalPages`. */
  method ListAllPages(currentPage: int, totalPages: int) returns (pageNumbers: seq<int>)
    requires totalPages <= MaxPagesToShow + 2
    ensures PageWindow(pageNumbers, currentPage, totalPages)
  {
    pageNumbers := PushRange([], 1, totalPages);
    AllPagesWindow(currentPage, totalPages);
  }

  /** The second branch of `getPageNumbers`: first page, ellipsis, window, ellipsis, last page. */
  method ListAroundCurrent(currentPage: int, totalPages: int) returns (pageNumbers: seq<int>)
    requires totalPages > MaxPagesToShow + 2
    ensures PageWindow(pageNumbers, currentPage, totalPages)
  {
    pageNumbers := [1];
    var lead := currentPage > HalfPages + 2;
    if lead {
      pageNumbers := pageNumbers + [Ellipsis];
    }
    var startPage := if 2 > currentPage - HalfPages then 2 else currentPage - HalfPages;
    var endPage := if totalPages - 1 < currentPage + HalfPages then totalPages - 1 else currentPage + HalfPages;
    if currentPage <= HalfPages + 1 {
      endPage := if totalPages - 1 < MaxPagesToShow then totalPages - 1 else MaxPagesToShow;
    }
    if currentPage >= totalPages - HalfPages {
      startPage := if 2 > totalPages - MaxPagesToShow + 1 then 2 else totalPages - MaxPagesToShow + 1;
    }
    pageNumbers := PushRange(pageNumbers, startPage, endPage);
    var trail := currentPage < totalPages - HalfPages - 1;
    if trail {
      pageNumbers := pageNumbers + [Ellipsis];
    }
    pageNumbers := pageNumbers + [totalPages];
    SlidingWindow(currentPage, totalPages, startPage, endPage, lead, trail, pageNumbers);
  }

  /** `for (let i = lo; i <= hi; i++) pageNumbers.push(i)`. */
  method PushRange(pageNumbers: seq<int>, lo: int, hi: int) returns (r: seq<int>)
    ensures r == pageNumbers + Range(lo, hi)
  {
    r := pageNumbers;
    var i := lo;
    while i <= hi
      invariant lo <= i <= if lo <= hi then hi + 1 else lo
      invariant r == pageNumbers + Range(lo, i - 1)
    {
      r := r + [i];
      i := i + 1;
    }
    assert Range(lo, i - 1) == Range(lo, hi);
  }

  /** The page the Previous link requests: one back, but never before page 1. */
  function PreviousPage(currentPage: int): int {
    if 1 > currentPage - 1 then 1 else currentPage - 1
  }

  /** The page the Next link requests: one forward, but never past the last page. */
  function NextPage(currentPage: int, totalPages: int): int {
    if totalPages < currentPage + 1 then totalPages else currentPage + 1
  }

  /**
   * From a page in range, Previous and Next request a page in range that is at most one away, and each
   * link is styled as disabled exactly when clicking it would request the current page again.
   */
  lemma NavigationStaysInRange(currentPage: int, totalPages: int)
    requires 1 <= currentPage <= totalPages
    ensures 1 <= PreviousPage(currentPage) <= totalPages && 1 <= NextPage(currentPage, totalPages) <= totalPages
    ensures currentPage - 1 <= PreviousPage(currentPage) <= currentPage
    ensures currentPage <= NextPage(currentPage, totalPages) <= currentPage + 1
    ensures (currentPage == 1) <==> PreviousPage(currentPage) == currentPage
    ensures (currentPage == totalPages) <==> NextPage(currentPage, totalPages) == currentPage
  {
  }

  /** `Number(value)` for a value picked in the "Items per page" selector. */
  function PageSizeOf(value: string): (size: nat)
    requires value in PageSizeOptions
    ensures size in {5, 10, 20, 50}
    ensures Text.ShowNat(size) == value
  {
    if value == "5" then 5 else if value == "10" then 10 else if value == "20" then 20 else 50
  }

  /** The selector shows `String(pageSize)`; choosing that entry again forwards the same page size. */
  lemma SelectorRoundTrip(pageSize: nat)
    requires pageSize in {5, 10, 20, 50}
    ensures Text.ShowNat(pageSize) in PageSizeOptions
    ensures PageSizeOf(Text.ShowNat(pageSize)) == pageSize
  {
    assert Text.ShowNat(1) == "1" && Text.ShowNat(2) == "2" && Text.ShowNat(5) == "5";
    assert Text.ShowNat(10) == "10" && Text.ShowNat(20) == "20" && Text.ShowNat(50) == "50";
  }

  /** What the rendered control offers: its page links and where each button leads. */
  datatype Controls = Controls(
    pages: seq<int>,
    previousTarget: int,
    nextTarget: int,
    previousDisabled: bool,
    nextDisabled: bool,
    pageSizeValue: string)

  /** The whole control: nothing when the guard fails, otherwise the page links and button targets. */
  method Render(currentPage: int, totalPages: int, pageSize: nat, bacteriaCount: nat) returns (r: Option<Controls>)
    ensures r.None? <==> (totalPages <= 1 || bacteriaCount == 0)
    ensures r.Some? ==>
      && PageWindow(r.value.pages, currentPage, totalPages)
      && r.value.previousTarget == PreviousPage(currentPage)
      && r.value.nextTarget == NextPage(currentPage, totalPages)
      && (r.value.previousDisabled <==> currentPage == 1)
      && (r.value.nextDisabled <==> currentPage == totalPages)
      && r.value.pageSizeValue == Text.ShowNat(pageSize)
  {
    if !Renders(totalPages, bacteriaCount) {
      return None;
    }
    var pages := GetPageNumbers(currentPage, totalPages);
    r := Some(Controls(pages, PreviousPage(currentPage), NextPage(currentPage, totalPages),
                       currentPage == 1, currentPage == totalPages, Text.ShowNat(pageSize)));
  }
}
