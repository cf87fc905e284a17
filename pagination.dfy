/** The navigation block of a search result page: `buildPagination` in
    src/search_renderer.cpp. Page indices are 0-based; the links shown to the
    user carry 1-based labels. Numbers are kept as naturals here; rendering
    them with to_string is left to the template layer. */
module Pagination {
  import opened Wrappers

  /** One navigation link: its label (the 1-based page number shown), the result offset it jumps to, and
      whether it is the page being shown. */
  datatype PageDesc = PageDesc(pageLabel: nat, start: nat, current: bool)

  /** The `pagination` object handed to the template. An anchor the code never
      sets is `None`. */
  datatype PaginationData = PaginationData(
    firstPage: Option<PageDesc>,
    lastPage: Option<PageDesc>,
    pages: seq<PageDesc>,
    itemsPerPage: nat,
    hasPages: bool)

  /** The index arithmetic of buildPagination: the page holding the first shown
      result, the last page, and the first and last index of the generated
      window. */
  datatype Window = Window(currentPage: nat, lastPage: nat, firstGenerated: nat, lastGenerated: nat)

  function Min(a: nat, b: nat): nat { if a <= b then a else b }

  lemma DivBounds(n: nat, d: nat)
    requires d != 0
    ensures (n / d) * d <= n < (n / d + 1) * d
  {
  }

  /** The index arithmetic of buildPagination: the page holding the first
      shown result, the last page, and a window reaching four pages either
      side of the current page, clamped to `[0, lastPage]`. */
  function WindowOf(pageLength: nat, resultsCount: nat, resultsStart: nat): (w: Window)
    requires pageLength != 0 && resultsCount != 0
    ensures w.firstGenerated == if w.currentPage > 4 then w.currentPage - 4 else 0
    ensures w.lastGenerated == Min(w.currentPage + 4, w.lastPage)
  {
    var currentPage := resultsStart / pageLength;
    var lastPage := (resultsCount - 1) / pageLength;
    Window(currentPage, lastPage,
           if currentPage > 4 then currentPage - 4 else 0,
           Min(currentPage + 4, lastPage))
  }

  /** Page `i` covers results `[i * pageLength, (i + 1) * pageLength)`: the
      current page holds the first shown result and the last page the last
      result. */
  lemma WindowPages(pageLength: nat, resultsCount: nat, resultsStart: nat)
    requires pageLength != 0 && resultsCount != 0
    ensures var w := WindowOf(pageLength, resultsCount, resultsStart);
            && w.currentPage * pageLength <= resultsStart < (w.currentPage + 1) * pageLength
            && w.lastPage * pageLength < resultsCount <= (w.lastPage + 1) * pageLength
  {
    DivBounds(resultsStart, pageLength);
    DivBounds(resultsCount - 1, pageLength);
  }

  /** The descriptor the loop builds for page index `i`. */
  function PageAt(i: nat, pageLength: nat, currentPage: nat): PageDesc
  {
    PageDesc(i + 1, i * pageLength, i == currentPage)
  }

  /** Descriptors for the indices `lo, lo + 1, ..., hi - 1` (empty when `hi <= lo`). */
  function Run(lo: nat, hi: nat, pageLength: nat, currentPage: nat): (r: seq<PageDesc>)
    ensures |r| == if hi > lo then hi - lo else 0
  {
    seq(if hi > lo then hi - lo else 0, k requires 0 <= k => PageAt(lo + k, pageLength, currentPage))
  }

  lemma RunSnoc(lo: nat, hi: nat, pageLength: nat, currentPage: nat)
    requires lo <= hi
    ensures Run(lo, hi + 1, pageLength, currentPage)
         == Run(lo, hi, pageLength, currentPage) + [PageAt(hi, pageLength, currentPage)]
  {
  }

  /** Reference definition of the pagination object, read off the window
      rather than produced by the loop: page 0 and the last page are anchors,
      every other generated index is a list entry, and anchors outside the
      window are synthesized. */
  function PaginationFromWindow(w: Window, pageLength: nat): PaginationData
  {
    var lo := if w.firstGenerated == 0 then 1 else w.firstGenerated;
    var hi := Min(w.lastGenerated + 1, w.lastPage);
    PaginationData(
      Some(if w.firstGenerated != 0 then PageDesc(0, 0, false)
           else PageAt(0, pageLength, w.currentPage)),
      if w.lastGenerated != w.lastPage then Some(PageDesc(w.lastPage + 1, w.lastPage * pageLength, false))
      else if w.lastPage != 0 && w.firstGenerated <= w.lastPage then Some(PageAt(w.lastPage, pageLength, w.currentPage))
      else None,
      Run(lo, hi, pageLength, w.currentPage),
      pageLength,
      w.lastPage + 1 != 1)
  }

  function Paginate(pageLength: nat, resultsCount: nat, resultsStart: nat): PaginationData
    requires pageLength != 0 && resultsCount != 0
  {
    PaginationFromWindow(WindowOf(pageLength, resultsCount, resultsStart), pageLength)
  }

  /** The loop of buildPagination over the window `[firstGenerated,
      lastGenerated]`: index 0 goes to the first-page anchor, the last page to
      the last-page anchor and everything else, in order, to the list. */
  method WalkWindow(w: Window, pageLength: nat)
    returns (firstAnchor: Option<PageDesc>, lastAnchor: Option<PageDesc>, pages: seq<PageDesc>)
    requires w.lastGenerated <= w.lastPage
    ensures firstAnchor == if w.firstGenerated == 0 <= w.lastGenerated then Some(PageAt(0, pageLength, w.currentPage)) else None
    ensures lastAnchor == if w.lastPage != 0 && w.firstGenerated <= w.lastPage <= w.lastGenerated
                          then Some(PageAt(w.lastPage, pageLength, w.currentPage)) else None
    ensures pages == Run(if w.firstGenerated == 0 then 1 else w.firstGenerated,
                         Min(w.lastGenerated + 1, w.lastPage), pageLength, w.currentPage)
  {
    ghost var lo := if w.firstGenerated == 0 then 1 else w.firstGenerated;
    ghost var hi := Min(w.lastGenerated + 1, w.lastPage);
    firstAnchor, lastAnchor, pages := None, None, [];
    var i := w.firstGenerated;
    while i <= w.lastGenerated
      invariant w.firstGenerated <= i
      invariant i <= w.lastGenerated + 1 || i == w.firstGenerated
      invariant firstAnchor == if w.firstGenerated == 0 < i then Some(PageAt(0, pageLength, w.currentPage)) else None
      invariant lastAnchor == if w.lastPage != 0 && w.firstGenerated <= w.lastPage < i
                              then Some(PageAt(w.lastPage, pageLength, w.currentPage)) else None
      invariant pages == Run(lo, Min(i, hi), pageLength, w.currentPage)
    {
      var page := PageDesc(i + 1, i * pageLength, i == w.currentPage);
      if i == 0 {
        firstAnchor := Some(page);
      } else if i == w.lastPage {
        lastAnchor := Some(page);
      } else {
        RunSnoc(lo, i, pageLength, w.currentPage);
        pages := pages + [page];
      }
      i := i + 1;
    }
  }

  /** The part of buildPagination after the index arithmetic, for any window
      that does not pass the last page: walk it once, then synthesize the
      anchors the walk did not reach. */
  method PaginationOfWindow(w: Window, pageLength: nat) returns (p: PaginationData)
    requires w.lastGenerated <= w.lastPage
    ensures p == PaginationFromWindow(w, pageLength)
  {
    var lastPageStart := w.lastPage * pageLength;
    var nbPages := w.lastPage + 1;
    var firstAnchor, lastAnchor, pages := WalkWindow(w, pageLength);
    if w.firstGenerated != 0 {
      firstAnchor := Some(PageDesc(0, 0, false));
    }
    if w.lastGenerated != w.lastPage {
      lastAnchor := Some(PageDesc(nbPages, lastPageStart, false));
    }
    p := PaginationData(firstAnchor, lastAnchor, pages, pageLength, nbPages != 1);
  }

  /** buildPagination: compute the window (the pure index arithmetic of
      WindowOf), then walk it and fill in the anchors. */
  method BuildPagination(pageLength: nat, resultsCount: nat, resultsStart: nat) returns (p: PaginationData)
    requires pageLength != 0 && resultsCount != 0
    ensures p == Paginate(pageLength, resultsCount, resultsStart)
  {
    var w := WindowOf(pageLength, resultsCount, resultsStart);
    p := PaginationOfWindow(w, pageLength);
  }

  // ---------------------------------------------------------------------
  // Properties of the pagination object
  // ---------------------------------------------------------------------

  /** Every link in display order: first anchor, list, last anchor. */
  function Links(p: PaginationData): seq<PageDesc>
  {
    (if p.firstPage.Some? then [p.firstPage.value] else [])
    + p.pages
    + (if p.lastPage.Some? then [p.lastPage.value] else [])
  }

  /** The clamping buildPagination applies: four pages either side of the
      current page, never below 0 and never above the last page. */
  predicate Clamped(w: Window)
  {
    && w.firstGenerated == (if w.currentPage > 4 then w.currentPage - 4 else 0)
    && w.lastGenerated == Min(w.currentPage + 4, w.lastPage)
  }

  /** The window spans at most nine indices, never passes the last page, and
      contains the current page whenever the first shown result exists. */
  lemma WindowShape(pageLength: nat, resultsCount: nat, resultsStart: nat)
    requires pageLength != 0 && resultsCount != 0
    ensures var w := WindowOf(pageLength, resultsCount, resultsStart);
            Clamped(w) &&
            w.lastGenerated <= w.firstGenerated + 8 &&
            w.lastGenerated <= w.lastPage &&
            (resultsStart < resultsCount ==>
               w.currentPage <= w.lastPage && w.firstGenerated <= w.currentPage <= w.lastGenerated)
  {
    var w := WindowOf(pageLength, resultsCount, resultsStart);
    if resultsStart < resultsCount && w.currentPage > w.lastPage {
      MulMonotone(w.currentPage, w.lastPage + 1, pageLength);
    }
  }

  lemma MulMonotone(a: nat, b: nat, d: nat)
    requires a >= b
    ensures a * d >= b * d
  {
    assert a * d == b * d + (a - b) * d;
  }

  /** The list holds the generated indices strictly between page 0 and the
      last page, in ascending order, each labelled `index + 1` and starting
      at `index * pageLength`; there are at most nine of them. */
  lemma PagesShape(w: Window, pageLength: nat)
    requires Clamped(w)
    ensures var p := PaginationFromWindow(w, pageLength);
            |p.pages| <= 9 &&
            (forall k :: 0 <= k < |p.pages| ==>
               2 <= p.pages[k].pageLabel <= w.lastPage &&
               w.firstGenerated + 1 <= p.pages[k].pageLabel <= w.lastGenerated + 1 &&
               p.pages[k].start == (p.pages[k].pageLabel - 1) * pageLength &&
               (p.pages[k].current <==> p.pages[k].pageLabel == w.currentPage + 1)) &&
            (forall j, k :: 0 <= j < k < |p.pages| ==> p.pages[j].pageLabel < p.pages[k].pageLabel)
  {
    var p := PaginationFromWindow(w, pageLength);
    var lo := if w.firstGenerated == 0 then 1 else w.firstGenerated;
    var hi := Min(w.lastGenerated + 1, w.lastPage);
    assert p.pages == Run(lo, hi, pageLength, w.currentPage);
    forall k | 0 <= k < |p.pages|
      ensures p.pages[k] == PageDesc(lo + k + 1, (lo + k) * pageLength, lo + k == w.currentPage)
    {
    }
  }

  /** Links appear in strictly ascending label order. */
  lemma {:induction false} LinksAscending(w: Window, pageLength: nat)
    requires Clamped(w)
    ensures var l := Links(PaginationFromWindow(w, pageLength));
            forall j, k :: 0 <= j < k < |l| ==> l[j].pageLabel < l[k].pageLabel
  {
    var p := PaginationFromWindow(w, pageLength);
    PagesShape(w, pageLength);
    var l := Links(p);
    var tail := if p.lastPage.Some? then [p.lastPage.value] else [];
    assert l == [p.firstPage.value] + p.pages + tail;
    assert p.firstPage.value.pageLabel <= 1;
    assert p.lastPage.Some? ==> p.lastPage.value.pageLabel == w.lastPage + 1;
    forall j, k | 0 <= j < k < |l| ensures l[j].pageLabel < l[k].pageLabel {
      if j == 0 && k <= |p.pages| {
        assert l[k] == p.pages[k - 1];
      } else if k <= |p.pages| {
        assert l[j] == p.pages[j - 1] && l[k] == p.pages[k - 1];
      } else if j == 0 {
        assert l[k] == p.lastPage.value;
      } else {
        assert l[j] == p.pages[j - 1] && l[k] == p.lastPage.value;
      }
    }
  }

  /** A link is flagged current iff its label is `currentPage + 1`; the
      synthesized anchors never are. */
  lemma CurrentIffLabel(w: Window, pageLength: nat)
    requires Clamped(w)
    ensures var l := Links(PaginationFromWindow(w, pageLength));
            forall k :: 0 <= k < |l| ==> (l[k].current <==> l[k].pageLabel == w.currentPage + 1)
  {
    var p := PaginationFromWindow(w, pageLength);
    var l := Links(p);
    var tail := if p.lastPage.Some? then [p.lastPage.value] else [];
    assert l == [p.firstPage.value] + p.pages + tail;
    PagesShape(w, pageLength);
    forall k | 0 <= k < |l| ensures l[k].current <==> l[k].pageLabel == w.currentPage + 1 {
      if k == 0 {
        assert l[k] == p.firstPage.value;
      } else if k <= |p.pages| {
        assert l[k] == p.pages[k - 1];
      } else {
        assert l[k] == p.lastPage.value;
      }
    }
  }

  /** When the current page exists, some link carries the current flag: the
      list entry, the first anchor or the last anchor, wherever the page was
      routed. */
  lemma CurrentPresent(w: Window, pageLength: nat)
    requires Clamped(w) && w.currentPage <= w.lastPage
    ensures var l := Links(PaginationFromWindow(w, pageLength));
            exists k :: 0 <= k < |l| && l[k].current
  {
    var p := PaginationFromWindow(w, pageLength);
    var l := Links(p);
    var tail := if p.lastPage.Some? then [p.lastPage.value] else [];
    assert l == [p.firstPage.value] + p.pages + tail;
    var c := w.currentPage;
    if c == 0 {
      assert l[0].current;
    } else if c == w.lastPage {
      assert l[|l| - 1].current;
    } else {
      var lo := if w.firstGenerated == 0 then 1 else w.firstGenerated;
      assert p.pages[c - lo] == PageAt(c, pageLength, c);
      assert l[1 + c - lo] == p.pages[c - lo];
    }
  }

  /** At most one link carries the current flag. */
  lemma CurrentUnique(w: Window, pageLength: nat)
    requires Clamped(w)
    ensures var l := Links(PaginationFromWindow(w, pageLength));
            forall j, k :: 0 <= j < |l| && 0 <= k < |l| && l[j].current && l[k].current ==> j == k
  {
    CurrentIffLabel(w, pageLength);
    LinksAscending(w, pageLength);
  }

  /** The first-page anchor is always present: page 0's own descriptor when
      the window starts at 0, otherwise a synthesized link labelled 0 (not 1),
      starting at 0 and never current. */
  lemma FirstAnchor(pageLength: nat, resultsCount: nat, resultsStart: nat)
    requires pageLength != 0 && resultsCount != 0
    ensures var p := Paginate(pageLength, resultsCount, resultsStart);
            var w := WindowOf(pageLength, resultsCount, resultsStart);
            p.firstPage.Some? &&
            (w.currentPage > 4 ==> p.firstPage.value == PageDesc(0, 0, false)) &&
            (w.currentPage <= 4 ==> p.firstPage.value == PageDesc(1, 0, w.currentPage == 0))
  {
  }

  /** The last-page anchor exists iff there is more than one page (as long as
      the start offset is not more than four pages past the end). Outside the
      window it is synthesized with label `nbPages` and start
      `lastPage * pageLength`; with a single page only the first anchor exists. */
  lemma LastAnchor(pageLength: nat, resultsCount: nat, resultsStart: nat)
    requires pageLength != 0 && resultsCount != 0
    ensures var p := Paginate(pageLength, resultsCount, resultsStart);
            var w := WindowOf(pageLength, resultsCount, resultsStart);
            (w.currentPage <= w.lastPage + 4 ==> (p.lastPage.Some? <==> w.lastPage > 0)) &&
            (w.currentPage + 4 < w.lastPage ==>
               p.lastPage == Some(PageDesc(w.lastPage + 1, w.lastPage * pageLength, false))) &&
            (w.lastPage <= w.currentPage + 4 && w.lastPage > 0 && w.currentPage <= w.lastPage + 4 ==>
               p.lastPage == Some(PageAt(w.lastPage, pageLength, w.currentPage))) &&
            (w.lastPage == 0 ==> p.lastPage.None?)
  {
  }

  /** As written, a start offset more than four pages past the last page
      generates an empty window and no last-page anchor at all. */
  lemma LastAnchorMissingBeyondEnd(pageLength: nat, resultsCount: nat, resultsStart: nat)
    requires pageLength != 0 && resultsCount != 0
    requires resultsStart / pageLength > (resultsCount - 1) / pageLength + 4
    ensures var p := Paginate(pageLength, resultsCount, resultsStart);
            p.lastPage.None? && p.pages == [] && p.firstPage == Some(PageDesc(0, 0, false))
  {
  }

  lemma {:induction false} DivAtLeastOne(n: nat, d: nat)
    requires d != 0
    ensures n / d >= 1 <==> n >= d
  {
    DivBounds(n, d);
    if n / d >= 1 {
      MulMonotone(n / d, 1, d);
    }
  }

  /** The pagination UI is suppressed exactly when all results fit on one
      page, and every page holds `pageLength` results. */
  lemma HasPagesIff(pageLength: nat, resultsCount: nat, resultsStart: nat)
    requires pageLength != 0 && resultsCount != 0
    ensures var p := Paginate(pageLength, resultsCount, resultsStart);
            (p.hasPages <==> resultsCount > pageLength) && p.itemsPerPage == pageLength
  {
    DivAtLeastOne(resultsCount - 1, pageLength);
  }

  /** At most eleven links however many results there are. */
  lemma LinksBounded(pageLength: nat, resultsCount: nat, resultsStart: nat)
    requires pageLength != 0 && resultsCount != 0
    ensures |Links(Paginate(pageLength, resultsCount, resultsStart))| <= 11
  {
    WindowShape(pageLength, resultsCount, resultsStart);
    PagesShape(WindowOf(pageLength, resultsCount, resultsStart), pageLength);
  }

  /** 97 results of 20 per page, starting at result 40: page 2 of 5; the window
      covers pages 0..4, so both anchors are natural descriptors. */
  lemma ExampleSmall()
    ensures var p := Paginate(20, 97, 40);
            p.firstPage == Some(PageDesc(1, 0, false)) &&
            p.pages == [PageDesc(2, 20, false), PageDesc(3, 40, true), PageDesc(4, 60, false)] &&
            p.lastPage == Some(PageDesc(5, 80, false)) &&
            p.hasPages
  {
    var w := WindowOf(20, 97, 40);
    assert w == Window(2, 4, 0, 4);
    assert Run(1, 4, 20, 2) == [PageDesc(2, 20, false), PageDesc(3, 40, true), PageDesc(4, 60, false)];
  }

  /** 5000 results of 10 per page, starting at result 250: the window is pages
      21..29 and both anchors are synthesized. */
  lemma ExampleLarge()
    ensures var p := Paginate(10, 5000, 250);
            p.firstPage == Some(PageDesc(0, 0, false)) &&
            |p.pages| == 9 &&
            p.pages[0] == PageDesc(22, 210, false) &&
            p.pages[4] == PageDesc(26, 250, true) &&
            p.pages[8] == PageDesc(30, 290, false) &&
            p.lastPage == Some(PageDesc(500, 4990, false))
  {
    var w := WindowOf(10, 5000, 250);
    assert w == Window(25, 499, 21, 29);
    assert Paginate(10, 5000, 250).pages == Run(21, 30, 10, 25);
  }

  // ---------------------------------------------------------------------
  // The 32-bit window as written
  // ---------------------------------------------------------------------

  const UINT_LIMIT: nat := 0x1_0000_0000

  /** The window with the source's `unsigned int` arithmetic: `currentPage + 4`
      wraps modulo 2^32 before the `min`. */
  function WindowAsWritten(pageLength: nat, resultsCount: nat, resultsStart: nat): (w: Window)
    requires 0 < pageLength < UINT_LIMIT && 0 < resultsCount < UINT_LIMIT && resultsStart < UINT_LIMIT
    ensures w.currentPage + 4 < UINT_LIMIT ==> w == WindowOf(pageLength, resultsCount, resultsStart)
  {
    var currentPage := resultsStart / pageLength;
    var lastPage := (resultsCount - 1) / pageLength;
    Window(currentPage, lastPage,
           if currentPage > 4 then currentPage - 4 else 0,
           Min((currentPage + 4) % UINT_LIMIT, lastPage))
  }

  /** buildPagination as written, with the 32-bit sum in the window: the
      same walk and anchors over the possibly wrapped window. */
  method BuildPaginationAsWritten(pageLength: nat, resultsCount: nat, resultsStart: nat) returns (p: PaginationData)
    requires 0 < pageLength < UINT_LIMIT && 0 < resultsCount < UINT_LIMIT && resultsStart < UINT_LIMIT
    ensures p == PaginationFromWindow(WindowAsWritten(pageLength, resultsCount, resultsStart), pageLength)
  {
    var w := WindowAsWritten(pageLength, resultsCount, resultsStart);
    p := PaginationOfWindow(w, pageLength);
  }

  /** With one result per page and close to 2^32 results, the wrapped window is
      empty: no page is generated, the current page appears nowhere and the
      window is replaced by two synthesized anchors. */
  lemma WindowWrapLosesCurrentPage()
    ensures var pl, rc, rs := 1, UINT_LIMIT - 1, UINT_LIMIT - 2;
            var w := WindowAsWritten(pl, rc, rs);
            var p := PaginationFromWindow(w, pl);
            rs < rc &&
            w.lastGenerated < w.firstGenerated &&
            p.pages == [] &&
            (forall k :: 0 <= k < |Links(p)| ==> !Links(p)[k].current)
  {
    var w := WindowAsWritten(1, UINT_LIMIT - 1, UINT_LIMIT - 2);
    assert w == Window(UINT_LIMIT - 2, UINT_LIMIT - 2, UINT_LIMIT - 6, 2);
  }
}
