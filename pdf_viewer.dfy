/** The PDF viewer: the current page, page count, zoom factor and view mode,
    how the toolbar, the keyboard and scrolling move between pages, and
    which outline entry is highlighted for the current page. */
module PdfViewer {
  import opened Wrappers
  import opened Text
  import PdfOutline

  // ---------------------------------------------------------------------
  // The outline entry for the current page
  // ---------------------------------------------------------------------

  /** The largest of the first `n` pages that is at most `current`. */
  function Largest(pages: seq<nat>, current: int, n: nat): (r: Option<nat>)
    requires n <= |pages|
    ensures r.Some? ==> r.value <= current && exists k :: 0 <= k < n && pages[k] == r.value
    ensures r.Some? ==> forall k :: 0 <= k < n && pages[k] <= current ==> pages[k] <= r.value
    ensures r.None? ==> forall k :: 0 <= k < n ==> pages[k] > current
  {
    if n == 0 then None
    else
      var r := Largest(pages, current, n - 1);
      if pages[n - 1] <= current && (r.None? || pages[n - 1] >= r.value) then Some(pages[n - 1]) else r
  }

  /** The last of the first `n` positions that holds page `p`. */
  function LastAt(pages: seq<nat>, p: nat, n: nat): (r: Option<nat>)
    requires n <= |pages|
    ensures r.Some? ==> r.value < n && pages[r.value] == p && forall j :: r.value < j < n ==> pages[j] != p
    ensures r.None? ==> forall j :: 0 <= j < n ==> pages[j] != p
  {
    if n == 0 then None
    else if pages[n - 1] == p then Some(n - 1)
    else LastAt(pages, p, n - 1)
  }

  /** The outline entry to highlight: the last one whose page is the
      largest page not after `current`. */
  function BestEntry(pages: seq<nat>, current: int, n: nat): (r: Option<nat>)
    requires n <= |pages|
  {
    match Largest(pages, current, n)
    case None => None
    case Some(p) => LastAt(pages, p, n)
  }

  /** The entry highlighted for `current` has the greatest page at most
      `current`, and it is the last entry with that page; nothing is
      highlighted when every page comes after `current`. */
  lemma BestEntryIsGreatestLowerBound(pages: seq<nat>, current: int)
    ensures var r := BestEntry(pages, current, |pages|);
      && (r.Some? ==> r.value < |pages| && pages[r.value] <= current)
      && (r.Some? ==> forall j :: 0 <= j < |pages| && pages[j] <= current ==> pages[j] <= pages[r.value])
      && (r.Some? ==> forall j :: r.value < j < |pages| && pages[j] <= current ==> pages[j] < pages[r.value])
      && (r.None? <==> forall j :: 0 <= j < |pages| ==> pages[j] > current)
  {
    var n := |pages|;
    var m := Largest(pages, current, n);
    if m.Some? {
      var k :| 0 <= k < n && pages[k] == m.value;
      assert LastAt(pages, m.value, n).Some?;
    }
  }

  /** Pages 1, 5 and 9 with the reader on page 7 highlight the entry for page 5. */
  lemma BestEntryExample()
    ensures BestEntry([1, 5, 9], 7, 3) == Some(1)
  {
    assert Largest([1, 5, 9], 7, 1) == Some(1);
    assert Largest([1, 5, 9], 7, 2) == Some(5);
    assert Largest([1, 5, 9], 7, 3) == Some(5);
  }

  /** Walks the entries in order, keeping the latest one whose page is at
      most `current` and at least the best page so far. */
  method HighlightCurrent(pages: seq<nat>, current: int) returns (best: Option<nat>)
    ensures best == BestEntry(pages, current, |pages|)
  {
    best := None;
    var bestPage: nat := 0;
    for i := 0 to |pages|
      invariant best == BestEntry(pages, current, i)
      invariant best.None? ==> bestPage == 0
      invariant best.Some? ==> best.value < i && bestPage == pages[best.value]
      invariant best.Some? ==> Largest(pages, current, i) == Some(bestPage)
    {
      if pages[i] <= current && pages[i] >= bestPage {
        best := Some(i);
        bestPage := pages[i];
      } else if best.Some? {
        assert LastAt(pages, bestPage, i + 1) == LastAt(pages, bestPage, i);
      }
    }
  }

  // ---------------------------------------------------------------------
  // The page nearest the middle of the view
  // ---------------------------------------------------------------------

  /** A rendered page in scroll mode: its number and its top offset and
      height in pixels. */
  datatype Placed = Placed(page: int, top: int, height: int)

  /** Twice the distance between a page's centre and the centre of a view
      whose doubled centre is `centre2` (doubling keeps it whole). */
  function Distance2(p: Placed, centre2: int): (d: nat)
    ensures d == 0 <==> 2 * p.top + p.height == centre2
  {
    var diff := 2 * p.top + p.height - centre2;
    if diff < 0 then -diff else diff
  }

  /** The smallest distance among the first `n` pages. */
  function MinDistance(ps: seq<Placed>, centre2: int, n: nat): (r: Option<nat>)
    requires n <= |ps|
    ensures n == 0 <==> r.None?
    ensures r.Some? ==> exists k :: 0 <= k < n && Distance2(ps[k], centre2) == r.value
    ensures r.Some? ==> forall k :: 0 <= k < n ==> r.value <= Distance2(ps[k], centre2)
  {
    if n == 0 then None
    else
      var r := MinDistance(ps, centre2, n - 1);
      var d := Distance2(ps[n - 1], centre2);
      if r.None? || d < r.value then Some(d) else r
  }

  /** The first of the first `n` pages at distance `d`. */
  function FirstAt(ps: seq<Placed>, centre2: int, d: nat, n: nat): (r: Option<nat>)
    requires n <= |ps|
    ensures r.Some? ==> r.value < n && Distance2(ps[r.value], centre2) == d
    ensures r.Some? ==> forall j :: 0 <= j < r.value ==> Distance2(ps[j], centre2) != d
    ensures r.None? ==> forall j :: 0 <= j < n ==> Distance2(ps[j], centre2) != d
  {
    if n == 0 then None
    else
      var r := FirstAt(ps, centre2, d, n - 1);
      if r.Some? then r
      else if Distance2(ps[n - 1], centre2) == d then Some(n - 1)
      else None
  }

  /** The page whose centre is nearest the view's centre, the first such
      page on a tie; `None` when there are no pages. */
  function Nearest(ps: seq<Placed>, centre2: int): (r: Option<nat>)
  {
    match MinDistance(ps, centre2, |ps|)
    case None => None
    case Some(d) => FirstAt(ps, centre2, d, |ps|)
  }

  /** The nearest page is at least as near as every page and strictly
      nearer than every page before it. */
  lemma NearestIsFirstClosest(ps: seq<Placed>, centre2: int)
    ensures Nearest(ps, centre2).None? <==> ps == []
    ensures Nearest(ps, centre2).Some? ==>
      var k := Nearest(ps, centre2).value;
      && k < |ps|
      && (forall j :: 0 <= j < |ps| ==> Distance2(ps[k], centre2) <= Distance2(ps[j], centre2))
      && (forall j :: 0 <= j < k ==> Distance2(ps[k], centre2) < Distance2(ps[j], centre2))
  {
    var m := MinDistance(ps, centre2, |ps|);
    if m.Some? {
      var k :| 0 <= k < |ps| && Distance2(ps[k], centre2) == m.value;
      assert FirstAt(ps, centre2, m.value, |ps|).Some?;
    }
  }

  /** Walks the pages in order, keeping the page whose centre is strictly
      nearer the view's centre than any before it. */
  method NearestPage(ps: seq<Placed>, scrollTop: int, clientHeight: int) returns (page: int)
    requires |ps| > 0
    ensures Nearest(ps, 2 * scrollTop + clientHeight).Some?
    ensures page == ps[Nearest(ps, 2 * scrollTop + clientHeight).value].page
  {
    var centre2 := 2 * scrollTop + clientHeight;
    page := 1;
    var minDistance: Option<nat> := None;
    ghost var at: nat := 0;
    for i := 0 to |ps|
      invariant minDistance == MinDistance(ps, centre2, i)
      invariant minDistance.Some? ==> at < i && FirstAt(ps, centre2, minDistance.value, i) == Some(at)
      invariant minDistance.Some? ==> page == ps[at].page
    {
      var distance := Distance2(ps[i], centre2);
      if minDistance.None? || distance < minDistance.value {
        minDistance := Some(distance);
        page := ps[i].page;
        at := i;
        assert FirstAt(ps, centre2, distance, i).None?;
      }
    }
  }

  // ---------------------------------------------------------------------
  // The viewer
  // ---------------------------------------------------------------------

  datatype ViewMode = Paged | Scroll

  const DefaultScale: real := 1.5
  const MaxScale: real := 5.0
  const MinScale: real := 0.3
  const ZoomFactor: real := 1.2
  const ToolbarKey: string := "pdfToolbarCollapsed"

  function ZoomedIn(s: real): (r: real)
    ensures r <= MaxScale
    ensures r == s * ZoomFactor || r == MaxScale
  {
    if s * ZoomFactor < MaxScale then s * ZoomFactor else MaxScale
  }

  function ZoomedOut(s: real): (r: real)
    ensures r >= MinScale
    ensures r == s / ZoomFactor || r == MinScale
  {
    if s / ZoomFactor > MinScale then s / ZoomFactor else MinScale
  }

  /** Zooming out undoes zooming in while neither clamp is reached. */
  lemma ZoomRoundTrip(s: real)
    requires MinScale <= s && s * ZoomFactor <= MaxScale
    ensures ZoomedOut(ZoomedIn(s)) == s
  {
  }

  /** The pages the outline shows, one per bookmark at every depth. */
  function OutlinePages(es: seq<PdfOutline.Entry>): (pages: seq<nat>)
    ensures |pages| == |es|
    ensures forall k :: 0 <= k < |es| ==> pages[k] == PdfOutline.DisplayPage(es[k].page) && pages[k] >= 1
  {
    seq(|es|, k requires 0 <= k < |es| => PdfOutline.DisplayPage(es[k].page))
  }

  /** The page box's initial text reads as page 1. */
  lemma FirstPageParses()
    ensures ParseInt("1", false) == Some(1)
  {
    DecimalRoundTrip(1);
    assert DecimalString(1) == "1";
  }

  /** The viewer's state. `pageInput` is the text of the page-number box,
      `tocPages` the page of each outline entry in document order,
      `highlighted` the outline entry that is highlighted and `storage` the
      viewer's entries of the browser's local storage. */
  class PdfViewerState {
    var currentPage: int
    var totalPages: nat
    var currentScale: real
    var viewMode: ViewMode
    var hasDocument: bool
    var toolbarCollapsed: bool
    var pageInput: string
    var tocPages: seq<nat>
    var highlighted: Option<nat>
    var storage: map<string, string>

    /** The current page is a page of the document (page 1 when it is empty). */
    predicate Valid()
      reads this
    {
      1 <= currentPage && (currentPage == 1 || currentPage <= totalPages)
    }

    /** The initial state, with the toolbar state restored. */
    constructor(storage: map<string, string>)
      ensures Valid() && currentPage == 1 && totalPages == 0 && currentScale == DefaultScale
      ensures viewMode == Scroll && !hasDocument && tocPages == [] && highlighted == None
      ensures toolbarCollapsed == (ToolbarKey in storage && storage[ToolbarKey] == "true")
      ensures this.storage == storage
    {
      currentPage := 1;
      totalPages := 0;
      currentScale := DefaultScale;
      viewMode := Scroll;
      hasDocument := false;
      pageInput := "1";
      tocPages := [];
      highlighted := None;
      this.storage := storage;
      toolbarCollapsed := ToolbarKey in storage && storage[ToolbarKey] == "true";
    }

    /** A document with `numPages` pages is loaded: the reader starts at
        page 1, and the rebuilt toolbar's page box reads "1". */
    method Open(numPages: nat)
      requires Valid()
      modifies this
      ensures Valid() && hasDocument && totalPages == numPages && currentPage == 1
      ensures pageInput == "1" && ParseInt(pageInput, false) == Some(currentPage)
      ensures currentScale == old(currentScale) && viewMode == old(viewMode)
      ensures tocPages == old(tocPages) && highlighted == old(highlighted)
      ensures toolbarCollapsed == old(toolbarCollapsed) && storage == old(storage)
    {
      hasDocument := true;
      totalPages := numPages;
      currentPage := 1;
      pageInput := "1";
      FirstPageParses();
    }

    /** The outline is shown: one entry per bookmark, the entry for the
        current page highlighted. An empty outline clears it. */
    method ShowOutline(bookmarks: seq<PdfOutline.Bookmark>)
      requires Valid()
      modifies this
      ensures Valid() && tocPages == OutlinePages(PdfOutline.Entries(bookmarks))
      ensures highlighted == BestEntry(tocPages, currentPage, |tocPages|)
      ensures currentPage == old(currentPage) && totalPages == old(totalPages) && currentScale == old(currentScale)
      ensures viewMode == old(viewMode) && hasDocument == old(hasDocument) && pageInput == old(pageInput)
      ensures toolbarCollapsed == old(toolbarCollapsed) && storage == old(storage)
    {
      tocPages := OutlinePages(PdfOutline.Entries(bookmarks));
      highlighted := HighlightCurrent(tocPages, currentPage);
    }

    /** `updatePageInput`: the page box shows the current page. */
    method UpdatePageInput()
      modifies this
      ensures ParseInt(pageInput, false) == Some(currentPage) || (pageInput == old(pageInput) && currentPage < 0)
      ensures ParseInt(old(pageInput), false) == Some(currentPage) ==> pageInput == old(pageInput)
      ensures ParseInt(old(pageInput), false) != Some(currentPage) && currentPage >= 0 ==> pageInput == DecimalString(currentPage)
      ensures currentPage == old(currentPage) && totalPages == old(totalPages) && currentScale == old(currentScale)
      ensures viewMode == old(viewMode) && hasDocument == old(hasDocument) && tocPages == old(tocPages)
      ensures highlighted == old(highlighted) && toolbarCollapsed == old(toolbarCollapsed) && storage == old(storage)
    {
      if ParseInt(pageInput, false) != Some(currentPage) && currentPage >= 0 {
        pageInput := DecimalString(currentPage);
        DecimalRoundTrip(currentPage);
      }
    }

    /** The previous-page button: nothing at page 1. */
    method Prev()
      requires Valid()
      modifies this
      ensures Valid()
      ensures currentPage == if old(currentPage) > 1 then old(currentPage) - 1 else old(currentPage)
      ensures old(currentPage) > 1 ==> ParseInt(pageInput, false) == Some(currentPage)
      ensures old(currentPage) > 1 ==> highlighted == BestEntry(tocPages, currentPage, |tocPages|)
      ensures old(currentPage) <= 1 ==> pageInput == old(pageInput) && highlighted == old(highlighted)
      ensures totalPages == old(totalPages) && currentScale == old(currentScale) && viewMode == old(viewMode)
      ensures hasDocument == old(hasDocument) && tocPages == old(tocPages)
      ensures toolbarCollapsed == old(toolbarCollapsed) && storage == old(storage)
    {
      if currentPage > 1 {
        currentPage := currentPage - 1;
        UpdatePageInput();
        highlighted := HighlightCurrent(tocPages, currentPage);
      }
    }

    /** The next-page button: nothing at the last page. */
    method Next()
      requires Valid()
      modifies this
      ensures Valid()
      ensures currentPage == if old(currentPage) < totalPages then old(currentPage) + 1 else old(currentPage)
      ensures old(currentPage) < totalPages ==> ParseInt(pageInput, false) == Some(currentPage)
      ensures old(currentPage) < totalPages ==> highlighted == BestEntry(tocPages, currentPage, |tocPages|)
      ensures old(currentPage) >= totalPages ==> pageInput == old(pageInput) && highlighted == old(highlighted)
      ensures totalPages == old(totalPages) && currentScale == old(currentScale) && viewMode == old(viewMode)
      ensures hasDocument == old(hasDocument) && tocPages == old(tocPages)
      ensures toolbarCollapsed == old(toolbarCollapsed) && storage == old(storage)
    {
      if currentPage < totalPages {
        currentPage := currentPage + 1;
        UpdatePageInput();
        highlighted := HighlightCurrent(tocPages, currentPage);
      }
    }

    /** The page box is changed to `typed`: a page number of the document
        is jumped to; anything else puts the current page back in the box. */
    method PageInputChanged(typed: string)
      requires Valid()
      modifies this
      ensures Valid()
      ensures var n := ParseInt(typed, false);
        if n.Some? && 1 <= n.value <= totalPages then
          currentPage == n.value && pageInput == typed && highlighted == BestEntry(tocPages, currentPage, |tocPages|)
        else
          currentPage == old(currentPage) && pageInput == DecimalString(currentPage) && highlighted == old(highlighted)
      ensures totalPages == old(totalPages) && currentScale == old(currentScale) && viewMode == old(viewMode)
      ensures hasDocument == old(hasDocument) && tocPages == old(tocPages)
      ensures toolbarCollapsed == old(toolbarCollapsed) && storage == old(storage)
    {
      pageInput := typed;
      var n := ParseInt(typed, false);
      if n.Some? && 1 <= n.value <= totalPages {
        currentPage := n.value;
        highlighted := HighlightCurrent(tocPages, currentPage);
      } else {
        pageInput := DecimalString(currentPage);
      }
    }

    /** A key press: the arrow keys turn the page, only while a document is
        open and only in paged mode. `handled` says whether the key's
        default action is suppressed. */
    method KeyDown(key: string) returns (handled: bool)
      requires Valid()
      modifies this
      ensures Valid()
      ensures handled <==> hasDocument && key in {"ArrowLeft", "ArrowUp", "ArrowRight", "ArrowDown"}
      ensures !(hasDocument && viewMode == Paged) ==> currentPage == old(currentPage)
      ensures hasDocument && viewMode == Paged && key in {"ArrowLeft", "ArrowUp"} ==>
        currentPage == if old(currentPage) > 1 then old(currentPage) - 1 else old(currentPage)
      ensures hasDocument && viewMode == Paged && key in {"ArrowRight", "ArrowDown"} ==>
        currentPage == if old(currentPage) < totalPages then old(currentPage) + 1 else old(currentPage)
      ensures key !in {"ArrowLeft", "ArrowUp", "ArrowRight", "ArrowDown"} ==> currentPage == old(currentPage)
      ensures currentPage != old(currentPage) ==>
        ParseInt(pageInput, false) == Some(currentPage) && highlighted == BestEntry(tocPages, currentPage, |tocPages|)
      ensures currentPage == old(currentPage) ==> pageInput == old(pageInput) && highlighted == old(highlighted)
      ensures totalPages == old(totalPages) && currentScale == old(currentScale) && viewMode == old(viewMode)
      ensures hasDocument == old(hasDocument) && tocPages == old(tocPages)
      ensures toolbarCollapsed == old(toolbarCollapsed) && storage == old(storage)
    {
      handled := false;
      if !hasDocument {
        return;
      }
      if key == "ArrowLeft" || key == "ArrowUp" {
        if viewMode == Paged && currentPage > 1 {
          Prev();
        }
        handled := true;
      } else if key == "ArrowRight" || key == "ArrowDown" {
        if viewMode == Paged && currentPage < totalPages {
          Next();
        }
        handled := true;
      }
    }

    method ZoomIn()
      modifies this
      ensures currentScale == ZoomedIn(old(currentScale)) && currentScale <= MaxScale
      ensures currentPage == old(currentPage) && totalPages == old(totalPages) && viewMode == old(viewMode)
      ensures hasDocument == old(hasDocument) && pageInput == old(pageInput) && tocPages == old(tocPages)
      ensures highlighted == old(highlighted) && toolbarCollapsed == old(toolbarCollapsed) && storage == old(storage)
    {
      currentScale := ZoomedIn(currentScale);
    }

    method ZoomOut()
      modifies this
      ensures currentScale == ZoomedOut(old(currentScale)) && currentScale >= MinScale
      ensures currentPage == old(currentPage) && totalPages == old(totalPages) && viewMode == old(viewMode)
      ensures hasDocument == old(hasDocument) && pageInput == old(pageInput) && tocPages == old(tocPages)
      ensures highlighted == old(highlighted) && toolbarCollapsed == old(toolbarCollapsed) && storage == old(storage)
    {
      currentScale := ZoomedOut(currentScale);
    }

    /** Switches between paged and scroll mode: nothing happens when `mode`
        is already active; otherwise the reader stays on the same page. */
    method SwitchViewMode(mode: ViewMode)
      requires Valid()
      modifies this
      ensures Valid() && viewMode == mode
      ensures old(viewMode) == mode ==> highlighted == old(highlighted)
      ensures old(viewMode) != mode ==> highlighted == BestEntry(tocPages, currentPage, |tocPages|)
      ensures currentPage == old(currentPage) && totalPages == old(totalPages) && currentScale == old(currentScale)
      ensures hasDocument == old(hasDocument) && pageInput == old(pageInput) && tocPages == old(tocPages)
      ensures toolbarCollapsed == old(toolbarCollapsed) && storage == old(storage)
    {
      if viewMode == mode {
        return;
      }
      viewMode := mode;
      highlighted := HighlightCurrent(tocPages, currentPage);
    }

    /** Scrolling in scroll mode: the page nearest the middle of the view
        becomes the current page, then the outline entry for it is
        highlighted. With no rendered pages the current page stays. */
    method Scrolled(ps: seq<Placed>, scrollTop: int, clientHeight: int)
      requires Valid()
      requires forall k :: 0 <= k < |ps| ==> 1 <= ps[k].page <= totalPages
      modifies this
      ensures Valid()
      ensures ps == [] ==> currentPage == old(currentPage)
      ensures ps != [] ==> Nearest(ps, 2 * scrollTop + clientHeight).Some?
      ensures ps != [] ==> currentPage == ps[Nearest(ps, 2 * scrollTop + clientHeight).value].page
      ensures currentPage != old(currentPage) ==> ParseInt(pageInput, false) == Some(currentPage)
      ensures currentPage == old(currentPage) ==> pageInput == old(pageInput)
      ensures highlighted == BestEntry(tocPages, currentPage, |tocPages|)
      ensures totalPages == old(totalPages) && currentScale == old(currentScale) && viewMode == old(viewMode)
      ensures hasDocument == old(hasDocument) && tocPages == old(tocPages)
      ensures toolbarCollapsed == old(toolbarCollapsed) && storage == old(storage)
    {
      if |ps| > 0 {
        var page := NearestPage(ps, scrollTop, clientHeight);
        if page != currentPage {
          currentPage := page;
          UpdatePageInput();
        }
      }
      highlighted := HighlightCurrent(tocPages, currentPage);
    }

    /** Flips the toolbar and stores its new state. */
    method ToggleToolbar()
      modifies this
      ensures toolbarCollapsed == !old(toolbarCollapsed)
      ensures storage == old(storage)[ToolbarKey := BoolString(toolbarCollapsed)]
      ensures currentPage == old(currentPage) && totalPages == old(totalPages) && currentScale == old(currentScale)
      ensures viewMode == old(viewMode) && hasDocument == old(hasDocument) && pageInput == old(pageInput)
      ensures tocPages == old(tocPages) && highlighted == old(highlighted)
    {
      toolbarCollapsed := !toolbarCollapsed;
      storage := storage[ToolbarKey := BoolString(toolbarCollapsed)];
    }

    /** A stored `true` collapses the toolbar; anything else leaves it as it is. */
    method RestoreToolbarState()
      modifies this
      ensures toolbarCollapsed == (old(toolbarCollapsed) || (ToolbarKey in storage && storage[ToolbarKey] == "true"))
      ensures currentPage == old(currentPage) && totalPages == old(totalPages) && currentScale == old(currentScale)
      ensures viewMode == old(viewMode) && hasDocument == old(hasDocument) && pageInput == old(pageInput)
      ensures tocPages == old(tocPages) && highlighted == old(highlighted) && storage == old(storage)
    {
      if ToolbarKey in storage && storage[ToolbarKey] == "true" {
        toolbarCollapsed := true;
      }
    }

    /** Leaving the document: back to page 1 of no pages at the default
        zoom, with no outline. The view mode and the toolbar are kept. */
    method Cleanup()
      modifies this
      ensures Valid() && !hasDocument && currentPage == 1 && totalPages == 0 && currentScale == DefaultScale
      ensures tocPages == [] && highlighted == None
      ensures viewMode == old(viewMode) && pageInput == old(pageInput)
      ensures toolbarCollapsed == old(toolbarCollapsed) && storage == old(storage)
    {
      hasDocument := false;
      currentPage := 1;
      totalPages := 0;
      currentScale := DefaultScale;
      tocPages := [];
      highlighted := None;
    }
  }
}
