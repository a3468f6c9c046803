/** The article outline sidebar: its resizable, collapsible panel, and the
    rendered outline whose links are highlighted and whose folders are
    expanded as the reader clicks or scrolls. */
module Toc {
  import opened Wrappers
  import opened Text
  import Outline

  // ---------------------------------------------------------------------
  // The panel: width and collapsed state
  // ---------------------------------------------------------------------

  const MinWidth: int := 200
  const MaxWidth: int := 500
  const DefaultWidth: nat := 260
  /** At or below this window width the saved panel state is not restored. */
  const NarrowWindow: int := 768

  const WidthKey: string := "tocWidth"
  const CollapsedKey: string := "tocCollapsed"

  /** `Math.max(minWidth, Math.min(maxWidth, w))`. */
  function ClampWidth(w: int): (r: nat)
  {
    if w > MaxWidth then MaxWidth else if w < MinWidth then MinWidth else w
  }

  /** The clamp lands in [200, 500], keeps widths already in range, and
      sends the others to the nearer bound. */
  lemma ClampWidthRange(w: int)
    ensures MinWidth <= ClampWidth(w) <= MaxWidth
    ensures MinWidth <= w <= MaxWidth ==> ClampWidth(w) == w
    ensures w < MinWidth ==> ClampWidth(w) == MinWidth
    ensures w > MaxWidth ==> ClampWidth(w) == MaxWidth
  {
  }

  /** The width stored when a drag ends is the width restored on the next
      visit: decimal writing and `parseInt` undo each other and the clamp
      keeps a width that is already in range. */
  lemma StoredWidthRoundTrip(w: nat)
    requires MinWidth <= w <= MaxWidth
    ensures ParseInt(DecimalString(w), false) == Some(w)
    ensures ClampWidth(ParseInt(DecimalString(w), false).value) == w
  {
    DecimalRoundTrip(w);
  }

  /** The sidebar panel. `storage` holds the panel's entries of the browser's
      local storage; `width` is the panel's rendered width. */
  class TocPanel {
    var isResizing: bool
    var startX: int
    var startWidth: int
    var width: nat
    var collapsed: bool
    var storage: map<string, string>

    constructor(storage: map<string, string>)
      ensures !isResizing && startX == 0 && startWidth == DefaultWidth
      ensures width == DefaultWidth && !collapsed && this.storage == storage
    {
      isResizing := false;
      startX := 0;
      startWidth := DefaultWidth;
      width := DefaultWidth;
      collapsed := false;
      this.storage := storage;
    }

    /** A drag starts: remembers the pointer and the current width. */
    method StartResize(clientX: int)
      modifies this
      ensures isResizing && startX == clientX && startWidth == old(width)
      ensures width == old(width) && collapsed == old(collapsed) && storage == old(storage)
    {
      isResizing := true;
      startX := clientX;
      startWidth := width;
    }

    /** The pointer moves: outside a drag nothing happens; during one the
        width follows the pointer leftwards, clamped to [200, 500]. */
    method DoResize(clientX: int)
      modifies this
      ensures old(isResizing) ==> width == ClampWidth(old(startWidth) + (old(startX) - clientX))
      ensures old(isResizing) ==> MinWidth <= width <= MaxWidth
      ensures !old(isResizing) ==> width == old(width)
      ensures isResizing == old(isResizing) && startX == old(startX) && startWidth == old(startWidth)
      ensures collapsed == old(collapsed) && storage == old(storage)
    {
      if !isResizing {
        return;
      }
      var deltaX := startX - clientX;
      ClampWidthRange(startWidth + deltaX);
      SetTocWidth(ClampWidth(startWidth + deltaX));
    }

    /** The drag ends: the width reached is stored. Outside a drag nothing happens. */
    method StopResize()
      modifies this
      ensures !isResizing
      ensures old(isResizing) ==> storage == old(storage)[WidthKey := DecimalString(old(width))]
      ensures !old(isResizing) ==> storage == old(storage)
      ensures width == old(width) && collapsed == old(collapsed)
      ensures startX == old(startX) && startWidth == old(startWidth)
    {
      if !isResizing {
        return;
      }
      isResizing := false;
      storage := storage[WidthKey := DecimalString(width)];
    }

    method SetTocWidth(w: nat)
      modifies this
      ensures width == w
      ensures isResizing == old(isResizing) && startX == old(startX) && startWidth == old(startWidth)
      ensures collapsed == old(collapsed) && storage == old(storage)
    {
      width := w;
    }

    /** Collapses or expands the panel and stores the new state. */
    method Toggle()
      modifies this
      ensures collapsed == !old(collapsed)
      ensures storage == old(storage)[CollapsedKey := BoolString(collapsed)]
      ensures width == old(width) && isResizing == old(isResizing)
      ensures startX == old(startX) && startWidth == old(startWidth)
    {
      collapsed := !collapsed;
      storage := storage[CollapsedKey := BoolString(collapsed)];
    }

    /** On a window wider than 768 pixels, re-applies a stored collapsed
        state and a stored width (clamped; a width that is not a number is
        ignored). On a narrower window nothing happens. */
    method RestoreState(innerWidth: int)
      modifies this
      ensures innerWidth <= NarrowWindow ==> collapsed == old(collapsed) && width == old(width)
      ensures innerWidth > NarrowWindow ==>
        collapsed == (old(collapsed) || (CollapsedKey in storage && storage[CollapsedKey] == "true"))
      ensures innerWidth > NarrowWindow && WidthKey in storage && storage[WidthKey] != ""
              && ParseInt(storage[WidthKey], false).Some? ==>
        width == ClampWidth(ParseInt(storage[WidthKey], false).value) && MinWidth <= width <= MaxWidth
      ensures innerWidth > NarrowWindow && !(WidthKey in storage && storage[WidthKey] != ""
              && ParseInt(storage[WidthKey], false).Some?) ==>
        width == old(width)
      ensures storage == old(storage) && isResizing == old(isResizing)
      ensures startX == old(startX) && startWidth == old(startWidth)
    {
      if innerWidth <= NarrowWindow {
        return;
      }
      if CollapsedKey in storage && storage[CollapsedKey] == "true" {
        collapsed := true;
      }
      if WidthKey in storage && storage[WidthKey] != "" {
        var parsed := ParseInt(storage[WidthKey], false);
        if parsed.Some? {
          ClampWidthRange(parsed.value);
          SetTocWidth(ClampWidth(parsed.value));
        }
      }
    }
  }

  // ---------------------------------------------------------------------
  // Which heading the reader is at
  // ---------------------------------------------------------------------

  /** A heading of the article with its id and the distance of its top edge
      from the top of the viewport. */
  datatype Placed = Placed(id: string, top: real)

  /** A heading whose top is at most this far down counts as reached. */
  const ReachedLine: real := 150.0

  /** The last of the first `n` headings whose top is at or above the line. */
  function LastReached(hs: seq<Placed>, n: nat): (r: Option<nat>)
    requires n <= |hs|
    ensures r.Some? ==> r.value < n && hs[r.value].top <= ReachedLine
    ensures r.Some? ==> forall k :: r.value < k < n ==> hs[k].top > ReachedLine
    ensures r.None? ==> forall k :: 0 <= k < n ==> hs[k].top > ReachedLine
  {
    if n == 0 then None
    else if hs[n - 1].top <= ReachedLine then Some(n - 1)
    else LastReached(hs, n - 1)
  }

  /** Walks the headings in document order and keeps the last one reached. */
  method CurrentHeading(hs: seq<Placed>) returns (current: Option<nat>)
    ensures current == LastReached(hs, |hs|)
    ensures current.Some? ==> current.value < |hs| && hs[current.value].top <= ReachedLine
    ensures current.Some? ==> forall k :: current.value < k < |hs| ==> hs[k].top > ReachedLine
    ensures current.None? <==> forall k :: 0 <= k < |hs| ==> hs[k].top > ReachedLine
  {
    current := None;
    for i := 0 to |hs|
      invariant current == LastReached(hs, i)
    {
      if hs[i].top <= ReachedLine {
        current := Some(i);
      }
    }
  }

  // ---------------------------------------------------------------------
  // The rendered outline
  // ---------------------------------------------------------------------

  /** The ids of a pre-order list of headings: the targets of the links. */
  function Targets(hs: seq<Outline.Heading>): (ts: seq<string>)
    ensures |ts| == |hs|
    ensures forall j :: 0 <= j < |hs| ==> ts[j] == hs[j].id
  {
    if hs == [] then [] else [hs[0].id] + Targets(hs[1..])
  }

  /** Every node's parent comes before it in pre-order. */
  predicate ParentsPrecede(parent: seq<int>) {
    forall j :: 0 <= j < |parent| ==> -1 <= parent[j] < j
  }

  /** The position `p` and the positions of all the nodes above it. */
  function AncestorsFrom(parent: seq<int>, p: int): (a: set<int>)
    requires ParentsPrecede(parent) && -1 <= p < |parent|
    ensures forall j :: j in a ==> 0 <= j <= p
    ensures p >= 0 ==> p in a
    decreases p + 1
  {
    if p < 0 then {} else {p} + AncestorsFrom(parent, parent[p])
  }

  /** The proper ancestors of the node at `k`. */
  function Ancestors(parent: seq<int>, k: nat): (a: set<int>)
    requires ParentsPrecede(parent) && k < |parent|
    ensures forall j :: j in a ==> 0 <= j < k
  {
    AncestorsFrom(parent, parent[k])
  }

  /** The ancestors of the links among the first `n` that point at `t` and
      pass `pick`. */
  function OpenedFor(targets: seq<string>, parent: seq<int>, t: string, pick: seq<bool>, n: nat): (a: set<int>)
    requires ParentsPrecede(parent) && n <= |targets| == |parent| == |pick|
    ensures forall j :: j in a <==> exists m :: 0 <= m < n && targets[m] == t && pick[m] && j in Ancestors(parent, m)
  {
    if n == 0 then {}
    else
      OpenedFor(targets, parent, t, pick, n - 1)
      + (if targets[n - 1] == t && pick[n - 1] then Ancestors(parent, n - 1) else {})
  }

  /** The first link from `from` on that points at `t`, if any. */
  function FirstLink(targets: seq<string>, t: string, from: nat): (r: Option<nat>)
    requires from <= |targets|
    ensures r.Some? ==> from <= r.value < |targets| && targets[r.value] == t
    ensures r.Some? ==> forall k :: from <= k < r.value ==> targets[k] != t
    ensures r.None? ==> forall k :: from <= k < |targets| ==> targets[k] != t
    decreases |targets| - from
  {
    if from == |targets| then None
    else if targets[from] == t then Some(from)
    else FirstLink(targets, t, from + 1)
  }

  /** The rendered outline: one link per node in pre-order, with the link's
      target id, the position of its parent node (-1 for a root), whether
      the link is highlighted and whether the node's list of children is
      expanded. */
  class OutlineView {
    var targets: seq<string>
    var parent: seq<int>
    var active: seq<bool>
    var expanded: seq<bool>

    predicate Valid()
      reads this
    {
      && |parent| == |targets| && |active| == |targets| && |expanded| == |targets|
      && ParentsPrecede(parent)
    }

    /** Renders the outline of `hs`, nothing highlighted, every folder
        expanded or not as `expandAll` says. */
    constructor(hs: seq<Outline.Heading>, expandAll: bool)
      ensures Valid()
      ensures targets == Targets(hs)
      ensures forall j :: 0 <= j < |hs| ==> parent[j] == Outline.NearestShallower(hs, j)
      ensures forall j :: 0 <= j < |hs| ==> !active[j] && expanded[j] == expandAll
    {
      var tree := Outline.BuildTree(hs);
      targets := Targets(Outline.Preorder(tree));
      parent := Outline.Parents(tree, 0, -1);
      active := seq(|hs|, _ => false);
      expanded := seq(|hs|, _ => expandAll);
    }

    /** Expands every ancestor of the link at `k`, and nothing else. */
    method ExpandParents(k: nat)
      requires Valid() && k < |targets|
      modifies this
      ensures Valid()
      ensures targets == old(targets) && parent == old(parent) && active == old(active)
      ensures forall j :: 0 <= j < |expanded| ==> expanded[j] == (old(expanded[j]) || j in Ancestors(parent, k))
    {
      var p := parent[k];
      ghost var done: set<int> := {};
      while p >= 0
        invariant Valid() && -1 <= p < |parent|
        invariant targets == old(targets) && parent == old(parent) && active == old(active)
        invariant done + AncestorsFrom(parent, p) == Ancestors(parent, k)
        invariant forall j :: 0 <= j < |expanded| ==> expanded[j] == (old(expanded[j]) || j in done)
        decreases p + 1
      {
        expanded := expanded[p := true];
        done := done + {p};
        p := parent[p];
      }
    }

    /** Clicking a link: every link to `t` becomes the highlighted one and
        the folders above it are expanded; with an empty `t` nothing changes. */
    method HighlightItem(t: string)
      requires Valid()
      modifies this
      ensures Valid() && targets == old(targets) && parent == old(parent)
      ensures t == "" ==> active == old(active) && expanded == old(expanded)
      ensures t != "" ==> forall j :: 0 <= j < |active| ==> active[j] == (targets[j] == t)
      ensures t != "" ==> forall j :: 0 <= j < |expanded| ==>
        expanded[j] == (old(expanded[j]) || exists m :: 0 <= m < |targets| && targets[m] == t && j in Ancestors(parent, m))
    {
      if t == "" {
        return;
      }
      ghost var all := seq(|targets|, _ => true);
      for i := 0 to |targets|
        invariant Valid() && targets == old(targets) && parent == old(parent)
        invariant forall j :: 0 <= j < i ==> active[j] == (targets[j] == t)
        invariant forall j :: i <= j < |active| ==> active[j] == old(active[j])
        invariant forall j :: 0 <= j < |expanded| ==>
          expanded[j] == (old(expanded[j]) || j in OpenedFor(targets, parent, t, all, i))
      {
        if targets[i] == t {
          active := active[i := true];
          ExpandParents(i);
        } else {
          active := active[i := false];
        }
      }
    }

    /** Scrolling: the link to the last heading reached becomes the
        highlighted one; a link that was not highlighted yet also expands the
        folders above it. When no heading is reached nothing changes. */
    method HighlightOnScroll(headings: seq<Placed>)
      requires Valid()
      modifies this
      ensures Valid() && targets == old(targets) && parent == old(parent)
      ensures LastReached(headings, |headings|).None? ==> active == old(active) && expanded == old(expanded)
      ensures LastReached(headings, |headings|).Some? ==>
        var id := headings[LastReached(headings, |headings|).value].id;
        && (forall j :: 0 <= j < |active| ==> active[j] == (targets[j] == id))
        && (forall j :: 0 <= j < |expanded| ==>
              expanded[j] == (old(expanded[j]) || exists m :: 0 <= m < |targets| && targets[m] == id
                                                               && !old(active[m]) && j in Ancestors(parent, m)))
    {
      var current := CurrentHeading(headings);
      if current.None? {
        return;
      }
      var id := headings[current.value].id;
      var before := active;
      ghost var unlit := seq(|before|, j requires 0 <= j < |before| => !before[j]);
      for i := 0 to |targets|
        invariant Valid() && targets == old(targets) && parent == old(parent)
        invariant forall j :: 0 <= j < i ==> active[j] == (targets[j] == id)
        invariant forall j :: i <= j < |active| ==> active[j] == old(active[j])
        invariant forall j :: 0 <= j < |expanded| ==>
          expanded[j] == (old(expanded[j]) || j in OpenedFor(targets, parent, id, unlit, i))
      {
        if targets[i] == id {
          if !active[i] {
            active := active[i := true];
            ExpandParents(i);
          }
        } else {
          active := active[i := false];
        }
      }
    }

    /** The Word outline's highlight: every highlight is cleared, then only
        the first link pointing at `t` is highlighted and its ancestors are
        expanded. */
    method HighlightFirst(t: string)
      requires Valid()
      modifies this
      ensures Valid() && targets == old(targets) && parent == old(parent)
      ensures forall j :: 0 <= j < |active| ==> active[j] == (FirstLink(targets, t, 0) == Some(j))
      ensures FirstLink(targets, t, 0).None? ==> expanded == old(expanded)
      ensures FirstLink(targets, t, 0).Some? ==> forall j :: 0 <= j < |expanded| ==>
        expanded[j] == (old(expanded[j]) || j in Ancestors(parent, FirstLink(targets, t, 0).value))
    {
      active := seq(|targets|, _ => false);
      var i := 0;
      while i < |targets| && targets[i] != t
        invariant 0 <= i <= |targets|
        invariant FirstLink(targets, t, 0) == FirstLink(targets, t, i)
        invariant Valid() && targets == old(targets) && parent == old(parent) && expanded == old(expanded)
        invariant forall j :: 0 <= j < |active| ==> !active[j]
      {
        i := i + 1;
      }
      if i < |targets| {
        active := active[i := true];
        ExpandParents(i);
      }
    }

    /** The Word outline on scroll: the last heading reached, if any, is
        highlighted as by a click on its link. `headings` are the document's
        `h1`…`h6` elements only, whatever rule found the outline's headings:
        an outline found by the second or third rule has no heading
        elements, so scrolling never highlights anything in it. */
    method UpdateHighlight(headings: seq<Placed>)
      requires Valid()
      modifies this
      ensures Valid() && targets == old(targets) && parent == old(parent)
      ensures LastReached(headings, |headings|).None? ==> active == old(active) && expanded == old(expanded)
      ensures LastReached(headings, |headings|).Some? ==>
        var t := headings[LastReached(headings, |headings|).value].id;
        && (forall j :: 0 <= j < |active| ==> active[j] == (FirstLink(targets, t, 0) == Some(j)))
        && (FirstLink(targets, t, 0).None? ==> expanded == old(expanded))
        && (FirstLink(targets, t, 0).Some? ==> forall j :: 0 <= j < |expanded| ==>
              expanded[j] == (old(expanded[j]) || j in Ancestors(parent, FirstLink(targets, t, 0).value)))
    {
      var current := CurrentHeading(headings);
      if current.Some? {
        HighlightFirst(headings[current.value].id);
      }
    }
  }
}
