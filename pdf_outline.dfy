/** The bookmarks of a PDF document and the resolution of each bookmark's
    destination to the page number the outline shows and jumps to. The
    document's own lookups, `getDestination` and `getPageIndex`, are
    parameters that may fail. */
module PdfOutline {
  import opened Wrappers

  /** A reference to a page object of the document. */
  datatype PageRef = PageRef(num: nat, gen: nat)

  /** A bookmark's destination: none, a named destination, or an explicit
      destination array, of which only the first entry (the page reference,
      `None` for an empty array) matters here. */
  datatype Dest = NoDest | Named(name: string) | Explicit(first: Option<PageRef>)

  /** The outcome of one of the document's lookups: it threw, or it
      produced a value. */
  datatype Lookup<T> = Threw | Found(value: T)

  /** `getDestination(name)`: the explicit destination's first entry
      (`Some(None)` for an empty array), or `None` for null. */
  type DestinationLookup = string -> Lookup<Option<Option<PageRef>>>

  /** `getPageIndex(ref)`: the zero-based index of the referenced page. */
  type PageIndexLookup = Option<PageRef> -> Lookup<nat>

  /** A bookmark with its title, destination, the page resolved for it so
      far (`None` while unset) and its nested bookmarks. */
  datatype Bookmark = Bookmark(title: string, dest: Dest, resolvedPage: Option<nat>, items: seq<Bookmark>)

  /** The page of an explicit destination: one past the index the document
      gives, or 1 when the lookup throws. */
  function PageOf(first: Option<PageRef>, pageIndex: PageIndexLookup): (r: Option<nat>)
    ensures r.Some? && r.value >= 1
  {
    match pageIndex(first)
    case Threw => Some(1)
    case Found(i) => Some(i + 1)
  }

  /** The page a bookmark gets from its destination, given the page it had.
      A missing destination (or an empty name) and any failed lookup give
      page 1; a named destination that resolves to null leaves the page as
      it was. */
  function NewPage(dest: Dest, page: Option<nat>, destination: DestinationLookup, pageIndex: PageIndexLookup): (r: Option<nat>)
    ensures (r.Some? && r.value >= 1) || (r == page && dest.Named? && destination(dest.name) == Found(None))
  {
    match dest
    case NoDest => Some(1)
    case Named(name) =>
      if name == "" then Some(1)
      else (
        match destination(name)
        case Threw => Some(1)
        case Found(None) => page
        case Found(Some(first)) => PageOf(first, pageIndex))
    case Explicit(first) => PageOf(first, pageIndex)
  }

  /** The page resolved for each failure: no destination, a throwing
      destination lookup and a throwing page lookup each give page 1, and a
      found page index `i` gives page `i + 1`. */
  lemma NewPageOutcomes(dest: Dest, page: Option<nat>, destination: DestinationLookup, pageIndex: PageIndexLookup)
    ensures dest == NoDest ==> NewPage(dest, page, destination, pageIndex) == Some(1)
    ensures dest.Named? && dest.name != "" && destination(dest.name) == Threw ==>
      NewPage(dest, page, destination, pageIndex) == Some(1)
    ensures dest.Named? && dest.name != "" && destination(dest.name).Found? && destination(dest.name).value.Some? ==>
      var first := destination(dest.name).value.value;
      NewPage(dest, page, destination, pageIndex) ==
        (if pageIndex(first).Threw? then Some(1) else Some(pageIndex(first).value + 1))
    ensures dest.Explicit? ==>
      NewPage(dest, page, destination, pageIndex) ==
        (if pageIndex(dest.first).Threw? then Some(1) else Some(pageIndex(dest.first).value + 1))
  {
  }

  /** `item.resolvedPage || 1`: the page the outline shows for a bookmark. */
  function DisplayPage(resolved: Option<nat>): (p: nat)
    ensures p >= 1
    ensures resolved.Some? && resolved.value >= 1 ==> p == resolved.value
    ensures resolved.None? ==> p == 1
  {
    if resolved.None? || resolved.value == 0 then 1 else resolved.value
  }

  /** A bookmark after resolution: its own page resolved, and each of its
      nested bookmarks resolved in turn. */
  function ResolveTree(b: Bookmark, destination: DestinationLookup, pageIndex: PageIndexLookup): (r: Bookmark)
    ensures r.title == b.title && r.dest == b.dest && |r.items| == |b.items|
    decreases b
  {
    b.(resolvedPage := NewPage(b.dest, b.resolvedPage, destination, pageIndex),
       items := seq(|b.items|, i requires 0 <= i < |b.items| => ResolveTree(b.items[i], destination, pageIndex)))
  }

  function ResolveList(items: seq<Bookmark>, destination: DestinationLookup, pageIndex: PageIndexLookup): (r: seq<Bookmark>)
    ensures |r| == |items|
  {
    seq(|items|, i requires 0 <= i < |items| => ResolveTree(items[i], destination, pageIndex))
  }

  /** Walks the bookmarks in order, resolving each one's page and then,
      when it has nested bookmarks, those. A failed lookup affects only the
      bookmark it was made for. */
  method ResolveOutlinePages(items: seq<Bookmark>, destination: DestinationLookup, pageIndex: PageIndexLookup)
    returns (resolved: seq<Bookmark>)
    ensures resolved == ResolveList(items, destination, pageIndex)
    decreases items
  {
    resolved := [];
    for i := 0 to |items|
      invariant |resolved| == i
      invariant forall k :: 0 <= k < i ==> resolved[k] == ResolveTree(items[k], destination, pageIndex)
    {
      var item := items[i];
      var page := item.resolvedPage;
      match item.dest {
        case NoDest =>
          page := Some(1);
        case Named(name) =>
          if name == "" {
            page := Some(1);
          } else {
            match destination(name) {
              case Threw =>
                page := Some(1);
              case Found(target) =>
                if target.Some? {
                  match pageIndex(target.value) {
                    case Threw => page := Some(1);
                    case Found(index) => page := Some(index + 1);
                  }
                }
            }
          }
        case Explicit(first) =>
          match pageIndex(first) {
            case Threw => page := Some(1);
            case Found(index) => page := Some(index + 1);
          }
      }
      var children := item.items;
      if |item.items| > 0 {
        children := ResolveOutlinePages(item.items, destination, pageIndex);
      }
      resolved := resolved + [item.(resolvedPage := page, items := children)];
    }
  }

  // ---------------------------------------------------------------------
  // Every bookmark, at every depth
  // ---------------------------------------------------------------------

  /** One bookmark without its nested bookmarks. */
  datatype Entry = Entry(title: string, dest: Dest, page: Option<nat>)

  /** The bookmarks of an outline in document order, at every depth. */
  function Entries(items: seq<Bookmark>): seq<Entry>
    decreases items
  {
    if items == [] then []
    else [Entry(items[0].title, items[0].dest, items[0].resolvedPage)] + Entries(items[0].items) + Entries(items[1..])
  }

  /** Each entry with its own page resolved and nothing else changed. */
  function ResolvedEntries(es: seq<Entry>, destination: DestinationLookup, pageIndex: PageIndexLookup): (r: seq<Entry>)
    ensures |r| == |es|
  {
    seq(|es|, i requires 0 <= i < |es| => es[i].(page := NewPage(es[i].dest, es[i].page, destination, pageIndex)))
  }

  lemma ResolvedEntriesAppend(a: seq<Entry>, b: seq<Entry>, destination: DestinationLookup, pageIndex: PageIndexLookup)
    ensures ResolvedEntries(a + b, destination, pageIndex)
         == ResolvedEntries(a, destination, pageIndex) + ResolvedEntries(b, destination, pageIndex)
  {
  }

  /** Resolution reaches every bookmark at every nesting depth, keeps them
      in order, and sets each one's page from its own destination and the
      page it had alone: a failed lookup for one bookmark changes nothing
      for its siblings or its nested bookmarks. */
  lemma {:induction false} EntriesResolved(items: seq<Bookmark>, destination: DestinationLookup, pageIndex: PageIndexLookup)
    ensures Entries(ResolveList(items, destination, pageIndex)) == ResolvedEntries(Entries(items), destination, pageIndex)
    decreases items
  {
    if items != [] {
      var r := ResolveList(items, destination, pageIndex);
      var head := items[0];
      assert r[0] == ResolveTree(head, destination, pageIndex);
      assert r[0].items == ResolveList(head.items, destination, pageIndex);
      assert r[1..] == ResolveList(items[1..], destination, pageIndex);
      EntriesResolved(head.items, destination, pageIndex);
      EntriesResolved(items[1..], destination, pageIndex);
      var e := Entry(head.title, head.dest, head.resolvedPage);
      ResolvedEntriesAppend([e], Entries(head.items), destination, pageIndex);
      ResolvedEntriesAppend([e] + Entries(head.items), Entries(items[1..]), destination, pageIndex);
    }
  }

  /** After resolution every bookmark shows a page of at least 1, and a
      bookmark without a destination shows page 1. */
  lemma ResolvedPagesShown(items: seq<Bookmark>, destination: DestinationLookup, pageIndex: PageIndexLookup, k: nat)
    requires k < |Entries(items)|
    ensures |Entries(ResolveList(items, destination, pageIndex))| == |Entries(items)|
    ensures var e := Entries(ResolveList(items, destination, pageIndex))[k];
      && e.title == Entries(items)[k].title
      && (e.page.Some? ==> e.page.value >= 1 || e.page == Entries(items)[k].page)
      && (Entries(items)[k].dest == NoDest ==> DisplayPage(e.page) == 1)
  {
    EntriesResolved(items, destination, pageIndex);
  }
}
