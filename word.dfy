/** The Word document viewer: how headings are found in a rendered .docx
    document, which outline level each one gets, and the viewer's zoom and
    toolbar state. */
module Word {
  import opened Wrappers
  import opened Text
  import Outline

  // ---------------------------------------------------------------------
  // Blocks of the rendered document
  // ---------------------------------------------------------------------

  /** The digit of an `h1`…`h6` tag. */
  type Rank = r: int | 1 <= r <= 6 witness 1

  /** The tag of a block: a heading tag, `p`, `div`, or anything else. */
  datatype Kind = H(rank: Rank) | Paragraph | Division | OtherTag

  /** A block of the rendered document, as the heading detection sees it:
      its tag, its id (empty when it has none), its trimmed text, its
      computed font size in pixels and font weight, its inline `style` and
      `class` attributes, and its `data-level` attribute, if set. */
  datatype Block = Block(
    kind: Kind,
    id: string,
    text: string,
    fontSize: real,
    fontWeight: int,
    style: string,
    className: string,
    dataLevel: Option<int>)

  predicate IsHeadingTag(b: Block) {
    b.kind.H?
  }

  /** The blocks `p, div` selects. */
  predicate IsBody(b: Block) {
    b.kind.Paragraph? || b.kind.Division?
  }

  /** The blocks of `bs` that pass `keep`, in document order. */
  function Filter(bs: seq<Block>, keep: Block -> bool): (r: seq<Block>)
    ensures |r| <= |bs|
    ensures forall b :: b in r <==> b in bs && keep(b)
  {
    if bs == [] then []
    else (if keep(bs[0]) then [bs[0]] else []) + Filter(bs[1..], keep)
  }

  /** Filtering a concatenation filters each part: the blocks kept stay in
      document order, repeats included, as `Array.prototype.filter` keeps them. */
  lemma {:induction false} FilterAppend(a: seq<Block>, b: seq<Block>, keep: Block -> bool)
    ensures Filter(a + b, keep) == Filter(a, keep) + Filter(b, keep)
    decreases |a|
  {
    if a == [] {
      assert a + b == b;
    } else {
      assert (a + b)[0] == a[0];
      assert (a + b)[1..] == a[1..] + b;
      FilterAppend(a[1..], b, keep);
    }
  }

  /** One block is kept exactly when it passes. */
  lemma FilterSingle(x: Block, keep: Block -> bool)
    ensures Filter([x], keep) == if keep(x) then [x] else []
  {
    assert [x][1..] == [];
  }

  /** Filtering twice keeps, in order, the blocks that pass both tests. */
  lemma {:induction false} FilterFilter(bs: seq<Block>, first: Block -> bool, second: Block -> bool, both: Block -> bool)
    requires forall b :: both(b) == (first(b) && second(b))
    ensures Filter(Filter(bs, first), second) == Filter(bs, both)
    decreases |bs|
  {
    if bs != [] {
      var head := if first(bs[0]) then [bs[0]] else [];
      FilterAppend(head, Filter(bs[1..], first), second);
      FilterFilter(bs[1..], first, second, both);
      if first(bs[0]) {
        FilterSingle(bs[0], second);
      }
    }
  }

  // ---------------------------------------------------------------------
  // The detection cascade
  // ---------------------------------------------------------------------

  /** The second rule: a short non-empty text with at least one sign of
      heading style. */
  predicate Styled(b: Block) {
    && 0 < Utf16Length(b.text) < 100
    && (|| Contains(b.style, "bold")
        || Contains(b.style, "font-weight")
        || Contains(b.className, "heading")
        || Contains(b.className, "title")
        || Contains(b.className, "Heading")
        || b.fontWeight >= 600
        || b.fontSize >= 18.0)
  }

  /** The blocks the second rule selects, in one test. */
  predicate StyledBody(b: Block) {
    IsBody(b) && Styled(b)
  }

  /** The blocks the third rule considers, in one test. */
  predicate ShortBodyBlock(b: Block) {
    IsBody(b) && Short(b)
  }

  /** The blocks the third rule selects, given the mean font size, in one test. */
  function ThirdRule(mean: real): Block -> bool {
    b => IsBody(b) && Short(b) && Prominent(b, mean)
  }

  /** The blocks the third rule considers: non-empty, under 200 UTF-16 code units. */
  predicate Short(b: Block) {
    0 < Utf16Length(b.text) < 200
  }

  function SizeSum(bs: seq<Block>): real {
    if bs == [] then 0.0 else SizeSum(bs[..|bs| - 1]) + bs[|bs| - 1].fontSize
  }

  /** The mean font size of a non-empty list of blocks. */
  function MeanSize(bs: seq<Block>): real
    requires |bs| > 0
  {
    SizeSum(bs) / (|bs| as real)
  }

  /** The third rule: a font more than 15% above the mean, or a bold short text. */
  predicate Prominent(b: Block, mean: real) {
    b.fontSize > mean * 1.15 || (b.fontWeight >= 600 && Utf16Length(b.text) < 100)
  }

  function ShortBody(blocks: seq<Block>): (r: seq<Block>)
    ensures forall b :: b in r <==> b in blocks && IsBody(b) && Short(b)
  {
    Filter(Filter(blocks, IsBody), Short)
  }

  /** The headings of the document: its `h1`…`h6` elements if it has any;
      otherwise the `p`/`div` blocks the second rule selects, if any;
      otherwise those the third rule selects. */
  function Detect(blocks: seq<Block>): (r: seq<Block>)
    ensures forall b :: b in r ==> b in blocks
  {
    var tagged := Filter(blocks, IsHeadingTag);
    if tagged != [] then tagged
    else
      var styled := Filter(Filter(blocks, IsBody), Styled);
      if styled != [] then styled
      else
        var short := ShortBody(blocks);
        if short == [] then []
        else
          var mean := MeanSize(short);
          Filter(short, b => Prominent(b, mean))
  }

  /** The cascade: heading tags win; the second rule is tried only when
      there are none, and the third only when the second selects nothing. */
  lemma DetectCascade(blocks: seq<Block>)
    ensures (exists b :: b in blocks && IsHeadingTag(b)) ==>
      forall b :: b in Detect(blocks) <==> b in blocks && IsHeadingTag(b)
    ensures (forall b :: b in blocks ==> !IsHeadingTag(b)) && (exists b :: b in blocks && IsBody(b) && Styled(b)) ==>
      forall b :: b in Detect(blocks) <==> b in blocks && IsBody(b) && Styled(b)
    ensures (forall b :: b in blocks ==> !IsHeadingTag(b)) && (forall b :: b in blocks && IsBody(b) ==> !Styled(b)) ==>
      && (ShortBody(blocks) == [] ==> Detect(blocks) == [])
      && (ShortBody(blocks) != [] ==>
            forall b :: b in Detect(blocks) <==>
              b in blocks && IsBody(b) && Short(b) && Prominent(b, MeanSize(ShortBody(blocks))))
    ensures (exists b :: b in blocks && IsHeadingTag(b)) ==> Detect(blocks) == Filter(blocks, IsHeadingTag)
    ensures (forall b :: b in blocks ==> !IsHeadingTag(b)) && (exists b :: b in blocks && IsBody(b) && Styled(b)) ==>
      Detect(blocks) == Filter(blocks, StyledBody)
    ensures ShortBody(blocks) == Filter(blocks, ShortBodyBlock)
    ensures (forall b :: b in blocks ==> !IsHeadingTag(b)) && (forall b :: b in blocks && IsBody(b) ==> !Styled(b))
            && ShortBody(blocks) != [] ==>
      Detect(blocks) == Filter(blocks, ThirdRule(MeanSize(ShortBody(blocks))))
  {
    FilterFilter(blocks, IsBody, Styled, StyledBody);
    FilterFilter(blocks, IsBody, Short, ShortBodyBlock);
    var short := ShortBody(blocks);
    if short != [] {
      var mean := MeanSize(short);
      FilterFilter(blocks, ShortBodyBlock, b => Prominent(b, mean), ThirdRule(mean));
    }
    var tagged := Filter(blocks, IsHeadingTag);
    var styled := Filter(Filter(blocks, IsBody), Styled);
    if tagged != [] {
      assert tagged[0] in tagged;
    } else if styled != [] {
      assert styled[0] in styled;
    }
  }

  /** Whatever rule applies, a block it selects without a heading tag is a
      `p`/`div` whose text is non-empty and under 200 UTF-16 code units. */
  lemma DetectedBodyShort(blocks: seq<Block>, b: Block)
    requires b in Detect(blocks) && !IsHeadingTag(b)
    ensures IsBody(b) && Short(b)
  {
    if exists c :: c in blocks && IsHeadingTag(c) {
    } else if exists c :: c in blocks && IsBody(c) && Styled(c) {
    } else {
      assert ShortBody(blocks) != [];
    }
  }

  // ---------------------------------------------------------------------
  // Ids and levels
  // ---------------------------------------------------------------------

  /** The outline level inferred from a font size. */
  function Band(size: real): (level: int)
    ensures 1 <= level <= 4
    ensures level == 1 <==> size >= 24.0
    ensures level == 4 <==> size < 18.0
  {
    if size >= 24.0 then 1
    else if size >= 20.0 then 2
    else if size >= 18.0 then 3
    else 4
  }

  /** A larger font never gets a deeper level. */
  lemma BandMonotone(small: real, large: real)
    requires small <= large
    ensures Band(large) <= Band(small)
  {
  }

  /** The id given to the `index`-th heading when it has none. */
  function GeneratedId(index: nat): (id: string)
    ensures StartsWith(id, "word-heading-")
  {
    "word-heading-" + DecimalString(index)
  }

  /** Two headings never receive the same generated id. */
  lemma GeneratedIdsDistinct(i: nat, j: nat)
    requires i != j
    ensures GeneratedId(i) != GeneratedId(j)
  {
    var prefix := "word-heading-";
    if GeneratedId(i) == GeneratedId(j) {
      assert DecimalString(i) == GeneratedId(i)[|prefix|..];
      assert DecimalString(j) == GeneratedId(j)[|prefix|..];
      DecimalRoundTrip(i);
      DecimalRoundTrip(j);
    }
  }

  /** The outline level of a heading: its tag's digit, else its `data-level`,
      else 3. */
  function LevelOf(b: Block): (level: int)
    ensures b.kind.H? ==> level == b.kind.rank
    ensures !b.kind.H? && b.dataLevel.None? ==> level == 3
  {
    if b.kind.H? then b.kind.rank
    else if b.dataLevel.Some? then b.dataLevel.value
    else 3
  }

  /** How the labelling pass leaves the `index`-th heading `after`, given
      how it found it `before`. */
  predicate Labelled(before: Block, after: Block, index: nat) {
    && after.kind == before.kind && after.text == before.text
    && after.fontSize == before.fontSize && after.fontWeight == before.fontWeight
    && after.style == before.style && after.className == before.className
    && after.id == (if before.id == "" then GeneratedId(index) else before.id)
    && after.dataLevel == (if before.kind.H? then before.dataLevel else Some(Band(before.fontSize)))
  }

  /** Gives every heading without an id the id `word-heading-<index>` and
      every heading without a heading tag a `data-level` from its font size. */
  method Label(hs: array<Block>)
    modifies hs
    ensures forall i :: 0 <= i < hs.Length ==> Labelled(old(hs[i]), hs[i], i)
  {
    for i := 0 to hs.Length
      invariant forall j :: 0 <= j < i ==> Labelled(old(hs[j]), hs[j], j)
      invariant forall j :: i <= j < hs.Length ==> hs[j] == old(hs[j])
    {
      var b := hs[i];
      if b.id == "" {
        b := b.(id := GeneratedId(i));
      }
      if !b.kind.H? {
        b := b.(dataLevel := Some(Band(b.fontSize)));
      }
      hs[i] := b;
    }
  }

  /** After labelling, a heading keeps the level of its tag, and any other
      heading gets a level in 1..4 from its font size; the id it had is
      kept, and one that had none gets a generated one. */
  lemma LabelledFacts(before: Block, after: Block, index: nat)
    requires Labelled(before, after, index)
    ensures before.kind.H? ==> LevelOf(after) == before.kind.rank
    ensures !before.kind.H? ==> LevelOf(after) == Band(before.fontSize) && 1 <= LevelOf(after) <= 4
    ensures 1 <= LevelOf(after) <= 6
    ensures before.id != "" ==> after.id == before.id
    ensures before.id == "" ==> after.id == GeneratedId(index) && after.id != ""
  {
  }

  function HeadingsOf(bs: seq<Block>): (hs: seq<Outline.Heading>)
    ensures |hs| == |bs|
    ensures forall i :: 0 <= i < |bs| ==> hs[i] == Outline.Heading(bs[i].id, bs[i].text, LevelOf(bs[i]))
  {
    if bs == [] then []
    else [Outline.Heading(bs[0].id, bs[0].text, LevelOf(bs[0]))] + HeadingsOf(bs[1..])
  }

  /** Finds the headings of the document, labels them and builds the
      outline. `None` is the empty-outline notice, shown exactly when no
      rule selects anything. */
  method ExtractOutline(blocks: seq<Block>) returns (outline: Option<seq<Outline.Node>>, headings: seq<Block>)
    ensures |headings| == |Detect(blocks)|
    ensures forall i :: 0 <= i < |headings| ==> Labelled(Detect(blocks)[i], headings[i], i)
    ensures outline.None? <==> Detect(blocks) == []
    ensures outline.Some? ==>
      && outline.value == Outline.Outline(HeadingsOf(headings))
      && Outline.Preorder(outline.value) == HeadingsOf(headings)
      && Outline.Nested(outline.value)
  {
    var selected := Detect(blocks);
    var labels := new Block[|selected|](i requires 0 <= i < |selected| => selected[i]);
    Label(labels);
    headings := labels[..];
    if selected == [] {
      return None, headings;
    }
    var tree := Outline.BuildTree(HeadingsOf(headings));
    outline := Some(tree);
  }

  // ---------------------------------------------------------------------
  // The viewer
  // ---------------------------------------------------------------------

  const MaxScale: real := 3.0
  const MinScale: real := 0.5
  const ScaleStep: real := 0.1
  const ToolbarKey: string := "wordToolbarCollapsed"

  /** The scale after zooming in: one step larger, at most 3. */
  function ZoomedIn(s: real): (r: real)
    ensures r <= MaxScale
    ensures s <= r || s > MaxScale
  {
    if s + ScaleStep < MaxScale then s + ScaleStep else MaxScale
  }

  /** The scale after zooming out: one step smaller, at least 0.5. */
  function ZoomedOut(s: real): (r: real)
    ensures r >= MinScale
    ensures r <= s || s < MinScale
  {
    if s - ScaleStep > MinScale then s - ScaleStep else MinScale
  }

  /** Zooming out undoes zooming in as long as neither clamp is reached. */
  lemma ZoomRoundTrip(s: real)
    requires MinScale <= s && s + ScaleStep <= MaxScale
    ensures ZoomedOut(ZoomedIn(s)) == s
  {
  }

  /** The viewer's zoom factor and toolbar state, with its entries of the
      browser's local storage. */
  class WordViewer {
    var currentScale: real
    var toolbarCollapsed: bool
    var storage: map<string, string>

    constructor(storage: map<string, string>)
      ensures currentScale == 1.0 && !toolbarCollapsed && this.storage == storage
    {
      currentScale := 1.0;
      toolbarCollapsed := false;
      this.storage := storage;
    }

    method ZoomIn()
      modifies this
      ensures currentScale == ZoomedIn(old(currentScale)) && currentScale <= MaxScale
      ensures toolbarCollapsed == old(toolbarCollapsed) && storage == old(storage)
    {
      currentScale := ZoomedIn(currentScale);
    }

    method ZoomOut()
      modifies this
      ensures currentScale == ZoomedOut(old(currentScale)) && currentScale >= MinScale
      ensures toolbarCollapsed == old(toolbarCollapsed) && storage == old(storage)
    {
      currentScale := ZoomedOut(currentScale);
    }

    /** Flips the toolbar and stores its new state. */
    method ToggleToolbar()
      modifies this
      ensures toolbarCollapsed == !old(toolbarCollapsed)
      ensures storage == old(storage)[ToolbarKey := BoolString(toolbarCollapsed)]
      ensures currentScale == old(currentScale)
    {
      toolbarCollapsed := !toolbarCollapsed;
      storage := storage[ToolbarKey := BoolString(toolbarCollapsed)];
    }

    /** The toolbar is collapsed exactly when the stored value is `true`. */
    method RestoreToolbarState()
      modifies this
      ensures toolbarCollapsed == (ToolbarKey in storage && storage[ToolbarKey] == "true")
      ensures currentScale == old(currentScale) && storage == old(storage)
    {
      toolbarCollapsed := ToolbarKey in storage && storage[ToolbarKey] == "true";
    }

    /** Leaving the document resets the zoom. */
    method Cleanup()
      modifies this
      ensures currentScale == 1.0
      ensures toolbarCollapsed == old(toolbarCollapsed) && storage == old(storage)
    {
      currentScale := 1.0;
    }
  }

  /** A toolbar state that was toggled and stored is the one restored. */
  lemma ToolbarRoundTrip(storage: map<string, string>, collapsed: bool)
    ensures var stored := storage[ToolbarKey := BoolString(collapsed)];
      (ToolbarKey in stored && stored[ToolbarKey] == "true") == collapsed
  {
  }
}
