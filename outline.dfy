/** The nesting rule shared by the markdown outline and the Word outline:
    a flat list of headings, in document order, becomes a tree in which every
    heading hangs under the nearest earlier heading of strictly smaller level,
    or at the root when there is none. */
module Outline {

  datatype Heading = Heading(id: string, text: string, level: int)

  datatype Node = Node(id: string, text: string, level: int, children: seq<Node>)

  function HeadingOf(n: Node): Heading {
    Heading(n.id, n.text, n.level)
  }

  function Leaf(h: Heading): Node {
    Node(h.id, h.text, h.level, [])
  }

  // ---------------------------------------------------------------------
  // Specification
  // ---------------------------------------------------------------------

  /** The first position from `k` on (below `hi`) whose heading is not deeper
      than `level`, or `hi` when all of them are deeper. */
  function EndOfRun(hs: seq<Heading>, level: int, k: nat, hi: nat): (r: nat)
    requires k <= hi <= |hs|
    ensures k <= r <= hi
    ensures forall j :: k <= j < r ==> hs[j].level > level
    ensures r < hi ==> hs[r].level <= level
    decreases hi - k
  {
    if k == hi || hs[k].level <= level then k else EndOfRun(hs, level, k + 1, hi)
  }

  /** The outline of the headings `hs[lo..hi]`: the first one is a root, the
      run of deeper headings after it are its descendants, and the rest is
      nested alike. */
  function Forest(hs: seq<Heading>, lo: nat, hi: nat): seq<Node>
    requires lo <= hi <= |hs|
    decreases hi - lo
  {
    if lo == hi then []
    else
      var e := EndOfRun(hs, hs[lo].level, lo + 1, hi);
      [Node(hs[lo].id, hs[lo].text, hs[lo].level, Forest(hs, lo + 1, e))] + Forest(hs, e, hi)
  }

  /** The outline of a whole document. */
  function Outline(hs: seq<Heading>): seq<Node> {
    Forest(hs, 0, |hs|)
  }

  /** The headings of a forest in pre-order (document order of the rendered list). */
  function Preorder(f: seq<Node>): seq<Heading>
  {
    if f == [] then [] else [HeadingOf(f[0])] + Preorder(f[0].children) + Preorder(f[1..])
  }

  /** Every root of `f` is deeper than `level`. */
  predicate Deeper(f: seq<Node>, level: int) {
    forall i :: 0 <= i < |f| ==> f[i].level > level
  }

  /** At every depth, a child's level is strictly greater than its parent's. */
  predicate Nested(f: seq<Node>) {
    forall i :: 0 <= i < |f| ==> Deeper(f[i].children, f[i].level) && Nested(f[i].children)
  }

  /** The last position in `[lo, i)` whose heading is strictly shallower than
      heading `i`, or -1 when there is none. */
  function ShallowerIn(hs: seq<Heading>, lo: nat, i: nat): (j: int)
    requires lo <= i < |hs|
    ensures j == -1 || lo <= j < i
    ensures j >= 0 ==> hs[j].level < hs[i].level
    ensures forall k :: lo <= k < i && j < k ==> hs[k].level >= hs[i].level
  {
    ShallowerBelow(hs, lo, i, i)
  }

  function ShallowerBelow(hs: seq<Heading>, lo: nat, i: nat, below: nat): (j: int)
    requires lo <= below <= i < |hs|
    ensures j == -1 || lo <= j < below
    ensures j >= 0 ==> hs[j].level < hs[i].level
    ensures forall k :: lo <= k < below && j < k ==> hs[k].level >= hs[i].level
    decreases below
  {
    if below == lo then -1
    else if hs[below - 1].level < hs[i].level then below - 1
    else ShallowerBelow(hs, lo, i, below - 1)
  }

  /** Position of the nearest heading before heading `i` with a strictly smaller level, or -1. */
  function NearestShallower(hs: seq<Heading>, i: nat): int
    requires i < |hs|
  {
    ShallowerIn(hs, 0, i)
  }

  /** The pre-order position of the parent of every node of `f`, when `f` is laid
      out from position `base` and its roots hang under position `parent`. */
  function Parents(f: seq<Node>, base: int, parent: int): seq<int>
  {
    if f == [] then []
    else
      [parent] + Parents(f[0].children, base + 1, base)
      + Parents(f[1..], base + 1 + |Preorder(f[0].children)|, parent)
  }

  // ---------------------------------------------------------------------
  // The stack algorithm
  // ---------------------------------------------------------------------

  /** A heading still on the stack, with the children it has been given so far. */
  datatype Open = Open(heading: Heading, children: seq<Node>)

  function Closed(o: Open): Node {
    Node(o.heading.id, o.heading.text, o.heading.level, o.children)
  }

  /** The node the open chain `open` stands for once all of it is closed. */
  function Chain(open: seq<Open>): Node
    requires |open| > 0
    decreases |open|
  {
    var o := open[0];
    Node(o.heading.id, o.heading.text, o.heading.level,
         o.children + (if |open| == 1 then [] else [Chain(open[1..])]))
  }

  /** The tree that the roots and the open chain stand for. */
  function Close(roots: seq<Node>, open: seq<Open>): seq<Node> {
    if open == [] then roots else roots + [Chain(open)]
  }

  /** Pops the top of the stack and makes it the last child of the entry
      below it, or the last root when the stack becomes empty. */
  function Pop(roots: seq<Node>, open: seq<Open>): (seq<Node>, seq<Open>)
    requires |open| > 0
  {
    if |open| == 1 then (roots + [Closed(open[0])], []) else (roots, PopOpen(open))
  }

  function PopOpen(open: seq<Open>): seq<Open>
    requires |open| >= 2
  {
    var k := |open|;
    open[..k - 2] + [Open(open[k - 2].heading, open[k - 2].children + [Closed(open[k - 1])])]
  }

  /** Adds `h` as the last heading of the outline `f`: it descends along the
      last node as long as that node is shallower than `h`. */
  function AppendHeading(f: seq<Node>, h: Heading): seq<Node>
  {
    if f == [] || f[|f| - 1].level >= h.level then f + [Leaf(h)]
    else
      var last := f[|f| - 1];
      f[..|f| - 1] + [last.(children := AppendHeading(last.children, h))]
  }

  predicate LastAtLeast(f: seq<Node>, level: int) {
    f == [] || f[|f| - 1].level >= level
  }

  /** The stack while a heading of level `level` is being placed: levels rise
      along the stack, the last root (or child) below each entry is no
      shallower than that entry, and the top's last child is no shallower
      than the new heading. */
  predicate Shape(roots: seq<Node>, open: seq<Open>, level: int)
    decreases |open|
  {
    if open == [] then LastAtLeast(roots, level)
    else
      && LastAtLeast(roots, open[0].heading.level)
      && (|open| > 1 ==> open[0].heading.level < open[1].heading.level)
      && Shape(open[0].children, open[1..], level)
  }

  /** The stack between two headings: empty before the first one, and
      afterwards topped by the last heading, which has no children yet. */
  predicate Ready(roots: seq<Node>, open: seq<Open>) {
    if open == [] then roots == []
    else
      var top := open[|open| - 1];
      top.children == [] && Shape(roots, open, top.heading.level)
  }

  /** The outline of `hs`, built as the source builds it: a stack of open
      headings over a virtual root; each heading pops every entry whose level
      is at least its own, hangs under the new top and is pushed. */
  method BuildTree(hs: seq<Heading>) returns (tree: seq<Node>)
    ensures tree == Outline(hs)
    ensures Preorder(tree) == hs
    ensures Nested(tree)
    ensures |Parents(tree, 0, -1)| == |hs|
    ensures forall i :: 0 <= i < |hs| ==> Parents(tree, 0, -1)[i] == NearestShallower(hs, i)
  {
    var roots: seq<Node> := [];
    var open: seq<Open> := [];
    for i := 0 to |hs|
      invariant Ready(roots, open)
      invariant Close(roots, open) == Forest(hs, 0, i)
    {
      var h := hs[i];
      ReadyShape(roots, open, h.level);
      while |open| > 0 && open[|open| - 1].heading.level >= h.level
        invariant Shape(roots, open, h.level)
        invariant Close(roots, open) == Forest(hs, 0, i)
        decreases |open|
      {
        PopKeepsClose(roots, open);
        PopKeepsShape(roots, open, h.level);
        var next := Pop(roots, open);
        roots, open := next.0, next.1;
      }
      PushCloses(roots, open, h);
      ForestSnoc(hs, 0, i);
      PushReady(roots, open, h);
      open := open + [Open(h, [])];
    }
    tree := Close(roots, open);
    OutlineFacts(hs);
  }

  // ---------------------------------------------------------------------
  // Lemmas about the stack
  // ---------------------------------------------------------------------

  lemma {:induction false} ShapeAnyLevel(roots: seq<Node>, open: seq<Open>, level: int, level': int)
    requires open != [] && open[|open| - 1].children == []
    requires Shape(roots, open, level)
    ensures Shape(roots, open, level')
    decreases |open|
  {
    if |open| > 1 {
      ShapeAnyLevel(open[0].children, open[1..], level, level');
    }
  }

  lemma ReadyShape(roots: seq<Node>, open: seq<Open>, level: int)
    requires Ready(roots, open)
    ensures Shape(roots, open, level)
  {
    if open != [] {
      ShapeAnyLevel(roots, open, open[|open| - 1].heading.level, level);
    }
  }

  lemma {:induction false} ChainPop(open: seq<Open>)
    requires |open| >= 2
    ensures Chain(PopOpen(open)) == Chain(open)
    decreases |open|
  {
    var k := |open|;
    if k == 2 {
      assert open[1..] == [open[1]];
      assert open[1].children + [] == open[1].children;
    } else {
      var p := PopOpen(open);
      assert p[0] == open[0];
      assert p[1..] == PopOpen(open[1..]);
      ChainPop(open[1..]);
    }
  }

  lemma PopKeepsClose(roots: seq<Node>, open: seq<Open>)
    requires |open| > 0
    ensures Close(Pop(roots, open).0, Pop(roots, open).1) == Close(roots, open)
  {
    if |open| == 1 {
      assert open[0].children + [] == open[0].children;
    } else {
      ChainPop(open);
    }
  }

  lemma {:induction false} PopKeepsShape(roots: seq<Node>, open: seq<Open>, level: int)
    requires |open| > 0 && open[|open| - 1].heading.level >= level
    requires Shape(roots, open, level)
    ensures Shape(Pop(roots, open).0, Pop(roots, open).1, level)
    decreases |open|
  {
    var k := |open|;
    if k == 2 {
      assert open[1..] == [open[1]];
      var p := PopOpen(open);
      assert p == [Open(open[0].heading, open[0].children + [Closed(open[1])])];
      assert p[1..] == [];
    } else if k > 2 {
      var p := PopOpen(open);
      assert p[0] == open[0];
      assert p[1..] == PopOpen(open[1..]);
      assert p[1].heading == open[1].heading;
      PopKeepsShape(open[0].children, open[1..], level);
    }
  }

  /** Appending under the last root when that root is shallower than `h`. */
  lemma AppendUnderLast(roots: seq<Node>, c: Node, h: Heading)
    requires c.level < h.level
    ensures AppendHeading(roots + [c], h) == roots + [c.(children := AppendHeading(c.children, h))]
  {
    var f := roots + [c];
    assert f[..|f| - 1] == roots;
  }

  /** Pushing `h` onto a stack shaped for it adds `h` to the outline exactly
      where `AppendHeading` puts it. */
  lemma {:induction false} PushCloses(roots: seq<Node>, open: seq<Open>, h: Heading)
    requires Shape(roots, open, h.level)
    requires open != [] ==> open[|open| - 1].heading.level < h.level
    ensures AppendHeading(Close(roots, open), h) == Close(roots, open + [Open(h, [])])
    ensures open != [] ==> open[0].heading.level < h.level
    decreases |open|
  {
    var pushed := Open(h, []);
    var ext := open + [pushed];
    if open == [] {
      assert ext == [pushed];
      assert Chain(ext) == Leaf(h);
    } else {
      var o := open[0];
      assert ext[0] == o && ext[1..] == open[1..] + [pushed];
      if |open| == 1 {
        assert o.children + [] == o.children;
        assert Chain(ext[1..]) == Leaf(h);
        AppendUnderLast(roots, Chain(open), h);
      } else {
        var rest := open[1..];
        PushCloses(o.children, rest, h);
        assert Chain(open).children == Close(o.children, rest);
        AppendUnderLast(roots, Chain(open), h);
      }
    }
  }

  lemma {:induction false} PushReady(roots: seq<Node>, open: seq<Open>, h: Heading)
    requires Shape(roots, open, h.level)
    requires open != [] ==> open[|open| - 1].heading.level < h.level
    ensures Ready(roots, open + [Open(h, [])])
    ensures Shape(roots, open + [Open(h, [])], h.level)
    decreases |open|
  {
    var ext := open + [Open(h, [])];
    if open == [] {
      assert ext == [Open(h, [])];
    } else {
      assert ext[0] == open[0] && ext[1..] == open[1..] + [Open(h, [])];
      PushReady(open[0].children, open[1..], h);
    }
  }

  // ---------------------------------------------------------------------
  // Lemmas about the specification
  // ---------------------------------------------------------------------

  lemma {:induction false} EndOfRunSnoc(hs: seq<Heading>, level: int, k: nat, hi: nat)
    requires k <= hi < |hs|
    ensures EndOfRun(hs, level, k, hi + 1) ==
      if EndOfRun(hs, level, k, hi) < hi then EndOfRun(hs, level, k, hi)
      else if hs[hi].level > level then hi + 1 else hi
    decreases hi - k
  {
    if k < hi && hs[k].level > level {
      EndOfRunSnoc(hs, level, k + 1, hi);
    }
  }

  lemma AppendHeadingAfter(a: seq<Node>, b: seq<Node>, h: Heading)
    requires b != []
    ensures AppendHeading(a + b, h) == a + AppendHeading(b, h)
  {
    var f := a + b;
    assert f[|f| - 1] == b[|b| - 1];
    assert f[..|f| - 1] == a + b[..|b| - 1];
  }

  /** The outline of a non-empty range: its first heading, with the run of
      deeper headings after it as children, followed by the outline of the rest. */
  lemma ForestCons(hs: seq<Heading>, lo: nat, hi: nat)
    requires lo < hi <= |hs|
    ensures var e := EndOfRun(hs, hs[lo].level, lo + 1, hi);
      Forest(hs, lo, hi) == [Node(hs[lo].id, hs[lo].text, hs[lo].level, Forest(hs, lo + 1, e))] + Forest(hs, e, hi)
  {
  }

  lemma ForestSingle(hs: seq<Heading>, i: nat)
    requires i < |hs|
    ensures Forest(hs, i, i + 1) == [Leaf(hs[i])]
  {
    assert Forest(hs, i + 1, i + 1) == [];
  }

  /** The new heading lands after the run under `hs[lo]`. */
  lemma {:induction false} ForestSnocRest(hs: seq<Heading>, lo: nat, hi: nat)
    requires lo < hi < |hs|
    requires EndOfRun(hs, hs[lo].level, lo + 1, hi) < hi
    ensures Forest(hs, lo, hi + 1) == AppendHeading(Forest(hs, lo, hi), hs[hi])
    decreases hi - lo, 0
  {
    var level := hs[lo].level;
    var e := EndOfRun(hs, level, lo + 1, hi);
    ForestSnoc(hs, e, hi);
    EndOfRunSnoc(hs, level, lo + 1, hi);
    ForestCons(hs, lo, hi);
    ForestCons(hs, lo, hi + 1);
    var root := Node(hs[lo].id, hs[lo].text, level, Forest(hs, lo + 1, e));
    AppendHeadingAfter([root], Forest(hs, e, hi), hs[hi]);
  }

  /** The new heading extends the run under `hs[lo]`. */
  lemma {:induction false} ForestSnocRun(hs: seq<Heading>, lo: nat, hi: nat)
    requires lo < hi < |hs|
    requires EndOfRun(hs, hs[lo].level, lo + 1, hi) == hi
    requires hs[hi].level > hs[lo].level
    ensures Forest(hs, lo, hi + 1) == AppendHeading(Forest(hs, lo, hi), hs[hi])
    decreases hi - lo, 0
  {
    var level := hs[lo].level;
    ForestSnoc(hs, lo + 1, hi);
    EndOfRunSnoc(hs, level, lo + 1, hi);
    ForestCons(hs, lo, hi);
    ForestCons(hs, lo, hi + 1);
    assert Forest(hs, hi, hi) == [] && Forest(hs, hi + 1, hi + 1) == [];
    var root := Node(hs[lo].id, hs[lo].text, level, Forest(hs, lo + 1, hi));
    AppendUnderLast([], root, hs[hi]);
  }

  /** The new heading closes the run under `hs[lo]` and becomes a sibling of `hs[lo]`. */
  lemma ForestSnocSibling(hs: seq<Heading>, lo: nat, hi: nat)
    requires lo < hi < |hs|
    requires EndOfRun(hs, hs[lo].level, lo + 1, hi) == hi
    requires hs[hi].level <= hs[lo].level
    ensures Forest(hs, lo, hi + 1) == AppendHeading(Forest(hs, lo, hi), hs[hi])
  {
    var level := hs[lo].level;
    EndOfRunSnoc(hs, level, lo + 1, hi);
    ForestCons(hs, lo, hi);
    ForestCons(hs, lo, hi + 1);
    assert Forest(hs, hi, hi) == [];
    ForestSingle(hs, hi);
  }

  /** One more heading at the end of the document extends the outline along
      its last branch: the stack algorithm's step, stated on the specification. */
  lemma {:induction false} ForestSnoc(hs: seq<Heading>, lo: nat, hi: nat)
    requires lo <= hi < |hs|
    ensures Forest(hs, lo, hi + 1) == AppendHeading(Forest(hs, lo, hi), hs[hi])
    decreases hi - lo, 1
  {
    if lo == hi {
      assert Forest(hs, lo, hi) == [];
      ForestSingle(hs, hi);
    } else {
      var e := EndOfRun(hs, hs[lo].level, lo + 1, hi);
      if e < hi {
        ForestSnocRest(hs, lo, hi);
      } else if hs[hi].level > hs[lo].level {
        ForestSnocRun(hs, lo, hi);
      } else {
        ForestSnocSibling(hs, lo, hi);
      }
    }
  }

  lemma PreorderCons(root: Node, rest: seq<Node>)
    ensures Preorder([root] + rest) == [HeadingOf(root)] + Preorder(root.children) + Preorder(rest)
  {
    var f := [root] + rest;
    assert f[0] == root && f[1..] == rest;
  }

  lemma SliceSplit<T>(s: seq<T>, lo: nat, m: nat, hi: nat)
    requires lo < m <= hi <= |s|
    ensures s[lo..hi] == [s[lo]] + s[lo + 1..m] + s[m..hi]
  {
  }

  /** Reading the outline in pre-order gives back exactly the input headings. */
  lemma {:induction false} ForestPreorder(hs: seq<Heading>, lo: nat, hi: nat)
    requires lo <= hi <= |hs|
    ensures Preorder(Forest(hs, lo, hi)) == hs[lo..hi]
    decreases hi - lo
  {
    if lo < hi {
      var e := EndOfRun(hs, hs[lo].level, lo + 1, hi);
      var root := Node(hs[lo].id, hs[lo].text, hs[lo].level, Forest(hs, lo + 1, e));
      ForestCons(hs, lo, hi);
      PreorderCons(root, Forest(hs, e, hi));
      ForestPreorder(hs, lo + 1, e);
      ForestPreorder(hs, e, hi);
      SliceSplit(hs, lo, e, hi);
    }
  }

  /** When every heading is deeper than `level`, so is every root of the outline. */
  lemma {:induction false} ForestDeeper(hs: seq<Heading>, lo: nat, hi: nat, level: int)
    requires lo <= hi <= |hs|
    requires forall k :: lo <= k < hi ==> hs[k].level > level
    ensures Deeper(Forest(hs, lo, hi), level)
    decreases hi - lo
  {
    if lo < hi {
      var e := EndOfRun(hs, hs[lo].level, lo + 1, hi);
      ForestDeeper(hs, e, hi, level);
    }
  }

  /** In the outline, every child is strictly deeper than its parent. */
  lemma {:induction false} ForestNested(hs: seq<Heading>, lo: nat, hi: nat)
    requires lo <= hi <= |hs|
    ensures Nested(Forest(hs, lo, hi))
    decreases hi - lo
  {
    if lo < hi {
      var e := EndOfRun(hs, hs[lo].level, lo + 1, hi);
      var root := Node(hs[lo].id, hs[lo].text, hs[lo].level, Forest(hs, lo + 1, e));
      var rest := Forest(hs, e, hi);
      var f := [root] + rest;
      ForestDeeper(hs, lo + 1, e, hs[lo].level);
      ForestNested(hs, lo + 1, e);
      ForestNested(hs, e, hi);
      forall i | 0 <= i < |f|
        ensures Deeper(f[i].children, f[i].level) && Nested(f[i].children)
      {
        if i > 0 {
          assert f[i] == rest[i - 1];
        }
      }
    }
  }

  /** The conditions that pin `ShallowerIn` down determine it. */
  lemma ShallowerInUnique(hs: seq<Heading>, lo: nat, i: nat, j: int)
    requires lo <= i < |hs|
    requires j == -1 || lo <= j < i
    requires j >= 0 ==> hs[j].level < hs[i].level
    requires forall k :: lo <= k < i && j < k ==> hs[k].level >= hs[i].level
    ensures ShallowerIn(hs, lo, i) == j
  {
  }

  /** A heading inside the run under `hs[lo]` whose run has no shallower
      heading before it hangs under `hs[lo]`. */
  lemma ShallowerInRun(hs: seq<Heading>, lo: nat, e: nat, i: nat)
    requires lo < i < e <= |hs|
    requires forall k :: lo + 1 <= k < e ==> hs[k].level > hs[lo].level
    ensures ShallowerIn(hs, lo, i) ==
      (var j := ShallowerIn(hs, lo + 1, i); if j < 0 then lo else j)
  {
    var j := ShallowerIn(hs, lo + 1, i);
    ShallowerInUnique(hs, lo, i, if j < 0 then lo else j);
  }

  /** A heading after the run under `hs[lo]` never hangs under the run or under `hs[lo]`. */
  lemma ShallowerInRest(hs: seq<Heading>, lo: nat, e: nat, i: nat)
    requires lo < e <= i < |hs|
    requires forall k :: lo + 1 <= k < e ==> hs[k].level > hs[lo].level
    requires hs[e].level <= hs[lo].level
    ensures ShallowerIn(hs, lo, i) == ShallowerIn(hs, e, i)
  {
    var j := ShallowerIn(hs, e, i);
    if j < 0 {
      assert hs[i].level <= hs[e].level;
    }
    ShallowerInUnique(hs, lo, i, j);
  }

  lemma ParentsCons(root: Node, rest: seq<Node>, base: int, next: int, parent: int)
    requires next == base + 1 + |Preorder(root.children)|
    ensures Parents([root] + rest, base, parent) ==
      [parent] + Parents(root.children, base + 1, base) + Parents(rest, next, parent)
  {
    var f := [root] + rest;
    assert f[0] == root && f[1..] == rest;
  }

  /** Where heading `i` of the range `hs[lo..]` hangs: under the nearest
      earlier shallower heading of the range, or under `parent`. */
  function ParentOf(hs: seq<Heading>, lo: nat, i: nat, parent: int): int
    requires lo <= i < |hs|
  {
    var j := ShallowerIn(hs, lo, i);
    if j < 0 then parent else j
  }

  function ExpectedParents(hs: seq<Heading>, lo: nat, hi: nat, parent: int): (ps: seq<int>)
    requires lo <= hi <= |hs|
    ensures |ps| == hi - lo
    decreases hi - lo
  {
    if lo == hi then [] else ExpectedParents(hs, lo, hi - 1, parent) + [ParentOf(hs, lo, hi - 1, parent)]
  }

  lemma {:induction false} ExpectedParentsAt(hs: seq<Heading>, lo: nat, hi: nat, parent: int, i: nat)
    requires lo <= i < hi <= |hs|
    ensures ExpectedParents(hs, lo, hi, parent)[i - lo] == ParentOf(hs, lo, i, parent)
    decreases hi - lo
  {
    if i < hi - 1 {
      ExpectedParentsAt(hs, lo, hi - 1, parent, i);
    }
  }

  lemma ExpectedParentsInRun(hs: seq<Heading>, lo: nat, e: nat, hi: nat, parent: int, i: nat)
    requires lo < i < e <= hi <= |hs|
    requires forall k :: lo + 1 <= k < e ==> hs[k].level > hs[lo].level
    ensures ExpectedParents(hs, lo, hi, parent)[i - lo] ==
      ([parent] + ExpectedParents(hs, lo + 1, e, lo) + ExpectedParents(hs, e, hi, parent))[i - lo]
  {
    var inner := ExpectedParents(hs, lo + 1, e, lo);
    var qs := [parent] + inner + ExpectedParents(hs, e, hi, parent);
    assert qs[i - lo] == inner[i - (lo + 1)];
    ExpectedParentsAt(hs, lo, hi, parent, i);
    ExpectedParentsAt(hs, lo + 1, e, lo, i);
    ShallowerInRun(hs, lo, e, i);
  }

  lemma ExpectedParentsInRest(hs: seq<Heading>, lo: nat, e: nat, hi: nat, parent: int, i: nat)
    requires lo < e <= i < hi <= |hs|
    requires forall k :: lo + 1 <= k < e ==> hs[k].level > hs[lo].level
    requires hs[e].level <= hs[lo].level
    ensures ExpectedParents(hs, lo, hi, parent)[i - lo] ==
      ([parent] + ExpectedParents(hs, lo + 1, e, lo) + ExpectedParents(hs, e, hi, parent))[i - lo]
  {
    var outer := ExpectedParents(hs, e, hi, parent);
    var qs := [parent] + ExpectedParents(hs, lo + 1, e, lo) + outer;
    assert qs[i - lo] == outer[i - e];
    ExpectedParentsAt(hs, lo, hi, parent, i);
    ExpectedParentsAt(hs, e, hi, parent, i);
    ShallowerInRest(hs, lo, e, i);
  }

  /** The parents of a range split as the outline does: the first heading,
      the run of deeper headings under it, and the rest. */
  lemma ExpectedParentsSplit(hs: seq<Heading>, lo: nat, e: nat, hi: nat, parent: int)
    requires lo < e <= hi <= |hs|
    requires forall k :: lo + 1 <= k < e ==> hs[k].level > hs[lo].level
    requires e < hi ==> hs[e].level <= hs[lo].level
    ensures ExpectedParents(hs, lo, hi, parent) ==
      [parent] + ExpectedParents(hs, lo + 1, e, lo) + ExpectedParents(hs, e, hi, parent)
  {
    var ps := ExpectedParents(hs, lo, hi, parent);
    var qs := [parent] + ExpectedParents(hs, lo + 1, e, lo) + ExpectedParents(hs, e, hi, parent);
    forall k | 0 <= k < hi - lo
      ensures ps[k] == qs[k]
    {
      var i := lo + k;
      if i == lo {
        ExpectedParentsAt(hs, lo, hi, parent, i);
        assert ShallowerIn(hs, lo, i) == -1;
      } else if i < e {
        ExpectedParentsInRun(hs, lo, e, hi, parent, i);
      } else {
        ExpectedParentsInRest(hs, lo, e, hi, parent, i);
      }
    }
  }

  /** Every heading of `hs[lo..hi]` hangs under the nearest earlier heading in
      that range with a strictly smaller level, or under `parent` when there is none. */
  lemma {:induction false} ForestParents(hs: seq<Heading>, lo: nat, hi: nat, parent: int)
    requires lo <= hi <= |hs|
    ensures Parents(Forest(hs, lo, hi), lo, parent) == ExpectedParents(hs, lo, hi, parent)
    decreases hi - lo
  {
    if lo < hi {
      var e := EndOfRun(hs, hs[lo].level, lo + 1, hi);
      var inner := Forest(hs, lo + 1, e);
      var rest := Forest(hs, e, hi);
      var root := Node(hs[lo].id, hs[lo].text, hs[lo].level, inner);
      ForestCons(hs, lo, hi);
      ForestPreorder(hs, lo + 1, e);
      ParentsCons(root, rest, lo, e, parent);
      ForestParents(hs, lo + 1, e, lo);
      ForestParents(hs, e, hi, parent);
      ExpectedParentsSplit(hs, lo, e, hi, parent);
      calc {
        Parents(Forest(hs, lo, hi), lo, parent);
        Parents([root] + rest, lo, parent);
        [parent] + Parents(inner, lo + 1, lo) + Parents(rest, e, parent);
        [parent] + ExpectedParents(hs, lo + 1, e, lo) + ExpectedParents(hs, e, hi, parent);
        ExpectedParents(hs, lo, hi, parent);
      }
    }
  }

  /** The three promises of the nesting rule about a whole document: pre-order
      gives the headings back, children are deeper than parents, and each
      heading's parent is the nearest earlier shallower heading. */
  lemma OutlineFacts(hs: seq<Heading>)
    ensures Preorder(Outline(hs)) == hs
    ensures Nested(Outline(hs))
    ensures |Parents(Outline(hs), 0, -1)| == |hs|
    ensures forall i :: 0 <= i < |hs| ==> Parents(Outline(hs), 0, -1)[i] == NearestShallower(hs, i)
  {
    ForestPreorder(hs, 0, |hs|);
    assert hs[0..|hs|] == hs;
    ForestNested(hs, 0, |hs|);
    ForestParents(hs, 0, |hs|, -1);
    forall i | 0 <= i < |hs|
      ensures Parents(Outline(hs), 0, -1)[i] == NearestShallower(hs, i)
    {
      ExpectedParentsAt(hs, 0, |hs|, -1, i);
    }
  }
}
