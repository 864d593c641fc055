/**
 * `Node::generateSequencesToDepth` (src/treequencer.cpp:262-279): grows a node's children up to
 * two, gives each new child a note chosen from the history of notes above it, and recurses into
 * the new children only, stopping at the requested depth or at tree depth 21.
 *
 * The note a new child gets comes from `Scale::getNextInSequence`, which draws at random; here it
 * is the parameter `next(p, h)`: the note for the new node at path `p` (relative to the node the
 * generation starts from) given the history `h` of notes above it.
 */
module SequenceGenerator {
  import opened TreeNode

  /** Nodes at this depth get no generated children. */
  const DEPTH_LIMIT := 21

  /** The notes for the subtree under new child `k`, by path relative to that child. */
  function NextBelow(next: (Path, seq<int>) -> int, k: nat): (Path, seq<int>) -> int
  {
    (p: Path, h: seq<int>) => next([k] + p, h)
  }

  /** A generated child: the node `addChild` creates, with its output replaced by the chosen note. */
  function NewChild(parent: Node, k: nat, h: seq<int>, next: (Path, seq<int>) -> int, draw: Path -> Draw): Node
  {
    NewNode(parent.depth, draw([k])).(output := next([k], h))
  }

  function Generate(n: Node, d: int, history: seq<int>, next: (Path, seq<int>) -> int, draw: Path -> Draw): (r: Node)
    ensures d <= 0 || n.depth >= DEPTH_LIMIT || |n.children| >= 2 ==> r == n
    ensures d > 0 && n.depth < DEPTH_LIMIT && |n.children| < 2 ==>
      && |r.children| == 2
      && r.children[..|n.children|] == n.children
      && r == n.(children := r.children)
    decreases d
  {
    if d <= 0 || n.depth >= DEPTH_LIMIT then n
    else
      var h := history + [n.output];
      var k := |n.children|;
      if k >= 2 then n
      else
        var c1 := Generate(NewChild(n, k, h, next, draw), d - 1, h, NextBelow(next, k), Below(draw, k));
        if k == 1 then n.(children := n.children + [c1])
        else
          var c2 := Generate(NewChild(n, 1, h, next, draw), d - 1, h, NextBelow(next, 1), Below(draw, 1));
          n.(children := [c1, c2])
  }

  /** Every node's depth is at most `m`. */
  predicate DepthsAtMost(n: Node, m: int)
  {
    n.depth <= m && forall i :: 0 <= i < |n.children| ==> DepthsAtMost(n.children[i], m)
  }

  /** The height a fresh leaf at depth `e` grows to when asked for `d` more levels. */
  function GrownHeight(d: int, e: int): nat
  {
    var h := if d < DEPTH_LIMIT - e then d else DEPTH_LIMIT - e;
    if h <= 0 then 0 else h
  }

  /** The two subtrees a leaf above depth 21 grows. */
  lemma LeafChildren(c: Node, d: int, history: seq<int>, next: (Path, seq<int>) -> int, draw: Path -> Draw)
    requires c.children == [] && d > 0 && c.depth < DEPTH_LIMIT
    ensures var h := history + [c.output];
      Generate(c, d, history, next, draw).children == [
        Generate(NewChild(c, 0, h, next, draw), d - 1, h, NextBelow(next, 0), Below(draw, 0)),
        Generate(NewChild(c, 1, h, next, draw), d - 1, h, NextBelow(next, 1), Below(draw, 1))]
  {
  }

  lemma GrownHeightStep(d: int, e: int)
    ensures d <= 0 || e >= DEPTH_LIMIT ==> GrownHeight(d, e) == 0
    ensures d > 0 && e < DEPTH_LIMIT ==> GrownHeight(d - 1, e + 1) + 1 == GrownHeight(d, e)
  {
  }

  /**
   * A fresh leaf no deeper than 21 grows into a full binary tree of height min(d, 21 - depth): it
   * gets both children at every level until the requested depth or depth 21 is reached.
   */
  lemma {:induction false} GenerateFromLeaf(c: Node, d: int, history: seq<int>, next: (Path, seq<int>) -> int, draw: Path -> Draw)
    requires c.children == [] && c.depth <= DEPTH_LIMIT
    ensures Complete(Generate(c, d, history, next, draw), GrownHeight(d, c.depth))
    decreases d, 1
  {
    GrownHeightStep(d, c.depth);
    if d > 0 && c.depth < DEPTH_LIMIT {
      ChildComplete(c, 0, d, history, next, draw);
      ChildComplete(c, 1, d, history, next, draw);
      LeafChildren(c, d, history, next, draw);
    }
  }

  /** The subtree grown under new child `k` of a leaf is full, one level shorter than its parent's. */
  lemma {:induction false} ChildComplete(c: Node, k: nat, d: int, history: seq<int>, next: (Path, seq<int>) -> int, draw: Path -> Draw)
    requires c.children == [] && c.depth < DEPTH_LIMIT && d > 0
    ensures var h := history + [c.output];
      Complete(Generate(NewChild(c, k, h, next, draw), d - 1, h, NextBelow(next, k), Below(draw, k)), GrownHeight(d - 1, c.depth + 1))
    decreases d, 0
  {
    var h := history + [c.output];
    GenerateFromLeaf(NewChild(c, k, h, next, draw), d - 1, h, NextBelow(next, k), Below(draw, k));
  }

  /** No node grown from a leaf lies below depth 21, and depths follow the parent links. */
  lemma {:induction false} GenerateDepths(c: Node, d: int, history: seq<int>, next: (Path, seq<int>) -> int, draw: Path -> Draw)
    requires c.children == [] && c.depth <= DEPTH_LIMIT
    ensures DepthsOk(Generate(c, d, history, next, draw))
    ensures DepthsAtMost(Generate(c, d, history, next, draw), DEPTH_LIMIT)
    decreases d, 1
  {
    if d > 0 && c.depth < DEPTH_LIMIT {
      var h := history + [c.output];
      ChildDepths(c, 0, d, history, next, draw);
      ChildDepths(c, 1, d, history, next, draw);
      LeafChildren(c, d, history, next, draw);
      DepthsOfPair(Generate(c, d, history, next, draw),
        Generate(NewChild(c, 0, h, next, draw), d - 1, h, NextBelow(next, 0), Below(draw, 0)),
        Generate(NewChild(c, 1, h, next, draw), d - 1, h, NextBelow(next, 1), Below(draw, 1)));
    }
  }

  /** The subtree grown under new child `k` of a leaf is depth-consistent and one level down. */
  lemma {:induction false} ChildDepths(c: Node, k: nat, d: int, history: seq<int>, next: (Path, seq<int>) -> int, draw: Path -> Draw)
    requires c.children == [] && c.depth < DEPTH_LIMIT && d > 0
    ensures var h := history + [c.output];
      var g := Generate(NewChild(c, k, h, next, draw), d - 1, h, NextBelow(next, k), Below(draw, k));
      g.depth == c.depth + 1 && DepthsOk(g) && DepthsAtMost(g, DEPTH_LIMIT)
    decreases d, 0
  {
    var h := history + [c.output];
    GenerateDepths(NewChild(c, k, h, next, draw), d - 1, h, NextBelow(next, k), Below(draw, k));
  }

  /** A node with two depth-consistent children one level below it, none deeper than 21. */
  lemma DepthsOfPair(r: Node, g0: Node, g1: Node)
    requires r.children == [g0, g1] && r.depth <= DEPTH_LIMIT
    requires g0.depth == r.depth + 1 && DepthsOk(g0) && DepthsAtMost(g0, DEPTH_LIMIT)
    requires g1.depth == r.depth + 1 && DepthsOk(g1) && DepthsAtMost(g1, DEPTH_LIMIT)
    ensures DepthsOk(r) && DepthsAtMost(r, DEPTH_LIMIT)
  {
  }

  /** Every node grown from an unlit leaf with a drawn chance has a drawn chance and is unlit. */
  lemma {:induction false} GenerateChances(c: Node, d: int, history: seq<int>, next: (Path, seq<int>) -> int, draw: Path -> Draw)
    requires c.children == [] && ChancesDrawn(c) && AllDrawsValid(draw)
    ensures ChancesDrawn(Generate(c, d, history, next, draw))
    decreases d, 1
  {
    if d > 0 && c.depth < DEPTH_LIMIT {
      var h := history + [c.output];
      ChildChances(c, 0, d, history, next, draw);
      ChildChances(c, 1, d, history, next, draw);
      LeafChildren(c, d, history, next, draw);
      ChancesOfPair(Generate(c, d, history, next, draw),
        Generate(NewChild(c, 0, h, next, draw), d - 1, h, NextBelow(next, 0), Below(draw, 0)),
        Generate(NewChild(c, 1, h, next, draw), d - 1, h, NextBelow(next, 1), Below(draw, 1)));
    }
  }

  /** The subtree grown under new child `k` of a leaf carries drawn chances and is unlit. */
  lemma {:induction false} ChildChances(c: Node, k: nat, d: int, history: seq<int>, next: (Path, seq<int>) -> int, draw: Path -> Draw)
    requires c.children == [] && c.depth < DEPTH_LIMIT && d > 0 && AllDrawsValid(draw)
    ensures var h := history + [c.output];
      ChancesDrawn(Generate(NewChild(c, k, h, next, draw), d - 1, h, NextBelow(next, k), Below(draw, k)))
    decreases d, 0
  {
    var h := history + [c.output];
    assert ValidDraw(draw([k]));
    BelowValid(draw, k);
    GenerateChances(NewChild(c, k, h, next, draw), d - 1, h, NextBelow(next, k), Below(draw, k));
  }

  /** A node with a drawn chance, unlit, whose two children satisfy the same throughout. */
  lemma ChancesOfPair(r: Node, g0: Node, g1: Node)
    requires r.children == [g0, g1] && 0.0 <= r.chance < 0.9 && !r.enabled
    requires ChancesDrawn(g0) && ChancesDrawn(g1)
    ensures ChancesDrawn(r)
  {
  }

  /** Every node carries a drawn chance and is not lit. */
  predicate ChancesDrawn(n: Node)
  {
    0.0 <= n.chance < 0.9 && !n.enabled && forall i :: 0 <= i < |n.children| ==> ChancesDrawn(n.children[i])
  }

  /**
   * Generating under a depth-consistent node keeps it depth-consistent (and binary, if it was),
   * only appends children, and adds only nodes no deeper than 21.
   */
  lemma GenerateKeepsShape(n: Node, d: int, history: seq<int>, next: (Path, seq<int>) -> int, draw: Path -> Draw)
    requires DepthsOk(n)
    ensures var r := Generate(n, d, history, next, draw);
      && (Binary(n) ==> Binary(r)) && DepthsOk(r) && Grows(r, n)
      && forall i :: |n.children| <= i < |r.children| ==> DepthsAtMost(r.children[i], DEPTH_LIMIT)
  {
    var r := Generate(n, d, history, next, draw);
    if d > 0 && n.depth < DEPTH_LIMIT && |n.children| < 2 {
      var h := history + [n.output];
      var k := |n.children|;
      var g := Generate(NewChild(n, k, h, next, draw), d - 1, h, NextBelow(next, k), Below(draw, k));
      ChildShape(n, k, d, history, next, draw);
      if k == 1 {
        assert r == n.(children := n.children + [g]);
        ExtendShape(n, [g]);
      } else {
        var g1 := Generate(NewChild(n, 1, h, next, draw), d - 1, h, NextBelow(next, 1), Below(draw, 1));
        ChildShape(n, 1, d, history, next, draw);
        assert r == n.(children := n.children + [g, g1]);
        ExtendShape(n, [g, g1]);
      }
    }
  }

  /** A new child subtree: binary, depth-consistent, one level below its parent and not below 21. */
  predicate GoodChild(parent: Node, g: Node)
  {
    g.depth == parent.depth + 1 && DepthsOk(g) && DepthsAtMost(g, DEPTH_LIMIT) && Binary(g)
  }

  /** The subtree grown under new child `k` is a good child of the node it grows under. */
  lemma ChildShape(n: Node, k: nat, d: int, history: seq<int>, next: (Path, seq<int>) -> int, draw: Path -> Draw)
    requires n.depth < DEPTH_LIMIT && d > 0
    ensures var h := history + [n.output];
      GoodChild(n, Generate(NewChild(n, k, h, next, draw), d - 1, h, NextBelow(next, k), Below(draw, k)))
  {
    var h := history + [n.output];
    var c := NewChild(n, k, h, next, draw);
    var g := Generate(c, d - 1, h, NextBelow(next, k), Below(draw, k));
    GenerateFromLeaf(c, d - 1, h, NextBelow(next, k), Below(draw, k));
    GenerateDepths(c, d - 1, h, NextBelow(next, k), Below(draw, k));
    CompleteBinary(g, GrownHeight(d - 1, n.depth + 1));
  }

  /** Appending good children up to two keeps a node binary and depth-consistent, and only grows it. */
  lemma ExtendShape(n: Node, extra: seq<Node>)
    requires DepthsOk(n) && |n.children| + |extra| == 2
    requires forall i :: 0 <= i < |extra| ==> GoodChild(n, extra[i])
    ensures var r := n.(children := n.children + extra);
      && (Binary(n) ==> Binary(r)) && DepthsOk(r) && Grows(r, n)
      && forall i :: |n.children| <= i < |r.children| ==> DepthsAtMost(r.children[i], DEPTH_LIMIT)
  {
    var r := n.(children := n.children + extra);
    assert r.children[..|n.children|] == n.children;
    forall i | 0 <= i < |r.children|
      ensures r.children[i].depth == r.depth + 1 && DepthsOk(r.children[i])
      ensures |n.children| <= i ==> DepthsAtMost(r.children[i], DEPTH_LIMIT)
      ensures Binary(n) ==> Binary(r.children[i])
    {
      if i >= |n.children| {
        assert r.children[i] == extra[i - |n.children|];
      }
    }
  }
}
