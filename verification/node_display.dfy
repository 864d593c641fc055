/**
 * The parts of the Treequencer display (`NodeDisplay`, src/treequencer.cpp:610-1015) that decide
 * which node a click lands on and where each node goes in the layout: `isInsideBox`,
 * `findNodeClicked`, the bins `drawLayer` allocates, and `gatherNodesForBins`.
 *
 * Nodes are named by their paths from the root. The box `drawNode` last gave each node is the
 * parameter `box` (by path relative to the node the search starts from); a node pointer in a bin is
 * `Some(path)`, a null pointer `None`.
 */
module NodeDisplay {
  import opened TreeNode
  import opened Wrappers

  datatype Vec = Vec(x: real, y: real)
  datatype Rect = Rect(pos: Vec, size: Vec)

  /** `isInsideBox`: the point is within the box, edges included. */
  function IsInsideBox(p: Vec, box: Rect): (r: bool)
    ensures r <==> box.pos.x <= p.x <= box.pos.x + box.size.x && box.pos.y <= p.y <= box.pos.y + box.size.y
  {
    if p.x < box.pos.x || p.x > box.pos.x + box.size.x then false
    else if p.y < box.pos.y || p.y > box.pos.y + box.size.y then false
    else true
  }

  // ---------------------------------------------------------------------------------------------
  // findNodeClicked

  /** The boxes of the subtree under child `k`, by path relative to that child. */
  function BoxBelow(box: Path -> Rect, k: nat): Path -> Rect
  {
    (p: Path) => box([k] + p)
  }

  /** Every path of `ps` with `k` put in front. */
  function Under(k: nat, ps: seq<Path>): (r: seq<Path>)
    ensures |r| == |ps| && forall i :: 0 <= i < |ps| ==> r[i] == [k] + ps[i]
  {
    seq(|ps|, i requires 0 <= i < |ps| => [k] + ps[i])
  }

  /** The nodes of a tree in pre-order (a node, then the subtrees of its children in order), by relative path. */
  function PreOrder(n: Node): (ps: seq<Path>)
    ensures ps != [] && ps[0] == []
    decreases n
  {
    [[]] + PreOrderFrom(n.children, 0)
  }

  function PreOrderFrom(cs: seq<Node>, i: nat): seq<Path>
    decreases cs, |cs| - i
  {
    if i >= |cs| then [] else Under(i, PreOrder(cs[i])) + PreOrderFrom(cs, i + 1)
  }

  /** The first path of `ps` whose box holds the point. */
  function FirstHit(ps: seq<Path>, mp: Vec, box: Path -> Rect): (r: Option<Path>)
    ensures r.Some? ==> r.value in ps && IsInsideBox(mp, box(r.value))
    ensures r.None? ==> forall i :: 0 <= i < |ps| ==> !IsInsideBox(mp, box(ps[i]))
  {
    if ps == [] then None
    else if IsInsideBox(mp, box(ps[0])) then Some(ps[0])
    else FirstHit(ps[1..], mp, box)
  }

  /**
   * `findNodeClicked`: the node itself when the point is in its box, else the first child whose
   * subtree holds a hit, searched in child order.
   */
  function FindNodeClicked(mp: Vec, n: Node, box: Path -> Rect): Option<Path>
    decreases n
  {
    if IsInsideBox(mp, box([])) then Some([]) else FindFrom(mp, n.children, 0, box)
  }

  function FindFrom(mp: Vec, cs: seq<Node>, i: nat, box: Path -> Rect): Option<Path>
    decreases cs, |cs| - i
  {
    if i >= |cs| then None
    else
      match FindNodeClicked(mp, cs[i], BoxBelow(box, i))
      case Some(q) => Some([i] + q)
      case None => FindFrom(mp, cs, i + 1, box)
  }

  /** The first hit of a concatenation is the first hit of the first part, if any, else of the second. */
  lemma {:induction false} FirstHitConcat(a: seq<Path>, b: seq<Path>, mp: Vec, box: Path -> Rect)
    ensures FirstHit(a + b, mp, box) == if FirstHit(a, mp, box).Some? then FirstHit(a, mp, box) else FirstHit(b, mp, box)
    decreases |a|
  {
    if a != [] {
      assert (a + b)[0] == a[0] && (a + b)[1..] == a[1..] + b;
      FirstHitConcat(a[1..], b, mp, box);
    } else {
      assert a + b == b;
    }
  }

  /** Searching the paths under child `k` is searching the child's own paths with the child's boxes. */
  lemma {:induction false} FirstHitUnder(k: nat, ps: seq<Path>, mp: Vec, box: Path -> Rect)
    ensures var r := FirstHit(ps, mp, BoxBelow(box, k));
      FirstHit(Under(k, ps), mp, box) == if r.Some? then Some([k] + r.value) else None
    decreases |ps|
  {
    if ps != [] {
      assert Under(k, ps)[1..] == Under(k, ps[1..]);
      FirstHitUnder(k, ps[1..], mp, box);
    }
  }

  /**
   * `findNodeClicked` finds the first node in pre-order whose box holds the point, and null when
   * no node's box does.
   */
  lemma {:induction false} FindIsFirstInPreOrder(mp: Vec, n: Node, box: Path -> Rect)
    ensures FindNodeClicked(mp, n, box) == FirstHit(PreOrder(n), mp, box)
    decreases n, 1
  {
    if !IsInsideBox(mp, box([])) {
      FindFromIsFirst(mp, n.children, 0, box);
      assert PreOrder(n)[1..] == PreOrderFrom(n.children, 0);
    }
  }

  lemma {:induction false} FindFromIsFirst(mp: Vec, cs: seq<Node>, i: nat, box: Path -> Rect)
    ensures FindFrom(mp, cs, i, box) == FirstHit(PreOrderFrom(cs, i), mp, box)
    decreases cs, |cs| - i
  {
    if i < |cs| {
      FindIsFirstInPreOrder(mp, cs[i], BoxBelow(box, i));
      FirstHitUnder(i, PreOrder(cs[i]), mp, box);
      FirstHitConcat(Under(i, PreOrder(cs[i])), PreOrderFrom(cs, i + 1), mp, box);
      FindFromIsFirst(mp, cs, i + 1, box);
    }
  }

  /** Every node of the tree is in the pre-order list, so a search misses only when no node's box holds the point. */
  lemma {:induction false} PreOrderHasEveryNode(n: Node, q: Path)
    requires ValidPath(n, q)
    ensures q in PreOrder(n)
    decreases n, 1
  {
    if q != [] {
      PreOrderFromHas(n.children, 0, q);
    }
  }

  lemma {:induction false} PreOrderFromHas(cs: seq<Node>, i: nat, q: Path)
    requires q != [] && i <= q[0] < |cs| && ValidPath(cs[q[0]], q[1..])
    ensures q in PreOrderFrom(cs, i)
    decreases cs, |cs| - i
  {
    if q[0] == i {
      PreOrderHasEveryNode(cs[i], q[1..]);
      var k :| 0 <= k < |PreOrder(cs[i])| && PreOrder(cs[i])[k] == q[1..];
      assert Under(i, PreOrder(cs[i]))[k] == q;
    } else {
      PreOrderFromHas(cs, i + 1, q);
    }
  }

  /** Hence a click that misses every box finds nothing, and a found node's box holds the click. */
  lemma FindNodeClickedMeaning(mp: Vec, n: Node, box: Path -> Rect)
    ensures FindNodeClicked(mp, n, box).Some? ==> IsInsideBox(mp, box(FindNodeClicked(mp, n, box).value))
    ensures FindNodeClicked(mp, n, box).None? ==> forall q :: ValidPath(n, q) ==> !IsInsideBox(mp, box(q))
  {
    FindIsFirstInPreOrder(mp, n, box);
    forall q | ValidPath(n, q) ensures q in PreOrder(n) {
      PreOrderHasEveryNode(n, q);
    }
  }

  // ---------------------------------------------------------------------------------------------
  // Bins: a heap-style layout, one bin per level, slot 2 * position + i for child i

  function Pow2(k: nat): (r: nat)
    ensures r >= 1
  {
    if k == 0 then 1 else 2 * Pow2(k - 1)
  }

  /** Every step of the path is 0 or 1, as in a tree with at most two children per node. */
  predicate Digits(p: Path)
  {
    forall i :: 0 <= i < |p| ==> p[i] < 2
  }

  /** The slot a node at path `p` takes in bin `|p|`: the path read as a binary number. */
  function HeapIndex(p: Path): (r: nat)
    requires Digits(p)
    ensures r < Pow2(|p|)
  {
    if p == [] then 0 else 2 * HeapIndex(p[..|p| - 1]) + p[|p| - 1]
  }

  lemma HeapIndexSnoc(p: Path, i: nat)
    requires Digits(p) && i < 2
    ensures Digits(p + [i]) && HeapIndex(p + [i]) == 2 * HeapIndex(p) + i
  {
    assert (p + [i])[..|p|] == p;
  }

  /** Two nodes on the same level never share a slot. */
  lemma {:induction false} HeapIndexInjective(p: Path, q: Path)
    requires Digits(p) && Digits(q) && |p| == |q| && HeapIndex(p) == HeapIndex(q)
    ensures p == q
    decreases |p|
  {
    if p != [] {
      var n := |p| - 1;
      assert p[n] == HeapIndex(p) % 2 && q[n] == HeapIndex(q) % 2;
      HeapIndexInjective(p[..n], q[..n]);
      assert p == p[..n] + [p[n]] && q == q[..n] + [q[n]];
    }
  }

  /** The paths of a binary tree take only the steps 0 and 1. */
  lemma {:induction false} BinaryPathDigits(n: Node, q: Path)
    requires Binary(n) && ValidPath(n, q)
    ensures Digits(q)
    decreases |q|
  {
    if q != [] {
      BinaryPathDigits(n.children[q[0]], q[1..]);
      assert forall i :: 1 <= i < |q| ==> q[i] == q[1..][i - 1];
    }
  }

  /** Bin `d` holds 2^(d+1) slots, as `drawLayer` allocates them. */
  ghost predicate BinsShape(bins: seq<seq<Option<Path>>>)
  {
    forall d :: 0 <= d < |bins| ==> |bins[d]| == Pow2(d + 1)
  }

  /** What the slot of the node at path `p` holds (null when the bins have no such slot). */
  ghost function SlotIn(bins: seq<seq<Option<Path>>>, p: Path): Option<Path>
  {
    if Digits(p) && |p| < |bins| && HeapIndex(p) < |bins[|p|]| then bins[|p|][HeapIndex(p)] else None
  }

  /** `v` names a node of the subtree at `at`, which is `n`, and sits in its own slot `k` of bin `d`. */
  ghost predicate Placed(n: Node, at: Path, v: Option<Path>, d: int, k: int)
  {
    && v.Some? && |v.value| == d && |at| <= d && v.value[..|at|] == at
    && ValidPath(n, v.value[|at|..]) && Digits(v.value) && HeapIndex(v.value) == k
  }

  /** Every node of the subtree at `at` is in its slot. */
  ghost predicate Holds(bins: seq<seq<Option<Path>>>, n: Node, at: Path)
  {
    forall q :: ValidPath(n, q) ==> SlotIn(bins, at + q) == Some(at + q)
  }

  /** Every slot that differs between the two bin sets holds a node of the subtree at `at`, in its own slot. */
  ghost predicate ChangesWithin(before: seq<seq<Option<Path>>>, after: seq<seq<Option<Path>>>, n: Node, at: Path)
  {
    && |after| == |before|
    && forall d, k :: 0 <= d < |after| && 0 <= k < |after[d]| && k < |before[d]| && after[d][k] != before[d][k] ==>
         Placed(n, at, after[d][k], d, k)
  }

  /** A child of a node sits one level deeper, and is binary when the node is. */
  lemma ChildFits(n: Node, i: nat)
    requires Binary(n) && i < |n.children|
    ensures MaxDepth(n.children[i]) + 1 <= MaxDepth(n) && Binary(n.children[i]) && i < 2
  {
  }

  /** A node of the subtree under child `i` is a node of the subtree at `at`. */
  lemma PlacedInParent(n: Node, at: Path, i: nat, v: Option<Path>, d: int, k: int)
    requires i < |n.children| && Placed(n.children[i], at + [i], v, d, k)
    ensures Placed(n, at, v, d, k)
  {
    var w := v.value;
    assert w[..|at|] == (w[..|at| + 1])[..|at|];
    assert w[|at|..] == [i] + w[|at| + 1..];
  }

  /** Slots of nodes under child `j` are not overwritten while child `i != j` is gathered. */
  lemma SiblingSlotsKept(n: Node, at: Path, i: nat, j: nat, before: seq<seq<Option<Path>>>, after: seq<seq<Option<Path>>>)
    requires Binary(n) && Digits(at) && i < |n.children| && j < |n.children| && i != j
    requires BinsShape(before) && BinsShape(after)
    requires Holds(before, n.children[j], at + [j])
    requires ChangesWithin(before, after, n.children[i], at + [i])
    ensures Holds(after, n.children[j], at + [j])
  {
    forall q | ValidPath(n.children[j], q) ensures SlotIn(after, at + [j] + q) == Some(at + [j] + q) {
      var p := at + [j] + q;
      assert SlotIn(before, p) == Some(p);
      var d, k := |p|, HeapIndex(p);
      if after[d][k] != before[d][k] {
        var v := after[d][k].value;
        assert Placed(n.children[i], at + [i], after[d][k], d, k);
        HeapIndexInjective(v, p);
        assert false;
      }
    }
  }

  /** A node's own slot is not overwritten while one of its children is gathered. */
  lemma OwnSlotKept(n: Node, at: Path, i: nat, before: seq<seq<Option<Path>>>, after: seq<seq<Option<Path>>>)
    requires Digits(at) && i < |n.children|
    requires BinsShape(before) && BinsShape(after)
    requires SlotIn(before, at) == Some(at)
    requires ChangesWithin(before, after, n.children[i], at + [i])
    ensures SlotIn(after, at) == Some(at)
  {
  }

  /**
   * One turn of the gathering loop: once child `i` is gathered, the node keeps its slot, the
   * children up to `i` hold theirs, and every slot changed so far still belongs to the subtree.
   */
  lemma GatherStep(n: Node, at: Path, i: nat, start: seq<seq<Option<Path>>>,
                   before: seq<seq<Option<Path>>>, after: seq<seq<Option<Path>>>)
    requires Binary(n) && Digits(at) && i < |n.children|
    requires BinsShape(start) && BinsShape(before) && BinsShape(after)
    requires SlotIn(before, at) == Some(at)
    requires forall j :: 0 <= j < i ==> Holds(before, n.children[j], at + [j])
    requires ChangesWithin(start, before, n, at)
    requires Holds(after, n.children[i], at + [i]) && ChangesWithin(before, after, n.children[i], at + [i])
    ensures SlotIn(after, at) == Some(at)
    ensures forall j :: 0 <= j < i + 1 ==> Holds(after, n.children[j], at + [j])
    ensures ChangesWithin(start, after, n, at)
  {
    OwnSlotKept(n, at, i, before, after);
    forall j | 0 <= j < i ensures Holds(after, n.children[j], at + [j]) {
      SiblingSlotsKept(n, at, i, j, before, after);
    }
    forall d, k | 0 <= d < |after| && 0 <= k < |after[d]| && k < |before[d]| && after[d][k] != before[d][k]
      ensures Placed(n, at, after[d][k], d, k)
    {
      PlacedInParent(n, at, i, after[d][k], d, k);
    }
  }

  /** The nodes of a tree are the node and the nodes under its children. */
  lemma HoldsFromChildren(bins: seq<seq<Option<Path>>>, n: Node, at: Path)
    requires SlotIn(bins, at) == Some(at)
    requires forall j :: 0 <= j < |n.children| ==> Holds(bins, n.children[j], at + [j])
    ensures Holds(bins, n, at)
  {
    forall q | ValidPath(n, q) ensures SlotIn(bins, at + q) == Some(at + q) {
      if q == [] {
        assert at + q == at;
      } else {
        assert Holds(bins, n.children[q[0]], at + [q[0]]);
        assert at + q == at + [q[0]] + q[1..];
      }
    }
  }

  class Display {
    /** `nodeBins`: bin `d` holds the nodes at depth `d`, each in its heap slot. */
    var nodeBins: seq<seq<Option<Path>>>

    constructor ()
      ensures nodeBins == []
    {
      nodeBins := [];
    }

    /** The bins `drawLayer` allocates for a tree `depth` levels deep: `depth + 1` bins, bin `d` with 2^(d+1) null slots. */
    method InitBins(depth: int)
      modifies this`nodeBins
      ensures |nodeBins| == (if depth < 0 then 0 else depth + 1) && BinsShape(nodeBins)
      ensures forall d, k :: 0 <= d < |nodeBins| && 0 <= k < |nodeBins[d]| ==> nodeBins[d][k].None?
    {
      nodeBins := [];
      var amnt := 1;
      var i := 0;
      while i < depth + 1
        invariant 0 <= i && (depth >= 0 ==> i <= depth + 1) && (depth < 0 ==> i == 0)
        invariant |nodeBins| == i && amnt == Pow2(i) && BinsShape(nodeBins)
        invariant forall d, k :: 0 <= d < |nodeBins| && 0 <= k < |nodeBins[d]| ==> nodeBins[d][k].None?
      {
        amnt := amnt * 2;
        nodeBins := nodeBins + [seq(amnt, _ => None)];
        i := i + 1;
      }
    }

    /**
     * `gatherNodesForBins(node, position, depth)` on the node at `at` of a binary tree: every
     * node of its subtree lands in the slot of its path, and a slot that changes holds the node of
     * that subtree whose slot it is.
     */
    method GatherNodesForBins(n: Node, at: Path, position: int, depth: int)
      requires Binary(n) && Digits(at) && depth == |at| && position == HeapIndex(at)
      requires BinsShape(nodeBins) && |at| + MaxDepth(n) < |nodeBins|
      modifies this`nodeBins
      ensures BinsShape(nodeBins) && Holds(nodeBins, n, at) && ChangesWithin(old(nodeBins), nodeBins, n, at)
      decreases n
    {
      nodeBins := nodeBins[depth := nodeBins[depth][position := Some(at)]];
      var i := 0;
      while i < |n.children|
        invariant 0 <= i <= |n.children|
        invariant BinsShape(nodeBins) && SlotIn(nodeBins, at) == Some(at)
        invariant forall j :: 0 <= j < i ==> Holds(nodeBins, n.children[j], at + [j])
        invariant ChangesWithin(old(nodeBins), nodeBins, n, at)
      {
        ChildFits(n, i);
        HeapIndexSnoc(at, i);
        ghost var before := nodeBins;
        GatherNodesForBins(n.children[i], at + [i], position * 2 + i, depth + 1);
        GatherStep(n, at, i, old(nodeBins), before, nodeBins);
        i := i + 1;
      }
      HoldsFromChildren(nodeBins, n, at);
    }

    /**
     * The layout `drawLayer` rebuilds when the tree changed: one bin per level of the tree, then
     * the tree gathered from the root. Every node is in the slot of its path, and every non-null
     * slot holds the node whose slot it is.
     */
    method RebuildBins(root: Node)
      requires Binary(root)
      modifies this`nodeBins
      ensures BinsShape(nodeBins) && |nodeBins| == MaxDepth(root) + 1
      ensures forall q :: ValidPath(root, q) ==> SlotIn(nodeBins, q) == Some(q)
      ensures forall d, k :: 0 <= d < |nodeBins| && 0 <= k < |nodeBins[d]| && nodeBins[d][k].Some? ==>
        Placed(root, [], nodeBins[d][k], d, k)
    {
      InitBins(MaxDepth(root));
      GatherNodesForBins(root, [], 0, 0);
      assert forall q: Path :: [] + q == q;
    }
  }
}
