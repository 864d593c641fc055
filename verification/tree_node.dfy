/**
 * The Treequencer tree. A `Node` holds an output (a note or an output index), a chance of taking
 * its first child, an `enabled` flag (the node is lit on the display), its depth and its children.
 *
 * The C++ nodes are heap objects linked by parent pointers. Here a node is a value and a node is
 * named by its path from the root (the child indices taken on the way down); the parent of a node
 * is the path without its last index and its depth is the path's length.
 */
module TreeNode {
  type Path = seq<nat>

  datatype Node = Node(output: int, enabled: bool, chance: real, depth: int, children: seq<Node>)

  /** The values the `Node` constructor draws for a new node: `randomInteger(-1, 7)` and `randFloat(0.9f)`. */
  datatype Draw = Draw(output: int, chance: real)

  predicate ValidDraw(d: Draw) { -1 <= d.output <= 7 && 0.0 <= d.chance < 0.9 }

  /** Draws handed out by node position, every one within the generators' ranges. */
  ghost predicate AllDrawsValid(draw: Path -> Draw) { forall p :: ValidDraw(draw(p)) }

  /** The draws for the subtree under new child `k`, by path relative to that child. */
  function Below(draw: Path -> Draw, k: nat): Path -> Draw
  {
    (p: Path) => draw([k] + p)
  }

  lemma BelowValid(draw: Path -> Draw, k: nat)
    requires AllDrawsValid(draw)
    ensures AllDrawsValid(Below(draw, k))
  {
    forall p ensures ValidDraw(Below(draw, k)(p)) {
      assert Below(draw, k)(p) == draw([k] + p);
    }
  }

  /** `new Node(parent)`: the drawn output and chance, not enabled, one level below its parent, no children. */
  function NewNode(parentDepth: int, d: Draw): Node
  {
    Node(d.output, false, d.chance, parentDepth + 1, [])
  }

  // ---------------------------------------------------------------------------------------------
  // Paths

  predicate ValidPath(n: Node, p: Path)
    decreases |p|
  {
    p == [] || (p[0] < |n.children| && ValidPath(n.children[p[0]], p[1..]))
  }

  /** The node a path leads to. */
  function At(n: Node, p: Path): Node
    requires ValidPath(n, p)
    decreases |p|
  {
    if p == [] then n else At(n.children[p[0]], p[1..])
  }

  /** The tree with the subtree at `p` replaced by `s`: the effect of editing that node in place. */
  function Replace(n: Node, p: Path, s: Node): (r: Node)
    requires ValidPath(n, p)
    ensures ValidPath(r, p) && At(r, p) == s
    ensures p != [] ==> r.output == n.output && r.chance == n.chance && r.enabled == n.enabled
    ensures p != [] ==> r.depth == n.depth && |r.children| == |n.children|
    decreases |p|
  {
    if p == [] then s
    else
      var k := p[0];
      var c := Replace(n.children[k], p[1..], s);
      n.(children := n.children[k := c])
  }

  lemma {:induction false} PrefixValid(n: Node, p: Path, j: nat)
    requires ValidPath(n, p) && j <= |p|
    ensures ValidPath(n, p[..j])
    decreases |p|
  {
    if j > 0 {
      PrefixValid(n.children[p[0]], p[1..], j - 1);
      assert p[..j][1..] == p[1..][..j - 1];
    }
  }

  /** A path one step longer leads to a child of the node the shorter path leads to. */
  lemma {:induction false} AtSnoc(n: Node, p: Path, k: nat)
    requires ValidPath(n, p)
    ensures ValidPath(n, p + [k]) <==> k < |At(n, p).children|
    ensures ValidPath(n, p + [k]) ==> At(n, p + [k]) == At(n, p).children[k]
    decreases |p|
  {
    if p != [] {
      assert (p + [k])[1..] == p[1..] + [k];
      AtSnoc(n.children[p[0]], p[1..], k);
    }
  }

  /** A path is valid in a tree whose node at `q` was replaced, and leads to the same node, when it does not run through `q`. */
  lemma {:induction false} ReplaceElsewhere(n: Node, q: Path, s: Node, p: Path)
    requires ValidPath(n, q) && ValidPath(n, p)
    requires |p| <= |q| && p != q[..|p|]
    ensures ValidPath(Replace(n, q, s), p) && At(Replace(n, q, s), p) == At(n, p)
    decreases |p|
  {
    if p[0] == q[0] {
      assert p[1..] != q[1..][..|p| - 1] by {
        assert p == [p[0]] + p[1..];
        assert q[..|p|] == [q[0]] + q[1..][..|p| - 1];
      }
      ReplaceElsewhere(n.children[q[0]], q[1..], s, p[1..]);
    }
  }

  // ---------------------------------------------------------------------------------------------
  // Shape

  /** At most two children everywhere: what the editing operations keep. */
  predicate Binary(n: Node)
  {
    |n.children| <= 2 && forall i :: 0 <= i < |n.children| ==> Binary(n.children[i])
  }

  /** Every child is one level below its parent, as the constructors set it from the parent pointer. */
  predicate DepthsOk(n: Node)
  {
    forall i :: 0 <= i < |n.children| ==> n.children[i].depth == n.depth + 1 && DepthsOk(n.children[i])
  }

  /** A full binary tree of height `h`. */
  predicate Complete(n: Node, h: nat)
  {
    if h == 0 then n.children == []
    else |n.children| == 2 && Complete(n.children[0], h - 1) && Complete(n.children[1], h - 1)
  }

  /** A node and all of its descendants carry generator draws and are not lit. */
  predicate Fresh(n: Node)
  {
    && ValidDraw(Draw(n.output, n.chance))
    && !n.enabled
    && forall i :: 0 <= i < |n.children| ==> Fresh(n.children[i])
  }

  /** The node count. */
  function Size(n: Node): nat
    decreases n
  {
    1 + SizeOf(n.children)
  }

  function SizeOf(cs: seq<Node>): nat
    decreases cs
  {
    if cs == [] then 0 else Size(cs[0]) + SizeOf(cs[1..])
  }

  lemma {:induction false} SizeOfConcat(a: seq<Node>, b: seq<Node>)
    ensures SizeOf(a + b) == SizeOf(a) + SizeOf(b)
    decreases |a|
  {
    if a != [] {
      assert (a + b)[0] == a[0];
      assert (a + b)[1..] == a[1..] + b;
      SizeOfConcat(a[1..], b);
    } else {
      assert a + b == b;
    }
  }

  lemma SizeOfUpdate(cs: seq<Node>, k: nat, c: Node)
    requires k < |cs|
    ensures SizeOf(cs[k := c]) == SizeOf(cs) - Size(cs[k]) + Size(c)
  {
    assert cs == cs[..k] + [cs[k]] + cs[k + 1..];
    assert cs[k := c] == cs[..k] + [c] + cs[k + 1..];
    SizeOfConcat(cs[..k] + [cs[k]], cs[k + 1..]);
    SizeOfConcat(cs[..k], [cs[k]]);
    SizeOfConcat(cs[..k] + [c], cs[k + 1..]);
    SizeOfConcat(cs[..k], [c]);
  }

  /** Replacing a subtree changes the node count by the difference of the two subtrees. */
  lemma {:induction false} SizeReplace(n: Node, p: Path, s: Node)
    requires ValidPath(n, p)
    ensures Size(Replace(n, p, s)) == Size(n) - Size(At(n, p)) + Size(s)
    decreases |p|
  {
    if p != [] {
      SizeReplace(n.children[p[0]], p[1..], s);
      SizeOfUpdate(n.children, p[0], Replace(n.children[p[0]], p[1..], s));
    }
  }

  /**
   * `Node::maxDepth`: the number of levels below the node, the longest of its children's plus
   * one, or 0 for a leaf.
   */
  function MaxDepth(n: Node): nat
    decreases n
  {
    if n.children == [] then 0 else 1 + MaxDepthOf(n.children)
  }

  function MaxDepthOf(cs: seq<Node>): (r: nat)
    ensures forall i :: 0 <= i < |cs| ==> MaxDepth(cs[i]) <= r
    ensures cs == [] ==> r == 0
    decreases cs
  {
    if cs == [] then 0
    else
      var rest := MaxDepthOf(cs[1..]);
      assert forall i :: 1 <= i < |cs| ==> cs[i] == cs[1..][i - 1];
      var d := MaxDepth(cs[0]);
      if d >= rest then d else rest
  }

  /** No path is longer than the tree's depth, and some path to a leaf is exactly that long. */
  lemma {:induction false} PathWithinMaxDepth(n: Node, p: Path)
    requires ValidPath(n, p)
    ensures |p| <= MaxDepth(n)
    decreases |p|
  {
    if p != [] {
      PathWithinMaxDepth(n.children[p[0]], p[1..]);
    }
  }

  /** A child whose subtree is the deepest. */
  function DeepestChild(cs: seq<Node>): (k: nat)
    requires cs != []
    ensures k < |cs| && MaxDepth(cs[k]) == MaxDepthOf(cs)
    decreases cs
  {
    if |cs| == 1 then 0
    else
      var k := DeepestChild(cs[1..]);
      if MaxDepth(cs[0]) >= MaxDepthOf(cs[1..]) then 0 else k + 1
  }

  /** A path from the node to a leaf that is exactly `maxDepth` long: with `PathWithinMaxDepth`, `maxDepth` is the longest path. */
  function DeepestPath(n: Node): (p: Path)
    ensures ValidPath(n, p) && |p| == MaxDepth(n) && At(n, p).children == []
    decreases n
  {
    if n.children == [] then []
    else
      var k := DeepestChild(n.children);
      var q := DeepestPath(n.children[k]);
      assert ([k] + q)[1..] == q;
      [k] + q
  }

  /** The depth of a node reached by a path is the root's depth plus the path's length. */
  lemma {:induction false} DepthAlongPath(n: Node, p: Path)
    requires DepthsOk(n) && ValidPath(n, p)
    ensures At(n, p).depth == n.depth + |p|
    decreases |p|
  {
    if p != [] {
      DepthAlongPath(n.children[p[0]], p[1..]);
    }
  }

  lemma MaxDepthOfPair(a: Node, b: Node)
    ensures MaxDepthOf([a, b]) == if MaxDepth(a) >= MaxDepth(b) then MaxDepth(a) else MaxDepth(b)
  {
    assert [a, b][1..] == [b];
    assert [b][1..] == [];
  }

  /** A full binary tree of height `h` is binary and `maxDepth` reports `h`. */
  lemma {:induction false} CompleteMaxDepth(n: Node, h: nat)
    requires Complete(n, h)
    ensures MaxDepth(n) == h
    decreases h
  {
    if h > 0 {
      var c0, c1 := n.children[0], n.children[1];
      CompleteMaxDepth(c0, h - 1);
      CompleteMaxDepth(c1, h - 1);
      assert n.children == [c0, c1];
      MaxDepthOfPair(c0, c1);
    }
  }

  lemma {:induction false} CompleteBinary(n: Node, h: nat)
    requires Complete(n, h)
    ensures Binary(n)
    decreases h
  {
    if h > 0 {
      CompleteBinary(n.children[0], h - 1);
      CompleteBinary(n.children[1], h - 1);
    }
  }

  lemma {:induction false} BinaryAt(n: Node, p: Path)
    requires Binary(n) && ValidPath(n, p)
    ensures Binary(At(n, p))
    decreases |p|
  {
    if p != [] {
      BinaryAt(n.children[p[0]], p[1..]);
    }
  }

  /** Putting a binary subtree into a binary tree keeps it binary. */
  lemma {:induction false} BinaryReplace(n: Node, p: Path, s: Node)
    requires Binary(n) && ValidPath(n, p) && Binary(s)
    ensures Binary(Replace(n, p, s))
    decreases |p|
  {
    if p != [] {
      BinaryReplace(n.children[p[0]], p[1..], s);
    }
  }

  lemma {:induction false} DepthsOkAt(n: Node, p: Path)
    requires DepthsOk(n) && ValidPath(n, p)
    ensures DepthsOk(At(n, p))
    decreases |p|
  {
    if p != [] {
      DepthsOkAt(n.children[p[0]], p[1..]);
    }
  }

  /** Putting a consistent subtree of the same depth in place of another keeps all depths consistent. */
  lemma {:induction false} DepthsOkReplace(n: Node, p: Path, s: Node)
    requires DepthsOk(n) && ValidPath(n, p) && DepthsOk(s) && s.depth == At(n, p).depth
    ensures DepthsOk(Replace(n, p, s))
    decreases |p|
  {
    if p != [] {
      DepthsOkReplace(n.children[p[0]], p[1..], s);
    }
  }

  // ---------------------------------------------------------------------------------------------
  // Node operations (src/treequencer.cpp:189-250)

  /** `setChance`: the chance is clamped to [0.1, 0.9]; nothing else changes. */
  function SetChance(n: Node, ch: real): (r: Node)
    ensures 0.1 <= r.chance <= 0.9
    ensures 0.1 <= ch <= 0.9 ==> r.chance == ch
    ensures ch < 0.1 ==> r.chance == 0.1
    ensures ch > 0.9 ==> r.chance == 0.9
    ensures r == n.(chance := r.chance)
  {
    var lo := if ch > 0.1 then ch else 0.1;
    n.(chance := if lo < 0.9 then lo else 0.9)
  }

  /** `setOutput`. */
  function SetOutput(n: Node, out: int): (r: Node)
    ensures r.output == out && r == n.(output := out)
  {
    n.(output := out)
  }

  /**
   * `fillToDepth`: for `d > 0`, two new children, each filled to `d - 1`, are appended. `draw(p)`
   * gives the values drawn for the new node at relative path `p` (the first new child is `[0]`).
   */
  function FillToDepth(n: Node, d: int, draw: Path -> Draw): (r: Node)
    ensures d <= 0 ==> r == n
    ensures r.output == n.output && r.chance == n.chance && r.enabled == n.enabled && r.depth == n.depth
    decreases d
  {
    if d <= 0 then n
    else
      var c1 := FillToDepth(NewNode(n.depth, draw([0])), d - 1, Below(draw, 0));
      var c2 := FillToDepth(NewNode(n.depth, draw([1])), d - 1, Below(draw, 1));
      n.(children := n.children + [c1, c2])
  }

  /**
   * On an empty node, `fillToDepth(d)` builds a full binary tree of height max(d, 0) whose depths
   * follow the parent links and whose new nodes all carry generator draws; `maxDepth` afterwards is
   * that height.
   */
  lemma FillToDepthComplete(n: Node, d: int, draw: Path -> Draw)
    requires n.children == [] && AllDrawsValid(draw)
    ensures var r := FillToDepth(n, d, draw);
      && Complete(r, if d <= 0 then 0 else d)
      && DepthsOk(r) && Binary(r)
      && MaxDepth(r) == (if d <= 0 then 0 else d)
      && forall i :: 0 <= i < |r.children| ==> Fresh(r.children[i])
  {
    var r := FillToDepth(n, d, draw);
    var h := if d <= 0 then 0 else d;
    FillShape(n, d, draw);
    CompleteMaxDepth(r, h);
    CompleteBinary(r, h);
    if d > 0 {
      BelowValid(draw, 0);
      BelowValid(draw, 1);
      FreshFill(NewNode(n.depth, draw([0])), d - 1, Below(draw, 0));
      FreshFill(NewNode(n.depth, draw([1])), d - 1, Below(draw, 1));
    }
  }

  lemma {:induction false} FillShape(n: Node, d: int, draw: Path -> Draw)
    requires n.children == []
    ensures Complete(FillToDepth(n, d, draw), if d <= 0 then 0 else d)
    ensures DepthsOk(FillToDepth(n, d, draw))
    decreases d
  {
    if d > 0 {
      FillShape(NewNode(n.depth, draw([0])), d - 1, Below(draw, 0));
      FillShape(NewNode(n.depth, draw([1])), d - 1, Below(draw, 1));
    }
  }

  lemma {:induction false} FreshFill(n: Node, d: int, draw: Path -> Draw)
    requires n.children == [] && AllDrawsValid(draw) && Fresh(n)
    ensures Fresh(FillToDepth(n, d, draw))
    decreases d
  {
    if d > 0 {
      BelowValid(draw, 0);
      BelowValid(draw, 1);
      FreshFill(NewNode(n.depth, draw([0])), d - 1, Below(draw, 0));
      FreshFill(NewNode(n.depth, draw([1])), d - 1, Below(draw, 1));
    }
  }

  /**
   * `addChild`: a node with two or more children is left as it is and null is returned; otherwise
   * one new child, drawn by the constructor, is appended and returned.
   */
  function AddChild(n: Node, d: Draw): (r: (Node, bool))
    ensures |n.children| > 1 <==> !r.1
    ensures !r.1 ==> r.0 == n
    ensures r.1 ==> |r.0.children| == |n.children| + 1 && |r.0.children| <= 2
    ensures r.1 ==> r.0 == n.(children := n.children + [r.0.children[|n.children|]])
    ensures r.1 ==> r.0.children[|n.children|] == NewNode(n.depth, d)
  {
    if |n.children| > 1 then (n, false)
    else (n.(children := n.children + [NewNode(n.depth, d)]), true)
  }

  /** `addChild` never takes a node past two children, keeps depths consistent, and the new child carries the draw. */
  lemma AddChildKeepsShape(n: Node, d: Draw)
    ensures |n.children| <= 2 ==> |AddChild(n, d).0.children| <= 2
    ensures DepthsOk(n) ==> DepthsOk(AddChild(n, d).0)
    ensures Binary(n) ==> Binary(AddChild(n, d).0)
    ensures AddChild(n, d).1 && ValidDraw(d) ==> Fresh(AddChild(n, d).0.children[|n.children|])
  {
  }

  /** `addChild` on the node at `p` of a binary, depth-consistent tree keeps the whole tree so. */
  lemma AddChildInTree(root: Node, p: Path, d: Draw)
    requires Binary(root) && DepthsOk(root) && ValidPath(root, p)
    ensures var r := Replace(root, p, AddChild(At(root, p), d).0);
      Binary(r) && DepthsOk(r) && Size(r) == Size(root) + (if AddChild(At(root, p), d).1 then 1 else 0)
  {
    var s := AddChild(At(root, p), d).0;
    BinaryAt(root, p);
    DepthsOkAt(root, p);
    AddChildKeepsShape(At(root, p), d);
    BinaryReplace(root, p, s);
    DepthsOkReplace(root, p, s);
    SizeReplace(root, p, s);
    if AddChild(At(root, p), d).1 {
      var cs := At(root, p).children;
      SizeOfConcat(cs, [NewNode(At(root, p).depth, d)]);
      assert SizeOf([NewNode(At(root, p).depth, d)]) == 1;
    }
  }

  /** The parent's child list with child `k` erased (`std::find` locates this node in it). */
  function EraseChild(n: Node, k: nat): (r: Node)
    requires k < |n.children|
    ensures |r.children| == |n.children| - 1
    ensures forall i :: 0 <= i < k ==> r.children[i] == n.children[i]
    ensures forall i :: k <= i < |r.children| ==> r.children[i] == n.children[i + 1]
    ensures r == n.(children := r.children)
  {
    n.(children := n.children[..k] + n.children[k + 1..])
  }

  /** `remove`: a node without a parent (the root) stays; any other node is erased from its parent with its subtree. */
  function Remove(root: Node, p: Path): (r: Node)
    requires ValidPath(root, p)
  {
    if p == [] then root
    else
      var q, k := p[..|p| - 1], p[|p| - 1];
      PrefixValid(root, p, |p| - 1);
      assert p == q + [k];
      AtSnoc(root, q, k);
      Replace(root, q, EraseChild(At(root, q), k))
  }

  /** Erasing a child takes out exactly its subtree, and keeps the node binary and its depths consistent. */
  lemma EraseChildEffect(n: Node, k: nat)
    requires k < |n.children|
    ensures Size(EraseChild(n, k)) == Size(n) - Size(n.children[k])
    ensures Binary(n) ==> Binary(EraseChild(n, k))
    ensures DepthsOk(n) ==> DepthsOk(EraseChild(n, k))
  {
    var cs := n.children;
    assert cs == cs[..k] + [cs[k]] + cs[k + 1..];
    SizeOfConcat(cs[..k] + [cs[k]], cs[k + 1..]);
    SizeOfConcat(cs[..k], [cs[k]]);
    SizeOfConcat(cs[..k], cs[k + 1..]);
  }

  /**
   * `remove` of the root changes nothing; any other removal takes out exactly the removed node's
   * subtree from the node count, and keeps the tree binary and its depths consistent.
   */
  lemma RemoveEffect(root: Node, p: Path)
    requires ValidPath(root, p)
    ensures p == [] ==> Remove(root, p) == root
    ensures p != [] ==> Size(Remove(root, p)) == Size(root) - Size(At(root, p))
    ensures Binary(root) ==> Binary(Remove(root, p))
    ensures DepthsOk(root) ==> DepthsOk(Remove(root, p))
  {
    if p != [] {
      var q := p[..|p| - 1];
      var k := p[|p| - 1];
      PrefixValid(root, p, |p| - 1);
      assert p == q + [k];
      AtSnoc(root, q, k);
      var parent := At(root, q);
      var s := EraseChild(parent, k);
      assert Remove(root, p) == Replace(root, q, s);
      EraseChildEffect(parent, k);
      SizeReplace(root, q, s);
      if Binary(root) {
        BinaryAt(root, q);
        BinaryReplace(root, q, s);
      }
      if DepthsOk(root) {
        DepthsOkAt(root, q);
        DepthsOkReplace(root, q, s);
      }
    }
  }

  /** `s` is `t` with children appended: what `addChild` and generation do to a node. */
  predicate Grows(s: Node, t: Node)
  {
    |t.children| <= |s.children| && s.children[..|t.children|] == t.children
  }

  /** Appending children to a node keeps every path of the tree valid. */
  lemma {:induction false} GrowKeepsPath(n: Node, p: Path, s: Node, q: Path)
    requires ValidPath(n, p) && ValidPath(n, q) && Grows(s, At(n, p))
    ensures ValidPath(Replace(n, p, s), q)
    decreases |q|
  {
    var r := Replace(n, p, s);
    if q != [] {
      var k := q[0];
      if p == [] {
        assert s.children[k] == s.children[..|n.children|][k];
      } else if p[0] == k {
        GrowKeepsPath(n.children[k], p[1..], s, q[1..]);
      }
    }
  }

  /** The root keeps its depth when a node below it is removed. */
  lemma RemoveKeepsDepth(root: Node, p: Path)
    requires ValidPath(root, p)
    ensures Remove(root, p).depth == root.depth
  {
    if p != [] {
      PrefixValid(root, p, |p| - 1);
      var q := p[..|p| - 1];
      assert p == q + [p[|p| - 1]];
      AtSnoc(root, q, p[|p| - 1]);
    }
  }

  // ---------------------------------------------------------------------------------------------
  // Lighting a node (`enabled`), which changes nothing the sequencer walks on

  /** `At(root, p)->enabled = b`. */
  function SetEnabled(n: Node, p: Path, b: bool): (r: Node)
    requires ValidPath(n, p)
    ensures ValidPath(r, p) && At(r, p).enabled == b
  {
    Replace(n, p, At(n, p).(enabled := b))
  }

  /** The tree with every light off: all that outputs, chances, depths and shape amount to. */
  function Dim(n: Node): (r: Node)
    ensures |r.children| == |n.children| && r.output == n.output && r.chance == n.chance && r.depth == n.depth
    decreases n
  {
    Node(n.output, false, n.chance, n.depth, seq(|n.children|, i requires 0 <= i < |n.children| => Dim(n.children[i])))
  }

  /** Replacing a subtree by one that differs only in lights leaves the dimmed tree as it was. */
  lemma {:induction false} DimReplace(n: Node, p: Path, s: Node)
    requires ValidPath(n, p) && Dim(s) == Dim(At(n, p))
    ensures Dim(Replace(n, p, s)) == Dim(n)
    decreases |p|
  {
    if p != [] {
      var k := p[0];
      DimReplace(n.children[k], p[1..], s);
      var r := Replace(n, p, s);
      assert forall i :: 0 <= i < |n.children| ==> Dim(r).children[i] == Dim(n).children[i];
    }
  }

  /** Lighting or unlighting a node changes nothing but that node's light. */
  lemma SetEnabledDim(n: Node, p: Path, b: bool)
    requires ValidPath(n, p)
    ensures Dim(SetEnabled(n, p, b)) == Dim(n)
  {
    var a := At(n, p);
    assert Dim(a.(enabled := b)) == Dim(a);
    DimReplace(n, p, a.(enabled := b));
  }

  /** Two trees that agree once dimmed have the same paths, and the nodes there agree once dimmed. */
  lemma {:induction false} DimPath(n1: Node, n2: Node, q: Path)
    requires Dim(n1) == Dim(n2) && ValidPath(n1, q)
    ensures ValidPath(n2, q) && Dim(At(n1, q)) == Dim(At(n2, q))
    decreases |q|
  {
    if q != [] {
      var k := q[0];
      assert Dim(n1).children[k] == Dim(n2).children[k];
      DimPath(n1.children[k], n2.children[k], q[1..]);
    }
  }

  /** Depth consistency does not depend on lights. */
  lemma {:induction false} DimDepthsOk(n: Node)
    ensures DepthsOk(n) <==> DepthsOk(Dim(n))
    decreases n
  {
    forall i | 0 <= i < |n.children| ensures DepthsOk(n.children[i]) <==> DepthsOk(Dim(n.children[i])) {
      DimDepthsOk(n.children[i]);
    }
    assert forall i :: 0 <= i < |n.children| ==> Dim(n).children[i] == Dim(n.children[i]);
  }

  /** Setting one node's light leaves every other node's light as it was. */
  lemma {:induction false} SetEnabledElsewhere(n: Node, q: Path, b: bool, p: Path)
    requires ValidPath(n, q) && ValidPath(n, p) && p != q
    ensures ValidPath(SetEnabled(n, q, b), p) && At(SetEnabled(n, q, b), p).enabled == At(n, p).enabled
    decreases |p|
  {
    var r := SetEnabled(n, q, b);
    SetEnabledDim(n, q, b);
    DimPath(n, r, p);
    if p != [] && q != [] {
      if p[0] == q[0] {
        assert p[1..] != q[1..] by {
          assert p == [p[0]] + p[1..] && q == [q[0]] + q[1..];
        }
        SetEnabledElsewhere(n.children[p[0]], q[1..], b, p[1..]);
        assert r.children[p[0]] == SetEnabled(n.children[p[0]], q[1..], b);
      } else {
        assert r.children[p[0]] == n.children[p[0]];
      }
    }
  }

  /** Putting back the node a path leads to changes nothing. */
  lemma {:induction false} ReplaceSame(n: Node, p: Path)
    requires ValidPath(n, p)
    ensures Replace(n, p, At(n, p)) == n
    decreases |p|
  {
    if p != [] {
      ReplaceSame(n.children[p[0]], p[1..]);
      assert n.children[p[0] := n.children[p[0]]] == n.children;
    }
  }

  /** Lighting a lit node, or unlighting a dark one, changes nothing. */
  lemma SetEnabledSame(n: Node, p: Path, b: bool)
    requires ValidPath(n, p) && At(n, p).enabled == b
    ensures SetEnabled(n, p, b) == n
  {
    assert At(n, p).(enabled := b) == At(n, p);
    ReplaceSame(n, p);
  }

  /** Lights do not count: trees that agree once dimmed have the same number of nodes. */
  lemma {:induction false} DimSize(a: Node, b: Node)
    requires Dim(a) == Dim(b)
    ensures Size(a) == Size(b)
    decreases a
  {
    assert forall i :: 0 <= i < |a.children| ==> Dim(a.children[i]) == Dim(b.children[i]) by {
      assert forall i :: 0 <= i < |a.children| ==> Dim(a).children[i] == Dim(a.children[i]);
      assert forall i :: 0 <= i < |b.children| ==> Dim(b).children[i] == Dim(b.children[i]);
    }
    DimSizeOf(a.children, b.children);
  }

  lemma {:induction false} DimSizeOf(xs: seq<Node>, ys: seq<Node>)
    requires |xs| == |ys| && forall i :: 0 <= i < |xs| ==> Dim(xs[i]) == Dim(ys[i])
    ensures SizeOf(xs) == SizeOf(ys)
    decreases xs
  {
    if xs != [] {
      DimSize(xs[0], ys[0]);
      DimSizeOf(xs[1..], ys[1..]);
    }
  }
}
