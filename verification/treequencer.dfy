/**
 * The Treequencer module (src/treequencer.cpp:318-600): a tree of nodes walked one step per gate
 * (gate mode) or by a cursor over a root-to-leaf sequence drawn in advance (sequence mode).
 *
 * Inputs the C++ reads from the host become parameters: the Bounce switch `bounceOn`, the chance
 * modulation `chanceMod` (knob plus CV), and the random draws `randFloat()` in [0, 1). The
 * sequence-complete pulse is the `completed` result.
 */
module Treequencer {
  import opened TreeNode
  import opened Json
  import opened SequenceGenerator
  import TreeJson
  import TextInput

  /** `std::min(1.f, std::max(0.0f, x))`. */
  function Clamp01(x: real): (r: real)
    ensures 0.0 <= r <= 1.0
    ensures 0.0 <= x <= 1.0 ==> r == x
    ensures x < 0.0 ==> r == 0.0
    ensures x > 1.0 ==> r == 1.0
  {
    if x < 0.0 then 0.0 else if x > 1.0 then 1.0 else x
  }

  /**
   * The child a walk steps into: of two or more children, child 0 exactly when the draw `r` is
   * below the clamped chance `chance - chanceMod`, else child 1; of a single child, that child.
   */
  function ChooseChild(n: Node, chanceMod: real, r: real): (k: nat)
    requires n.children != []
    ensures k < |n.children| && k <= 1
    ensures |n.children| == 1 ==> k == 0
    ensures |n.children| > 1 ==> (k == 0 <==> r < Clamp01(n.chance - chanceMod))
  {
    if |n.children| > 1 && !(r < Clamp01(n.chance - chanceMod)) then 1 else 0
  }

  /** For draws uniform in [0, 1), child 0 is taken for exactly the draws below the clamped chance. */
  lemma ChooseChildInterval(n: Node, chanceMod: real, r: real)
    requires |n.children| > 1 && 0.0 <= r < 1.0
    ensures n.chance - chanceMod >= 1.0 ==> ChooseChild(n, chanceMod, r) == 0
    ensures n.chance - chanceMod <= 0.0 ==> ChooseChild(n, chanceMod, r) == 1
  {
  }

  /** The path to a node's parent; the root has none and stays put. */
  function Parent(p: Path): (q: Path)
    ensures p != [] ==> |q| == |p| - 1 && p == q + [p[|p| - 1]]
    ensures p == [] ==> q == []
  {
    if p == [] then [] else p[..|p| - 1]
  }

  lemma ParentValid(root: Node, p: Path)
    requires ValidPath(root, p)
    ensures ValidPath(root, Parent(p))
  {
    if p != [] {
      PrefixValid(root, p, |p| - 1);
    }
  }

  /**
   * `getWholeSequence(node)`: the node, followed by the sequence of the child the walk steps into,
   * down to a leaf. `rand(p)` is the draw made at the node at `p`.
   */
  function WholeSequence(root: Node, at: Path, chanceMod: real, rand: Path -> real): (s: seq<Path>)
    requires ValidPath(root, at)
    ensures s != [] && s[0] == at
    decreases MaxDepth(root) - |at|
  {
    var n := At(root, at);
    if n.children == [] then [at]
    else
      var k := ChooseChild(n, chanceMod, rand(at));
      AtSnoc(root, at, k);
      PathWithinMaxDepth(root, at + [k]);
      [at] + WholeSequence(root, at + [k], chanceMod, rand)
  }

  /**
   * The sequence starts at `at`, every next element is the child the walk chooses at the previous
   * one, it ends at a leaf, and it is at most `maxDepth - |at| + 1` long.
   */
  lemma {:induction false} WholeSequenceDescends(root: Node, at: Path, chanceMod: real, rand: Path -> real)
    requires ValidPath(root, at)
    ensures var s := WholeSequence(root, at, chanceMod, rand);
      && (forall i :: 0 <= i < |s| ==> ValidPath(root, s[i]) && |s[i]| == |at| + i)
      && (forall i :: 0 <= i < |s| - 1 ==>
            At(root, s[i]).children != [] &&
            s[i + 1] == s[i] + [ChooseChild(At(root, s[i]), chanceMod, rand(s[i]))])
      && At(root, s[|s| - 1]).children == []
      && |s| + |at| <= MaxDepth(root) + 1
    decreases MaxDepth(root) - |at|
  {
    var s := WholeSequence(root, at, chanceMod, rand);
    var n := At(root, at);
    PathWithinMaxDepth(root, at);
    if n.children != [] {
      var k := ChooseChild(n, chanceMod, rand(at));
      AtSnoc(root, at, k);
      PathWithinMaxDepth(root, at + [k]);
      WholeSequenceDescends(root, at + [k], chanceMod, rand);
      var t := WholeSequence(root, at + [k], chanceMod, rand);
      assert s == [at] + t;
      assert forall i :: 1 <= i < |s| ==> s[i] == t[i - 1];
    }
  }

  /** Every path of `ps` names a node of `root`. */
  predicate AllValid(root: Node, ps: seq<Path>)
  {
    forall i :: 0 <= i < |ps| ==> ValidPath(root, ps[i])
  }

  /** Lights do not change which paths exist, nor depth consistency. */
  lemma DimKeepsValid(r1: Node, r2: Node, p: Path, ps: seq<Path>)
    requires Dim(r1) == Dim(r2)
    ensures ValidPath(r1, p) ==> ValidPath(r2, p)
    ensures AllValid(r1, ps) ==> AllValid(r2, ps)
    ensures DepthsOk(r1) ==> DepthsOk(r2)
    ensures r1.depth == r2.depth
  {
    if ValidPath(r1, p) {
      DimPath(r1, r2, p);
    }
    if AllValid(r1, ps) {
      forall i | 0 <= i < |ps| ensures ValidPath(r2, ps[i]) {
        DimPath(r1, r2, ps[i]);
      }
    }
    DimDepthsOk(r1);
    DimDepthsOk(r2);
  }

  // ---------------------------------------------------------------------------------------------
  // The sequence-mode cursor (src/treequencer.cpp:483-511)

  /** The cursor of sequence mode: its position, whether it is bouncing, and whether the sequence-complete pulse fired. */
  datatype Cursor = Cursor(pos: int, bouncing: bool, completed: bool)

  /**
   * One pass of the cursor code of `processSequence` over a sequence of `n` nodes: a step forward,
   * or back when bouncing; at or below 0 it stops bouncing (a pulse if it was bouncing); at or past
   * the end it turns round onto the previous position with Bounce on, or goes back to 0 with a
   * pulse otherwise. A cursor inside the sequence stays inside.
   */
  function Advance(pos: int, n: nat, bouncing: bool, bounceOn: bool): (c: Cursor)
    ensures 0 <= pos < n ==> 0 <= c.pos < n
  {
    var p := pos + (if bouncing then -1 else 1);
    if p <= 0 then Cursor(0, false, bouncing)
    else if p >= n then
      var b := bounceOn || bouncing;
      Cursor(if bounceOn then p - 1 else 0, b, !b)
    else Cursor(p, bouncing, false)
  }

  /** `processSequence()` on a non-empty sequence: a pass, and a second pass at once when the first one started bouncing. */
  function SequenceStep(pos: int, n: nat, bouncing: bool, bounceOn: bool): Cursor
  {
    var c1 := Advance(pos, n, bouncing, bounceOn);
    if !bouncing && c1.bouncing then
      var c2 := Advance(c1.pos, n, true, bounceOn);
      c2.(completed := c1.completed || c2.completed)
    else c1
  }

  /**
   * The cursor walks the sequence forward one node per clock. At the last node it goes back to the
   * first with a pulse (Bounce off), or turns round and walks back without repeating the last node
   * (Bounce on), pulsing when it is back at the first node. It never leaves the sequence, and
   * while it bounces it is never on the first node.
   */
  lemma SequenceStepCases(pos: int, n: nat, bouncing: bool, bounceOn: bool)
    requires 0 <= pos < n
    ensures var c := SequenceStep(pos, n, bouncing, bounceOn);
      && 0 <= c.pos < n
      && (c.bouncing ==> c.pos >= 1)
      && (!bouncing && pos + 1 < n ==> c == Cursor(pos + 1, false, false))
      && (!bouncing && pos + 1 == n && !bounceOn ==> c == Cursor(0, false, true))
      && (!bouncing && pos + 1 == n && bounceOn ==>
            c == Cursor(if n >= 2 then n - 2 else 0, n >= 3, n <= 2))
      && (bouncing && pos >= 2 ==> c == Cursor(pos - 1, true, false))
      && (bouncing && pos <= 1 ==> c == Cursor(0, false, true))
  {
  }

  /** `size_t` arithmetic: values modulo 2^64. */
  const SIZE_T_RANGE := 0x1_0000_0000_0000_0000

  /** `Advance` as written, with the unsigned `sequencePos += -1`, which wraps at 0. */
  function AdvanceAsWritten(pos: nat, n: nat, bouncing: bool, bounceOn: bool): Cursor
    requires pos < SIZE_T_RANGE
  {
    var p := (pos + (if bouncing then SIZE_T_RANGE - 1 else 1)) % SIZE_T_RANGE;
    if p <= 0 then Cursor(0, false, bouncing)
    else if p >= n then
      var b := bounceOn || bouncing;
      Cursor(if bounceOn then p - 1 else 0, b, !b)
    else Cursor(p, bouncing, false)
  }

  /** `processSequence()` as written. */
  function SequenceStepAsWritten(pos: nat, n: nat, bouncing: bool, bounceOn: bool): Cursor
    requires pos < SIZE_T_RANGE
  {
    var c1 := AdvanceAsWritten(pos, n, bouncing, bounceOn);
    if !bouncing && c1.bouncing then
      var c2 := AdvanceAsWritten(c1.pos, n, true, bounceOn);
      c2.(completed := c1.completed || c2.completed)
    else c1
  }

  /**
   * The unsigned cursor behaves like the signed one except when it steps back from 0: after a
   * reset left it bouncing at 0, or on a sequence of one node with Bounce on.
   */
  lemma AsWrittenAgrees(pos: nat, n: nat, bouncing: bool, bounceOn: bool)
    requires pos < n < SIZE_T_RANGE
    requires bouncing ==> pos >= 1
    requires n == 1 ==> !bounceOn
    ensures SequenceStepAsWritten(pos, n, bouncing, bounceOn) == SequenceStep(pos, n, bouncing, bounceOn)
  {
  }

  /**
   * In those two cases the unsigned cursor lands on 2^64 - 2, far past the end of the sequence,
   * and `activeSequence[sequencePos]` reads out of bounds.
   */
  lemma AsWrittenOverruns(n: nat)
    requires 1 <= n < SIZE_T_RANGE - 2
    ensures SequenceStepAsWritten(0, 1, false, true).pos == SIZE_T_RANGE - 2
    ensures SequenceStepAsWritten(0, n, true, true).pos == SIZE_T_RANGE - 2 >= n
  {
  }

  /** `Node::remove` as the Remove command runs it, on the tree and the drawn sequence: the sequence is kept. */
  function RemoveAsWritten(root: Node, sequence: seq<Path>, p: Path): (r: (Node, seq<Path>))
    requires ValidPath(root, p)
    ensures r.1 == sequence
  {
    (Remove(root, p), sequence)
  }

  /**
   * `dataFromJson` as written, on the tree and the drawn sequence: the root's children are
   * cleared without being deleted, and the sequence, which points into the old tree, is kept.
   */
  function LoadAsWritten(root: Node, sequence: seq<Path>, rn: Json): (r: (Node, seq<Path>))
    ensures r.1 == sequence
  {
    (TreeJson.FromJson(root.(children := []), rn), sequence)
  }

  /**
   * Both keep a sequence that names nodes no longer in the tree: drawn over a root with one
   * child, the sequence [root, child] outlives the removal of the child and the load of a saved
   * leaf, after which its second path names nothing. In the C++ that pointer dangles after the
   * removal, which deletes the child; after the load it points at the old child, which is never
   * freed and no longer in the tree, and the sequence goes on lighting and playing it.
   */
  lemma KeptSequenceDangles()
    ensures var root := Node(0, true, 0.5, 0, [Node(3, false, 0.5, 1, [])]);
      && AllValid(root, [[], [0]])
      && !AllValid(RemoveAsWritten(root, [[], [0]], [0]).0, RemoveAsWritten(root, [[], [0]], [0]).1)
      && !AllValid(LoadAsWritten(root, [[], [0]], JObject([])).0, LoadAsWritten(root, [[], [0]], JObject([])).1)
  {
    var root := Node(0, true, 0.5, 0, [Node(3, false, 0.5, 1, [])]);
    assert ValidPath(root, [0]);
    var removed := RemoveAsWritten(root, [[], [0]], [0]).0;
    assert removed.children == [];
    assert !ValidPath(removed, [[], [0]][1]);
    assert Get(JObject([]), "children").None?;
    var loaded := LoadAsWritten(root, [[], [0]], JObject([])).0;
    assert !ValidPath(loaded, [[], [0]][1]);
  }

  /**
   * What one sample of `process` reads: the rising edges the Schmitt triggers report on Reset,
   * Gate, Clock and the three switch-toggle inputs, and the chance modulation.
   */
  datatype Events = Events(reset: bool, gate: bool, clock: bool,
                           holdSwap: bool, typeSwap: bool, bounceSwap: bool, chanceMod: real)

  /**
   * What one sample of `process` writes: whether the step pulse and the sequence-complete pulse
   * were started, the gate output the active node drives (its output when in 0..7, else -1), and
   * the V/Oct output, the active node's output over 12.
   */
  datatype Outputs = Outputs(stepped: bool, completed: bool, channel: int, voct: real)

  // ---------------------------------------------------------------------------------------------
  // The walk (src/treequencer.cpp:429-511, 542-557): its state, and what each part of a sample
  // does to it. The class below runs these steps in place and is proved to agree with them.

  /** The walk's state: the tree with its lights, the active node, bouncing, the cursor and the drawn sequence. */
  datatype Walk = Walk(root: Node, node: Path, bouncing: bool, pos: int, sequence: seq<Path>)

  /** The walk names nodes of the tree, whose depths are consistent from 0 at the root. */
  predicate WalkValid(w: Walk)
  {
    && w.root.depth == 0 && DepthsOk(w.root)
    && ValidPath(w.root, w.node)
    && AllValid(w.root, w.sequence)
    && (w.sequence != [] ==> 0 <= w.pos < |w.sequence|)
  }

  /** The node at `p` lit (`b`) or unlit: only lights change, so the walk still names nodes of the tree. */
  function SetLight(w: Walk, p: Path, b: bool): (v: Walk)
    requires WalkValid(w) && ValidPath(w.root, p)
    ensures WalkValid(v) && Dim(v.root) == Dim(w.root) && v == w.(root := SetEnabled(w.root, p, b))
  {
    SetEnabledDim(w.root, p, b);
    DimKeepsValid(w.root, SetEnabled(w.root, p, b), w.node, w.sequence);
    w.(root := SetEnabled(w.root, p, b))
  }

  lemma MovedLights(t: Node, from: Path, to: Path)
    requires ValidPath(t, from) && ValidPath(t, to)
    ensures ValidPath(SetEnabled(t, from, false), to)
    ensures var r := SetEnabled(SetEnabled(t, from, false), to, true);
      && Dim(r) == Dim(t)
      && (forall q :: ValidPath(t, q) ==> ValidPath(r, q))
      && At(r, to).enabled
      && (from != to ==> !At(r, from).enabled)
      && (forall q :: ValidPath(t, q) && q != from && q != to ==> At(r, q).enabled == At(t, q).enabled)
  {
    var d := SetEnabled(t, from, false);
    SetEnabledDim(t, from, false);
    DimPath(t, d, to);
    var r := SetEnabled(d, to, true);
    SetEnabledDim(d, to, true);
    forall q | ValidPath(t, q) ensures ValidPath(r, q) {
      DimPath(t, d, q);
      DimPath(d, r, q);
    }
    if from != to {
      SetEnabledElsewhere(d, to, true, from);
    }
    forall q | ValidPath(t, q) && q != from && q != to ensures At(r, q).enabled == At(t, q).enabled {
      SetEnabledElsewhere(t, from, false, q);
      SetEnabledElsewhere(d, to, true, q);
    }
  }

  /**
   * The light moves from `from` to `to`: `from` goes dark, then `to` lights up, so `to` is lit
   * even when it is `from`. Every other node keeps its light, and nothing but lights changes.
   */
  function Moved(t: Node, from: Path, to: Path): (r: Node)
    requires ValidPath(t, from) && ValidPath(t, to)
    ensures Dim(r) == Dim(t)
    ensures forall q :: ValidPath(t, q) ==> ValidPath(r, q)
    ensures At(r, to).enabled
    ensures from != to ==> !At(r, from).enabled
    ensures forall q :: ValidPath(t, q) && q != from && q != to ==> At(r, q).enabled == At(t, q).enabled
  {
    MovedLights(t, from, to);
    SetEnabled(SetEnabled(t, from, false), to, true)
  }

  /**
   * Preview's lights: the node at `p` lights up, then the active node `from` goes dark, so `p`
   * ends dark when it is `from`. Every other node keeps its light, and nothing but lights changes.
   */
  function PreviewLights(t: Node, p: Path, from: Path): (r: Node)
    requires ValidPath(t, p) && ValidPath(t, from)
    ensures Dim(r) == Dim(t)
    ensures forall q :: ValidPath(t, q) ==> ValidPath(r, q)
    ensures !At(r, from).enabled
    ensures p != from ==> At(r, p).enabled
    ensures forall q :: ValidPath(t, q) && q != p && q != from ==> At(r, q).enabled == At(t, q).enabled
  {
    var l := SetEnabled(t, p, true);
    SetEnabledDim(t, p, true);
    DimPath(t, l, from);
    var r := SetEnabled(l, from, false);
    SetEnabledDim(l, from, false);
    assert forall q :: ValidPath(t, q) ==> ValidPath(r, q) by {
      forall q | ValidPath(t, q) ensures ValidPath(r, q) {
        DimPath(t, l, q);
        DimPath(l, r, q);
      }
    }
    assert p != from ==> At(r, p).enabled by {
      if p != from {
        SetEnabledElsewhere(l, from, false, p);
      }
    }
    assert forall q :: ValidPath(t, q) && q != p && q != from ==> At(r, q).enabled == At(t, q).enabled by {
      forall q | ValidPath(t, q) && q != p && q != from ensures At(r, q).enabled == At(t, q).enabled {
        SetEnabledElsewhere(t, p, true, q);
        SetEnabledElsewhere(l, from, false, q);
      }
    }
    r
  }

  /**
   * The not-bouncing branch of `processGateStep`: from a node with children, into the chosen
   * child; at a leaf, the sequence-complete pulse, and either bouncing from the parent (Bounce on;
   * a leaf root stays put) or back to the root. Only the active node and bouncing change.
   */
  function ForwardStep(w: Walk, bounceOn: bool, chanceMod: real, r: real): (s: (Walk, bool))
    requires WalkValid(w) && !w.bouncing
    ensures WalkValid(s.0) && s.0.root == w.root && s.0.pos == w.pos && s.0.sequence == w.sequence
    ensures At(w.root, w.node).children != [] ==>
      && s.0.node == w.node + [ChooseChild(At(w.root, w.node), chanceMod, r)]
      && !s.0.bouncing && !s.1
    ensures At(w.root, w.node).children == [] ==>
      && s.1 && s.0.bouncing == bounceOn
      && s.0.node == (if bounceOn then Parent(w.node) else [])
  {
    var n := At(w.root, w.node);
    if n.children == [] then
      ParentValid(w.root, w.node);
      (w.(node := if bounceOn then Parent(w.node) else [], bouncing := bounceOn), true)
    else
      var k := ChooseChild(n, chanceMod, r);
      AtSnoc(w.root, w.node, k);
      (w.(node := w.node + [k]), false)
  }

  /**
   * `processGateStep` on a walk. Not bouncing: a forward step. Bouncing: climb to the parent; at
   * the root stop bouncing and, if it has children, step into one at once. Only the active node
   * and bouncing change.
   */
  function GateStep(w: Walk, bounceOn: bool, chanceMod: real, r: real): (s: (Walk, bool))
    requires WalkValid(w)
    ensures WalkValid(s.0) && s.0.root == w.root && s.0.pos == w.pos && s.0.sequence == w.sequence
    ensures !w.bouncing && At(w.root, w.node).children != [] ==>
      && s.0.node == w.node + [ChooseChild(At(w.root, w.node), chanceMod, r)]
      && !s.0.bouncing && !s.1
    ensures !w.bouncing && At(w.root, w.node).children == [] ==>
      && s.1 && s.0.bouncing == bounceOn
      && s.0.node == (if bounceOn then Parent(w.node) else [])
    ensures w.bouncing && w.node != [] ==> s.0.node == Parent(w.node) && s.0.bouncing && !s.1
    ensures w.bouncing && w.node == [] ==>
      && !s.0.bouncing && !s.1
      && s.0.node == (if w.root.children == [] then [] else [ChooseChild(w.root, chanceMod, r)])
  {
    if !w.bouncing then ForwardStep(w, bounceOn, chanceMod, r)
    else if w.node != [] then
      ParentValid(w.root, w.node);
      (w.(node := Parent(w.node)), false)
    else if w.root.children == [] then (w.(bouncing := false), false)
    else ForwardStep(w.(bouncing := false), bounceOn, chanceMod, r)
  }

  /** Lights do not steer a gate step: on trees equal up to lights it reaches the same node, bouncing and pulse. */
  lemma GateStepDim(w: Walk, t: Node, bounceOn: bool, chanceMod: real, r: real)
    requires WalkValid(w) && WalkValid(w.(root := t)) && Dim(t) == Dim(w.root)
    ensures var a := GateStep(w, bounceOn, chanceMod, r);
      var b := GateStep(w.(root := t), bounceOn, chanceMod, r);
      a.0.node == b.0.node && a.0.bouncing == b.0.bouncing && a.1 == b.1
  {
    DimPath(w.root, t, w.node);
  }

  /** Lights do not steer the draw of a sequence: trees equal up to lights draw the same one. */
  lemma {:induction false} WholeSequenceDim(r1: Node, r2: Node, at: Path, chanceMod: real, rand: Path -> real)
    requires Dim(r1) == Dim(r2) && ValidPath(r1, at)
    ensures ValidPath(r2, at) && WholeSequence(r1, at, chanceMod, rand) == WholeSequence(r2, at, chanceMod, rand)
    decreases MaxDepth(r1) - |at|
  {
    DimPath(r1, r2, at);
    var n := At(r1, at);
    if n.children != [] {
      var k := ChooseChild(n, chanceMod, rand(at));
      AtSnoc(r1, at, k);
      AtSnoc(r2, at, k);
      PathWithinMaxDepth(r1, at + [k]);
      WholeSequenceDim(r1, r2, at + [k], chanceMod, rand);
    }
  }

  /**
   * `processSequence(true)` on a walk: a fresh sequence drawn from the root, from the root down to
   * a leaf; the root is active and the cursor at 0. The tree and bouncing do not change.
   */
  function NewSequenceWalk(w: Walk, chanceMod: real, rand: Path -> real): (v: Walk)
    requires WalkValid(w)
    ensures WalkValid(v) && v.root == w.root && v.bouncing == w.bouncing
    ensures v.node == [] && v.pos == 0 && v.sequence == WholeSequence(w.root, [], chanceMod, rand)
    ensures v.sequence[0] == [] && At(v.root, v.sequence[|v.sequence| - 1]).children == []
  {
    WholeSequenceDescends(w.root, [], chanceMod, rand);
    Walk(w.root, [], w.bouncing, 0, WholeSequence(w.root, [], chanceMod, rand))
  }

  /** One pass of the cursor code: the cursor moves as `Advance` says and the light moves to the node under it. */
  function AdvanceWalk(w: Walk, bounceOn: bool): (s: (Walk, bool))
    requires WalkValid(w) && w.sequence != []
    ensures WalkValid(s.0) && s.0.sequence == w.sequence && Dim(s.0.root) == Dim(w.root)
    ensures Cursor(s.0.pos, s.0.bouncing, s.1) == Advance(w.pos, |w.sequence|, w.bouncing, bounceOn)
    ensures s.0.node == w.sequence[s.0.pos] && s.0.root == Moved(w.root, w.node, s.0.node)
  {
    var c := Advance(w.pos, |w.sequence|, w.bouncing, bounceOn);
    var to := w.sequence[c.pos];
    var t := Moved(w.root, w.node, to);
    DimKeepsValid(w.root, t, to, w.sequence);
    (Walk(t, to, c.bouncing, c.pos, w.sequence), c.completed)
  }

  /**
   * `processSequence()` on a walk. An empty sequence is drawn first, which makes the root the node
   * the light leaves; then a pass, and a second pass when the first one started bouncing. The
   * cursor moves as `SequenceStep` says and the node under it is the active, lit node.
   */
  function SequenceClock(w: Walk, bounceOn: bool, chanceMod: real, rand: Path -> real): (s: (Walk, bool))
    requires WalkValid(w)
    ensures WalkValid(s.0) && Dim(s.0.root) == Dim(w.root)
    ensures s.0.sequence == (if w.sequence == [] then WholeSequence(w.root, [], chanceMod, rand) else w.sequence)
    ensures Cursor(s.0.pos, s.0.bouncing, s.1) ==
      SequenceStep(if w.sequence == [] then 0 else w.pos, |s.0.sequence|, w.bouncing, bounceOn)
    ensures s.0.node == s.0.sequence[s.0.pos] && At(s.0.root, s.0.node).enabled
    ensures !bounceOn && !w.bouncing ==> !s.0.bouncing
  {
    var w1 := if w.sequence == [] then NewSequenceWalk(w, chanceMod, rand) else w;
    var a := AdvanceWalk(w1, bounceOn);
    if !w.bouncing && a.0.bouncing then
      var b := AdvanceWalk(a.0, bounceOn);
      (b.0, a.1 || b.1)
    else a
  }

  /** Two moves of the light in a row: the first node goes dark unless the light came back to it, and only the three nodes involved can change. */
  lemma MovedTwice(t: Node, from: Path, mid: Path, to: Path)
    requires ValidPath(t, from) && ValidPath(t, mid) && ValidPath(t, to)
    ensures var r := Moved(Moved(t, from, mid), mid, to);
      && (from != to ==> !At(r, from).enabled)
      && (forall q :: ValidPath(t, q) && q != from && q != mid && q != to ==> At(r, q).enabled == At(t, q).enabled)
  {
    var t1 := Moved(t, from, mid);
    var r := Moved(t1, mid, to);
    if from != to && from != mid {
      assert !At(t1, from).enabled;
    }
  }

  /**
   * A clock's lights: the node the walk was on (the root, when no sequence had been drawn) goes
   * dark unless the cursor came back to it; besides the new node, only the sequence's last node,
   * passed over when the walk turns round there, can change light.
   */
  lemma SequenceClockLights(w: Walk, bounceOn: bool, chanceMod: real, rand: Path -> real)
    requires WalkValid(w)
    ensures var s := SequenceClock(w, bounceOn, chanceMod, rand);
      var from := if w.sequence == [] then [] else w.node;
      && (from != s.0.node ==> ValidPath(s.0.root, from) && !At(s.0.root, from).enabled)
      && (forall q :: ValidPath(w.root, q) && q != from && q != s.0.sequence[|s.0.sequence| - 1] && q != s.0.node ==>
            ValidPath(s.0.root, q) && At(s.0.root, q).enabled == At(w.root, q).enabled)
  {
    var w1 := if w.sequence == [] then NewSequenceWalk(w, chanceMod, rand) else w;
    var a := AdvanceWalk(w1, bounceOn);
    var last := w1.sequence[|w1.sequence| - 1];
    if !w.bouncing && a.0.bouncing {
      // the first pass turned round at the end, so it stopped on the last node
      assert a.0.node == last;
      var b := AdvanceWalk(a.0, bounceOn);
      MovedTwice(w.root, w1.node, last, b.0.node);
    }
  }

  /**
   * Whether a sample takes a gate step: a gate edge that Hold lets through, unless a reset came
   * with it; in Step mode also a clock edge that Hold lets through, reset or not.
   */
  function GateFires(ev: Events, held: bool, sequenceMode: bool): bool
  {
    !held && ((ev.gate && !ev.reset) || (!sequenceMode && ev.clock))
  }

  /**
   * The walk after the first half of `process`: with Bounce off it stops bouncing; a reset moves
   * the light to the root, which becomes active, and the cursor to 0; Step mode drops the drawn
   * sequence. Without a reset, the tree, the active node and the cursor are as they were.
   */
  function SwitchWalk(w: Walk, ev: Events, sequenceMode: bool, bounceOn: bool): (v: Walk)
    requires WalkValid(w)
    ensures WalkValid(v) && Dim(v.root) == Dim(w.root)
    ensures v.bouncing == (w.bouncing && bounceOn)
    ensures v.sequence == (if sequenceMode then w.sequence else [])
    ensures ev.reset ==> v.root == Moved(w.root, w.node, []) && v.node == [] && v.pos == 0
    ensures !ev.reset ==> v.root == w.root && v.node == w.node && v.pos == w.pos
  {
    var t := if ev.reset then Moved(w.root, w.node, []) else w.root;
    DimKeepsValid(w.root, t, w.node, w.sequence);
    Walk(t, if ev.reset then [] else w.node, w.bouncing && bounceOn,
         if ev.reset then 0 else w.pos, if sequenceMode then w.sequence else [])
  }

  /**
   * A gate on a walk: the active node goes dark, the walk takes a gate step (Step mode) or draws a
   * new sequence (Sequence mode), and the node it reached lights up. Lights do not steer the step,
   * so it is the step `GateStep` takes on the walk as it was.
   */
  function GateWalk(w: Walk, sequenceMode: bool, bounceOn: bool, chanceMod: real, r: real, rand: Path -> real): (s: (Walk, bool))
    requires WalkValid(w)
    ensures WalkValid(s.0) && Dim(s.0.root) == Dim(w.root) && At(s.0.root, s.0.node).enabled
    ensures !bounceOn && !w.bouncing ==> !s.0.bouncing
    ensures !sequenceMode ==>
      var g := GateStep(w, bounceOn, chanceMod, r);
      && s.0.node == g.0.node && s.0.bouncing == g.0.bouncing && s.1 == g.1
      && s.0.pos == w.pos && s.0.sequence == w.sequence
      && s.0.root == Moved(w.root, w.node, s.0.node)
    ensures sequenceMode ==>
      && s.0 == Walk(Moved(w.root, w.node, []), [], w.bouncing, 0, WholeSequence(w.root, [], chanceMod, rand))
      && !s.1
  {
    var dark := SetLight(w, w.node, false);
    if sequenceMode then
      WholeSequenceDim(w.root, dark.root, [], chanceMod, rand);
      (SetLight(NewSequenceWalk(dark, chanceMod, rand), [], true), false)
    else
      GateStepDim(w, dark.root, bounceOn, chanceMod, r);
      var (g, c) := GateStep(dark, bounceOn, chanceMod, r);
      (SetLight(g, g.node, true), c)
  }

  /**
   * The second half of `process` on a walk: a gate (see `GateWalk`), then a sequence-mode clock,
   * which moves the cursor (see `SequenceClock`) and lights the node under it. Returns the walk,
   * whether the step pulse starts, and whether the sequence-complete pulse fired.
   */
  function TriggerWalk(w: Walk, gate: bool, seqClock: bool, sequenceMode: bool, bounceOn: bool,
                       chanceMod: real, r: real, rand: Path -> real): (s: (Walk, bool, bool))
    requires WalkValid(w) && (seqClock ==> sequenceMode)
    ensures WalkValid(s.0) && Dim(s.0.root) == Dim(w.root)
    ensures s.1 == (gate || seqClock) && (!s.1 ==> s.0 == w && !s.2)
    ensures s.1 ==> At(s.0.root, s.0.node).enabled
    ensures !bounceOn && !w.bouncing ==> !s.0.bouncing
    ensures !sequenceMode ==> s.0.sequence == w.sequence
  {
    if !gate && !seqClock then (w, false, false)
    else if !seqClock then
      var g := GateWalk(w, sequenceMode, bounceOn, chanceMod, r, rand);
      (g.0, true, g.1)
    else if !gate then
      var v := SequenceClock(w, bounceOn, chanceMod, rand);
      SetEnabledSame(v.0.root, v.0.node, true);
      (SetLight(v.0, v.0.node, true), true, v.1)
    else
      var g := GateWalk(w, sequenceMode, bounceOn, chanceMod, r, rand);
      var v := SequenceClock(g.0, bounceOn, chanceMod, rand);
      (SetLight(v.0, v.0.node, true), true, g.1 || v.1)
  }

  /**
   * A gate alone: in Step mode the walk takes the step `GateStep` takes and the light moves with
   * it; in Sequence mode a new sequence is drawn from the root, which becomes the active, lit node.
   */
  lemma TriggerGate(w: Walk, sequenceMode: bool, bounceOn: bool, chanceMod: real, r: real, rand: Path -> real)
    requires WalkValid(w)
    ensures var s := TriggerWalk(w, true, false, sequenceMode, bounceOn, chanceMod, r, rand);
      && (!sequenceMode ==>
            var g := GateStep(w, bounceOn, chanceMod, r);
            && s.0.node == g.0.node && s.0.bouncing == g.0.bouncing && s.2 == g.1
            && s.0.pos == w.pos && s.0.sequence == w.sequence
            && s.0.root == Moved(w.root, w.node, s.0.node))
      && (sequenceMode ==>
            && s.0 == Walk(Moved(w.root, w.node, []), [], w.bouncing, 0, WholeSequence(w.root, [], chanceMod, rand))
            && !s.2)
  {
  }

  /**
   * A sequence-mode clock: alone, it does what `SequenceClock` does; with a gate, the gate draws a
   * new sequence and the clock at once moves the cursor one step into it.
   */
  lemma TriggerClock(w: Walk, gate: bool, bounceOn: bool, chanceMod: real, r: real, rand: Path -> real)
    requires WalkValid(w)
    ensures var s := TriggerWalk(w, gate, true, true, bounceOn, chanceMod, r, rand);
      && (!gate ==> (s.0, s.2) == SequenceClock(w, bounceOn, chanceMod, rand))
      && (gate ==>
            && s.0.sequence == WholeSequence(w.root, [], chanceMod, rand)
            && Cursor(s.0.pos, s.0.bouncing, s.2) == SequenceStep(0, |s.0.sequence|, w.bouncing, bounceOn)
            && s.0.node == s.0.sequence[s.0.pos])
  {
    var s := TriggerWalk(w, gate, true, true, bounceOn, chanceMod, r, rand);
    if !gate {
      var v := SequenceClock(w, bounceOn, chanceMod, rand);
      SetEnabledSame(v.0.root, v.0.node, true);
      assert s.0 == SetLight(v.0, v.0.node, true) == v.0;
    } else {
      var g := GateWalk(w, true, bounceOn, chanceMod, r, rand);
      assert g.0.sequence == WholeSequence(w.root, [], chanceMod, rand) != [] && g.0.pos == 0;
      var v := SequenceClock(g.0, bounceOn, chanceMod, rand);
      assert s.0 == SetLight(v.0, v.0.node, true);
    }
  }

  class Treequencer {
    var root: Node
    /** The node the module plays. */
    var activeNode: Path
    var bouncing: bool
    /** The cursor into `activeSequence`; a signed integer here (see `SequenceStepAsWritten` for the C++ `size_t`). */
    var sequencePos: int
    var activeSequence: seq<Path>
    /** The Hold, Trigger Type (false: Step, true: Sequence) and Bounce switches. */
    var hold: bool
    var sequenceMode: bool
    var bounce: bool

    /** The walk's state, as a value. */
    function Snapshot(): Walk
      reads this`root, this`activeNode, this`bouncing, this`sequencePos, this`activeSequence
    {
      Walk(root, activeNode, bouncing, sequencePos, activeSequence)
    }

    /** The walk's state names nodes of the tree: what every operation keeps. Bouncing plays no part. */
    predicate Valid()
      reads this`root, this`activeNode, this`sequencePos, this`activeSequence
    {
      WalkValid(Walk(root, activeNode, false, sequencePos, activeSequence))
    }

    /**
     * The constructor: a root (drawn like any node) filled to depth 1, lit and active; no
     * sequence yet.
     */
    constructor (rootDraw: Draw, draw: Path -> Draw)
      requires AllDrawsValid(draw)
      ensures Valid()
      ensures Complete(root, 1) && root.enabled && MaxDepth(root) == 1
      ensures activeNode == [] && !bouncing && sequencePos == 0 && activeSequence == []
      ensures !hold && !sequenceMode && !bounce
    {
      var r := Node(rootDraw.output, false, rootDraw.chance, 0, []);
      FillToDepthComplete(r, 1, draw);
      root := FillToDepth(r, 1, draw).(enabled := true);
      activeNode := [];
      bouncing := false;
      sequencePos := 0;
      activeSequence := [];
      hold, sequenceMode, bounce := false, false, false;
    }

    /** Sets the light of the node at `p`. */
    method Light(p: Path, b: bool)
      requires Valid() && ValidPath(root, p)
      modifies this
      ensures Valid() && root == SetEnabled(old(root), p, b) && Dim(root) == Dim(old(root))
      ensures activeNode == old(activeNode) && bouncing == old(bouncing)
      ensures sequencePos == old(sequencePos) && activeSequence == old(activeSequence)
      ensures hold == old(hold) && sequenceMode == old(sequenceMode) && bounce == old(bounce)
    {
      var before := root;
      root := SetEnabled(root, p, b);
      SetEnabledDim(before, p, b);
      DimKeepsValid(before, root, activeNode, activeSequence);
    }

    /** `resetActiveNode`: the active node's light goes off, and the root becomes active and lit. */
    method ResetActiveNode()
      requires Valid()
      modifies this
      ensures Valid() && activeNode == [] && root.enabled && Dim(root) == Dim(old(root))
      ensures root == Moved(old(root), old(activeNode), [])
      ensures ValidPath(root, old(activeNode))
      ensures old(activeNode) != [] ==> !At(root, old(activeNode)).enabled
      ensures bouncing == old(bouncing) && sequencePos == old(sequencePos)
      ensures activeSequence == old(activeSequence)
      ensures hold == old(hold) && sequenceMode == old(sequenceMode) && bounce == old(bounce)
    {
      ghost var p, before := activeNode, root;
      Light(activeNode, false);
      ghost var dark := root;
      activeNode := [];
      Light([], true);
      DimKeepsValid(before, root, p, []);
      if p != [] {
        assert At(root, p) == At(dark, p);
      }
    }

    /**
     * `processGateStep`. Not bouncing: see `StepForward`. Bouncing: climb to the parent; at the
     * root stop bouncing and, if it has children, take a forward step at once.
     */
    method ProcessGateStep(bounceOn: bool, chanceMod: real, r: real) returns (completed: bool)
      requires Valid()
      modifies this
      ensures (Snapshot(), completed) == GateStep(old(Snapshot()), bounceOn, chanceMod, r)
      ensures Valid() && root == old(root)
      ensures sequencePos == old(sequencePos) && activeSequence == old(activeSequence)
      ensures hold == old(hold) && sequenceMode == old(sequenceMode) && bounce == old(bounce)
      ensures !old(bouncing) && At(root, old(activeNode)).children != [] ==>
        && activeNode == old(activeNode) + [ChooseChild(At(root, old(activeNode)), chanceMod, r)]
        && !bouncing && !completed
      ensures !old(bouncing) && At(root, old(activeNode)).children == [] ==>
        && completed && bouncing == bounceOn
        && activeNode == (if bounceOn then Parent(old(activeNode)) else [])
      ensures old(bouncing) && old(activeNode) != [] ==>
        activeNode == Parent(old(activeNode)) && bouncing && !completed
      ensures old(bouncing) && old(activeNode) == [] ==>
        && !bouncing && !completed
        && activeNode == (if root.children == [] then [] else [ChooseChild(root, chanceMod, r)])
    {
      if !bouncing {
        completed := StepForward(bounceOn, chanceMod, r);
      } else {
        completed := StepBack(bounceOn, chanceMod, r);
      }
    }

    /**
     * The bouncing branch of `processGateStep`: climb to the parent; at the root stop bouncing and,
     * if the root has children, run `processGateStep` again, which now steps forward.
     */
    method StepBack(bounceOn: bool, chanceMod: real, r: real) returns (completed: bool)
      requires Valid() && bouncing
      modifies this
      ensures (Snapshot(), completed) == GateStep(old(Snapshot()), bounceOn, chanceMod, r)
      ensures Valid() && root == old(root)
      ensures sequencePos == old(sequencePos) && activeSequence == old(activeSequence)
      ensures hold == old(hold) && sequenceMode == old(sequenceMode) && bounce == old(bounce)
      ensures old(activeNode) != [] ==> activeNode == Parent(old(activeNode)) && bouncing && !completed
      ensures old(activeNode) == [] ==>
        && !bouncing && !completed
        && activeNode == (if root.children == [] then [] else [ChooseChild(root, chanceMod, r)])
    {
      completed := false;
      if activeNode != [] {
        ParentValid(root, activeNode);
        activeNode := Parent(activeNode);
      } else {
        bouncing := false;
        if root.children != [] {
          completed := StepForward(bounceOn, chanceMod, r);
        }
      }
    }

    /**
     * The not-bouncing branch of `processGateStep`: from a node with children, step into the
     * chosen child; at a leaf, signal completion and either start bouncing from the parent (Bounce
     * on) or return to the root.
     */
    method StepForward(bounceOn: bool, chanceMod: real, r: real) returns (completed: bool)
      requires Valid() && !bouncing
      modifies this
      ensures (Snapshot(), completed) == ForwardStep(old(Snapshot()), bounceOn, chanceMod, r)
      ensures Valid() && root == old(root)
      ensures sequencePos == old(sequencePos) && activeSequence == old(activeSequence)
      ensures hold == old(hold) && sequenceMode == old(sequenceMode) && bounce == old(bounce)
      ensures At(root, old(activeNode)).children != [] ==>
        && activeNode == old(activeNode) + [ChooseChild(At(root, old(activeNode)), chanceMod, r)]
        && !bouncing && !completed
      ensures At(root, old(activeNode)).children == [] ==>
        && completed && bouncing == bounceOn
        && activeNode == (if bounceOn then Parent(old(activeNode)) else [])
    {
      var n := At(root, activeNode);
      if n.children == [] {
        if bounceOn {
          bouncing := true;
          ParentValid(root, activeNode);
          activeNode := Parent(activeNode);
        } else {
          activeNode := [];
        }
        completed := true;
      } else {
        var k := ChooseChild(n, chanceMod, r);
        AtSnoc(root, activeNode, k);
        activeNode := activeNode + [k];
        completed := false;
      }
    }

    /** `processSequence(true)`: a fresh sequence drawn from the root, the root active, the cursor at 0. */
    method NewSequence(chanceMod: real, rand: Path -> real)
      requires Valid()
      modifies this
      ensures Snapshot() == NewSequenceWalk(old(Snapshot()), chanceMod, rand)
      ensures Valid() && root == old(root) && bouncing == old(bouncing)
      ensures activeSequence == WholeSequence(root, [], chanceMod, rand)
      ensures activeNode == [] && sequencePos == 0
      ensures hold == old(hold) && sequenceMode == old(sequenceMode) && bounce == old(bounce)
    {
      WholeSequenceDescends(root, [], chanceMod, rand);
      activeSequence := WholeSequence(root, [], chanceMod, rand);
      activeNode := [];
      sequencePos := 0;
    }

    /** One pass of the cursor code (see `Advance`): the light moves from the active node to the node under the cursor. */
    method AdvancePass(bounceOn: bool) returns (completed: bool)
      requires Valid() && activeSequence != []
      modifies this
      ensures (Snapshot(), completed) == AdvanceWalk(old(Snapshot()), bounceOn)
      ensures root == Moved(old(root), old(activeNode), activeNode)
      ensures Valid() && Dim(root) == Dim(old(root)) && activeSequence == old(activeSequence)
      ensures Cursor(sequencePos, bouncing, completed) ==
        Advance(old(sequencePos), |activeSequence|, old(bouncing), bounceOn)
      ensures activeNode == activeSequence[sequencePos] && At(root, activeNode).enabled
      ensures hold == old(hold) && sequenceMode == old(sequenceMode) && bounce == old(bounce)
    {
      Light(activeNode, false);
      var c := Advance(sequencePos, |activeSequence|, bouncing, bounceOn);
      sequencePos, bouncing, completed := c.pos, c.bouncing, c.completed;
      activeNode := activeSequence[sequencePos];
      Light(activeNode, true);
    }

    /**
     * `processSequence`, with a signed cursor. A new sequence only draws the sequence. Otherwise an
     * empty sequence is drawn first; then the cursor moves as `SequenceStep` says and the node
     * under it becomes the active, lit node.
     */
    method ProcessSequence(newSequence: bool, bounceOn: bool, chanceMod: real, rand: Path -> real)
      returns (completed: bool)
      requires Valid()
      modifies this
      ensures newSequence ==> Snapshot() == NewSequenceWalk(old(Snapshot()), chanceMod, rand) && !completed
      ensures !newSequence ==> (Snapshot(), completed) == SequenceClock(old(Snapshot()), bounceOn, chanceMod, rand)
      ensures Valid() && Dim(root) == Dim(old(root))
      ensures hold == old(hold) && sequenceMode == old(sequenceMode) && bounce == old(bounce)
      ensures newSequence ==>
        && root == old(root) && bouncing == old(bouncing) && !completed
        && activeSequence == WholeSequence(root, [], chanceMod, rand)
        && activeNode == [] && sequencePos == 0
      ensures !newSequence ==>
        && activeSequence ==
          (if old(activeSequence) == [] then WholeSequence(old(root), [], chanceMod, rand) else old(activeSequence))
        && Cursor(sequencePos, bouncing, completed) ==
          SequenceStep(if old(activeSequence) == [] then 0 else old(sequencePos), |activeSequence|, old(bouncing), bounceOn)
        && activeNode == activeSequence[sequencePos] && At(root, activeNode).enabled
    {
      completed := false;
      if newSequence {
        NewSequence(chanceMod, rand);
      } else {
        completed := ClockSequence(bounceOn, chanceMod, rand);
      }
    }

    /** `processSequence()`: an empty sequence is drawn first; then a pass, and a second one when the first started bouncing. */
    method ClockSequence(bounceOn: bool, chanceMod: real, rand: Path -> real) returns (completed: bool)
      requires Valid()
      modifies this
      ensures (Snapshot(), completed) == SequenceClock(old(Snapshot()), bounceOn, chanceMod, rand)
      ensures Valid() && hold == old(hold) && sequenceMode == old(sequenceMode) && bounce == old(bounce)
    {
      if activeSequence == [] {
        NewSequence(chanceMod, rand);
      }
      var lastBounce := bouncing;
      completed := AdvancePass(bounceOn);
      if !lastBounce && bouncing {
        var again := AdvancePass(bounceOn);
        completed := completed || again;
      }
    }

    /**
     * `process`, one sample. Hold blocks the gate and clock edges (it is read before the Hold
     * toggle input flips it). With Bounce off nothing bounces. Reset sends the walk back to the
     * root and cancels this sample's gate. Step mode drops any drawn sequence and treats the clock
     * like a gate. A gate takes a step (Step mode) or draws a new sequence (Sequence mode); a clock
     * in Sequence mode moves the cursor. `r` is the draw a step makes and `rand` the draws a new
     * sequence makes.
     */
    method Process(ev: Events, r: real, rand: Path -> real) returns (out: Outputs)
      requires Valid()
      modifies this
      ensures var s := TriggerWalk(SwitchWalk(old(Snapshot()), ev, sequenceMode, bounce),
                                   GateFires(ev, old(hold), sequenceMode), !old(hold) && ev.clock && sequenceMode,
                                   sequenceMode, bounce, ev.chanceMod, r, rand);
        Snapshot() == s.0 && out.stepped == s.1 && out.completed == s.2
      ensures Valid() && Dim(root) == Dim(old(root))
      ensures hold == (old(hold) != ev.holdSwap)
      ensures sequenceMode == (old(sequenceMode) != ev.typeSwap)
      ensures bounce == (old(bounce) != ev.bounceSwap)
      ensures !bounce ==> !bouncing
      ensures !sequenceMode ==> activeSequence == []
      ensures old(hold) ==> !out.stepped && !out.completed
      ensures out.stepped ==> At(root, activeNode).enabled
      ensures out.voct == At(root, activeNode).output as real / 12.0
      ensures out.channel == (if 0 <= At(root, activeNode).output < 8 then At(root, activeNode).output else -1)
    {
      var gate, seqClock := ReadSwitches(ev);
      var stepped, completed := Trigger(gate, seqClock, ev.chanceMod, r, rand);
      var o := At(root, activeNode).output;
      out := Outputs(stepped, completed, if 0 <= o < 8 then o else -1, o as real / 12.0);
    }

    /**
     * The first half of `process`: the edges Hold lets through, the switch toggles, the end of
     * bouncing when Bounce is off, reset, and Step mode's handling of the clock. Returns whether a
     * gate step and whether a sequence-mode clock step are due.
     */
    method ReadSwitches(ev: Events) returns (gate: bool, seqClock: bool)
      requires Valid()
      modifies this
      ensures Snapshot() == SwitchWalk(old(Snapshot()), ev, sequenceMode, bounce)
      ensures gate == GateFires(ev, old(hold), sequenceMode)
      ensures seqClock == (!old(hold) && ev.clock && sequenceMode)
      ensures Valid() && Dim(root) == Dim(old(root))
      ensures hold == (old(hold) != ev.holdSwap)
      ensures sequenceMode == (old(sequenceMode) != ev.typeSwap)
      ensures bounce == (old(bounce) != ev.bounceSwap)
      ensures !bounce ==> !bouncing
      ensures !sequenceMode ==> activeSequence == [] && !seqClock
      ensures old(hold) ==> !gate && !seqClock
      ensures ev.reset ==> activeNode == [] && sequencePos == 0 && (sequenceMode ==> !gate)
    {
      ghost var w := Snapshot();
      gate := !hold && ev.gate;
      var clock := !hold && ev.clock;
      FlipSwitches(ev);
      ghost var flipped := Snapshot();
      assert flipped == w.(bouncing := w.bouncing && bounce);
      ResetAndDrop(ev);
      assert SwitchWalk(flipped, ev, sequenceMode, bounce) == SwitchWalk(w, ev, sequenceMode, bounce);
      if ev.reset {
        gate := false;
      }
      if !sequenceMode {
        gate := gate || clock;
      }
      seqClock := clock && sequenceMode;
    }

    /** A reset sends the walk back to the root and the cursor to 0; Step mode drops the drawn sequence. */
    method ResetAndDrop(ev: Events)
      requires Valid() && (!bounce ==> !bouncing)
      modifies this
      ensures Snapshot() == SwitchWalk(old(Snapshot()), ev, sequenceMode, bounce)
      ensures Valid() && hold == old(hold) && sequenceMode == old(sequenceMode) && bounce == old(bounce)
    {
      if ev.reset {
        ResetStep();
      }
      if !sequenceMode {
        DropSequence();
      }
    }

    /** A reset: the root becomes the active node and a sequence starts over. */
    method ResetStep()
      requires Valid()
      modifies this
      ensures Valid() && activeNode == [] && sequencePos == 0 && Dim(root) == Dim(old(root))
      ensures root == Moved(old(root), old(activeNode), [])
      ensures bouncing == old(bouncing) && activeSequence == old(activeSequence)
      ensures hold == old(hold) && sequenceMode == old(sequenceMode) && bounce == old(bounce)
    {
      ResetActiveNode();
      sequencePos := 0;
    }

    /** The toggle inputs flip their switches; with Bounce off, bouncing stops. */
    method FlipSwitches(ev: Events)
      modifies this`hold, this`sequenceMode, this`bounce, this`bouncing
      ensures hold == (old(hold) != ev.holdSwap)
      ensures sequenceMode == (old(sequenceMode) != ev.typeSwap)
      ensures bounce == (old(bounce) != ev.bounceSwap)
      ensures bouncing == (old(bouncing) && bounce)
    {
      if ev.holdSwap { hold := !hold; }
      if ev.typeSwap { sequenceMode := !sequenceMode; }
      if ev.bounceSwap { bounce := !bounce; }
      if !bounce { bouncing := false; }
    }

    /** Step mode keeps no drawn sequence. */
    method DropSequence()
      requires Valid()
      modifies this`activeSequence
      ensures Valid() && activeSequence == []
    {
      activeSequence := [];
    }

    /**
     * The second half of `process`: a gate unlights the active node, takes a step (Step mode) or
     * draws a new sequence (Sequence mode), and lights the active node; a sequence-mode clock
     * moves the cursor and lights the node under it. Either starts the step pulse.
     */
    method Trigger(gate: bool, seqClock: bool, chanceMod: real, r: real, rand: Path -> real)
      returns (stepped: bool, completed: bool)
      requires Valid() && (seqClock ==> sequenceMode)
      modifies this
      ensures (Snapshot(), stepped, completed) ==
        TriggerWalk(old(Snapshot()), gate, seqClock, old(sequenceMode), old(bounce), chanceMod, r, rand)
      ensures Valid() && Dim(root) == Dim(old(root))
      ensures hold == old(hold) && sequenceMode == old(sequenceMode) && bounce == old(bounce)
      ensures !bounce && !old(bouncing) ==> !bouncing
      ensures !sequenceMode ==> activeSequence == old(activeSequence)
      ensures stepped == (gate || seqClock) && (!stepped ==> !completed)
      ensures stepped ==> At(root, activeNode).enabled
    {
      stepped, completed := false, false;
      if gate {
        completed := GateTrigger(chanceMod, r, rand);
        stepped := true;
      }
      if seqClock {
        var c := ClockTrigger(chanceMod, rand);
        completed := completed || c;
        stepped := true;
      }
    }

    /** A gate: the active node goes dark, the walk steps or draws a new sequence, and the node it reached lights up. */
    method GateTrigger(chanceMod: real, r: real, rand: Path -> real) returns (completed: bool)
      requires Valid()
      modifies this
      ensures (Snapshot(), completed) == GateWalk(old(Snapshot()), sequenceMode, bounce, chanceMod, r, rand)
      ensures Valid() && hold == old(hold) && sequenceMode == old(sequenceMode) && bounce == old(bounce)
    {
      Light(activeNode, false);
      if sequenceMode {
        completed := ProcessSequence(true, bounce, chanceMod, rand);
      } else {
        completed := ProcessGateStep(bounce, chanceMod, r);
      }
      Light(activeNode, true);
    }

    /** A sequence-mode clock: the cursor moves, and the node under it is lit once more. */
    method ClockTrigger(chanceMod: real, rand: Path -> real) returns (completed: bool)
      requires Valid()
      modifies this
      ensures var v := SequenceClock(old(Snapshot()), bounce, chanceMod, rand);
        Snapshot() == SetLight(v.0, v.0.node, true) && completed == v.1
      ensures Valid() && hold == old(hold) && sequenceMode == old(sequenceMode) && bounce == old(bounce)
    {
      completed := ProcessSequence(false, bounce, chanceMod, rand);
      Light(activeNode, true);
    }

    // -------------------------------------------------------------------------------------------
    // The node menu's commands, as they run on the audio thread (src/treequencer.cpp:672-722)

    /** The node at `p` is replaced by `s`, which has the same depth and keeps the old children (perhaps with more after them). */
    method Edit(p: Path, s: Node)
      requires Valid() && ValidPath(root, p)
      requires Grows(s, At(root, p)) && DepthsOk(s) && s.depth == At(root, p).depth
      modifies this`root
      ensures Valid() && root == Replace(old(root), p, s)
    {
      var before := root;
      DepthsOkAt(root, p);
      DepthsOkReplace(root, p, s);
      GrowKeepsPath(before, p, s, activeNode);
      forall i | 0 <= i < |activeSequence| ensures ValidPath(Replace(before, p, s), activeSequence[i]) {
        GrowKeepsPath(before, p, s, activeSequence[i]);
      }
      root := Replace(root, p, s);
    }

    /**
     * The output field: text shorter than 4 characters that `isInteger` accepts sets the node's
     * output to the typed number minus 1 (the menu shows outputs counted from 1); other text
     * changes nothing.
     */
    method EditOutput(p: Path, text: string) returns (accepted: bool)
      requires Valid() && ValidPath(root, p)
      modifies this`root
      ensures Valid()
      ensures accepted == (|text| < 4 && TextInput.IsInteger(text))
      ensures accepted ==> TextInput.IntegerSyntax(TextInput.CStr(text))
      ensures accepted ==>
        root == Replace(old(root), p, SetOutput(At(old(root), p), TextInput.IntegerText(TextInput.CStr(text)) - 1))
      ensures !accepted ==> root == old(root)
    {
      accepted := |text| < 4 && TextInput.IsInteger(text);
      if accepted {
        TextInput.IsIntegerMeansSyntax(text);
        var n := At(root, p);
        DepthsOkAt(root, p);
        Edit(p, SetOutput(n, TextInput.IntegerText(TextInput.CStr(text)) - 1));
      }
    }

    /**
     * The chance field: text shorter than 4 characters that `isNumber` accepts sets the node's
     * chance, clamped, to `parsed`, the value `atof` reads from the text; other text changes nothing.
     */
    method EditChance(p: Path, text: string, parsed: real) returns (accepted: bool)
      requires Valid() && ValidPath(root, p)
      modifies this`root
      ensures Valid()
      ensures accepted == (|text| < 4 && TextInput.NumberSyntax(text))
      ensures accepted ==> root == Replace(old(root), p, SetChance(At(old(root), p), parsed))
      ensures !accepted ==> root == old(root)
    {
      accepted := false;
      if |text| < 4 {
        accepted := TextInput.IsNumber(text);
      }
      if accepted {
        var n := At(root, p);
        DepthsOkAt(root, p);
        Edit(p, SetChance(n, parsed));
      }
    }

    /**
     * Preview: the node at `p` is lit, the active node unlit, and `p` becomes active; Hold goes
     * on, so the walk stays there. (When `p` is already the active node it ends unlit.)
     */
    method Preview(p: Path)
      requires Valid() && ValidPath(root, p)
      modifies this
      ensures Valid() && Dim(root) == Dim(old(root)) && activeNode == p && hold
      ensures root == PreviewLights(old(root), p, old(activeNode))
      ensures p != old(activeNode) ==> At(root, p).enabled
      ensures bouncing == old(bouncing) && sequencePos == old(sequencePos) && activeSequence == old(activeSequence)
      ensures sequenceMode == old(sequenceMode) && bounce == old(bounce)
    {
      ghost var a := activeNode;
      Light(p, true);
      ghost var lit := root;
      Light(activeNode, false);
      if p != a {
        SetEnabledElsewhere(lit, a, false, p);
      }
      activeNode := p;
      hold := true;
    }

    /**
     * Add Child, offered for a node with fewer than two children above depth 21: `addChild` on the
     * node at `p`, which gains one child at the end, one level down; `d` is the new child's draw.
     */
    method AddChildAt(p: Path, d: Draw)
      requires Valid() && ValidPath(root, p)
      requires |At(root, p).children| < 2 && At(root, p).depth < 21
      modifies this`root
      ensures Valid() && root == Replace(old(root), p, AddChild(At(old(root), p), d).0)
      ensures At(root, p).children[..|At(old(root), p).children|] == At(old(root), p).children
      ensures |At(root, p).children| == |At(old(root), p).children| + 1
      ensures At(root, p).children[|At(old(root), p).children|].depth == At(old(root), p).depth + 1 <= 21
    {
      var n := At(root, p);
      AddChildKeepsShape(n, d);
      DepthsOkAt(root, p);
      Edit(p, AddChild(n, d).0);
    }

    /**
     * Generate Sequence: `generateSequencesToDepth(scale, 8)` on the node at `p`; `next` stands
     * for the scale's note choices and `draw` for the new nodes' draws.
     */
    method GenerateAt(p: Path, next: (Path, seq<int>) -> int, draw: Path -> Draw)
      requires Valid() && ValidPath(root, p)
      modifies this`root
      ensures Valid() && root == Replace(old(root), p, Generate(At(old(root), p), 8, [], next, draw))
    {
      var n := At(root, p);
      DepthsOkAt(root, p);
      GenerateKeepsShape(n, 8, [], next, draw);
      Edit(p, Generate(n, 8, [], next, draw));
    }

    /**
     * Remove: the walk goes back to the root (`resetActiveNode`), the node at `p` and its subtree
     * leave the tree, and the drawn sequence, which may name removed nodes, is dropped. Removing
     * the root changes nothing but the lights.
     */
    method RemoveNode(p: Path)
      requires Valid() && ValidPath(root, p)
      modifies this
      ensures Valid() && activeNode == [] && activeSequence == []
      ensures root == Remove(Moved(old(root), old(activeNode), []), p)
      ensures p == [] ==> Dim(root) == Dim(old(root))
      ensures p != [] ==> Size(root) == Size(old(root)) - Size(At(old(root), p))
      ensures bouncing == old(bouncing) && sequencePos == old(sequencePos)
      ensures hold == old(hold) && sequenceMode == old(sequenceMode) && bounce == old(bounce)
    {
      ghost var before := root;
      ResetActiveNode();
      DimKeepsValid(before, root, p, []);
      DimSize(before, root);
      DimPath(before, root, p);
      DimSize(At(before, p), At(root, p));
      RemoveEffect(root, p);
      RemoveKeepsDepth(root, p);
      root := Remove(root, p);
      activeSequence := [];
    }

    /**
     * `dataFromJson`: when the patch holds a saved tree under "rootNode", the root's children are
     * cleared and the saved tree is loaded into the root, which becomes active. The drawn sequence,
     * which names nodes of the old tree, is dropped here (the C++ keeps it; see `LoadAsWritten`).
     * Otherwise nothing changes.
     */
    method DataFromJson(j: Json)
      requires Valid()
      modifies this`root, this`activeNode, this`activeSequence
      ensures Valid()
      ensures Get(j, "rootNode").Some? ==>
        && root == TreeJson.FromJson(old(root).(children := []), Get(j, "rootNode").value)
        && activeNode == [] && activeSequence == []
      ensures Get(j, "rootNode").None? ==>
        root == old(root) && activeNode == old(activeNode) && activeSequence == old(activeSequence)
    {
      var rn := Get(j, "rootNode");
      if rn.Some? {
        TreeJson.FromJsonDepthsOk(root.(children := []), rn.value);
        root := TreeJson.FromJson(root.(children := []), rn.value);
        activeNode := [];
        activeSequence := [];
      }
    }
  }
}
