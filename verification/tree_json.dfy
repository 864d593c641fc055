/**
 * Saving and loading the Treequencer tree (`Node::toJson`, `Node::fromJson`,
 * src/treequencer.cpp:281-310). A node is saved as an object with its output, its chance and the
 * array of its children; `enabled` and `depth` are not saved. Loading reads into an existing node
 * and APPENDS the loaded children to the ones it already has; each loaded child starts from the
 * constructor's defaults (output 0, chance 0.5, not lit) one level below its parent.
 */
module TreeJson {
  import opened Json
  import opened TreeNode
  import opened Wrappers

  function ToJson(n: Node): (j: Json)
    ensures j.JObject?
    decreases n
  {
    JObject([
      Field("output", JInt(n.output)),
      Field("chance", JReal(n.chance)),
      Field("children", JArray(SavedChildren(n.children)))
    ])
  }

  /** The array a node saves its children in: each child saved in turn. */
  function SavedChildren(cs: seq<Node>): (items: seq<Json>)
    ensures |items| == |cs| && forall i :: 0 <= i < |cs| ==> items[i] == ToJson(cs[i])
    decreases cs
  {
    seq(|cs|, i requires 0 <= i < |cs| => ToJson(cs[i]))
  }

  /** A node the `Node(json, parent)` constructor starts from, before reading the JSON. */
  function DefaultChild(parentDepth: int): Node
  {
    Node(0, false, 0.5, parentDepth + 1, [])
  }

  /** `fromJson` into `n`: present keys overwrite output and chance; the array's children are appended. */
  function FromJson(n: Node, j: Json): (r: Node)
    ensures r.enabled == n.enabled && r.depth == n.depth
    ensures |r.children| >= |n.children| && r.children[..|n.children|] == n.children
    decreases JsonSize(j), 1
  {
    var out := Get(j, "output");
    var ch := Get(j, "chance");
    var arr := Get(j, "children");
    var loaded := if arr.Some? then ChildrenFromJson(ArrayItems(arr.value), n.depth) else [];
    n.(output := if out.Some? then IntegerValue(out.value) else n.output,
       chance := if ch.Some? then RealValue(ch.value) else n.chance,
       children := n.children + loaded)
  }

  /** `new Node(json_array_get(arr, i), this)` for every element, in order. */
  function ChildrenFromJson(items: seq<Json>, parentDepth: int): (cs: seq<Node>)
    ensures |cs| == |items|
    ensures forall i :: 0 <= i < |items| ==> cs[i] == FromJson(DefaultChild(parentDepth), items[i])
    decreases SizeOfItems(items), 2
  {
    if items == [] then []
    else
      var rest := ChildrenFromJson(items[1..], parentDepth);
      assert forall i :: 1 <= i < |items| ==> items[i] == items[1..][i - 1];
      [FromJson(DefaultChild(parentDepth), items[0])] + rest
  }

  /** The tree as a load rebuilds it: same outputs, chances and child order; depths counted from `depth`; nothing lit. */
  function Reloaded(t: Node, depth: int): (r: Node)
    ensures |r.children| == |t.children| && r.output == t.output && r.chance == t.chance
    decreases t
  {
    Node(t.output, false, t.chance, depth,
      seq(|t.children|, i requires 0 <= i < |t.children| => Reloaded(t.children[i], depth + 1)))
  }

  /**
   * Round trip: loading a saved tree into a node without children reproduces the saved outputs,
   * chances and child order, with depths recomputed from the target's depth and every loaded node
   * unlit; the target keeps its own `enabled` flag.
   */
  lemma {:induction false} RoundTrip(target: Node, t: Node)
    requires target.children == []
    ensures FromJson(target, ToJson(t)) == Reloaded(t, target.depth).(enabled := target.enabled)
    decreases t
  {
    LoadSavedFields(target, t);
    LoadSavedChildren(target, t);
    var r := FromJson(target, ToJson(t));
    var e := Reloaded(t, target.depth).(enabled := target.enabled);
    forall i | 0 <= i < |t.children|
      ensures r.children[i] == e.children[i]
    {
      RoundTrip(DefaultChild(target.depth), t.children[i]);
    }
  }

  /** Loading a saved node takes its output and chance, and changes nothing else but the children. */
  lemma LoadSavedFields(target: Node, t: Node)
    ensures var r := FromJson(target, ToJson(t));
      r == target.(output := t.output, chance := t.chance, children := r.children)
  {
    SavedFields(t);
  }

  /** Loading a saved node appends its children, loaded from the saved array. */
  lemma LoadSavedChildren(target: Node, t: Node)
    ensures FromJson(target, ToJson(t)).children ==
      target.children + ChildrenFromJson(SavedChildren(t.children), target.depth)
  {
    SavedFields(t);
  }

  /** The three keys a saved node holds. */
  lemma SavedFields(t: Node)
    ensures Get(ToJson(t), "output") == Some(JInt(t.output))
    ensures Get(ToJson(t), "chance") == Some(JReal(t.chance))
    ensures Get(ToJson(t), "children") == Some(JArray(SavedChildren(t.children)))
  {
    var items := SavedChildren(t.children);
    assert "output" != "chance" && "output" != "children" && "chance" != "children" by {
      assert "output"[0] != "chance"[0];
      assert "output"[1] != "children"[1];
      assert "chance"[2] != "children"[2];
    }
    GetOfThree("output", JInt(t.output), "chance", JReal(t.chance), "children", JArray(items), "output");
    GetOfThree("output", JInt(t.output), "chance", JReal(t.chance), "children", JArray(items), "chance");
    GetOfThree("output", JInt(t.output), "chance", JReal(t.chance), "children", JArray(items), "children");
  }

  /** Nothing in the tree is lit. */
  predicate Unlit(n: Node)
  {
    !n.enabled && forall i :: 0 <= i < |n.children| ==> Unlit(n.children[i])
  }

  /** A tree whose depths follow its parent links and that has nothing lit is its own reload. */
  lemma {:induction false} ReloadedIdentity(t: Node)
    requires DepthsOk(t) && Unlit(t)
    ensures Reloaded(t, t.depth) == t
    decreases t
  {
    forall i | 0 <= i < |t.children|
      ensures Reloaded(t, t.depth).children[i] == t.children[i]
    {
      ReloadedIdentity(t.children[i]);
    }
  }

  /** A reload is binary when the saved tree was, and its depths follow the parent links. */
  lemma {:induction false} ReloadedShape(t: Node, depth: int)
    ensures DepthsOk(Reloaded(t, depth)) && Unlit(Reloaded(t, depth))
    ensures Binary(t) ==> Binary(Reloaded(t, depth))
    decreases t
  {
    forall i | 0 <= i < |t.children|
      ensures DepthsOk(Reloaded(t.children[i], depth + 1)) && Unlit(Reloaded(t.children[i], depth + 1))
      ensures Binary(t.children[i]) ==> Binary(Reloaded(t.children[i], depth + 1))
    {
      ReloadedShape(t.children[i], depth + 1);
    }
  }

  /** Hence saving and loading an unlit, depth-consistent tree into an empty unlit node of the same depth gives it back exactly. */
  lemma RoundTripExact(target: Node, t: Node)
    requires target.children == [] && !target.enabled && target.depth == t.depth
    requires DepthsOk(t) && Unlit(t)
    ensures FromJson(target, ToJson(t)) == t
  {
    RoundTrip(target, t);
    ReloadedIdentity(t);
  }

  /** Loading into a depth-consistent node keeps it depth-consistent: every loaded child is one level below its parent. */
  lemma {:induction false} FromJsonDepthsOk(n: Node, j: Json)
    requires DepthsOk(n)
    ensures DepthsOk(FromJson(n, j))
    decreases JsonSize(j)
  {
    var arr := Get(j, "children");
    if arr.Some? {
      var items := ArrayItems(arr.value);
      var loaded := ChildrenFromJson(items, n.depth);
      forall i | 0 <= i < |loaded| ensures loaded[i].depth == n.depth + 1 && DepthsOk(loaded[i]) {
        assert JsonSize(items[i]) < JsonSize(j);
        FromJsonDepthsOk(DefaultChild(n.depth), items[i]);
      }
      var r := FromJson(n, j);
      assert r.children == n.children + loaded;
      assert forall i :: 0 <= i < |loaded| ==> r.children[|n.children| + i] == loaded[i];
    }
  }
}
