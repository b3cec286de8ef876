/** The three independent re-checks of a node forest: the Rust constructor check, the
    Rust streaming decoder, and the TypeScript parser. Each spends a budget of its own
    as it descends; all three accept the same shapes. */
module Checkers {
  import opened Common
  import opened Document
  import opened Serialize

  /** The shape rule: at most 2000 nodes, none deeper than level 6. */
  predicate Fits(nodes: seq<DesignNode>) {
    SizeOf(nodes) <= 2_000 && HeightOf(nodes) <= 6
  }

  lemma {:induction false} SizeOfConcat(a: seq<DesignNode>, b: seq<DesignNode>)
    ensures SizeOf(a + b) == SizeOf(a) + SizeOf(b)
    ensures HeightOf(a + b) == Max(HeightOf(a), HeightOf(b))
    decreases |b|
  {
    if b == [] {
      assert a + b == a;
    } else {
      assert (a + b)[..|a + b| - 1] == a + b[..|b| - 1];
      SizeOfConcat(a, b[..|b| - 1]);
    }
  }

  /** One more node, and what it leaves. */
  lemma {:induction false} SizeStep(ns: seq<DesignNode>, i: nat)
    requires i < |ns|
    ensures SizeOf(ns[..i + 1]) == SizeOf(ns[..i]) + Size(ns[i]) <= SizeOf(ns)
    ensures HeightOf(ns[..i + 1]) == Max(HeightOf(ns[..i]), Height(ns[i])) <= HeightOf(ns)
  {
    assert ns[..i + 1][..i] == ns[..i];
    assert ns == ns[..i + 1] + ns[i + 1..];
    SizeOfConcat(ns[..i + 1], ns[i + 1..]);
  }

  lemma {:induction false} SizeAtLeastCount(ns: seq<DesignNode>)
    ensures SizeOf(ns) >= |ns|
  {
    if ns != [] {
      SizeAtLeastCount(ns[..|ns| - 1]);
    }
  }

  /** A node at `depth` fits when its own height does. */
  predicate DeepEnough(n: DesignNode, depth: nat) {
    depth + Height(n) <= MAX_DEPTH
  }

  predicate AllDeepEnough(ns: seq<DesignNode>, depth: nat) {
    ns != [] ==> depth + HeightOf(ns) <= MAX_DEPTH
  }

  // ---------- the Rust constructor check ----------

  /** `validate_node`: counts up, and refuses early when the children alone would not
      fit. The early refusal never refuses a tree the full count would accept. */
  method ValidateNode(node: DesignNode, depth: nat, count: nat) returns (ok: bool, next: nat)
    requires count <= MAX_RETURNED_NODES
    ensures ok <==> count + Size(node) <= MAX_RETURNED_NODES && DeepEnough(node, depth)
    ensures ok ==> next == count + Size(node)
    decreases node
  {
    next := count;
    if depth > MAX_DEPTH {
      return false, next;
    }
    next := next + 1;
    if next > MAX_RETURNED_NODES {
      return false, next;
    }
    SizeAtLeastCount(node.children);
    if |node.children| > MAX_RETURNED_NODES - next {
      return false, next;
    }
    var index := 0;
    assert node.children[..|node.children|] == node.children;
    while index < |node.children|
      invariant 0 <= index <= |node.children|
      invariant next == count + 1 + SizeOf(node.children[..index]) <= MAX_RETURNED_NODES
      invariant index > 0 ==> depth + 1 + HeightOf(node.children[..index]) <= MAX_DEPTH
    {
      SizeStep(node.children, index);
      ok, next := ValidateNode(node.children[index], depth + 1, next);
      if !ok {
        return;
      }
      index := index + 1;
    }
    ok := true;
  }

  method ValidateNodeRoots(roots: seq<DesignNode>) returns (ok: bool)
    ensures ok <==> Fits(roots)
  {
    var count := 0;
    var index := 0;
    assert roots[..|roots|] == roots;
    while index < |roots|
      invariant 0 <= index <= |roots|
      invariant count == SizeOf(roots[..index]) <= MAX_RETURNED_NODES
      invariant HeightOf(roots[..index]) <= MAX_DEPTH
    {
      SizeStep(roots, index);
      ok, count := ValidateNode(roots[index], 0, count);
      if !ok {
        return;
      }
      index := index + 1;
    }
    ok := true;
  }

  // ---------- the Rust streaming decoder ----------

  /** `DesignNodeSeed`: counts a remaining budget down. */
  method DecodeNode(node: DesignNode, depth: nat, remaining: nat) returns (ok: bool, left: nat)
    requires remaining <= MAX_RETURNED_NODES
    ensures ok <==> Size(node) <= remaining && DeepEnough(node, depth)
    ensures ok ==> left == remaining - Size(node)
    decreases node, 1, 0
  {
    if depth > MAX_DEPTH {
      return false, remaining;
    }
    if remaining == 0 {
      return false, remaining;
    }
    ok, left := DecodeList(node.children, depth + 1, remaining - 1, MAX_RETURNED_NODES, node);
  }

  /** `DesignNodeListVisitor`: at most `maximum` elements, then one look for a further
      one. The look comes too late to matter: each element has spent a node by then. */
  method DecodeList(nodes: seq<DesignNode>, depth: nat, remaining: nat, maximum: nat, ghost parent: DesignNode)
    returns (ok: bool, left: nat)
    requires remaining <= maximum <= MAX_RETURNED_NODES
    requires nodes == parent.children
    ensures ok <==> SizeOf(nodes) <= remaining && AllDeepEnough(nodes, depth)
    ensures ok ==> left == remaining - SizeOf(nodes)
    decreases parent, 0, 0
  {
    left := remaining;
    var index := 0;
    assert nodes[..|nodes|] == nodes;
    SizeAtLeastCount(nodes);
    while index < maximum
      invariant 0 <= index <= |nodes| && index <= maximum
      invariant SizeOf(nodes[..index]) <= remaining && left == remaining - SizeOf(nodes[..index])
      invariant index > 0 ==> depth + HeightOf(nodes[..index]) <= MAX_DEPTH
    {
      if index == |nodes| {
        return true, left;
      }
      SizeStep(nodes, index);
      ok, left := DecodeNode(nodes[index], depth, left);
      if !ok {
        return;
      }
      index := index + 1;
    }
    ok := index == |nodes|;
  }

  method DecodeForest(nodes: seq<DesignNode>) returns (ok: bool)
    ensures ok <==> Fits(nodes)
  {
    var remaining := MAX_RETURNED_NODES;
    var left;
    ok, left := DecodeList(nodes, 0, remaining, MAX_RETURNED_NODES, DesignNode(0, false, nodes, false, None));
  }

  // ---------- the TypeScript parser ----------

  /** `parseDesignNode`: counts up, and refuses a child list longer than the budget. */
  method ParseDesignNode(node: DesignNode, depth: nat, count: nat) returns (ok: bool, next: nat)
    requires count <= MAX_RETURNED_NODES
    ensures ok <==> count + Size(node) <= MAX_RETURNED_NODES && DeepEnough(node, depth)
    ensures ok ==> next == count + Size(node)
    decreases node
  {
    next := count;
    if depth > MAX_DEPTH {
      return false, next;
    }
    next := next + 1;
    if next > MAX_RETURNED_NODES {
      return false, next;
    }
    SizeAtLeastCount(node.children);
    if |node.children| > MAX_RETURNED_NODES {
      return false, next;
    }
    assert node.children[..|node.children|] == node.children;
    for index := 0 to |node.children|
      invariant next == count + 1 + SizeOf(node.children[..index]) <= MAX_RETURNED_NODES
      invariant index > 0 ==> depth + 1 + HeightOf(node.children[..index]) <= MAX_DEPTH
    {
      SizeStep(node.children, index);
      ok, next := ParseDesignNode(node.children[index], depth + 1, next);
      if !ok {
        return;
      }
    }
    ok := true;
  }

  method ParseNodeForest(nodes: seq<DesignNode>) returns (ok: bool)
    ensures ok <==> Fits(nodes)
  {
    SizeAtLeastCount(nodes);
    if |nodes| > MAX_RETURNED_NODES {
      return false;
    }
    var count := 0;
    assert nodes[..|nodes|] == nodes;
    for index := 0 to |nodes|
      invariant count == SizeOf(nodes[..index]) <= MAX_RETURNED_NODES
      invariant HeightOf(nodes[..index]) <= MAX_DEPTH
    {
      SizeStep(nodes, index);
      ok, count := ParseDesignNode(nodes[index], 0, count);
      if !ok {
        return;
      }
    }
    ok := true;
  }

  /** Every forest the serializer builds with its default limits, for a depth the
      protocol allows, passes all three. */
  lemma {:induction false} SerializedForestsFit(c: Config, roots: seq<Ref>, f: Forest)
    requires c.limits.returned <= MAX_RETURNED_NODES && c.depth <= MAX_DEPTH
    requires IsForest(c, roots, f)
    ensures Fits(f.nodes)
  {
    ForestAccounts(c, roots, f);
    ForestHeight(c, roots, f);
  }
}
