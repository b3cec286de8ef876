/** The bounded forest serializer: recursion over the visible children with shared visit,
    node and byte budgets, cycle cutting, component stubs, and a truncation verdict kept
    at two levels. */
module Serialize {
  import opened Common
  import opened Document
  import opened Walk

  datatype Truncation = NodeLimit(visitedNodes: nat) | ByteLimit(encodedBytes: nat) | DepthLimit(appliedDepth: nat)

  datatype Limits = Limits(returned: nat, visited: nat, encoded: nat)

  /** One output node. `node` labels the host node its summary and data were read
      from; a stub stands for a component already emitted. */
  datatype DesignNode = DesignNode(
    node: Ref,
    stub: bool,
    children: seq<DesignNode>,
    childrenTruncated: bool,
    childrenTruncation: Option<Truncation>)

  // ---------- the truncation verdict ----------

  /** How bad a verdict is: none, a local depth cut, or a global budget. */
  function Severity(t: Option<Truncation>): nat {
    match t
    case None => 0
    case Some(DepthLimit(_)) => 1
    case Some(_) => 2
  }

  function Marked(current: Option<Truncation>, t: Truncation): Option<Truncation> {
    if current.None? then Some(t)
    else if current.value.DepthLimit? && !t.DepthLimit? then Some(t)
    else current
  }

  /** The document verdict after a series of marks. */
  function Verdict(marks: seq<Truncation>): Option<Truncation> {
    if marks == [] then None else Marked(Verdict(marks[..|marks| - 1]), marks[|marks| - 1])
  }

  predicate FirstGlobal(marks: seq<Truncation>, k: nat) {
    k < |marks| && !marks[k].DepthLimit? && forall j :: 0 <= j < k ==> marks[j].DepthLimit?
  }

  /** Over any series of marks the verdict names the first global budget that was
      hit, and the first depth cut when none was. */
  lemma {:induction false} VerdictOfMarks(marks: seq<Truncation>)
    ensures Verdict(marks).None? <==> marks == []
    ensures (exists k :: 0 <= k < |marks| && !marks[k].DepthLimit?) ==>
      exists k: nat :: FirstGlobal(marks, k) && Verdict(marks) == Some(marks[k])
    ensures marks != [] && (forall k :: 0 <= k < |marks| ==> marks[k].DepthLimit?) ==> Verdict(marks) == Some(marks[0])
  {
    if marks != [] {
      var front, last := marks[..|marks| - 1], marks[|marks| - 1];
      VerdictOfMarks(front);
      if exists k :: 0 <= k < |front| && !front[k].DepthLimit? {
        var k: nat :| FirstGlobal(front, k) && Verdict(front) == Some(front[k]);
        assert FirstGlobal(marks, k) && marks[k] == front[k];
      } else if !last.DepthLimit? {
        assert forall j :: 0 <= j < |front| ==> marks[j] == front[j];
        assert FirstGlobal(marks, |front|);
      }
    }
  }

  // ---------- what an output tree is worth ----------

  function Size(n: DesignNode): nat {
    1 + SizeOf(n.children)
  }

  function SizeOf(ns: seq<DesignNode>): nat {
    if ns == [] then 0 else SizeOf(ns[..|ns| - 1]) + Size(ns[|ns| - 1])
  }

  function Height(n: DesignNode): nat {
    if n.children == [] then 0 else 1 + HeightOf(n.children)
  }

  function HeightOf(ns: seq<DesignNode>): nat {
    if ns == [] then 0 else Max(HeightOf(ns[..|ns| - 1]), Height(ns[|ns| - 1]))
  }

  /** The worst cut recorded in an output tree, read off the tree alone. */
  function Cuts(n: DesignNode): nat {
    if n.stub then 0
    else if n.childrenTruncated then Severity(n.childrenTruncation)
    else CutsOf(n.children)
  }

  function CutsOf(ns: seq<DesignNode>): nat {
    if ns == [] then 0 else Max(CutsOf(ns[..|ns| - 1]), Cuts(ns[|ns| - 1]))
  }

  /** The tree is the whole visible unfolding under `node`: every node carries all
      its visible children, in order. Stated without the serializer's own marks. */
  ghost predicate IsUnfolding(v: View, n: DesignNode, node: Ref)
    decreases n
  {
    && n.node == node
    && |n.children| == |v.kids(node)|
    && forall i :: 0 <= i < |n.children| ==> IsUnfolding(v, n.children[i], v.kids(node)[i])
  }

  /** What one serialization is given. The two byte functions are the encoded length
      of a node's childless output and of its stub. */
  datatype Config = Config(
    view: View,
    depth: nat,
    dedupe: bool,
    limits: Limits,
    shellBytes: Ref -> nat,
    stubBytes: Ref -> nat)
  {
    predicate IsComponent(node: Ref) {
      view.host(node).kind == "COMPONENT" || view.host(node).kind == "COMPONENT_SET"
    }

    /** The encoded length of a tree: each node is charged for itself, childless. */
    function Bytes(n: DesignNode): nat {
      (if n.stub then stubBytes(n.node) else shellBytes(n.node)) + BytesOf(n.children)
    }

    function BytesOf(ns: seq<DesignNode>): nat {
      if ns == [] then 0 else BytesOf(ns[..|ns| - 1]) + Bytes(ns[|ns| - 1])
    }
  }

  function At(node: Ref, ancestors: set<string>): Item {
    Item(node, [], ancestors)
  }

  // ---------- the books of a run ----------

  /** What a run has spent of each budget, the components it has written out, and the
      cuts it has recorded, in order. */
  datatype Ledger = Ledger(visited: nat, returned: nat, encoded: nat, emitted: set<string>, marks: seq<Truncation>)

  const UNSPENT := Ledger(0, 0, 0, {}, [])

  function Noted(l: Ledger, t: Truncation): Ledger {
    l.(marks := l.marks + [t])
  }

  predicate GoesAsStub(c: Config, node: Ref, ancestors: set<string>, l: Ledger) {
    var id := c.view.host(node).id;
    c.dedupe && c.IsComponent(node) && id != "" && id in l.emitted && id !in ancestors
  }

  function Cost(c: Config, node: Ref, ancestors: set<string>, l: Ledger): nat {
    if GoesAsStub(c, node, ancestors, l) then c.stubBytes(node) else c.shellBytes(node)
  }

  /** Every budget has room for `node` itself. */
  predicate HasRoom(c: Config, node: Ref, ancestors: set<string>, l: Ledger) {
    && l.visited < c.limits.visited
    && l.returned < c.limits.returned
    && l.encoded + Cost(c, node, ancestors, l) <= c.limits.encoded
  }

  /** The books once `node` is written, before its children. */
  function Entered(c: Config, node: Ref, ancestors: set<string>, l: Ledger): Ledger {
    var id := c.view.host(node).id;
    var first := c.dedupe && c.IsComponent(node) && id != "" && (id !in ancestors || c.view.kids(node) == []);
    Ledger(l.visited + 1, l.returned + 1, l.encoded + Cost(c, node, ancestors, l),
           if first then l.emitted + {id} else l.emitted, l.marks)
  }

  /** The books once `node` is refused. Only a full visit budget refuses before the visit
      is counted; each budget names itself. */
  function Refused(c: Config, node: Ref, ancestors: set<string>, l: Ledger): Ledger {
    if l.visited >= c.limits.visited then Noted(l, NodeLimit(l.visited))
    else
      var seen := l.(visited := l.visited + 1);
      if l.returned >= c.limits.returned then Noted(seen, NodeLimit(seen.visited))
      else Noted(seen, ByteLimit(l.encoded + Cost(c, node, ancestors, l)))
  }

  /** The cut a node takes whatever is left of the budgets: under itself, or at the depth
      asked for. */
  function OwnCut(c: Config, node: Ref, level: nat, ancestors: set<string>, l: Ledger): Option<Truncation> {
    if c.view.kids(node) == [] then None
    else if Cut(c.view, At(node, ancestors)) then Some(NodeLimit(l.visited))
    else if level >= c.depth then Some(DepthLimit(c.depth))
    else None
  }

  /** The books once the output tree `n` is written, read off the tree. */
  function After(c: Config, n: DesignNode, level: nat, ancestors: set<string>, l: Ledger): Ledger
    decreases n
  {
    var entered := Entered(c, n.node, ancestors, l);
    if n.stub then entered
    else
      match OwnCut(c, n.node, level, ancestors, entered)
      case Some(t) => Noted(entered, t)
      case None =>
        var below := Below(c.view, At(n.node, ancestors));
        AfterAll(c, n.children, c.view.kids(n.node), level + 1, below, entered)
  }

  function AfterSome(c: Config, ns: seq<DesignNode>, level: nat, ancestors: set<string>, l: Ledger): Ledger
    decreases ns, 0
  {
    if ns == [] then l
    else After(c, ns[|ns| - 1], level, ancestors, AfterSome(c, ns[..|ns| - 1], level, ancestors, l))
  }

  /** The books once a list is done: `ns` written for the first of `nodes`, and the next
      of them, if there is one, refused. */
  function AfterAll(c: Config, ns: seq<DesignNode>, nodes: seq<Ref>, level: nat, ancestors: set<string>,
                    l: Ledger): Ledger
    decreases ns, 1
  {
    var end := AfterSome(c, ns, level, ancestors, l);
    if |ns| < |nodes| then Refused(c, nodes[|ns|], ancestors, end) else end
  }

  /** What the output for `node` must be, given the books at the moment it is reached: the
      node had room then; a component already written and not its own ancestor is a stub;
      a node that repeats or lies at the depth asked for has no children; any other has
      as many of its visible children as had room, each when it was reached. What is
      missing is marked with the verdict of that moment. */
  ghost predicate Explained(c: Config, n: DesignNode, node: Ref, level: nat, ancestors: set<string>, l: Ledger)
    decreases n
  {
    var entered := Entered(c, node, ancestors, l);
    var below := Below(c.view, At(node, ancestors));
    && n.node == node
    && HasRoom(c, node, ancestors, l)
    && (n.stub <==> GoesAsStub(c, node, ancestors, l))
    && if n.stub then n.children == [] && n.childrenTruncated && n.childrenTruncation.None?
       else
         match OwnCut(c, node, level, ancestors, entered)
         case Some(t) => n.children == [] && n.childrenTruncated && n.childrenTruncation == Some(t)
         case None =>
           && AllExplained(c, n.children, c.view.kids(node), level + 1, below, entered)
           && (n.childrenTruncated <==> |n.children| < |c.view.kids(node)|)
           && n.childrenTruncation
              == if n.childrenTruncated then Verdict(After(c, n, level, ancestors, l).marks) else None
  }

  ghost predicate SomeExplained(c: Config, ns: seq<DesignNode>, nodes: seq<Ref>, level: nat, ancestors: set<string>,
                                l: Ledger)
    decreases ns, 0
  {
    && |ns| <= |nodes|
    && (ns != [] ==>
          var front := ns[..|ns| - 1];
          && SomeExplained(c, front, nodes, level, ancestors, l)
          && Explained(c, ns[|ns| - 1], nodes[|ns| - 1], level, ancestors, AfterSome(c, front, level, ancestors, l)))
  }

  /** A list ends where its nodes do, or at the first that had no room when it was reached. */
  ghost predicate AllExplained(c: Config, ns: seq<DesignNode>, nodes: seq<Ref>, level: nat, ancestors: set<string>,
                               l: Ledger)
    decreases ns, 1
  {
    && SomeExplained(c, ns, nodes, level, ancestors, l)
    && (|ns| < |nodes| ==> !HasRoom(c, nodes[|ns|], ancestors, AfterSome(c, ns, level, ancestors, l)))
  }

  lemma {:induction false} NothingWritten(c: Config, nodes: seq<Ref>, level: nat, ancestors: set<string>, l: Ledger)
    ensures SomeExplained(c, [], nodes, level, ancestors, l) && AfterSome(c, [], level, ancestors, l) == l
  {
  }

  /** A list is done when its nodes are, or when the next one has no room. */
  lemma {:induction false} ListEnds(c: Config, ns: seq<DesignNode>, nodes: seq<Ref>, level: nat,
                                    ancestors: set<string>, l: Ledger)
    requires |ns| <= |nodes| && SomeExplained(c, ns, nodes, level, ancestors, l)
    requires |ns| < |nodes| ==> !HasRoom(c, nodes[|ns|], ancestors, AfterSome(c, ns, level, ancestors, l))
    ensures AllExplained(c, ns, nodes, level, ancestors, l)
    ensures AfterAll(c, ns, nodes, level, ancestors, l)
         == var end := AfterSome(c, ns, level, ancestors, l);
            if |ns| < |nodes| then Refused(c, nodes[|ns|], ancestors, end) else end
  {
  }

  lemma {:induction false} OneMoreExplained(c: Config, ns: seq<DesignNode>, n: DesignNode, nodes: seq<Ref>, level: nat,
                                            ancestors: set<string>, l: Ledger)
    requires SomeExplained(c, ns, nodes, level, ancestors, l) && |ns| < |nodes|
    requires Explained(c, n, nodes[|ns|], level, ancestors, AfterSome(c, ns, level, ancestors, l))
    ensures SomeExplained(c, ns + [n], nodes, level, ancestors, l)
    ensures AfterSome(c, ns + [n], level, ancestors, l)
         == After(c, n, level, ancestors, AfterSome(c, ns, level, ancestors, l))
  {
    assert (ns + [n])[..|ns|] == ns;
  }

  lemma {:induction false} StubIsExplained(c: Config, node: Ref, level: nat, ancestors: set<string>, l: Ledger)
    requires HasRoom(c, node, ancestors, l) && GoesAsStub(c, node, ancestors, l)
    ensures var stub := DesignNode(node, true, [], true, None);
      && Explained(c, stub, node, level, ancestors, l)
      && After(c, stub, level, ancestors, l)
         == Ledger(l.visited + 1, l.returned + 1, l.encoded + c.stubBytes(node), l.emitted, l.marks)
  {
    assert l.emitted + {c.view.host(node).id} == l.emitted;
  }

  lemma {:induction false} LeafIsExplained(c: Config, node: Ref, level: nat, ancestors: set<string>, l: Ledger)
    requires HasRoom(c, node, ancestors, l) && !GoesAsStub(c, node, ancestors, l) && c.view.kids(node) == []
    ensures var leaf := DesignNode(node, false, [], false, None);
      && Explained(c, leaf, node, level, ancestors, l)
      && After(c, leaf, level, ancestors, l) == Entered(c, node, ancestors, l)
  {
  }

  // ---------- the serializer ----------

  class SerializerContext {
    const c: Config
    var visited: nat
    var returned: nat
    var encoded: nat
    var truncation: Option<Truncation>
    var emitted: set<string>
    ghost var marks: seq<Truncation>

    constructor (c: Config)
      ensures this.c == c && Valid() && Books() == UNSPENT
    {
      this.c := c;
      visited, returned, encoded, truncation, emitted, marks := 0, 0, 0, None, {}, [];
    }

    ghost function Books(): Ledger
      reads this
    {
      Ledger(visited, returned, encoded, emitted, marks)
    }

    /** The verdict is that of every mark made so far. */
    ghost predicate Valid()
      reads this
    {
      truncation == Verdict(marks)
    }

    method MarkTruncated(t: Truncation)
      requires Valid()
      modifies this`truncation, this`marks
      ensures Valid() && marks == old(marks) + [t]
    {
      assert (marks + [t])[..|marks|] == marks;
      if truncation.None? {
        truncation := Some(t);
      } else if truncation.value.DepthLimit? && !t.DepthLimit? {
        truncation := Some(t);
      }
      marks := marks + [t];
    }

    /** Charge one output node, or mark the byte budget and refuse it. */
    method Charge(bytes: nat) returns (ok: bool)
      requires Valid()
      modifies this`encoded, this`returned, this`truncation, this`marks
      ensures Valid() && (ok <==> old(encoded) + bytes <= c.limits.encoded)
      ensures ok ==> encoded == old(encoded) + bytes && returned == old(returned) + 1 && marks == old(marks)
      ensures !ok ==> encoded == old(encoded) && returned == old(returned)
      ensures !ok ==> marks == old(marks) + [ByteLimit(old(encoded) + bytes)]
    {
      if encoded + bytes > c.limits.encoded {
        MarkTruncated(ByteLimit(encoded + bytes));
        return false;
      }
      encoded := encoded + bytes;
      returned := returned + 1;
      return true;
    }

    /** A node is refused exactly when it has no room; otherwise its output is the one
        explained by the books it started from, and the books are those read off it. */
    method SerializeNode(raw: Ref, level: nat, ancestors: set<string>) returns (out: Option<DesignNode>)
      requires Valid()
      modifies this`visited, this`returned, this`encoded, this`truncation, this`emitted, this`marks
      ensures Valid()
      ensures out.Some? <==> HasRoom(c, raw, ancestors, old(Books()))
      ensures out.None? ==> Books() == Refused(c, raw, ancestors, old(Books()))
      ensures out.Some? ==> Explained(c, out.value, raw, level, ancestors, old(Books()))
      ensures out.Some? ==> Books() == After(c, out.value, level, ancestors, old(Books()))
      decreases if level <= c.depth then c.depth - level + 1 else 0, 3
    {
      hide Explained, SomeExplained, AllExplained, After, AfterSome, AfterAll;
      if visited >= c.limits.visited {
        MarkTruncated(NodeLimit(visited));
        return None;
      }
      visited := visited + 1;
      if returned >= c.limits.returned {
        MarkTruncated(NodeLimit(visited));
        return None;
      }
      out := WriteNode(raw, level, ancestors, old(Books()));
    }

    /** A node the counts have room for: written if its bytes fit too. */
    method WriteNode(raw: Ref, level: nat, ancestors: set<string>, ghost before: Ledger)
      returns (out: Option<DesignNode>)
      requires Valid() && before.visited < c.limits.visited && before.returned < c.limits.returned
      requires Books() == before.(visited := before.visited + 1)
      modifies this`visited, this`returned, this`encoded, this`truncation, this`emitted, this`marks
      ensures Valid()
      ensures out.Some? <==> HasRoom(c, raw, ancestors, before)
      ensures out.None? ==> Books() == Refused(c, raw, ancestors, before)
      ensures out.Some? ==> Explained(c, out.value, raw, level, ancestors, before)
      ensures out.Some? ==> Books() == After(c, out.value, level, ancestors, before)
      decreases if level <= c.depth then c.depth - level + 1 else 0, 2
    {
      var id := c.view.host(raw).id;
      var repeated := id != "" && id in ancestors;
      if c.dedupe && c.IsComponent(raw) && id != "" && id in emitted && !repeated {
        out := EmitStub(raw);
        if out.Some? {
          StubIsExplained(c, raw, level, ancestors, before);
        }
        return;
      }
      var children := c.view.kids(raw);
      var fits := Charge(c.shellBytes(raw));
      if !fits {
        return None;
      }
      var shell := DesignNode(raw, false, [], false, None);
      if children == [] {
        if c.dedupe && c.IsComponent(raw) && id != "" {
          emitted := emitted + {id};
        }
        LeafIsExplained(c, raw, level, ancestors, before);
        return Some(shell);
      }
      if c.dedupe && c.IsComponent(raw) && id != "" && !repeated {
        emitted := emitted + {id};
      }
      var node := Expand(raw, level, ancestors, shell, before);
      return Some(node);
    }

    /** A component already emitted goes out as its identity alone. */
    method EmitStub(raw: Ref) returns (out: Option<DesignNode>)
      requires Valid()
      modifies this`returned, this`encoded, this`truncation, this`marks
      ensures Valid() && (out.Some? <==> old(encoded) + c.stubBytes(raw) <= c.limits.encoded)
      ensures out.Some? ==> out.value == DesignNode(raw, true, [], true, None)
      ensures out.Some? ==> encoded == old(encoded) + c.stubBytes(raw) && returned == old(returned) + 1
      ensures out.Some? ==> marks == old(marks)
      ensures out.None? ==> encoded == old(encoded) && returned == old(returned)
      ensures out.None? ==> marks == old(marks) + [ByteLimit(old(encoded) + c.stubBytes(raw))]
    {
      var fits := Charge(c.stubBytes(raw));
      return if fits then Some(DesignNode(raw, true, [], true, None)) else None;
    }

    /** The children of a node already charged for: none of a repeated node or at the
        depth asked for, else as many as the budgets allow. */
    method Expand(raw: Ref, level: nat, ancestors: set<string>, shell: DesignNode, ghost before: Ledger)
      returns (node: DesignNode)
      requires Valid() && c.view.kids(raw) != [] && shell == DesignNode(raw, false, [], false, None)
      requires HasRoom(c, raw, ancestors, before) && !GoesAsStub(c, raw, ancestors, before)
      requires Books() == Entered(c, raw, ancestors, before)
      modifies this`visited, this`returned, this`encoded, this`truncation, this`emitted, this`marks
      ensures Valid() && Explained(c, node, raw, level, ancestors, before)
      ensures Books() == After(c, node, level, ancestors, before)
      decreases if level <= c.depth then c.depth - level + 1 else 0, 1
    {
      var id := c.view.host(raw).id;
      if id != "" && id in ancestors {
        var t := NodeLimit(visited);
        MarkTruncated(t);
        return shell.(childrenTruncated := true, childrenTruncation := Some(t));
      }
      if level >= c.depth {
        var t := DepthLimit(c.depth);
        MarkTruncated(t);
        return shell.(childrenTruncated := true, childrenTruncation := Some(t));
      }
      var nextAncestors := ancestors;
      if id != "" {
        nextAncestors := nextAncestors + {id};
      }
      var done, truncated := SerializeChildren(c.view.kids(raw), level + 1, nextAncestors);
      node := DesignNode(raw, false, done, truncated, if truncated then truncation else None);
    }

    /** The loop over the children, which stops at the first one refused. */
    method SerializeChildren(children: seq<Ref>, level: nat, nextAncestors: set<string>)
      returns (done: seq<DesignNode>, truncated: bool)
      requires Valid() && level <= c.depth
      modifies this`visited, this`returned, this`encoded, this`truncation, this`emitted, this`marks
      ensures Valid() && AllExplained(c, done, children, level, nextAncestors, old(Books()))
      ensures truncated <==> |done| < |children|
      ensures Books() == AfterAll(c, done, children, level, nextAncestors, old(Books()))
      decreases c.depth - level + 1, 4
    {
      hide *;
      ghost var before := Books();
      done := [];
      NothingWritten(c, children, level, nextAncestors, before);
      var index := 0;
      while index < |children|
        invariant Valid() && 0 <= index == |done| <= |children|
        invariant SomeExplained(c, done, children, level, nextAncestors, before)
        invariant Books() == AfterSome(c, done, level, nextAncestors, before)
      {
        var child := SerializeNode(children[index], level, nextAncestors);
        if child.None? {
          ListEnds(c, done, children, level, nextAncestors, before);
          return done, true;
        }
        OneMoreExplained(c, done, child.value, children, level, nextAncestors, before);
        done := done + [child.value];
        index := index + 1;
      }
      ListEnds(c, done, children, level, nextAncestors, before);
      truncated := false;
    }
  }

  datatype Forest = Forest(nodes: seq<DesignNode>, truncation: Option<Truncation>)

  /** The forest a run must return: every root as the books of its moment explain it, up
      to the first that had no room, and the verdict of every mark made on the way. */
  ghost predicate IsForest(c: Config, roots: seq<Ref>, f: Forest) {
    && AllExplained(c, f.nodes, roots, 0, {}, UNSPENT)
    && f.truncation == Verdict(Closing(c, roots, f).marks)
  }

  function Closing(c: Config, roots: seq<Ref>, f: Forest): Ledger {
    AfterAll(c, f.nodes, roots, 0, {}, UNSPENT)
  }

  method SerializeNodeForest(c: Config, roots: seq<Ref>) returns (f: Forest)
    ensures IsForest(c, roots, f)
  {
    hide Explained, SomeExplained, AllExplained, After, AfterSome, AfterAll, HasRoom, Refused;
    var context := new SerializerContext(c);
    ghost var level, start := 0, context.Books();
    var nodes: seq<DesignNode> := [];
    NothingWritten(c, roots, level, {}, start);
    var index := 0;
    while index < |roots|
      invariant 0 <= index == |nodes| <= |roots|
      invariant context.c == c && context.Valid()
      invariant SomeExplained(c, nodes, roots, level, {}, start)
      invariant context.Books() == AfterSome(c, nodes, level, {}, start)
    {
      var node := context.SerializeNode(roots[index], 0, {});
      if node.None? {
        break;
      }
      OneMoreExplained(c, nodes, node.value, roots, level, {}, start);
      nodes := nodes + [node.value];
      index := index + 1;
    }
    ListEnds(c, nodes, roots, level, {}, start);
    f := Forest(nodes, context.truncation);
  }

  // ---------- one run, one forest ----------

  /** The description leaves no choice: a node reached with the same books has one output. */
  lemma {:induction false} NodeIsDetermined(c: Config, n: DesignNode, m: DesignNode, node: Ref, level: nat,
                                            ancestors: set<string>, l: Ledger)
    requires Explained(c, n, node, level, ancestors, l) && Explained(c, m, node, level, ancestors, l)
    ensures n == m
    decreases n
  {
    var entered := Entered(c, node, ancestors, l);
    if !n.stub && OwnCut(c, node, level, ancestors, entered).None? {
      var below := Below(c.view, At(node, ancestors));
      ListIsDetermined(c, n.children, m.children, c.view.kids(node), level + 1, below, entered);
    }
  }

  lemma {:induction false} ListIsDetermined(c: Config, ns: seq<DesignNode>, ms: seq<DesignNode>, nodes: seq<Ref>,
                                            level: nat, ancestors: set<string>, l: Ledger)
    requires AllExplained(c, ns, nodes, level, ancestors, l) && AllExplained(c, ms, nodes, level, ancestors, l)
    ensures ns == ms
    decreases ns, |ns| + 1
  {
    var k := Min(|ns|, |ms|);
    assert ns[..|ns|] == ns && ms[..|ms|] == ms;
    PrefixIsDetermined(c, ns, ms, nodes, level, ancestors, l, k);
    if |ns| < |ms| {
      HadRoom(c, ms, nodes, level, ancestors, l, k);
    } else if |ms| < |ns| {
      HadRoom(c, ns, nodes, level, ancestors, l, k);
    }
  }

  lemma {:induction false} HadRoom(c: Config, ns: seq<DesignNode>, nodes: seq<Ref>, level: nat, ancestors: set<string>,
                                   l: Ledger, k: nat)
    requires SomeExplained(c, ns, nodes, level, ancestors, l) && k < |ns|
    ensures HasRoom(c, nodes[k], ancestors, AfterSome(c, ns[..k], level, ancestors, l))
  {
    PrefixExplained(c, ns, nodes, level, ancestors, l, k + 1);
    assert ns[..k + 1][..k] == ns[..k];
  }

  lemma {:induction false} PrefixIsDetermined(c: Config, ns: seq<DesignNode>, ms: seq<DesignNode>, nodes: seq<Ref>,
                                              level: nat, ancestors: set<string>, l: Ledger, k: nat)
    requires SomeExplained(c, ns, nodes, level, ancestors, l) && SomeExplained(c, ms, nodes, level, ancestors, l)
    requires k <= |ns| && k <= |ms|
    ensures ns[..k] == ms[..k]
    decreases ns, k
  {
    if k > 0 {
      PrefixIsDetermined(c, ns, ms, nodes, level, ancestors, l, k - 1);
      PrefixExplained(c, ns, nodes, level, ancestors, l, k);
      PrefixExplained(c, ms, nodes, level, ancestors, l, k);
      assert ns[..k][..k - 1] == ns[..k - 1] && ms[..k][..k - 1] == ms[..k - 1];
      NodeIsDetermined(c, ns[k - 1], ms[k - 1], nodes[k - 1], level, ancestors,
                       AfterSome(c, ns[..k - 1], level, ancestors, l));
      assert ns[..k] == ns[..k - 1] + [ns[k - 1]] && ms[..k] == ms[..k - 1] + [ms[k - 1]];
    }
  }

  lemma {:induction false} PrefixExplained(c: Config, ns: seq<DesignNode>, nodes: seq<Ref>, level: nat,
                                           ancestors: set<string>, l: Ledger, k: nat)
    requires SomeExplained(c, ns, nodes, level, ancestors, l) && k <= |ns|
    ensures SomeExplained(c, ns[..k], nodes, level, ancestors, l)
    decreases |ns|
  {
    if k == |ns| {
      assert ns[..k] == ns;
    } else {
      PrefixExplained(c, ns[..|ns| - 1], nodes, level, ancestors, l, k);
      assert ns[..|ns| - 1][..k] == ns[..k];
    }
  }

  /** One forest, verdict included, for given roots. */
  lemma {:induction false} ForestIsDetermined(c: Config, roots: seq<Ref>, f: Forest, g: Forest)
    requires IsForest(c, roots, f) && IsForest(c, roots, g)
    ensures f == g
  {
    ListIsDetermined(c, f.nodes, g.nodes, roots, 0, {}, UNSPENT);
  }

  // ---------- what a run costs and reports ----------

  predicate Within(c: Config, l: Ledger) {
    l.visited <= c.limits.visited && l.returned <= c.limits.returned && l.encoded <= c.limits.encoded
  }

  predicate UpTo(l: Ledger, m: Ledger) {
    l.visited <= m.visited && l.returned <= m.returned && l.encoded <= m.encoded
  }

  /** The nodes whose children a budget or a cycle cut: the only places where a visit can
      have been spent without a node to show for it. */
  function Stalls(n: DesignNode): nat {
    (if !n.stub && n.childrenTruncated && Severity(n.childrenTruncation) == 2 then 1 else 0) + StallsOf(n.children)
  }

  function StallsOf(ns: seq<DesignNode>): nat {
    if ns == [] then 0 else StallsOf(ns[..|ns| - 1]) + Stalls(ns[|ns| - 1])
  }

  lemma {:induction false} SeverityGrows(marks: seq<Truncation>, t: Truncation)
    ensures Severity(Verdict(marks + [t])) == Max(Severity(Verdict(marks)), Severity(Some(t)))
  {
    assert (marks + [t])[..|marks|] == marks;
  }

  lemma {:induction false} RefusalIsGlobal(c: Config, node: Ref, ancestors: set<string>, l: Ledger)
    ensures Severity(Verdict(Refused(c, node, ancestors, l).marks)) == 2
  {
    var t := Refused(c, node, ancestors, l).marks[|l.marks|];
    assert !t.DepthLimit?;
    SeverityGrows(l.marks, t);
  }

  /** An output tree charges one visit, one node and its bytes for each of its nodes, and
      at most a visit more where a budget or a cycle cut it. */
  lemma {:induction false} Spending(c: Config, n: DesignNode, node: Ref, level: nat, ancestors: set<string>, l: Ledger)
    requires Explained(c, n, node, level, ancestors, l)
    ensures var end := After(c, n, level, ancestors, l);
      && end.returned == l.returned + Size(n) && end.encoded == l.encoded + c.Bytes(n)
      && l.visited <= end.visited <= l.visited + Size(n) + Stalls(n) && Within(c, end)
    decreases n
  {
    var entered := Entered(c, node, ancestors, l);
    if !n.stub && OwnCut(c, node, level, ancestors, entered).None? {
      var kids, below := c.view.kids(node), Below(c.view, At(node, ancestors));
      SpendingSome(c, n.children, kids, level + 1, below, entered);
      if |n.children| < |kids| {
        RefusalIsGlobal(c, kids[|n.children|], below, AfterSome(c, n.children, level + 1, below, entered));
      }
    }
  }

  lemma {:induction false} SpendingSome(c: Config, ns: seq<DesignNode>, nodes: seq<Ref>, level: nat,
                                        ancestors: set<string>, l: Ledger)
    requires SomeExplained(c, ns, nodes, level, ancestors, l) && Within(c, l)
    ensures var end := AfterSome(c, ns, level, ancestors, l);
      && end.returned == l.returned + SizeOf(ns) && end.encoded == l.encoded + c.BytesOf(ns)
      && l.visited <= end.visited <= l.visited + SizeOf(ns) + StallsOf(ns) && Within(c, end)
    decreases ns, |ns|
  {
    if ns != [] {
      var front := ns[..|ns| - 1];
      SpendingSome(c, front, nodes, level, ancestors, l);
      Spending(c, ns[|ns| - 1], nodes[|ns| - 1], level, ancestors, AfterSome(c, front, level, ancestors, l));
    }
  }

  predicate OurDepth(c: Config, marks: seq<Truncation>) {
    forall t :: t in marks && t.DepthLimit? ==> t.appliedDepth == c.depth
  }

  /** The verdict after an output tree is as bad as it was before or as the worst cut the
      tree shows. */
  lemma {:induction false} Marking(c: Config, n: DesignNode, node: Ref, level: nat, ancestors: set<string>, l: Ledger)
    requires Explained(c, n, node, level, ancestors, l)
    ensures var marks := After(c, n, level, ancestors, l).marks;
      && Severity(Verdict(marks)) == Max(Severity(Verdict(l.marks)), Cuts(n))
      && (OurDepth(c, l.marks) ==> OurDepth(c, marks))
    decreases n
  {
    var entered := Entered(c, node, ancestors, l);
    if !n.stub {
      match OwnCut(c, node, level, ancestors, entered)
      case Some(t) => SeverityGrows(l.marks, t);
      case None =>
        var kids, below := c.view.kids(node), Below(c.view, At(node, ancestors));
        MarkingSome(c, n.children, kids, level + 1, below, entered);
        if |n.children| < |kids| {
          RefusalIsGlobal(c, kids[|n.children|], below, AfterSome(c, n.children, level + 1, below, entered));
        }
    }
  }

  lemma {:induction false} MarkingSome(c: Config, ns: seq<DesignNode>, nodes: seq<Ref>, level: nat,
                                       ancestors: set<string>, l: Ledger)
    requires SomeExplained(c, ns, nodes, level, ancestors, l)
    ensures var marks := AfterSome(c, ns, level, ancestors, l).marks;
      && Severity(Verdict(marks)) == Max(Severity(Verdict(l.marks)), CutsOf(ns))
      && (OurDepth(c, l.marks) ==> OurDepth(c, marks))
    decreases ns, |ns|
  {
    if ns != [] {
      var front := ns[..|ns| - 1];
      MarkingSome(c, front, nodes, level, ancestors, l);
      Marking(c, ns[|ns| - 1], nodes[|ns| - 1], level, ancestors, AfterSome(c, front, level, ancestors, l));
    }
  }

  /** The budgets are charged exactly and never passed; no visit is spent without a node, a
      cut or a missing root to show for it; and the verdict is exactly as bad as the worst
      the output shows. */
  lemma {:induction false} ForestAccounts(c: Config, roots: seq<Ref>, f: Forest)
    requires IsForest(c, roots, f)
    ensures var end := Closing(c, roots, f);
      && end.returned == SizeOf(f.nodes) && end.encoded == c.BytesOf(f.nodes) && Within(c, end)
      && end.visited <= SizeOf(f.nodes) + StallsOf(f.nodes) + (if |f.nodes| < |roots| then 1 else 0)
      && Severity(f.truncation) == (if |f.nodes| < |roots| then 2 else CutsOf(f.nodes))
      && OurDepth(c, end.marks)
  {
    SpendingSome(c, f.nodes, roots, 0, {}, UNSPENT);
    MarkingSome(c, f.nodes, roots, 0, {}, UNSPENT);
    if |f.nodes| < |roots| {
      RefusalIsGlobal(c, roots[|f.nodes|], {}, AfterSome(c, f.nodes, 0, {}, UNSPENT));
    }
  }

  /** The forest's reason is the first global budget the run met, and a depth cut only when
      it met none. */
  lemma {:induction false} TruncationNamesTheFirstBudget(c: Config, roots: seq<Ref>, f: Forest)
    requires IsForest(c, roots, f)
    ensures var marks := Closing(c, roots, f).marks;
      && (f.truncation.None? <==> marks == [])
      && (f.truncation.Some? ==>
            exists k: nat :: k < |marks| && f.truncation == Some(marks[k])
              && (FirstGlobal(marks, k) || (k == 0 && forall j :: 0 <= j < |marks| ==> marks[j].DepthLimit?)))
  {
    var marks := Closing(c, roots, f).marks;
    VerdictOfMarks(marks);
    if marks != [] && forall j :: 0 <= j < |marks| ==> marks[j].DepthLimit? {
      assert f.truncation == Some(marks[0]);
    }
  }

  // ---------- what the marks mean ----------

  /** What an explained tree is whatever its books: the node's own children, a prefix of
      the visible ones in order, whole unless marked. */
  ghost predicate Faithful(c: Config, n: DesignNode, node: Ref, level: nat, ancestors: set<string>)
    decreases n
  {
    var kids := c.view.kids(node);
    && n.node == node
    && (n.stub ==> c.dedupe && c.IsComponent(node) && n.children == [] && n.childrenTruncated)
    && (!n.stub ==>
          && |n.children| <= |kids|
          && (n.childrenTruncated <==> |n.children| < |kids|)
          && (n.childrenTruncated ==> n.childrenTruncation.Some?)
          && (level >= c.depth ==> n.children == []))
    && forall i :: 0 <= i < |n.children| ==>
         Faithful(c, n.children[i], kids[i], level + 1, Below(c.view, At(node, ancestors)))
  }

  lemma {:induction false} ExplainedIsFaithful(c: Config, n: DesignNode, node: Ref, level: nat,
                                               ancestors: set<string>, l: Ledger)
    requires Explained(c, n, node, level, ancestors, l)
    ensures Faithful(c, n, node, level, ancestors)
    decreases n
  {
    var entered := Entered(c, node, ancestors, l);
    if !n.stub && OwnCut(c, node, level, ancestors, entered).None? {
      var kids, below := c.view.kids(node), Below(c.view, At(node, ancestors));
      SomeAreFaithful(c, n.children, kids, level + 1, below, entered);
      if |n.children| < |kids| {
        var end := AfterSome(c, n.children, level + 1, below, entered);
        RefusalIsGlobal(c, kids[|n.children|], below, end);
        assert After(c, n, level, ancestors, l) == Refused(c, kids[|n.children|], below, end);
      }
    }
  }

  lemma {:induction false} SomeAreFaithful(c: Config, ns: seq<DesignNode>, nodes: seq<Ref>, level: nat,
                                           ancestors: set<string>, l: Ledger)
    requires SomeExplained(c, ns, nodes, level, ancestors, l)
    ensures forall i :: 0 <= i < |ns| ==> Faithful(c, ns[i], nodes[i], level, ancestors)
    decreases ns, |ns|
  {
    if ns != [] {
      var front := ns[..|ns| - 1];
      SomeAreFaithful(c, front, nodes, level, ancestors, l);
      ExplainedIsFaithful(c, ns[|ns| - 1], nodes[|ns| - 1], level, ancestors, AfterSome(c, front, level, ancestors, l));
      forall i | 0 <= i < |ns|
        ensures Faithful(c, ns[i], nodes[i], level, ancestors)
      {
        assert i < |front| ==> ns[i] == front[i];
      }
    }
  }

  /** The tree is whole except under stubs. */
  ghost predicate WholeButStubs(v: View, n: DesignNode, node: Ref)
    decreases n
  {
    && n.node == node
    && (!n.stub ==>
          && |n.children| == |v.kids(node)|
          && forall i :: 0 <= i < |n.children| ==> WholeButStubs(v, n.children[i], v.kids(node)[i]))
  }

  lemma {:induction false} CutsOfBound(ns: seq<DesignNode>)
    ensures forall i :: 0 <= i < |ns| ==> Cuts(ns[i]) <= CutsOf(ns)
    ensures CutsOf(ns) > 0 ==> exists i :: 0 <= i < |ns| && Cuts(ns[i]) == CutsOf(ns)
  {
    if ns != [] {
      var front := ns[..|ns| - 1];
      CutsOfBound(front);
      if CutsOf(ns) > 0 && CutsOf(ns) != Cuts(ns[|ns| - 1]) {
        var i :| 0 <= i < |front| && Cuts(front[i]) == CutsOf(front);
        assert ns[i] == front[i];
      }
    }
  }

  /** No cut recorded means nothing is missing, and nothing missing means no cut is
      recorded: marks and content agree at every node. */
  lemma {:induction false} NoCutIsWhole(c: Config, n: DesignNode, node: Ref, level: nat, ancestors: set<string>)
    requires Faithful(c, n, node, level, ancestors)
    ensures Cuts(n) == 0 <==> WholeButStubs(c.view, n, node)
    decreases n
  {
    if !n.stub && !n.childrenTruncated {
      forall i | 0 <= i < |n.children|
        ensures Cuts(n.children[i]) == 0 <==> WholeButStubs(c.view, n.children[i], c.view.kids(node)[i])
      {
        NoCutIsWhole(c, n.children[i], c.view.kids(node)[i], level + 1, Below(c.view, At(node, ancestors)));
      }
      CutsOfBound(n.children);
    }
  }

  lemma {:induction false} NoStubsIsUnfolding(c: Config, n: DesignNode, node: Ref, level: nat, ancestors: set<string>)
    requires Faithful(c, n, node, level, ancestors) && !c.dedupe
    ensures WholeButStubs(c.view, n, node) <==> IsUnfolding(c.view, n, node)
    decreases n
  {
    forall i | 0 <= i < |n.children|
      ensures WholeButStubs(c.view, n.children[i], c.view.kids(node)[i])
         <==> IsUnfolding(c.view, n.children[i], c.view.kids(node)[i])
    {
      NoStubsIsUnfolding(c, n.children[i], c.view.kids(node)[i], level + 1, Below(c.view, At(node, ancestors)));
    }
  }

  /** Completeness. Without component dedupe, `truncated` is false exactly when the
      output is the whole visible unfolding of every root. */
  lemma {:induction false} UntruncatedIsComplete(c: Config, roots: seq<Ref>, f: Forest)
    requires IsForest(c, roots, f) && !c.dedupe
    ensures f.truncation.None? <==>
      |f.nodes| == |roots| && forall i :: 0 <= i < |roots| ==> IsUnfolding(c.view, f.nodes[i], roots[i])
  {
    UntruncatedIsCompleteButStubs(c, roots, f);
    SomeAreFaithful(c, f.nodes, roots, 0, {}, UNSPENT);
    forall i | 0 <= i < |f.nodes|
      ensures WholeButStubs(c.view, f.nodes[i], roots[i]) <==> IsUnfolding(c.view, f.nodes[i], roots[i])
    {
      NoStubsIsUnfolding(c, f.nodes[i], roots[i], 0, {});
    }
  }

  /** With dedupe the same holds up to stubs, which are not marked as a loss. */
  lemma {:induction false} UntruncatedIsCompleteButStubs(c: Config, roots: seq<Ref>, f: Forest)
    requires IsForest(c, roots, f)
    ensures f.truncation.None? <==>
      |f.nodes| == |roots| && forall i :: 0 <= i < |roots| ==> WholeButStubs(c.view, f.nodes[i], roots[i])
  {
    ForestAccounts(c, roots, f);
    SomeAreFaithful(c, f.nodes, roots, 0, {}, UNSPENT);
    forall i | 0 <= i < |f.nodes|
      ensures Cuts(f.nodes[i]) == 0 <==> WholeButStubs(c.view, f.nodes[i], roots[i])
    {
      NoCutIsWhole(c, f.nodes[i], roots[i], 0, {});
    }
    CutsOfBound(f.nodes);
  }

  /** Every cut in the tree is a depth cut. */
  ghost predicate OnlyDepthCuts(n: DesignNode)
    decreases n
  {
    n.stub ||
    if n.childrenTruncated then n.childrenTruncation.Some? && n.childrenTruncation.value.DepthLimit?
    else forall i :: 0 <= i < |n.children| ==> OnlyDepthCuts(n.children[i])
  }

  lemma {:induction false} LightCutsAreDepthCuts(c: Config, n: DesignNode, node: Ref, level: nat,
                                                 ancestors: set<string>)
    requires Faithful(c, n, node, level, ancestors)
    ensures Cuts(n) <= 1 <==> OnlyDepthCuts(n)
    decreases n
  {
    if !n.stub && !n.childrenTruncated {
      forall i | 0 <= i < |n.children|
        ensures Cuts(n.children[i]) <= 1 <==> OnlyDepthCuts(n.children[i])
      {
        LightCutsAreDepthCuts(c, n.children[i], c.view.kids(node)[i], level + 1, Below(c.view, At(node, ancestors)));
      }
      CutsOfBound(n.children);
    }
  }

  /** The document-level reason is `depthLimit` exactly when something is missing and
      no node or byte budget took it: every root is there, and every cut anywhere in
      the output is a depth cut. */
  lemma {:induction false} DepthLimitMeansOnlyDepth(c: Config, roots: seq<Ref>, f: Forest)
    requires IsForest(c, roots, f)
    ensures f.truncation == Some(DepthLimit(c.depth)) <==>
      && f.truncation.Some? && |f.nodes| == |roots|
      && forall i :: 0 <= i < |f.nodes| ==> OnlyDepthCuts(f.nodes[i])
  {
    ForestAccounts(c, roots, f);
    TruncationNamesTheFirstBudget(c, roots, f);
    SomeAreFaithful(c, f.nodes, roots, 0, {}, UNSPENT);
    forall i | 0 <= i < |f.nodes|
      ensures Cuts(f.nodes[i]) <= 1 <==> OnlyDepthCuts(f.nodes[i])
    {
      LightCutsAreDepthCuts(c, f.nodes[i], roots[i], 0, {});
    }
    CutsOfBound(f.nodes);
  }

  /** No output tree is deeper than the depth asked for. */
  lemma {:induction false} HeightIsBounded(c: Config, n: DesignNode, node: Ref, level: nat, ancestors: set<string>)
    requires Faithful(c, n, node, level, ancestors) && level <= c.depth
    ensures level + Height(n) <= c.depth
    decreases n
  {
    if n.children != [] {
      HeightsAreBounded(c, n.children, c.view.kids(node), level + 1, Below(c.view, At(node, ancestors)));
    }
  }

  lemma {:induction false} HeightsAreBounded(c: Config, ns: seq<DesignNode>, nodes: seq<Ref>, level: nat,
                                             ancestors: set<string>)
    requires |ns| <= |nodes| && forall i :: 0 <= i < |ns| ==> Faithful(c, ns[i], nodes[i], level, ancestors)
    requires level <= c.depth
    ensures level + HeightOf(ns) <= c.depth
    decreases ns, |ns|
  {
    if ns != [] {
      HeightsAreBounded(c, ns[..|ns| - 1], nodes, level, ancestors);
      HeightIsBounded(c, ns[|ns| - 1], nodes[|ns| - 1], level, ancestors);
    }
  }

  /** Nor is any tree of the forest. */
  lemma {:induction false} ForestHeight(c: Config, roots: seq<Ref>, f: Forest)
    requires IsForest(c, roots, f)
    ensures HeightOf(f.nodes) <= c.depth
  {
    SomeAreFaithful(c, f.nodes, roots, 0, {}, UNSPENT);
    HeightsAreBounded(c, f.nodes, roots, 0, {});
  }

  // ---------- budgets that last ----------

  /** Enough is left for any one more node, written out or as a stub. */
  ghost predicate Roomy(c: Config, l: Ledger) {
    && l.visited < c.limits.visited && l.returned < c.limits.returned
    && forall r: Ref ::
         && l.encoded + c.shellBytes(r) <= c.limits.encoded
         && (c.dedupe && c.IsComponent(r) ==> l.encoded + c.stubBytes(r) <= c.limits.encoded)
  }

  lemma {:induction false} RoomyEarlier(c: Config, l: Ledger, m: Ledger)
    requires UpTo(l, m) && Roomy(c, m)
    ensures Roomy(c, l)
    ensures forall node, ancestors :: HasRoom(c, node, ancestors, l)
  {
    forall node, ancestors
      ensures HasRoom(c, node, ancestors, l)
    {
      assert m.encoded + c.shellBytes(node) <= c.limits.encoded;
    }
    forall r: Ref
      ensures l.encoded + c.shellBytes(r) <= c.limits.encoded
      ensures c.dedupe && c.IsComponent(r) ==> l.encoded + c.stubBytes(r) <= c.limits.encoded
    {
      assert m.encoded + c.shellBytes(r) <= c.limits.encoded;
    }
  }

  /** Every cut is the node's own: a cycle, or the depth asked for. */
  ghost predicate OnlyOwnCuts(c: Config, n: DesignNode, node: Ref, level: nat, ancestors: set<string>)
    decreases n
  {
    && (!n.stub && n.childrenTruncated ==> Cut(c.view, At(node, ancestors)) || level >= c.depth)
    && |n.children| <= |c.view.kids(node)|
    && forall i :: 0 <= i < |n.children| ==>
         OnlyOwnCuts(c, n.children[i], c.view.kids(node)[i], level + 1, Below(c.view, At(node, ancestors)))
  }

  lemma {:induction false} LastingBudgetsCutNothing(c: Config, n: DesignNode, node: Ref, level: nat,
                                                    ancestors: set<string>, l: Ledger)
    requires Explained(c, n, node, level, ancestors, l) && Roomy(c, After(c, n, level, ancestors, l))
    ensures OnlyOwnCuts(c, n, node, level, ancestors)
    decreases n
  {
    var entered := Entered(c, node, ancestors, l);
    if !n.stub && OwnCut(c, node, level, ancestors, entered).None? {
      var kids, below := c.view.kids(node), Below(c.view, At(node, ancestors));
      var end := AfterSome(c, n.children, level + 1, below, entered);
      assert After(c, n, level, ancestors, l) == AfterAll(c, n.children, kids, level + 1, below, entered);
      RoomyEarlier(c, end, After(c, n, level, ancestors, l));
      LastingBudgetsCutNone(c, n.children, kids, level + 1, below, entered);
    }
  }

  lemma {:induction false} LastingBudgetsCutNone(c: Config, ns: seq<DesignNode>, nodes: seq<Ref>, level: nat,
                                                 ancestors: set<string>, l: Ledger)
    requires SomeExplained(c, ns, nodes, level, ancestors, l) && Roomy(c, AfterSome(c, ns, level, ancestors, l))
    ensures forall i :: 0 <= i < |ns| ==> OnlyOwnCuts(c, ns[i], nodes[i], level, ancestors)
    decreases ns, |ns|
  {
    if ns != [] {
      var front, last := ns[..|ns| - 1], ns[|ns| - 1];
      var before := AfterSome(c, front, level, ancestors, l);
      Spending(c, last, nodes[|ns| - 1], level, ancestors, before);
      RoomyEarlier(c, before, AfterSome(c, ns, level, ancestors, l));
      LastingBudgetsCutNothing(c, last, nodes[|ns| - 1], level, ancestors, before);
      LastingBudgetsCutNone(c, front, nodes, level, ancestors, l);
      forall i | 0 <= i < |ns|
        ensures OnlyOwnCuts(c, ns[i], nodes[i], level, ancestors)
      {
        assert i < |front| ==> ns[i] == front[i];
      }
    }
  }

  /** Nothing is left out for want of budget while there is enough left for any one more
      node: every root is there, and every cut is a cycle or the depth asked for. */
  lemma {:induction false} LastingBudgetsKeepEveryRoot(c: Config, roots: seq<Ref>, f: Forest)
    requires IsForest(c, roots, f) && Roomy(c, Closing(c, roots, f))
    ensures |f.nodes| == |roots|
    ensures forall i :: 0 <= i < |roots| ==> OnlyOwnCuts(c, f.nodes[i], roots[i], 0, {})
  {
    RoomyEarlier(c, AfterSome(c, f.nodes, 0, {}, UNSPENT), Closing(c, roots, f));
    LastingBudgetsCutNone(c, f.nodes, roots, 0, {}, UNSPENT);
  }
}
