/** The cycle-cut walk of visible nodes that search and the forest walker share:
    an explicit stack on one side, the recursive preorder on the other. */
module Walk {
  import opened Common
  import opened Document
  import opened Visibility

  /** What a walk sees of the document: the record behind a value, and the children
      it may enter. */
  datatype View = View(host: Ref -> Host, kids: Ref -> seq<Ref>)

  datatype Item = Item(node: Ref, path: seq<nat>, ancestors: set<string>)

  /** The children that draw, in document order. */
  function VisibleOnly(doc: Doc, refs: seq<Ref>): seq<Ref> {
    if refs == [] then []
    else (if RendersVisibly(doc, refs[0]) then [refs[0]] else []) + VisibleOnly(doc, refs[1..])
  }

  /** The view every read takes: a child that does not draw is never entered. */
  function ViewOf(doc: Doc): View {
    View((r: Ref) => Record(doc, r), (r: Ref) => VisibleOnly(doc, Record(doc, r).children))
  }

  /** Filtering keeps exactly the children that draw, each as often as it is listed, and
      keeps their order: it can be done piece by piece. */
  lemma {:induction false} VisibleOnlyMeaning(doc: Doc, a: seq<Ref>, b: seq<Ref>)
    ensures VisibleOnly(doc, a + b) == VisibleOnly(doc, a) + VisibleOnly(doc, b)
    ensures forall r :: multiset(VisibleOnly(doc, a))[r] == if RendersVisibly(doc, r) then multiset(a)[r] else 0
  {
    VisibleOnlyCounts(doc, a);
    VisibleOnlyPieces(doc, a, b);
  }

  lemma {:induction false} VisibleOnlyPieces(doc: Doc, a: seq<Ref>, b: seq<Ref>)
    ensures VisibleOnly(doc, a + b) == VisibleOnly(doc, a) + VisibleOnly(doc, b)
  {
    if a == [] {
      assert a + b == b;
    } else {
      assert (a + b)[1..] == a[1..] + b;
      VisibleOnlyPieces(doc, a[1..], b);
    }
  }

  lemma {:induction false} VisibleOnlyCounts(doc: Doc, refs: seq<Ref>)
    ensures forall r :: multiset(VisibleOnly(doc, refs))[r] == if RendersVisibly(doc, r) then multiset(refs)[r] else 0
  {
    if refs != [] {
      VisibleOnlyCounts(doc, refs[1..]);
      assert refs == [refs[0]] + refs[1..];
    }
  }

  lemma {:induction false} VisibleOnlyMembers(doc: Doc, refs: seq<Ref>)
    ensures forall r :: r in VisibleOnly(doc, refs) <==> r in refs && RendersVisibly(doc, r)
  {
    if refs != [] {
      VisibleOnlyMembers(doc, refs[1..]);
      assert refs == [refs[0]] + refs[1..];
    }
  }

  /** A node whose id is already among its ancestors is listed but not entered. */
  predicate Cut(v: View, item: Item) {
    var id := v.host(item.node).id;
    id != "" && id in item.ancestors
  }

  function Below(v: View, item: Item): set<string> {
    var id := v.host(item.node).id;
    if id == "" then item.ancestors else item.ancestors + {id}
  }

  function ChildItem(v: View, item: Item, index: nat): Item
    requires index < |v.kids(item.node)|
  {
    Item(v.kids(item.node)[index], item.path + [index], Below(v, item))
  }

  // ---------- the stack machine ----------

  /** A stack, used only by pushing and popping; the top comes first. */
  datatype Stack = Empty | Push(top: Item, under: Stack)

  /** Push the children of `item` from index `from` on, last child first, so that
      the earliest one ends on top. */
  function PushFrom(v: View, item: Item, from: nat, under: Stack): Stack
    requires from <= |v.kids(item.node)|
    decreases |v.kids(item.node)| - from
  {
    if from == |v.kids(item.node)| then under
    else Push(ChildItem(v, item, from), PushFrom(v, item, from + 1, under))
  }

  /** Pop one item and push its children, unless the item is cut. */
  function Step(v: View, stack: Stack): Stack
    requires stack.Push?
  {
    if Cut(v, stack.top) then stack.under else PushFrom(v, stack.top, 0, stack.under)
  }

  /** From `start`, the machine pops exactly `popped`, in that order, and is then
      left with `rest`. */
  ghost predicate Pops(v: View, start: Stack, popped: seq<Item>, rest: Stack)
    decreases |popped|
  {
    if popped == [] then start == rest
    else start.Push? && popped[0] == start.top && Pops(v, Step(v, start), popped[1..], rest)
  }

  lemma {:induction false} PopsOne(v: View, stack: Stack)
    requires stack.Push?
    ensures Pops(v, stack, [stack.top], Step(v, stack))
  {
  }

  lemma {:induction false} PopsThen(v: View, a: Stack, p: seq<Item>, b: Stack, q: seq<Item>, c: Stack)
    requires Pops(v, a, p, b) && Pops(v, b, q, c)
    ensures Pops(v, a, p + q, c)
    decreases |p|
  {
    if p == [] {
      assert p + q == q;
    } else {
      PopsThen(v, Step(v, a), p[1..], b, q, c);
      assert (p + q)[1..] == p[1..] + q;
    }
  }

  /** A run can be cut after any number of items. */
  lemma {:induction false} PopsSplit(v: View, a: Stack, p: seq<Item>, c: Stack, k: nat) returns (b: Stack)
    requires Pops(v, a, p, c) && k <= |p|
    ensures Pops(v, a, p[..k], b) && Pops(v, b, p[k..], c)
    decreases k
  {
    if k == 0 {
      b := a;
      assert p[0..] == p;
    } else {
      b := PopsSplit(v, Step(v, a), p[1..], c, k - 1);
      assert p[..k][1..] == p[1..][..k - 1] && p[1..][k - 1..] == p[k..];
    }
  }

  /** The machine is deterministic: a shorter run is the beginning of a longer one. */
  lemma {:induction false} PopsAgree(v: View, a: Stack, p: seq<Item>, b: Stack, q: seq<Item>, c: Stack)
    requires Pops(v, a, p, b) && Pops(v, a, q, c) && |p| <= |q|
    ensures p == q[..|p|] && Pops(v, b, q[|p|..], c)
    decreases |p|
  {
    if p == [] {
      assert q[0..] == q;
    } else {
      PopsAgree(v, Step(v, a), p[1..], b, q[1..], c);
      assert q[1..][|p| - 1..] == q[|p|..];
      assert p == [p[0]] + p[1..] && q[..|p|] == [q[0]] + q[1..][..|p| - 1];
    }
  }

  lemma {:induction false} ShorterRun(v: View, a: Stack, p: seq<Item>, b: Stack, q: seq<Item>, c: Stack)
    requires Pops(v, a, p, b) && Pops(v, a, q, c) && |p| < |q|
    ensures p <= q[..|q| - 1] && b.Push?
  {
    PopsAgree(v, a, p, b, q, c);
    assert q[|p|..] != [];
  }

  lemma {:induction false} SameRun(v: View, a: Stack, p: seq<Item>, b: Stack, q: seq<Item>, c: Stack)
    requires Pops(v, a, p, b) && Pops(v, a, q, c) && |p| == |q|
    ensures p == q && b == c
  {
    PopsAgree(v, a, p, b, q, c);
    assert q[..|p|] == q && q[|p|..] == [];
  }

  /** A run never outlasts one that emptied the stack. */
  lemma {:induction false} RunIsPrefixOfEnded(v: View, stack: Stack, p: seq<Item>, rest: Stack, q: seq<Item>)
    requires Pops(v, stack, p, rest) && Pops(v, stack, q, Empty)
    ensures p <= q
    ensures rest.Empty? ==> p == q
  {
    if |q| < |p| {
      PopsAgree(v, stack, q, Empty, p, rest);
    } else {
      PopsAgree(v, stack, p, rest, q, Empty);
    }
  }

  // ---------- the recursive preorder ----------

  /** The cycle-cut unfolding under `item` is at most `depth` levels deep. */
  predicate Unfolds(v: View, item: Item, depth: nat)
    decreases depth
  {
    Cut(v, item) ||
    forall i: nat :: i < |v.kids(item.node)| ==> depth > 0 && Unfolds(v, ChildItem(v, item, i), depth - 1)
  }

  function Preorder(v: View, item: Item, depth: nat): seq<Item>
    requires Unfolds(v, item, depth)
    decreases depth, 1, 0
  {
    [item] + if Cut(v, item) then [] else PreorderFrom(v, item, 0, depth)
  }

  function PreorderFrom(v: View, item: Item, index: nat, depth: nat): seq<Item>
    requires Unfolds(v, item, depth) && !Cut(v, item)
    requires index <= |v.kids(item.node)|
    decreases depth, 0, |v.kids(item.node)| - index
  {
    if index == |v.kids(item.node)| then []
    else Preorder(v, ChildItem(v, item, index), depth - 1) + PreorderFrom(v, item, index + 1, depth)
  }

  /** The stack machine, with one item on top, pops exactly that item's preorder and
      is then left with what was under it. */
  lemma {:induction false} PreorderIsPopped(v: View, item: Item, depth: nat, under: Stack)
    requires Unfolds(v, item, depth)
    ensures Pops(v, Push(item, under), Preorder(v, item, depth), under)
    decreases depth, 1, 0
  {
    PopsOne(v, Push(item, under));
    if Cut(v, item) {
      assert Preorder(v, item, depth) == [item];
    } else {
      PreorderFromIsPopped(v, item, 0, depth, under);
      PopsThen(v, Push(item, under), [item], PushFrom(v, item, 0, under), PreorderFrom(v, item, 0, depth), under);
    }
  }

  lemma {:induction false} PreorderFromIsPopped(v: View, item: Item, index: nat, depth: nat, under: Stack)
    requires Unfolds(v, item, depth) && !Cut(v, item)
    requires index <= |v.kids(item.node)|
    ensures Pops(v, PushFrom(v, item, index, under), PreorderFrom(v, item, index, depth), under)
    decreases depth, 0, |v.kids(item.node)| - index
  {
    if index < |v.kids(item.node)| {
      var child := ChildItem(v, item, index);
      var others := PushFrom(v, item, index + 1, under);
      PreorderIsPopped(v, child, depth - 1, others);
      PreorderFromIsPopped(v, item, index + 1, depth, under);
      PopsThen(v, Push(child, others), Preorder(v, child, depth - 1), others,
               PreorderFrom(v, item, index + 1, depth), under);
    }
  }

  ghost predicate AllUnfold(v: View, stack: Stack, depth: nat) {
    match stack
    case Empty => true
    case Push(top, under) => Unfolds(v, top, depth) && AllUnfold(v, under, depth)
  }

  /** And only finite unfoldings are ever finished: a run that empties the stack
      bounds the unfolding of everything that was on it. */
  lemma {:induction false} EndedRunUnfolds(v: View, stack: Stack, popped: seq<Item>)
    requires Pops(v, stack, popped, Empty)
    ensures AllUnfold(v, stack, |popped|)
    decreases |popped|
  {
    if popped != [] {
      EndedRunUnfolds(v, Step(v, stack), popped[1..]);
      var depth := |popped| - 1;
      if !Cut(v, stack.top) {
        PushedUnfold(v, stack.top, 0, stack.under, depth);
      }
      AllUnfoldDeeper(v, stack.under, depth);
    }
  }

  lemma {:induction false} PushedUnfold(v: View, item: Item, from: nat, under: Stack, depth: nat)
    requires from <= |v.kids(item.node)| && AllUnfold(v, PushFrom(v, item, from, under), depth)
    ensures forall i: nat :: from <= i < |v.kids(item.node)| ==> Unfolds(v, ChildItem(v, item, i), depth)
    ensures AllUnfold(v, under, depth)
    decreases |v.kids(item.node)| - from
  {
    if from < |v.kids(item.node)| {
      PushedUnfold(v, item, from + 1, under, depth);
    }
  }

  lemma {:induction false} AllUnfoldDeeper(v: View, stack: Stack, depth: nat)
    requires AllUnfold(v, stack, depth)
    ensures AllUnfold(v, stack, depth + 1)
    decreases stack
  {
    if stack.Push? {
      UnfoldsDeeper(v, stack.top, depth);
      AllUnfoldDeeper(v, stack.under, depth);
    }
  }

  lemma {:induction false} UnfoldsDeeper(v: View, item: Item, depth: nat)
    requires Unfolds(v, item, depth)
    ensures Unfolds(v, item, depth + 1)
    decreases depth
  {
    if !Cut(v, item) {
      forall i: nat | i < |v.kids(item.node)|
        ensures Unfolds(v, ChildItem(v, item, i), depth)
      {
        UnfoldsDeeper(v, ChildItem(v, item, i), depth - 1);
      }
    }
  }

  /** Every node that can be entered carries one of `ids`. */
  ghost predicate EntersOnlyNamed(v: View, ids: set<string>) {
    forall r: Ref :: v.kids(r) != [] ==> v.host(r).id != "" && v.host(r).id in ids
  }

  /** With finitely many ids the walk is finite however the graph loops: a branch
      gets longer only by spending an id it has not met. */
  lemma {:induction false} NamedViewsUnfold(v: View, item: Item, ids: set<string>, depth: nat)
    requires EntersOnlyNamed(v, ids)
    requires |ids - item.ancestors| <= depth
    ensures Unfolds(v, item, depth)
    decreases depth
  {
    if !Cut(v, item) && v.kids(item.node) != [] {
      var id := v.host(item.node).id;
      assert ids - Below(v, item) == (ids - item.ancestors) - {id};
      assert id in ids - item.ancestors;
      forall i: nat | i < |v.kids(item.node)|
        ensures depth > 0 && Unfolds(v, ChildItem(v, item, i), depth - 1)
      {
        NamedViewsUnfold(v, ChildItem(v, item, i), ids, depth - 1);
      }
    }
  }

  function Ids(doc: Doc): set<string> {
    set r | r in doc :: doc[r].id
  }

  /** So every document whose nodes with visible children have ids unfolds, however
      its child links loop, to a depth its number of ids bounds. */
  lemma {:induction false} NamedDocumentsUnfold(doc: Doc, item: Item)
    requires forall r :: r in doc && doc[r].id == "" ==> ViewOf(doc).kids(r) == []
    ensures Unfolds(ViewOf(doc), item, |Ids(doc)|)
  {
    var v, ids := ViewOf(doc), Ids(doc);
    forall r: Ref | v.kids(r) != []
      ensures v.host(r).id != "" && v.host(r).id in ids
    {
      assert r in doc;
    }
    var left := ids - item.ancestors;
    SmallerSet(left, ids);
    NamedViewsUnfold(v, item, ids, |ids|);
  }

  lemma {:induction false} SmallerSet<T>(a: set<T>, b: set<T>)
    requires a <= b
    ensures |a| <= |b|
  {
    assert b == a + (b - a);
  }

  // ---------- parent links that agree ----------

  /** The parent link of every child the document holds leads back to the node that lists
      it, as the host keeps it. */
  ghost predicate ParentsAgree(doc: Doc) {
    forall r, c :: r in doc && c in doc[r].children && c in doc ==> doc[c].parent == r
  }

  ghost predicate HeldUpTo(doc: Doc, r: Ref, k: nat) {
    forall j: nat :: j <= k ==> Up(doc, r, j) in doc
  }

  lemma {:induction false} DrawnWithinBound(doc: Doc, r: Ref, k: nat)
    requires HeldUpTo(doc, r, k) && RendersVisibly(doc, r)
    ensures k + 1 < MAX_ANCESTOR_WALK
  {
    VerdictMeaning(doc, r, MAX_ANCESTOR_WALK);
    var m: nat :| m < MAX_ANCESTOR_WALK && OnBelow(doc, r, m) && Up(doc, r, m) !in doc;
    assert m > k;
  }

  lemma {:induction false} HeldBelow(doc: Doc, r: Ref, k: nat, c: Ref)
    requires HeldUpTo(doc, r, k) && c in doc && doc[c].parent == r
    ensures HeldUpTo(doc, c, k + 1)
  {
    forall j: nat | j <= k + 1
      ensures Up(doc, c, j) in doc
    {
      if j > 0 {
        UpAfterFirst(doc, c, j - 1);
      }
    }
  }

  /** Then every walk is finite, whatever the ids: a drawn node reaches the top of its
      parent chain within the bound, and so its place in the walk is no deeper. */
  lemma {:induction false} AgreeingDocumentsUnfold(doc: Doc, item: Item, k: nat, depth: nat)
    requires ParentsAgree(doc) && k + depth >= MAX_ANCESTOR_WALK
    requires item.node in doc ==> HeldUpTo(doc, item.node, k) && (k > 0 ==> RendersVisibly(doc, item.node))
    ensures Unfolds(ViewOf(doc), item, depth)
    decreases depth, 1
  {
    var v := ViewOf(doc);
    forall i: nat | i < |v.kids(item.node)|
      ensures depth > 0 && Unfolds(v, ChildItem(v, item, i), depth - 1)
    {
      AgreeingChildUnfolds(doc, item, k, depth, i);
    }
  }

  lemma {:induction false} AgreeingChildUnfolds(doc: Doc, item: Item, k: nat, depth: nat, i: nat)
    requires ParentsAgree(doc) && k + depth >= MAX_ANCESTOR_WALK
    requires item.node in doc ==> HeldUpTo(doc, item.node, k) && (k > 0 ==> RendersVisibly(doc, item.node))
    requires i < |ViewOf(doc).kids(item.node)|
    ensures depth > 0 && Unfolds(ViewOf(doc), ChildItem(ViewOf(doc), item, i), depth - 1)
    decreases depth, 0
  {
    hide Unfolds, RendersVisibly, HeldUpTo, ParentsAgree;
    if k > 0 {
      DrawnWithinBound(doc, item.node, k);
    }
    ListedBelow(doc, item.node, k, i);
    AgreeingDocumentsUnfold(doc, ChildItem(ViewOf(doc), item, i), k + 1, depth - 1);
  }

  lemma {:induction false} ListedBelow(doc: Doc, r: Ref, k: nat, i: nat)
    requires ParentsAgree(doc) && r in doc && HeldUpTo(doc, r, k) && i < |ViewOf(doc).kids(r)|
    ensures var c := ViewOf(doc).kids(r)[i]; c in doc ==> HeldUpTo(doc, c, k + 1) && RendersVisibly(doc, c)
  {
    var c := ViewOf(doc).kids(r)[i];
    VisibleOnlyMembers(doc, doc[r].children);
    assert c in VisibleOnly(doc, doc[r].children);
    if c in doc {
      HeldBelow(doc, r, k, c);
    }
  }

  // ---------- which walks are infinite ----------

  /** `path` leads down from `item` through nodes that are entered. */
  predicate Descends(v: View, item: Item, path: seq<nat>)
    decreases |path|
  {
    path == []
    || (!Cut(v, item) && path[0] < |v.kids(item.node)| && Descends(v, ChildItem(v, item, path[0]), path[1..]))
  }

  function Arrive(v: View, item: Item, path: seq<nat>): Item
    requires Descends(v, item, path)
    decreases |path|
  {
    if path == [] then item else Arrive(v, ChildItem(v, item, path[0]), path[1..])
  }

  /** `path` leads down from one node to another, and every node it leaves has no id. */
  predicate BlankRoute(v: View, from: Ref, path: seq<nat>, to: Ref)
    decreases |path|
  {
    && path != [] && v.host(from).id == "" && path[0] < |v.kids(from)|
    && if |path| == 1 then v.kids(from)[path[0]] == to else BlankRoute(v, v.kids(from)[path[0]], path[1..], to)
  }

  /** Somewhere below `item` the walk comes to a node without an id that is its own
      descendant through children without ids. */
  ghost predicate HasBlankLoop(v: View, item: Item) {
    exists p, q :: Descends(v, item, p) && BlankRoute(v, Arrive(v, item, p).node, q, Arrive(v, item, p).node)
  }

  lemma {:induction false} PathIsNotRead(v: View, a: Item, b: Item, depth: nat)
    requires a.node == b.node && a.ancestors == b.ancestors && Unfolds(v, a, depth)
    ensures Unfolds(v, b, depth)
    decreases depth
  {
    if !Cut(v, b) && v.kids(b.node) != [] {
      assert depth > 0 && Unfolds(v, ChildItem(v, a, 0), depth - 1);
      forall i: nat | i < |v.kids(b.node)|
        ensures Unfolds(v, ChildItem(v, b, i), depth - 1)
      {
        assert Unfolds(v, ChildItem(v, a, i), depth - 1);
        PathIsNotRead(v, ChildItem(v, a, i), ChildItem(v, b, i), depth - 1);
      }
    }
  }

  lemma {:induction false} RouteTakesDepth(v: View, item: Item, path: seq<nat>, to: Item, depth: nat)
    requires BlankRoute(v, item.node, path, to.node) && to.ancestors == item.ancestors && Unfolds(v, item, depth)
    ensures depth >= |path| && Unfolds(v, to, depth - |path|)
    decreases |path|
  {
    var child := ChildItem(v, item, path[0]);
    assert depth > 0 && Unfolds(v, child, depth - 1);
    if |path| == 1 {
      PathIsNotRead(v, child, to, depth - 1);
    } else {
      RouteTakesDepth(v, child, path[1..], to, depth - 1);
    }
  }

  lemma {:induction false} LoopNeverUnfolds(v: View, item: Item, path: seq<nat>, depth: nat)
    requires BlankRoute(v, item.node, path, item.node)
    ensures !Unfolds(v, item, depth)
    decreases depth
  {
    if Unfolds(v, item, depth) {
      RouteTakesDepth(v, item, path, item, depth);
      LoopNeverUnfolds(v, item, path, depth - |path|);
    }
  }

  lemma {:induction false} DescentTakesDepth(v: View, item: Item, path: seq<nat>, depth: nat)
    requires Descends(v, item, path) && Unfolds(v, item, depth)
    ensures depth >= |path| && Unfolds(v, Arrive(v, item, path), depth - |path|)
    decreases |path|
  {
    if path != [] {
      assert depth > 0 && Unfolds(v, ChildItem(v, item, path[0]), depth - 1);
      DescentTakesDepth(v, ChildItem(v, item, path[0]), path[1..], depth - 1);
    }
  }

  lemma {:induction false} BlankLoopNeverUnfolds(v: View, item: Item, depth: nat)
    requires HasBlankLoop(v, item)
    ensures !Unfolds(v, item, depth)
  {
    var p, q :| Descends(v, item, p) && BlankRoute(v, Arrive(v, item, p).node, q, Arrive(v, item, p).node);
    if Unfolds(v, item, depth) {
      DescentTakesDepth(v, item, p, depth);
      LoopNeverUnfolds(v, Arrive(v, item, p), q, depth - |p|);
    }
  }

  /** Every node that can be entered is one of `nodes`, and its id, if any, one of `ids`. */
  ghost predicate EntersOnly(v: View, nodes: set<Ref>, ids: set<string>) {
    forall r: Ref :: v.kids(r) != [] ==> r in nodes && (v.host(r).id != "" ==> v.host(r).id in ids)
  }

  ghost predicate AllLeadTo(v: View, seen: set<Ref>, to: Ref) {
    forall y :: y in seen ==> exists q :: BlankRoute(v, y, q, to)
  }

  lemma {:induction false} RouteExtends(v: View, from: Ref, path: seq<nat>, to: Ref, i: nat)
    requires BlankRoute(v, from, path, to) && v.host(to).id == "" && i < |v.kids(to)|
    ensures BlankRoute(v, from, path + [i], v.kids(to)[i])
    decreases |path|
  {
    assert (path + [i])[1..] == path[1..] + [i];
    if |path| == 1 {
      assert path[1..] + [i] == [i];
      assert BlankRoute(v, to, [i], v.kids(to)[i]);
    } else {
      RouteExtends(v, v.kids(from)[path[0]], path[1..], to, i);
    }
  }

  lemma {:induction false} SeenLeadsFurther(v: View, seen: set<Ref>, at: Ref, i: nat)
    requires AllLeadTo(v, seen, at) && v.host(at).id == "" && i < |v.kids(at)|
    ensures AllLeadTo(v, seen + {at}, v.kids(at)[i])
  {
    forall y | y in seen + {at}
      ensures exists q :: BlankRoute(v, y, q, v.kids(at)[i])
    {
      if y == at {
        assert BlankRoute(v, y, [i], v.kids(at)[i]);
      } else {
        var q :| BlankRoute(v, y, q, at);
        RouteExtends(v, y, q, at, i);
      }
    }
  }

  lemma {:induction false} StuckChild(v: View, item: Item, depth: nat) returns (i: nat)
    requires !Unfolds(v, item, depth)
    ensures !Cut(v, item) && i < |v.kids(item.node)|
    ensures depth > 0 ==> !Unfolds(v, ChildItem(v, item, i), depth - 1)
  {
    i :| i < |v.kids(item.node)| && !(depth > 0 && Unfolds(v, ChildItem(v, item, i), depth - 1));
  }

  lemma {:induction false} OneLess<T>(all: set<T>, less: set<T>, x: T)
    requires x in all && x !in less
    ensures |all - less| > 0 && |all - (less + {x})| == |all - less| - 1
  {
    assert all - (less + {x}) == (all - less) - {x};
  }

  /** Depth for passing `ids` nodes with ids and, before each, every node there is. */
  function Rounds(ids: nat, nodes: nat): nat {
    if ids == 0 then 0 else Rounds(ids - 1, nodes) + nodes + 1
  }

  /** A walk too deep for its ids and nodes has run into a loop. `seen` holds the nodes
      without ids passed since the last one with an id. */
  lemma {:induction false} DeepWalkHasLoop(v: View, item: Item, nodes: set<Ref>, ids: set<string>, left: nat,
                                           seen: set<Ref>, depth: nat)
    requires EntersOnly(v, nodes, ids) && AllLeadTo(v, seen, item.node)
    requires left >= |ids - item.ancestors| && depth >= Rounds(left, |nodes|) + |nodes - seen|
    requires !Unfolds(v, item, depth)
    ensures HasBlankLoop(v, item)
    decreases depth, 1
  {
    var r := item.node;
    var i := StuckChild(v, item, depth);
    assert v.kids(r) != [];
    if v.host(r).id != "" {
      DeepBelowNamed(v, item, nodes, ids, left, depth, i);
      LoopBelow(v, item, i);
    } else if r !in seen {
      DeepBelowBlank(v, item, nodes, ids, left, seen, depth, i);
      LoopBelow(v, item, i);
    } else {
      var q :| BlankRoute(v, r, q, r);
      assert Descends(v, item, []) && Arrive(v, item, []) == item;
    }
  }

  lemma {:induction false} DeepBelowBlank(v: View, item: Item, nodes: set<Ref>, ids: set<string>, left: nat,
                                          seen: set<Ref>, depth: nat, i: nat)
    requires EntersOnly(v, nodes, ids) && AllLeadTo(v, seen, item.node)
    requires i < |v.kids(item.node)| && v.host(item.node).id == "" && item.node !in seen
    requires left >= |ids - item.ancestors| && depth >= Rounds(left, |nodes|) + |nodes - seen|
    requires depth > 0 ==> !Unfolds(v, ChildItem(v, item, i), depth - 1)
    ensures HasBlankLoop(v, ChildItem(v, item, i))
    decreases depth, 0
  {
    assert v.kids(item.node) != [];
    var child, passed := ChildItem(v, item, i), seen + {item.node};
    OneLess(nodes, seen, item.node);
    assert AllLeadTo(v, passed, child.node) by {
      SeenLeadsFurther(v, seen, item.node, i);
    }
    assert child.ancestors == item.ancestors;
    DeepWalkHasLoop(v, child, nodes, ids, left, passed, depth - 1);
  }

  lemma {:induction false} DeepBelowNamed(v: View, item: Item, nodes: set<Ref>, ids: set<string>, left: nat,
                                          depth: nat, i: nat)
    requires EntersOnly(v, nodes, ids) && !Cut(v, item) && i < |v.kids(item.node)| && v.host(item.node).id != ""
    requires left >= |ids - item.ancestors| && depth >= Rounds(left, |nodes|)
    requires depth > 0 ==> !Unfolds(v, ChildItem(v, item, i), depth - 1)
    ensures HasBlankLoop(v, ChildItem(v, item, i))
    decreases depth, 0
  {
    assert v.kids(item.node) != [];
    OneLess(ids, item.ancestors, v.host(item.node).id);
    assert nodes - {} == nodes;
    DeepWalkHasLoop(v, ChildItem(v, item, i), nodes, ids, left - 1, {}, depth - 1);
  }

  lemma {:induction false} LoopBelow(v: View, item: Item, i: nat)
    requires !Cut(v, item) && i < |v.kids(item.node)| && HasBlankLoop(v, ChildItem(v, item, i))
    ensures HasBlankLoop(v, item)
  {
    var child := ChildItem(v, item, i);
    var p, q :| Descends(v, child, p) && BlankRoute(v, Arrive(v, child, p).node, q, Arrive(v, child, p).node);
    assert ([i] + p)[1..] == p;
    assert Descends(v, item, [i] + p) && Arrive(v, item, [i] + p) == Arrive(v, child, p);
  }

  /** Depth enough for every finite walk of the document. */
  function DepthBound(doc: Doc): nat {
    Rounds(|Ids(doc)|, |doc.Keys|) + |doc.Keys|
  }

  /** The walk of a document is infinite exactly when it comes to a node without an id that
      is its own descendant through drawn children without ids; and a finite one is no
      deeper than the bound. */
  lemma {:induction false} InfiniteExactlyWithBlankLoop(doc: Doc, item: Item)
    ensures Unfolds(ViewOf(doc), item, DepthBound(doc)) <==> !HasBlankLoop(ViewOf(doc), item)
    ensures forall depth: nat :: Unfolds(ViewOf(doc), item, depth) ==> !HasBlankLoop(ViewOf(doc), item)
  {
    var v, bound := ViewOf(doc), DepthBound(doc);
    forall depth: nat | HasBlankLoop(v, item)
      ensures !Unfolds(v, item, depth)
    {
      BlankLoopNeverUnfolds(v, item, depth);
    }
    if !Unfolds(v, item, bound) {
      EntersOnlyHeld(doc);
      SmallerSet(Ids(doc) - item.ancestors, Ids(doc));
      assert doc.Keys - {} == doc.Keys;
      DeepWalkHasLoop(v, item, doc.Keys, Ids(doc), |Ids(doc)|, {}, bound);
    }
  }

  lemma {:induction false} EntersOnlyHeld(doc: Doc)
    ensures EntersOnly(ViewOf(doc), doc.Keys, Ids(doc))
  {
    forall r: Ref | ViewOf(doc).kids(r) != []
      ensures r in doc.Keys && ViewOf(doc).host(r).id in Ids(doc)
    {
      assert r in doc;
    }
  }

  /** A node without an id that lists itself, while its parent link leads out of the
      document: it draws, and so it is listed below itself without end. */
  const SELF_LISTED: Doc := map[0 := Host("", "", "FRAME", None, false, 1, [0])]

  lemma {:induction false} SelfListedLoops()
    ensures ViewOf(SELF_LISTED).kids(0) == [0] && ViewOf(SELF_LISTED).host(0).id == ""
    ensures HasBlankLoop(ViewOf(SELF_LISTED), Item(0, [], {}))
  {
    var v, item := ViewOf(SELF_LISTED), Item(0, [], {});
    assert OnBelow(SELF_LISTED, 0, 1) by {
      assert Up(SELF_LISTED, 0, 0) == 0;
    }
    assert Up(SELF_LISTED, 0, 1) == 1;
    VerdictMeaning(SELF_LISTED, 0, MAX_ANCESTOR_WALK);
    assert VisibleOnly(SELF_LISTED, [0]) == [0] + VisibleOnly(SELF_LISTED, [0][1..]);
    assert Descends(v, item, []) && Arrive(v, item, []) == item;
    assert BlankRoute(v, 0, [0], 0);
  }
}
