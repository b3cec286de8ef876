/** Which places a walk visits, said of the document's child lists alone: what cycle
    cutting leaves out, and in which order the rest comes. */
module Places {
  import opened Common
  import opened Document
  import opened Visibility
  import opened Walk

  /** `path` picks, at every node from `from` down, one of its listed children. */
  predicate Leads(v: View, from: Ref, path: seq<nat>)
    decreases |path|
  {
    path == [] || (path[0] < |v.kids(from)| && Leads(v, v.kids(from)[path[0]], path[1..]))
  }

  function NodeAt(v: View, from: Ref, path: seq<nat>): Ref
    requires Leads(v, from, path)
    decreases |path|
  {
    if path == [] then from else NodeAt(v, v.kids(from)[path[0]], path[1..])
  }

  /** The ids of the nodes left on the way, first to last. */
  function NamesLeft(v: View, from: Ref, path: seq<nat>): (names: seq<string>)
    requires Leads(v, from, path)
    ensures |names| == |path|
    decreases |path|
  {
    if path == [] then [] else [v.host(from).id] + NamesLeft(v, v.kids(from)[path[0]], path[1..])
  }

  /** No id but the empty one occurs twice. */
  predicate NoneTwice(names: seq<string>) {
    forall i, j :: 0 <= i < j < |names| && names[i] == names[j] ==> names[i] == ""
  }

  /** A place of the walk from `from`: a way down that leaves no two nodes of one id. */
  predicate IsPlace(v: View, from: Ref, path: seq<nat>) {
    Leads(v, from, path) && NoneTwice(NamesLeft(v, from, path))
  }

  /** Document order: a node before what is under it, and an earlier child before a later. */
  predicate Before(a: seq<nat>, b: seq<nat>) {
    if a == [] || b == [] then b != []
    else a[0] < b[0] || (a[0] == b[0] && Before(a[1..], b[1..]))
  }

  predicate Rising(paths: seq<seq<nat>>) {
    forall i, j :: 0 <= i < j < |paths| ==> Before(paths[i], paths[j])
  }

  // ---------- order ----------

  lemma {:induction false} BeforeIsStrict(a: seq<nat>)
    ensures !Before(a, a)
  {
    if a != [] {
      BeforeIsStrict(a[1..]);
    }
  }

  lemma {:induction false} BeforeIsTotal(a: seq<nat>, b: seq<nat>)
    ensures a == b || Before(a, b) || Before(b, a)
  {
    if a != [] && b != [] && a[0] == b[0] {
      BeforeIsTotal(a[1..], b[1..]);
      assert a == [a[0]] + a[1..] && b == [b[0]] + b[1..];
    }
  }

  lemma {:induction false} BeforeIsTransitive(a: seq<nat>, b: seq<nat>, c: seq<nat>)
    requires Before(a, b) && Before(b, c)
    ensures Before(a, c)
  {
    if a != [] && a[0] == b[0] == c[0] {
      BeforeIsTransitive(a[1..], b[1..], c[1..]);
    }
  }

  /** What lies under a common node is ordered as it is below that node. */
  lemma {:induction false} BeforeUnder(p: seq<nat>, a: seq<nat>, b: seq<nat>)
    ensures Before(p + a, p + b) <==> Before(a, b)
    decreases |p|
  {
    if p == [] {
      assert p + a == a && p + b == b;
    } else {
      assert (p + a)[1..] == p[1..] + a && (p + b)[1..] == p[1..] + b;
      BeforeUnder(p[1..], a, b);
    }
  }

  lemma {:induction false} ChildrenInOrder(p: seq<nat>, i: nat, j: nat, a: seq<nat>, b: seq<nat>)
    requires i < j
    ensures Before(p + [i] + a, p + [j] + b) && Before(p, p + [i] + a)
  {
    assert p + [i] + a == p + ([i] + a) && p + [j] + b == p + ([j] + b) && p + [] == p;
    BeforeUnder(p, [i] + a, [j] + b);
    BeforeUnder(p, [], [i] + a);
  }

  lemma {:induction false} RisingJoins(a: seq<seq<nat>>, b: seq<seq<nat>>)
    requires Rising(a) && Rising(b) && forall x, y :: x in a && y in b ==> Before(x, y)
    ensures Rising(a + b)
  {
    var all := a + b;
    forall i, j | 0 <= i < j < |all|
      ensures Before(all[i], all[j])
    {
      if i < |a| <= j {
        assert all[i] in a && all[j] in b;
      }
    }
  }

  lemma {:induction false} FirstIsLeast(a: seq<seq<nat>>, b: seq<seq<nat>>)
    requires Rising(a) && Rising(b) && a != [] && b != [] && a[0] in b && b[0] in a
    ensures a[0] == b[0]
  {
    if a[0] != b[0] {
      var i :| 0 <= i < |a| && a[i] == b[0];
      var j :| 0 <= j < |b| && b[j] == a[0];
      BeforeIsTransitive(a[0], b[0], a[0]);
      BeforeIsStrict(a[0]);
    }
  }

  lemma {:induction false} RestHolds(paths: seq<seq<nat>>, p: seq<nat>)
    requires Rising(paths) && paths != []
    ensures p in paths[1..] <==> p in paths && p != paths[0]
  {
    assert paths == [paths[0]] + paths[1..];
    if p in paths[1..] {
      var j :| 0 <= j < |paths| - 1 && paths[1..][j] == p;
      assert Before(paths[0], paths[j + 1]);
      BeforeIsStrict(p);
    }
  }

  /** A rising list is determined by what it holds. */
  lemma {:induction false} RisingIsDetermined(a: seq<seq<nat>>, b: seq<seq<nat>>)
    requires Rising(a) && Rising(b) && forall p :: p in a <==> p in b
    ensures a == b
  {
    assert b != [] ==> b[0] in b;
    if a != [] {
      assert a[0] in a;
      FirstIsLeast(a, b);
      forall p
        ensures p in a[1..] <==> p in b[1..]
      {
        RestHolds(a, p);
        RestHolds(b, p);
      }
      RisingIsDetermined(a[1..], b[1..]);
      assert a == [a[0]] + a[1..] && b == [b[0]] + b[1..];
    }
  }

  // ---------- where a walk may go ----------

  /** A place below `item`, which has left nodes of the ids `item.ancestors` already. */
  predicate IsPlaceBelow(v: View, item: Item, path: seq<nat>) {
    && Leads(v, item.node, path)
    && var names := NamesLeft(v, item.node, path);
       NoneTwice(names) && forall i :: 0 <= i < |names| && names[i] != "" ==> names[i] !in item.ancestors
  }

  lemma {:induction false} NamesBelow(name: string, names: seq<string>, above: set<string>)
    ensures var all := [name] + names;
      (NoneTwice(all) && forall i :: 0 <= i < |all| && all[i] != "" ==> all[i] !in above)
      <==>
      && (name == "" || name !in above)
      && NoneTwice(names)
      && forall i :: 0 <= i < |names| && names[i] != "" ==>
           names[i] !in above && (name == "" || names[i] != name)
  {
    var all := [name] + names;
    if NoneTwice(all) && forall i :: 0 <= i < |all| && all[i] != "" ==> all[i] !in above {
      assert all[0] == name;
      assert forall i :: 0 <= i < |names| ==> all[i + 1] == names[i];
      forall i | 0 <= i < |names| && names[i] != ""
        ensures names[i] !in above && (name == "" || names[i] != name)
      {
        assert all[i + 1] == names[i];
        assert all[0] == all[i + 1] ==> all[0] == "";
      }
      forall i, j | 0 <= i < j < |names| && names[i] == names[j]
        ensures names[i] == ""
      {
        assert all[i + 1] == all[j + 1];
      }
    }
  }

  /** Below `item` lies what lies below its children, unless it repeats an id. */
  lemma {:induction false} PlaceBelowChild(v: View, item: Item, path: seq<nat>)
    requires path != []
    ensures IsPlaceBelow(v, item, path) <==>
      && !Cut(v, item) && path[0] < |v.kids(item.node)|
      && IsPlaceBelow(v, ChildItem(v, item, path[0]), path[1..])
  {
    if Leads(v, item.node, path) {
      var child := ChildItem(v, item, path[0]);
      NamesBelow(v.host(item.node).id, NamesLeft(v, child.node, path[1..]), item.ancestors);
    }
  }

  lemma {:induction false} HereIsAPlace(v: View, item: Item)
    ensures IsPlaceBelow(v, item, []) && NodeAt(v, item.node, []) == item.node
  {
  }

  /** What a walk can descend to are the places. */
  lemma {:induction false} DescentsArePlaces(v: View, item: Item, path: seq<nat>)
    ensures Descends(v, item, path) <==> IsPlaceBelow(v, item, path)
    ensures Descends(v, item, path) ==> Arrive(v, item, path).node == NodeAt(v, item.node, path)
    decreases |path|
  {
    hide IsPlaceBelow, Cut;
    if path == [] {
      HereIsAPlace(v, item);
    } else {
      PlaceBelowChild(v, item, path);
      if path[0] < |v.kids(item.node)| {
        DescentsArePlaces(v, ChildItem(v, item, path[0]), path[1..]);
      }
    }
  }

  /** A walk is finite, and no deeper than `depth`, exactly when no place is deeper. */
  lemma {:induction false} UnfoldingHoldsAllPlaces(v: View, item: Item, depth: nat)
    ensures Unfolds(v, item, depth) <==> forall p :: IsPlaceBelow(v, item, p) ==> |p| <= depth
    decreases depth
  {
    hide IsPlaceBelow;
    if Unfolds(v, item, depth) {
      forall p | IsPlaceBelow(v, item, p)
        ensures |p| <= depth
      {
        DescentsArePlaces(v, item, p);
        DescentTakesDepth(v, item, p, depth);
      }
    } else {
      var p := DeepPlace(v, item, depth);
    }
  }

  lemma {:induction false} DeepPlace(v: View, item: Item, depth: nat) returns (path: seq<nat>)
    requires !Unfolds(v, item, depth)
    ensures IsPlaceBelow(v, item, path) && |path| == depth + 1
    decreases depth
  {
    hide IsPlaceBelow;
    var i := StuckChild(v, item, depth);
    var child := ChildItem(v, item, i);
    var rest := [];
    HereIsAPlace(v, child);
    if depth > 0 {
      rest := DeepPlace(v, child, depth - 1);
    }
    path := [i] + rest;
    assert path[1..] == rest;
    PlaceBelowChild(v, item, path);
  }

  // ---------- what the preorder lists ----------

  function Paths(items: seq<Item>): (paths: seq<seq<nat>>)
    ensures |paths| == |items|
    ensures forall i :: 0 <= i < |items| ==> paths[i] == items[i].path
  {
    if items == [] then [] else [items[0].path] + Paths(items[1..])
  }

  /** `x` stands at a place below `item`, and is the node there. */
  predicate Placed(v: View, item: Item, x: Item) {
    && item.path <= x.path
    && var p := x.path[|item.path|..]; IsPlaceBelow(v, item, p) && x.node == NodeAt(v, item.node, p)
  }

  lemma {:induction false} PlacedBelowChild(v: View, item: Item, i: nat, x: Item)
    requires !Cut(v, item) && i < |v.kids(item.node)| && Placed(v, ChildItem(v, item, i), x)
    ensures Placed(v, item, x) && |x.path| > |item.path| && x.path[|item.path|] == i
  {
    hide IsPlaceBelow, Cut;
    var p := x.path[|item.path|..];
    assert x.path[|item.path|] == (item.path + [i])[|item.path|] == i;
    assert p[1..] == x.path[|item.path + [i]|..];
    PlaceBelowChild(v, item, p);
    PlacesLead(v, item, p);
    assert item.path == x.path[..|item.path|];
  }

  lemma {:induction false} PlacesLead(v: View, item: Item, path: seq<nat>)
    requires IsPlaceBelow(v, item, path)
    ensures Leads(v, item.node, path)
  {
  }

  lemma {:induction false} PreorderIsPlaced(v: View, item: Item, depth: nat)
    requires Unfolds(v, item, depth)
    ensures forall x :: x in Preorder(v, item, depth) ==> Placed(v, item, x)
    decreases depth, 1, 0
  {
    hide IsPlaceBelow, Cut;
    HereIsAPlace(v, item);
    assert item.path[|item.path|..] == [];
    if !Cut(v, item) {
      PreorderFromIsPlaced(v, item, 0, depth);
    }
  }

  lemma {:induction false} PreorderFromIsPlaced(v: View, item: Item, index: nat, depth: nat)
    requires Unfolds(v, item, depth) && !Cut(v, item) && index <= |v.kids(item.node)|
    ensures forall x :: x in PreorderFrom(v, item, index, depth) ==>
      Placed(v, item, x) && |x.path| > |item.path| && x.path[|item.path|] >= index
    decreases depth, 0, |v.kids(item.node)| - index
  {
    hide IsPlaceBelow, Cut, Placed;
    if index < |v.kids(item.node)| {
      var child := ChildItem(v, item, index);
      PreorderIsPlaced(v, child, depth - 1);
      PreorderFromIsPlaced(v, item, index + 1, depth);
      forall x | x in Preorder(v, child, depth - 1)
        ensures Placed(v, item, x) && |x.path| > |item.path| && x.path[|item.path|] >= index
      {
        PlacedBelowChild(v, item, index, x);
      }
    }
  }

  lemma {:induction false} PlacesAreListed(v: View, item: Item, depth: nat, path: seq<nat>)
    requires Unfolds(v, item, depth) && IsPlaceBelow(v, item, path)
    ensures item.path + path in Paths(Preorder(v, item, depth))
    decreases |path|
  {
    hide IsPlaceBelow, Cut, Paths;
    var all := Preorder(v, item, depth);
    if path == [] {
      assert item.path + [] == item.path == Paths(all)[0];
    } else {
      PlaceBelowChild(v, item, path);
      var child := ChildItem(v, item, path[0]);
      PlacesAreListed(v, child, depth - 1, path[1..]);
      assert item.path + path == child.path + path[1..];
      assert all == [item] + PreorderFrom(v, item, 0, depth);
      ChildIsListed(v, item, 0, depth, path[0]);
      ListedPath(Preorder(v, child, depth - 1), all, item.path + path);
    }
  }

  lemma {:induction false} ListedPath(some: seq<Item>, all: seq<Item>, path: seq<nat>)
    requires path in Paths(some) && forall x :: x in some ==> x in all
    ensures path in Paths(all)
  {
    var i :| 0 <= i < |some| && Paths(some)[i] == path;
    assert some[i] in all;
    var j :| 0 <= j < |all| && all[j] == some[i];
    assert Paths(all)[j] == path;
  }

  lemma {:induction false} ChildIsListed(v: View, item: Item, index: nat, depth: nat, i: nat)
    requires Unfolds(v, item, depth) && !Cut(v, item) && index <= i < |v.kids(item.node)|
    ensures forall x :: x in Preorder(v, ChildItem(v, item, i), depth - 1) ==> x in PreorderFrom(v, item, index, depth)
    decreases i - index
  {
    if index < i {
      ChildIsListed(v, item, index + 1, depth, i);
    }
  }

  lemma {:induction false} PathsJoin(a: seq<Item>, b: seq<Item>)
    ensures Paths(a + b) == Paths(a) + Paths(b)
  {
  }

  lemma {:induction false} PlacedBefore(v: View, item: Item, i: nat, x: Item, y: Item)
    requires i < |v.kids(item.node)| && Placed(v, ChildItem(v, item, i), x)
    requires Placed(v, item, y) && |y.path| > |item.path| && y.path[|item.path|] > i
    ensures Before(x.path, y.path)
  {
    hide IsPlaceBelow, Before;
    var n := |item.path|;
    var j := y.path[n];
    ChildrenInOrder(item.path, i, j, x.path[n + 1..], y.path[n + 1..]);
    assert x.path == item.path + [i] + x.path[n + 1..];
    assert item.path == y.path[..n] && y.path == item.path + [j] + y.path[n + 1..];
  }

  lemma {:induction false} PreorderRises(v: View, item: Item, depth: nat)
    requires Unfolds(v, item, depth)
    ensures Rising(Paths(Preorder(v, item, depth)))
    decreases depth, 1, 0
  {
    hide IsPlaceBelow, Cut, Before, Placed, Paths;
    if Cut(v, item) {
      assert Preorder(v, item, depth) == [item];
    } else {
      var rest := PreorderFrom(v, item, 0, depth);
      PreorderFromRises(v, item, 0, depth);
      PreorderFromIsPlaced(v, item, 0, depth);
      forall q | q in Paths(rest)
        ensures Before(item.path, q)
      {
        var k :| 0 <= k < |rest| && Paths(rest)[k] == q;
        UnderComesLater(v, item, rest[k]);
      }
      assert Paths([item]) == [item.path];
      RisingJoins(Paths([item]), Paths(rest));
      PathsJoin([item], rest);
    }
  }

  lemma {:induction false} UnderComesLater(v: View, item: Item, x: Item)
    requires Placed(v, item, x) && |x.path| > |item.path|
    ensures Before(item.path, x.path)
  {
    hide IsPlaceBelow, Before;
    var n := |item.path|;
    ChildrenInOrder(item.path, x.path[n], x.path[n] + 1, x.path[n + 1..], []);
    assert item.path == x.path[..n] && x.path == item.path + [x.path[n]] + x.path[n + 1..];
  }

  lemma {:induction false} PreorderFromRises(v: View, item: Item, index: nat, depth: nat)
    requires Unfolds(v, item, depth) && !Cut(v, item) && index <= |v.kids(item.node)|
    ensures Rising(Paths(PreorderFrom(v, item, index, depth)))
    decreases depth, 0, |v.kids(item.node)| - index
  {
    hide IsPlaceBelow, Cut, Before, Placed, Paths;
    if index < |v.kids(item.node)| {
      var child := ChildItem(v, item, index);
      var first, rest := Preorder(v, child, depth - 1), PreorderFrom(v, item, index + 1, depth);
      PreorderRises(v, child, depth - 1);
      PreorderFromRises(v, item, index + 1, depth);
      PreorderIsPlaced(v, child, depth - 1);
      PreorderFromIsPlaced(v, item, index + 1, depth);
      forall p, q | p in Paths(first) && q in Paths(rest)
        ensures Before(p, q)
      {
        var i :| 0 <= i < |first| && Paths(first)[i] == p;
        var j :| 0 <= j < |rest| && Paths(rest)[j] == q;
        PlacedBefore(v, item, index, first[i], rest[j]);
      }
      RisingJoins(Paths(first), Paths(rest));
      PathsJoin(first, rest);
    }
  }

  /** The walk from a start that has nothing above it. */
  function From(r: Ref): Item {
    Item(r, [], {})
  }

  lemma {:induction false} PlacesFromTheTop(v: View, r: Ref, path: seq<nat>)
    ensures IsPlaceBelow(v, From(r), path) <==> IsPlace(v, r, path)
  {
  }

  /** What a finite walk lists, and in which order: the paths of its items rise in document
      order, they are exactly the places, and each item is the node at its place. */
  ghost predicate ListsPlaces(v: View, from: Ref, items: seq<Item>) {
    && Rising(Paths(items))
    && (forall p :: p in Paths(items) <==> IsPlace(v, from, p))
    && forall x :: x in items ==> IsPlace(v, from, x.path) && x.node == NodeAt(v, from, x.path)
  }

  lemma {:induction false} PreorderListsPlaces(v: View, from: Ref, depth: nat)
    requires Unfolds(v, From(from), depth)
    ensures ListsPlaces(v, from, Preorder(v, From(from), depth))
  {
    hide IsPlaceBelow, NoneTwice, Rising, Paths, Unfolds, Preorder;
    var item := From(from);
    var all := Preorder(v, item, depth);
    PreorderRises(v, item, depth);
    PreorderIsPlaced(v, item, depth);
    forall x | x in all
      ensures IsPlace(v, from, x.path) && x.node == NodeAt(v, from, x.path)
    {
      assert x.path[0..] == x.path;
      PlacesFromTheTop(v, from, x.path);
    }
    forall p
      ensures p in Paths(all) <==> IsPlace(v, from, p)
    {
      PlacesFromTheTop(v, from, p);
      if IsPlace(v, from, p) {
        PlacesAreListed(v, item, depth, p);
        assert item.path + p == p;
      }
      if p in Paths(all) {
        var i :| 0 <= i < |all| && Paths(all)[i] == p;
        assert all[i] in all;
      }
    }
  }

  /** Finiteness in the same terms. */
  lemma {:induction false} FiniteExactlyWithBoundedPlaces(v: View, from: Ref, depth: nat)
    ensures Unfolds(v, From(from), depth) <==> forall p :: IsPlace(v, from, p) ==> |p| <= depth
  {
    hide IsPlaceBelow, IsPlace, Unfolds;
    UnfoldingHoldsAllPlaces(v, From(from), depth);
    forall p
      ensures IsPlaceBelow(v, From(from), p) <==> IsPlace(v, from, p)
    {
      PlacesFromTheTop(v, from, p);
    }
  }

  // ---------- what a document lists ----------

  /** A walk over a document is offered, of a node's children, exactly those that draw, in
      the order and as often as they are listed. */
  lemma {:induction false} DrawnChildrenAreListed(doc: Doc, r: Ref) returns (at: seq<nat>)
    ensures Picks(if r in doc then doc[r].children else [], c => RendersVisibly(doc, c), at, ViewOf(doc).kids(r))
  {
    at := DrawnArePicked(doc, if r in doc then doc[r].children else []);
  }

  lemma {:induction false} DrawnArePicked(doc: Doc, refs: seq<Ref>) returns (at: seq<nat>)
    ensures Picks(refs, c => RendersVisibly(doc, c), at, VisibleOnly(doc, refs))
  {
    hide RendersVisibly;
    if refs == [] {
      at := [];
    } else {
      var front, last := refs[..|refs| - 1], refs[|refs| - 1];
      at := DrawnArePicked(doc, front);
      PicksOneMore(front, c => RendersVisibly(doc, c), at, VisibleOnly(doc, front), last);
      assert refs == front + [last];
      VisibleOnlyPieces(doc, front, [last]);
      assert VisibleOnly(doc, [last]) == (if RendersVisibly(doc, last) then [last] else []) by {
        assert [last][1..] == [];
      }
      if RendersVisibly(doc, last) {
        at := at + [|front|];
      } else {
        assert VisibleOnly(doc, front) + [] == VisibleOnly(doc, front);
      }
    }
  }

  ghost predicate HeldAndOn(doc: Doc, r: Ref, k: nat) {
    forall j: nat :: j < k ==> Up(doc, r, j) in doc && !doc[Up(doc, r, j)].switchedOff
  }

  /** A node draws when, within 1024 steps up, its parent links leave the document with
      nothing switched off on the way. */
  lemma {:induction false} DrawsMeaning(doc: Doc, r: Ref, bound: nat)
    requires bound == 1024
    ensures RendersVisibly(doc, r) <==>
      exists k: nat :: k < bound && Up(doc, r, k) !in doc && HeldAndOn(doc, r, k)
  {
    VerdictMeaning(doc, r, bound);
    if RendersVisibly(doc, r) {
      var k: nat :| k < bound && OnBelow(doc, r, k) && Up(doc, r, k) !in doc;
      assert forall j: nat :: j < k ==> SwitchedOn(doc, Up(doc, r, j));
      assert HeldAndOn(doc, r, k);
    }
    if k: nat :| k < bound && Up(doc, r, k) !in doc && HeldAndOn(doc, r, k) {
      assert OnBelow(doc, r, k);
    }
  }

  // ---------- blank loops ----------

  predicate AllBlank(names: seq<string>) {
    forall i :: 0 <= i < |names| ==> names[i] == ""
  }

  /** A way from one node to another that leaves only nodes without ids. */
  predicate IsBlankWay(v: View, from: Ref, path: seq<nat>, to: Ref) {
    path != [] && Leads(v, from, path) && NodeAt(v, from, path) == to && AllBlank(NamesLeft(v, from, path))
  }

  lemma {:induction false} AllBlankFrom(name: string, names: seq<string>)
    ensures AllBlank([name] + names) <==> name == "" && AllBlank(names)
  {
    var all := [name] + names;
    if AllBlank(all) {
      assert all[0] == name && forall i :: 0 <= i < |names| ==> names[i] == all[i + 1];
    }
  }

  lemma {:induction false} RouteMeaning(v: View, from: Ref, path: seq<nat>, to: Ref)
    ensures BlankRoute(v, from, path, to) <==> IsBlankWay(v, from, path, to)
    decreases |path|
  {
    hide AllBlank;
    if path != [] && path[0] < |v.kids(from)| {
      var child := v.kids(from)[path[0]];
      if |path| == 1 {
        assert path[1..] == [];
        AllBlankFrom(v.host(from).id, []);
        NoneIsBlank();
        assert Leads(v, from, path) && NodeAt(v, from, path) == child;
        assert NamesLeft(v, from, path) == [v.host(from).id] + [];
        assert BlankRoute(v, from, path, to) <==> v.host(from).id == "" && child == to;
      } else {
        assert BlankRoute(v, from, path, to) <==> v.host(from).id == "" && BlankRoute(v, child, path[1..], to);
        RouteMeaning(v, child, path[1..], to);
        if Leads(v, from, path) {
          AllBlankFrom(v.host(from).id, NamesLeft(v, child, path[1..]));
        }
      }
    }
  }

  lemma {:induction false} NoneIsBlank()
    ensures AllBlank([])
  {
  }

  ghost predicate HasPlaceBeyond(v: View, from: Ref, n: nat) {
    exists p :: IsPlace(v, from, p) && |p| > n
  }

  /** A document's walk has places of every depth exactly when such a way leads from one of
      its places back to the same node; else none is deeper than the bound. */
  lemma {:induction false} DeepPlacesExactlyWithBlankLoop(doc: Doc, from: Ref)
    ensures var v := ViewOf(doc);
      (forall n: nat :: HasPlaceBeyond(v, from, n))
      <==> exists p, q :: IsPlace(v, from, p) && IsBlankWay(v, NodeAt(v, from, p), q, NodeAt(v, from, p))
    ensures var v := ViewOf(doc);
      (forall p :: IsPlace(v, from, p) ==> |p| <= DepthBound(doc))
      || exists p, q :: IsPlace(v, from, p) && IsBlankWay(v, NodeAt(v, from, p), q, NodeAt(v, from, p))
  {
    hide IsPlaceBelow, NoneTwice, Unfolds, BlankRoute, Descends, Arrive, ViewOf, DepthBound, IsBlankWay, HasBlankLoop;
    var v, item := ViewOf(doc), From(from);
    InfiniteExactlyWithBlankLoop(doc, item);
    BlankLoopMeaning(v, from);
    FiniteExactlyWithBoundedPlaces(v, from, DepthBound(doc));
    if !HasBlankLoop(v, item) {
      assert !HasPlaceBeyond(v, from, DepthBound(doc));
    } else {
      forall n: nat
        ensures HasPlaceBeyond(v, from, n)
      {
        FiniteExactlyWithBoundedPlaces(v, from, n);
      }
    }
  }

  lemma {:induction false} BlankLoopMeaning(v: View, from: Ref)
    ensures HasBlankLoop(v, From(from)) <==>
      exists p, q :: IsPlace(v, from, p) && IsBlankWay(v, NodeAt(v, from, p), q, NodeAt(v, from, p))
  {
    hide IsPlaceBelow, NoneTwice, BlankRoute, Descends, Arrive, IsBlankWay;
    var item := From(from);
    if HasBlankLoop(v, item) {
      var p, q :| Descends(v, item, p) && BlankRoute(v, Arrive(v, item, p).node, q, Arrive(v, item, p).node);
      DescentsArePlaces(v, item, p);
      PlacesFromTheTop(v, from, p);
      RouteMeaning(v, Arrive(v, item, p).node, q, Arrive(v, item, p).node);
      assert IsPlace(v, from, p) && IsBlankWay(v, NodeAt(v, from, p), q, NodeAt(v, from, p));
    }
    if p, q :| IsPlace(v, from, p) && IsBlankWay(v, NodeAt(v, from, p), q, NodeAt(v, from, p)) {
      DescentsArePlaces(v, item, p);
      PlacesFromTheTop(v, from, p);
      RouteMeaning(v, NodeAt(v, from, p), q, NodeAt(v, from, p));
      assert Descends(v, item, p) && BlankRoute(v, Arrive(v, item, p).node, q, Arrive(v, item, p).node);
    }
  }
}
