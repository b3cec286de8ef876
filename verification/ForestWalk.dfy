/** The forest walker the readers share: a recursion that visits each node once per
    place in the cycle-cut visible preorder, until a budget runs out. */
module ForestWalk {
  import opened Common
  import opened Document
  import opened Walk
  import opened Serialize

  /** The stack of roots: the first root on top. */
  function RootStack(roots: seq<Ref>): Stack {
    if roots == [] then Empty else Push(Item(roots[0], [], {}), RootStack(roots[1..]))
  }

  function Nodes(items: seq<Item>): (nodes: seq<Ref>)
    ensures |nodes| == |items|
  {
    if items == [] then [] else Nodes(items[..|items| - 1]) + [items[|items| - 1].node]
  }

  lemma {:induction false} NodesOfConcat(a: seq<Item>, b: seq<Item>)
    ensures Nodes(a + b) == Nodes(a) + Nodes(b)
    decreases |b|
  {
    if b == [] {
      assert a + b == a;
    } else {
      assert (a + b)[..|a + b| - 1] == a + b[..|b| - 1];
      NodesOfConcat(a, b[..|b| - 1]);
    }
  }

  lemma {:induction false} OrderGrows(start: seq<Ref>, p: seq<Item>, q: seq<Item>)
    ensures start + Nodes(p) + Nodes(q) == start + Nodes(p + q)
  {
    NodesOfConcat(p, q);
  }

  lemma {:induction false} OneNode(item: Item)
    ensures Nodes([item]) == [item.node]
  {
    assert [item][..0] == [] && Nodes([]) == [];
  }

  /** Two runs after one another, and what a visitor sees of them. */
  lemma {:induction false} RunsJoin(v: View, a: Stack, p: seq<Item>, b: Stack, q: seq<Item>, c: Stack)
    requires Pops(v, a, p, b) && Pops(v, b, q, c)
    ensures Pops(v, a, p + q, c) && Nodes(p + q) == Nodes(p) + Nodes(q)
    ensures q != [] ==> (p + q)[|p + q| - 1] == q[|q| - 1]
    ensures q == [] ==> p + q == p
  {
    PopsThen(v, a, p, b, q, c);
    NodesOfConcat(p, q);
  }

  /** A visitor: for each node, the encoded length of what it tries to return, or
      nothing when it only looks. */
  type Visitor = Ref -> Option<nat>

  /** What one more visit makes of what has been accepted: nothing once an offer does not
      fit. */
  function Offered(limits: Limits, visitor: Visitor, before: Option<(nat, nat)>, r: Ref): Option<(nat, nat)> {
    var offer := visitor(r);
    if before.None? || offer.None? then before
    else if before.value.0 < limits.returned && before.value.1 + offer.value <= limits.encoded then
      Some((before.value.0 + 1, before.value.1 + offer.value))
    else None
  }

  /** What the payloads offered over a walk add up to, in number and in bytes. */
  function Accepted(limits: Limits, visitor: Visitor, order: seq<Ref>): Option<(nat, nat)> {
    if order == [] then Some((0, 0))
    else Offered(limits, visitor, Accepted(limits, visitor, order[..|order| - 1]), order[|order| - 1])
  }

  /** All offers but the last fitted. */
  predicate LastRefused(limits: Limits, visitor: Visitor, order: seq<Ref>) {
    order != [] && Accepted(limits, visitor, order).None? && Accepted(limits, visitor, order[..|order| - 1]).Some?
  }

  /** The verdict a refused last offer gives: the node limit when no more may be returned,
      else the byte limit and what the offer would have made of the total. */
  function Refusal(limits: Limits, visitor: Visitor, order: seq<Ref>): Truncation
    requires LastRefused(limits, visitor, order) && visitor(order[|order| - 1]).Some?
  {
    var taken := Accepted(limits, visitor, order[..|order| - 1]).value;
    if taken.0 >= limits.returned then NodeLimit(|order|)
    else ByteLimit(taken.1 + visitor(order[|order| - 1]).value)
  }

  lemma {:induction false} AcceptedOneMore(limits: Limits, visitor: Visitor, order: seq<Ref>, r: Ref)
    ensures (order + [r])[..|order|] == order && (order + [r])[|order|] == r
    ensures Accepted(limits, visitor, order + [r]) == Offered(limits, visitor, Accepted(limits, visitor, order), r)
  {
    assert (order + [r])[..|order|] == order;
  }

  class WalkContext {
    const view: View
    const limits: Limits
    const visitor: Visitor
    var visited: nat
    var returned: nat
    var encoded: nat
    var truncation: Option<Truncation>
    /** The calls made to the visitor, in order. */
    var order: seq<Ref>
    /** The last offer did not fit. */
    ghost var refused: bool

    constructor (view: View, limits: Limits, visitor: Visitor)
      ensures this.view == view && this.limits == limits && this.visitor == visitor
      ensures visited == returned == encoded == 0 && truncation.None? && order == [] && Counting()
    {
      this.view, this.limits, this.visitor := view, limits, visitor;
      visited, returned, encoded, truncation, order := 0, 0, 0, None, [];
      refused := false;
    }

    /** Accept a payload if both budgets allow it. */
    method TryReturn(bytes: nat) returns (ok: bool)
      modifies this`returned, this`encoded, this`truncation
      ensures ok <==> old(returned) < limits.returned && old(encoded) + bytes <= limits.encoded
      ensures ok ==> returned == old(returned) + 1 && encoded == old(encoded) + bytes && truncation == old(truncation)
      ensures !ok ==> returned == old(returned) && encoded == old(encoded)
      ensures !ok ==> truncation == Marked(old(truncation),
        if old(returned) >= limits.returned then NodeLimit(visited) else ByteLimit(old(encoded) + bytes))
    {
      if returned >= limits.returned {
        truncation := Marked(truncation, NodeLimit(visited));
        return false;
      }
      if encoded + bytes > limits.encoded {
        truncation := Marked(truncation, ByteLimit(encoded + bytes));
        return false;
      }
      encoded := encoded + bytes;
      returned := returned + 1;
      return true;
    }

    /** The counts are those of the offers made. */
    ghost predicate Tallied()
      reads this
    {
      if refused then
        && LastRefused(limits, visitor, order) && visitor(order[|order| - 1]).Some?
        && Accepted(limits, visitor, order[..|order| - 1]) == Some((returned, encoded))
        && truncation == Some(Refusal(limits, visitor, order))
      else Accepted(limits, visitor, order) == Some((returned, encoded))
    }

    /** Between visits. */
    ghost predicate Counting()
      reads this
    {
      visited == |order| <= limits.visited && (refused ==> truncation.Some?) && Tallied()
    }

    /** Count the visit and call the visitor. */
    method VisitNode(raw: Ref)
      requires Counting() && truncation.None? && visited < limits.visited
      modifies this`visited, this`returned, this`encoded, this`truncation, this`order, this`refused
      ensures Counting() && order == old(order) + [raw]
      ensures refused <==> truncation.Some?
    {
      hide Accepted;
      visited := visited + 1;
      AcceptedOneMore(limits, visitor, order, raw);
      order := order + [raw];
      if visitor(raw).Some? {
        var accepted := TryReturn(visitor(raw).value);
        refused := !accepted;
      }
    }

    /** Walk one node and what is under it. `under` is what the equivalent stack
        machine would hold below the node; the walk stops only at a full budget. */
    method WalkNode(ghost item: Item, raw: Ref, ancestors: set<string>, ghost under: Stack)
      returns (ghost popped: seq<Item>, ghost rest: Stack)
      requires Counting() && truncation.None?
      requires item.node == raw && item.ancestors == ancestors
      modifies this`visited, this`returned, this`encoded, this`truncation, this`order, this`refused
      ensures Counting() && order == old(order) + Nodes(popped)
      ensures Pops(view, Push(item, under), popped, rest)
      ensures truncation.None? ==> rest == under
      ensures truncation.Some? ==> StoppedFor(rest)
      decreases limits.visited - visited, 0
    {
      popped, rest := [], Push(item, under);
      if visited >= limits.visited {
        truncation := Marked(truncation, NodeLimit(visited));
        return;
      }
      VisitNode(raw);
      popped, rest := [item], Step(view, Push(item, under));
      PopsOne(view, Push(item, under));
      OneNode(item);
      if truncation.Some? {
        return;
      }
      var id := view.host(raw).id;
      if id != "" && id in ancestors {
        return;
      }
      var nextAncestors := ancestors;
      if id != "" {
        nextAncestors := nextAncestors + {id};
      }
      ghost var more;
      more, rest := WalkChildren(item, raw, nextAncestors, under);
      RunsJoin(view, Push(item, under), [item], PushFrom(view, item, 0, under), more, rest);
      OrderGrows(old(order), [item], more);
      popped := [item] + more;
    }

    /** The loop over the children. */
    method WalkChildren(ghost item: Item, raw: Ref, nextAncestors: set<string>, ghost under: Stack)
      returns (ghost popped: seq<Item>, ghost rest: Stack)
      requires Counting() && truncation.None? && visited > 0
      requires item.node == raw && nextAncestors == Below(view, item)
      modifies this`visited, this`returned, this`encoded, this`truncation, this`order, this`refused
      ensures Counting() && order == old(order) + Nodes(popped)
      ensures Pops(view, PushFrom(view, item, 0, under), popped, rest)
      ensures truncation.None? ==> rest == under
      ensures truncation.Some? ==> StoppedFor(rest)
      decreases limits.visited - visited, 1
    {
      var children := view.kids(raw);
      popped, rest := [], PushFrom(view, item, 0, under);
      var index := 0;
      while index < |children|
        invariant 0 <= index <= |children|
        invariant Counting() && truncation.None? && order == old(order) + Nodes(popped)
        invariant old(visited) <= visited
        invariant Pops(view, PushFrom(view, item, 0, under), popped, rest)
        invariant rest == PushFrom(view, item, index, under)
      {
        ghost var child := ChildItem(view, item, index);
        ghost var more;
        ghost var before, at := popped, rest;
        more, rest := WalkNode(child, children[index], nextAncestors, PushFrom(view, item, index + 1, under));
        RunsJoin(view, PushFrom(view, item, 0, under), before, at, more, rest);
        OrderGrows(old(order), before, more);
        popped := before + more;
        if truncation.Some? {
          return;
        }
        index := index + 1;
      }
    }

    /** Why a walk stopped early: it met one more node with no visit left, or the offer
        made at its last visit, and no earlier one, did not fit. */
    ghost predicate StoppedFor(rest: Stack)
      reads this
    {
      refused || (visited == limits.visited && rest.Push? && truncation == Some(NodeLimit(visited)))
    }
  }

  datatype WalkResult = WalkResult(truncation: Option<Truncation>, visited: nat, returned: nat)

  /** A finished walk: the visitor saw the nodes of a run from the roots, to its end
      or to the point where a budget stopped it. */
  ghost predicate IsWalk(v: View, limits: Limits, visitor: Visitor, roots: seq<Ref>, order: seq<Ref>,
                         result: WalkResult, popped: seq<Item>, rest: Stack) {
    && Pops(v, RootStack(roots), popped, rest)
    && order == Nodes(popped)
    && result.visited == |order| <= limits.visited
    && if LastRefused(limits, visitor, order) then
         && visitor(order[|order| - 1]).Some?
         && result.returned == Accepted(limits, visitor, order[..|order| - 1]).value.0
         && result.truncation == Some(Refusal(limits, visitor, order))
       else
         && Accepted(limits, visitor, order).Some?
         && result.returned == Accepted(limits, visitor, order).value.0
         && (rest.Push? ==> |order| == limits.visited)
         && result.truncation == if rest.Push? then Some(NodeLimit(|order|)) else None
  }

  method WalkNodeForest(v: View, limits: Limits, visitor: Visitor, roots: seq<Ref>)
    returns (result: WalkResult, order: seq<Ref>)
    ensures exists popped, rest :: IsWalk(v, limits, visitor, roots, order, result, popped, rest)
  {
    hide Accepted;
    var context := new WalkContext(v, limits, visitor);
    ghost var popped: seq<Item>, rest := [], RootStack(roots);
    var index := 0;
    assert roots[0..] == roots;
    while index < |roots|
      invariant 0 <= index <= |roots|
      invariant context.view == v && context.limits == limits && context.visitor == visitor
      invariant context.Counting() && context.truncation.None? && context.order == Nodes(popped)
      invariant Pops(v, RootStack(roots), popped, rest) && rest == RootStack(roots[index..])
    {
      ghost var item := Item(roots[index], [], {});
      ghost var before, at := popped, rest;
      ghost var more;
      assert roots[index..][1..] == roots[index + 1..];
      more, rest := context.WalkNode(item, roots[index], {}, RootStack(roots[index + 1..]));
      RunsJoin(v, RootStack(roots), before, at, more, rest);
      popped := before + more;
      if context.truncation.Some? {
        break;
      }
      index := index + 1;
    }
    result := WalkResult(context.truncation, context.visited, context.returned);
    order := context.order;
    assert IsWalk(v, limits, visitor, roots, order, result, popped, rest);
  }

  // ---------- what a walk shows ----------

  /** The preorder of the whole forest. */
  function ForestPreorder(v: View, roots: seq<Ref>, depth: nat): seq<Item>
    requires AllUnfold(v, RootStack(roots), depth)
    decreases |roots|
  {
    if roots == [] then []
    else Preorder(v, Item(roots[0], [], {}), depth) + ForestPreorder(v, roots[1..], depth)
  }

  lemma {:induction false} ForestPreorderIsPopped(v: View, roots: seq<Ref>, depth: nat)
    requires AllUnfold(v, RootStack(roots), depth)
    ensures Pops(v, RootStack(roots), ForestPreorder(v, roots, depth), Empty)
    decreases |roots|
  {
    if roots != [] {
      var first, others := Item(roots[0], [], {}), RootStack(roots[1..]);
      PreorderIsPopped(v, first, depth, others);
      ForestPreorderIsPopped(v, roots[1..], depth);
      PopsThen(v, Push(first, others), Preorder(v, first, depth), others, ForestPreorder(v, roots[1..], depth), Empty);
    }
  }

  lemma {:induction false} NodesOfPrefix(items: seq<Item>, n: nat)
    requires n <= |items|
    ensures Nodes(items[..n]) == Nodes(items)[..n]
  {
    NodesOfConcat(items[..n], items[n..]);
    assert items == items[..n] + items[n..];
  }

  /** With a visitor that never tries to return anything, the walk visits exactly the
      first `limit` nodes of the cycle-cut visible preorder, or all of them if there
      are no more, and reports truncation exactly when there are more. */
  lemma {:induction false} LookingWalkIsPreorder(v: View, limits: Limits, visitor: Visitor, roots: seq<Ref>, depth: nat,
                                                 order: seq<Ref>, result: WalkResult, popped: seq<Item>, rest: Stack)
    requires IsWalk(v, limits, visitor, roots, order, result, popped, rest)
    requires forall r :: visitor(r).None?
    requires AllUnfold(v, RootStack(roots), depth)
    ensures var all := Nodes(ForestPreorder(v, roots, depth));
      && order == all[..Min(limits.visited, |all|)]
      && (result.truncation.Some? <==> |all| > limits.visited)
  {
    hide AllUnfold, ForestPreorder, Pops, Accepted;
    var all := ForestPreorder(v, roots, depth);
    LookersAreAccepted(limits, visitor, order);
    ForestPreorderIsPopped(v, roots, depth);
    RunIsPrefixOfEnded(v, RootStack(roots), popped, rest, all);
    assert popped == all[..|popped|];
    NodesOfPrefix(all, |popped|);
    if rest.Push? {
      PopsAgree(v, RootStack(roots), popped, rest, all, Empty);
      assert |all| > |popped|;
    }
  }

  /** On a forest that never stops unfolding the walk still ends, with every visit
      spent and truncation reported. */
  lemma {:induction false} EndlessWalkIsTruncated(v: View, limits: Limits, visitor: Visitor, roots: seq<Ref>,
                                                  order: seq<Ref>, result: WalkResult, popped: seq<Item>, rest: Stack)
    requires IsWalk(v, limits, visitor, roots, order, result, popped, rest)
    requires forall r :: visitor(r).None?
    requires forall depth: nat :: !AllUnfold(v, RootStack(roots), depth)
    ensures |order| == limits.visited && result.truncation == Some(NodeLimit(limits.visited))
  {
    LookersAreAccepted(limits, visitor, order);
    if result.truncation.None? {
      EndedRunUnfolds(v, RootStack(roots), popped);
    }
  }

  lemma {:induction false} LookersAreAccepted(limits: Limits, visitor: Visitor, order: seq<Ref>)
    requires forall r :: visitor(r).None?
    ensures Accepted(limits, visitor, order) == Some((0, 0))
  {
    if order != [] {
      LookersAreAccepted(limits, visitor, order[..|order| - 1]);
    }
  }

  lemma {:induction false} RefusalLasts(limits: Limits, visitor: Visitor, order: seq<Ref>, n: nat)
    requires n <= |order| && Accepted(limits, visitor, order[..n]).None?
    ensures Accepted(limits, visitor, order).None?
  {
    if n < |order| {
      assert order[..|order| - 1][..n] == order[..n];
      RefusalLasts(limits, visitor, order[..|order| - 1], n);
    } else {
      assert order[..n] == order;
    }
  }

  lemma {:induction false} OnlyTheLastIsRefused(limits: Limits, visitor: Visitor, order: seq<Ref>, n: nat)
    requires Accepted(limits, visitor, order).Some? || LastRefused(limits, visitor, order)
    requires n < |order|
    ensures Accepted(limits, visitor, order[..n]).Some?
  {
    if Accepted(limits, visitor, order[..n]).None? {
      var front := order[..|order| - 1];
      assert front[..n] == order[..n];
      RefusalLasts(limits, visitor, front, n);
      RefusalLasts(limits, visitor, order, n);
    }
  }

  lemma {:induction false} NoWalkGoesFurther(v: View, limits: Limits, visitor: Visitor, roots: seq<Ref>,
                                             order: seq<Ref>, result: WalkResult, popped: seq<Item>, rest: Stack,
                                             order': seq<Ref>, result': WalkResult, popped': seq<Item>, rest': Stack)
    requires IsWalk(v, limits, visitor, roots, order, result, popped, rest)
    requires IsWalk(v, limits, visitor, roots, order', result', popped', rest')
    ensures |popped| >= |popped'|
  {
    if |popped| < |popped'| {
      ShorterRun(v, RootStack(roots), popped, rest, popped', rest');
      assert popped' [..|popped|] == popped;
      NodesOfPrefix(popped', |popped|);
      OnlyTheLastIsRefused(limits, visitor, order', |popped|);
    }
  }

  /** Roots, limits and visitor leave no choice: there is one walk and one result. */
  lemma {:induction false} WalkIsDetermined(v: View, limits: Limits, visitor: Visitor, roots: seq<Ref>,
                                            order: seq<Ref>, result: WalkResult, popped: seq<Item>, rest: Stack,
                                            order': seq<Ref>, result': WalkResult, popped': seq<Item>, rest': Stack)
    requires IsWalk(v, limits, visitor, roots, order, result, popped, rest)
    requires IsWalk(v, limits, visitor, roots, order', result', popped', rest')
    ensures order == order' && result == result'
  {
    NoWalkGoesFurther(v, limits, visitor, roots, order, result, popped, rest, order', result', popped', rest');
    NoWalkGoesFurther(v, limits, visitor, roots, order', result', popped', rest', order, result, popped, rest);
    SameRun(v, RootStack(roots), popped, rest, popped', rest');
  }

  /** A walk goes on until the visits are spent or an offer is refused, and no further:
      over a finite preorder it sees the longest prefix within the visit limit whose
      offers all fit, and the one node whose offer did not. */
  lemma {:induction false} WalkGoesAsFarAsItCan(v: View, limits: Limits, visitor: Visitor, roots: seq<Ref>, depth: nat,
                                                order: seq<Ref>, result: WalkResult, popped: seq<Item>, rest: Stack)
    requires IsWalk(v, limits, visitor, roots, order, result, popped, rest)
    requires AllUnfold(v, RootStack(roots), depth)
    ensures var all := Nodes(ForestPreorder(v, roots, depth));
      && order <= all
      && (forall n :: 0 <= n < |order| ==> Accepted(limits, visitor, order[..n]).Some?)
      && (|order| < Min(limits.visited, |all|) ==> Accepted(limits, visitor, order).None?)
  {
    EveryWalkIsAPrefix(v, limits, visitor, roots, depth, order, result, popped, rest);
    forall n | 0 <= n < |order|
      ensures Accepted(limits, visitor, order[..n]).Some?
    {
      OnlyTheLastIsRefused(limits, visitor, order, n);
    }
  }

  /** Whatever the visitor returns, what it saw is the beginning of the preorder. */
  lemma {:induction false} EveryWalkIsAPrefix(v: View, limits: Limits, visitor: Visitor, roots: seq<Ref>, depth: nat,
                                              order: seq<Ref>, result: WalkResult, popped: seq<Item>, rest: Stack)
    requires IsWalk(v, limits, visitor, roots, order, result, popped, rest)
    requires AllUnfold(v, RootStack(roots), depth)
    ensures order <= Nodes(ForestPreorder(v, roots, depth))
    ensures result.truncation.None? ==> order == Nodes(ForestPreorder(v, roots, depth))
  {
    var all := ForestPreorder(v, roots, depth);
    ForestPreorderIsPopped(v, roots, depth);
    RunIsPrefixOfEnded(v, RootStack(roots), popped, rest, all);
    assert popped == all[..|popped|];
    NodesOfPrefix(all, |popped|);
  }
}
