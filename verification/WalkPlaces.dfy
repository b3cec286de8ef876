/** What a forest walk visits, said of the places of the document alone. */
module WalkPlaces {
  import opened Common
  import opened Document
  import opened Walk
  import opened Places
  import opened Serialize
  import opened ForestWalk

  /** One list of items for each root: its places, in document order. */
  ghost predicate ListEach(v: View, roots: seq<Ref>, lists: seq<seq<Item>>) {
    |lists| == |roots| && forall i :: 0 <= i < |roots| ==> ListsPlaces(v, roots[i], lists[i])
  }

  function Flat(lists: seq<seq<Item>>): seq<Item> {
    if lists == [] then [] else lists[0] + Flat(lists[1..])
  }

  ghost predicate BoundedPlaces(v: View, roots: seq<Ref>, depth: nat) {
    forall i, p :: 0 <= i < |roots| && IsPlace(v, roots[i], p) ==> |p| <= depth
  }

  lemma {:induction false} BoundedForestUnfolds(v: View, roots: seq<Ref>, depth: nat)
    ensures AllUnfold(v, RootStack(roots), depth) <==> BoundedPlaces(v, roots, depth)
    decreases |roots|
  {
    hide IsPlace, Unfolds;
    if roots != [] {
      assert Item(roots[0], [], {}) == From(roots[0]);
      FiniteExactlyWithBoundedPlaces(v, roots[0], depth);
      BoundedForestUnfolds(v, roots[1..], depth);
      if BoundedPlaces(v, roots[1..], depth) && forall p :: IsPlace(v, roots[0], p) ==> |p| <= depth {
        forall i, p | 0 <= i < |roots| && IsPlace(v, roots[i], p)
          ensures |p| <= depth
        {
          if i > 0 {
            assert roots[i] == roots[1..][i - 1];
          }
        }
      }
      if BoundedPlaces(v, roots, depth) {
        assert forall i :: 0 <= i < |roots| - 1 ==> roots[1..][i] == roots[i + 1];
        assert roots[0] == roots[0];
      }
    }
  }

  lemma {:induction false} ForestPreorderListsEach(v: View, roots: seq<Ref>, depth: nat) returns (lists: seq<seq<Item>>)
    requires AllUnfold(v, RootStack(roots), depth)
    ensures ListEach(v, roots, lists) && Flat(lists) == ForestPreorder(v, roots, depth)
    decreases |roots|
  {
    hide ListsPlaces, Preorder, Unfolds;
    if roots == [] {
      lists := [];
    } else {
      assert Item(roots[0], [], {}) == From(roots[0]);
      PreorderListsPlaces(v, roots[0], depth);
      var rest := ForestPreorderListsEach(v, roots[1..], depth);
      var first := Preorder(v, From(roots[0]), depth);
      lists := [first] + rest;
      assert lists[1..] == rest;
    }
  }

  /** A walk that only looks sees, root after root, the nodes at the places below each, in
      document order: all of them, or as many as it may visit. */
  lemma {:induction false} LookingWalkSeesPlaces(v: View, limits: Limits, visitor: Visitor, roots: seq<Ref>, depth: nat,
                                                 order: seq<Ref>, result: WalkResult, popped: seq<Item>, rest: Stack)
    returns (lists: seq<seq<Item>>)
    requires IsWalk(v, limits, visitor, roots, order, result, popped, rest)
    requires forall r :: visitor(r).None?
    requires BoundedPlaces(v, roots, depth)
    ensures ListEach(v, roots, lists)
    ensures order == Nodes(Flat(lists))[..Min(limits.visited, |Flat(lists)|)]
    ensures result.truncation.Some? <==> |Flat(lists)| > limits.visited
  {
    hide IsWalk, ListEach, BoundedPlaces, AllUnfold;
    BoundedForestUnfolds(v, roots, depth);
    LookingWalkIsPreorder(v, limits, visitor, roots, depth, order, result, popped, rest);
    lists := ForestPreorderListsEach(v, roots, depth);
  }

  /** Whatever the visitor returns, it sees the first of them, and stops at the first offer
      that does not fit, at the visit limit, or at the end. */
  lemma {:induction false} EveryWalkSeesPlaces(v: View, limits: Limits, visitor: Visitor, roots: seq<Ref>, depth: nat,
                                               order: seq<Ref>, result: WalkResult, popped: seq<Item>, rest: Stack)
    returns (lists: seq<seq<Item>>)
    requires IsWalk(v, limits, visitor, roots, order, result, popped, rest)
    requires BoundedPlaces(v, roots, depth)
    ensures ListEach(v, roots, lists) && order <= Nodes(Flat(lists))
    ensures result.truncation.None? ==> order == Nodes(Flat(lists))
    ensures |order| < Min(limits.visited, |Flat(lists)|) ==> Accepted(limits, visitor, order).None?
  {
    hide IsWalk, ListEach, BoundedPlaces, AllUnfold, Accepted;
    BoundedForestUnfolds(v, roots, depth);
    EveryWalkIsAPrefix(v, limits, visitor, roots, depth, order, result, popped, rest);
    WalkGoesAsFarAsItCan(v, limits, visitor, roots, depth, order, result, popped, rest);
    lists := ForestPreorderListsEach(v, roots, depth);
  }
}
