/** The Figma document as the plugin reads it, and the ancestor walk that decides
    whether a node draws anything. */
module Document {
  import opened Common

  /** A host value. A reference that `Doc` does not hold is a value that is not a
      record (null, undefined, a number, a getter that threw). */
  type Ref = nat

  datatype Host = Host(
    id: string,
    name: string,
    kind: string,
    characters: Option<string>,
    switchedOff: bool,
    parent: Ref,
    children: seq<Ref>)

  type Doc = map<Ref, Host>

  /** What `record(value)` reads: the record itself, or the empty record. */
  function Record(doc: Doc, r: Ref): Host {
    if r in doc then doc[r] else Host("", "", "", None, false, r, [])
  }
}

module Visibility {
  import opened Common
  import opened Document

  const MAX_ANCESTOR_WALK: nat := 1024
  const CYCLE_WATCH_AFTER: nat := 64

  datatype Verdict = Renders | Hidden | Undetermined

  /** The bounded ancestor walk with no memory of where it has been. */
  function PlainWalk(doc: Doc, r: Ref, steps: nat): Verdict
    decreases steps
  {
    if steps == 0 then Undetermined
    else if r !in doc then Renders
    else if doc[r].switchedOff then Hidden
    else PlainWalk(doc, doc[r].parent, steps - 1)
  }

  predicate RendersVisibly(doc: Doc, r: Ref) {
    PlainWalk(doc, r, MAX_ANCESTOR_WALK) == Renders
  }

  /** The value reached after `k` parent links; a non-record stays where it is. */
  function Up(doc: Doc, r: Ref, k: nat): Ref {
    if k == 0 then r
    else
      var p := Up(doc, r, k - 1);
      if p in doc then doc[p].parent else p
  }

  predicate SwitchedOn(doc: Doc, r: Ref) {
    r in doc && !doc[r].switchedOff
  }

  ghost predicate OnBelow(doc: Doc, r: Ref, k: nat) {
    forall j: nat :: j < k ==> SwitchedOn(doc, Up(doc, r, j))
  }

  lemma {:induction false} UpAfterFirst(doc: Doc, r: Ref, k: nat)
    requires r in doc
    ensures Up(doc, r, k + 1) == Up(doc, doc[r].parent, k)
  {
    if k > 0 {
      UpAfterFirst(doc, r, k - 1);
    }
  }

  /** The walk's answer is decided by the first value that is not switched on, if
      that value comes within the bound. */
  lemma {:induction false} WalkFindsFirst(doc: Doc, r: Ref, k: nat, steps: nat)
    requires OnBelow(doc, r, k) && k <= steps
    requires k < steps ==> !SwitchedOn(doc, Up(doc, r, k))
    ensures PlainWalk(doc, r, steps) ==
      if k == steps then Undetermined else if Up(doc, r, k) in doc then Hidden else Renders
    decreases k
  {
    if k > 0 {
      assert SwitchedOn(doc, Up(doc, r, 0));
      forall j: nat | j < k
        ensures Up(doc, r, j + 1) == Up(doc, doc[r].parent, j)
      {
        UpAfterFirst(doc, r, j);
      }
      UpAfterFirst(doc, r, k - 1);
      WalkFindsFirst(doc, doc[r].parent, k - 1, steps - 1);
    }
  }

  lemma {:induction false} FirstNotOn(doc: Doc, r: Ref, steps: nat) returns (k: nat)
    ensures k <= steps && OnBelow(doc, r, k)
    ensures k < steps ==> !SwitchedOn(doc, Up(doc, r, k))
  {
    k := 0;
    while k < steps && SwitchedOn(doc, Up(doc, r, k))
      invariant k <= steps && OnBelow(doc, r, k)
    {
      k := k + 1;
    }
  }

  /** What each verdict means, for every parent graph: a node renders when its
      chain leaves the document within the bound with every value on the way
      switched on, is hidden when a switched-off one comes first, and is
      undetermined when the bound comes first. */
  lemma {:induction false} VerdictMeaning(doc: Doc, r: Ref, steps: nat)
    ensures PlainWalk(doc, r, steps) == Renders
       <==> exists k: nat :: k < steps && OnBelow(doc, r, k) && Up(doc, r, k) !in doc
    ensures PlainWalk(doc, r, steps) == Hidden
       <==> exists k: nat :: k < steps && OnBelow(doc, r, k) && Up(doc, r, k) in doc && doc[Up(doc, r, k)].switchedOff
    ensures PlainWalk(doc, r, steps) == Undetermined <==> OnBelow(doc, r, steps)
  {
    var k := FirstNotOn(doc, r, steps);
    WalkFindsFirst(doc, r, k, steps);
  }

  lemma {:induction false} UpRepeats(doc: Doc, r: Ref, i: nat, j: nat, k: nat)
    requires i < j && Up(doc, r, i) == Up(doc, r, j)
    ensures Up(doc, r, i + k) == Up(doc, r, j + k)
  {
    if k > 0 {
      UpRepeats(doc, r, i, j, k - 1);
    }
  }

  /** A revisit proves the rest of the walk periodic: once two steps meet and
      everything before them was switched on, everything after them is too. */
  lemma {:induction false} RevisitStaysOn(doc: Doc, r: Ref, i: nat, j: nat, n: nat)
    requires i < j && Up(doc, r, i) == Up(doc, r, j)
    requires OnBelow(doc, r, j)
    ensures OnBelow(doc, r, n)
  {
    if n > j {
      RevisitStaysOn(doc, r, i, j, n - 1);
      UpRepeats(doc, r, i, j, n - 1 - j);
      assert Up(doc, r, n - 1) == Up(doc, r, i + (n - 1 - j));
      assert SwitchedOn(doc, Up(doc, r, i + (n - 1 - j)));
    }
  }

  /** The walk as the plugin runs it, with the set of values seen from step 64 on.
      The early exit never changes the verdict. */
  method VisibilityOf(doc: Doc, node: Ref) returns (verdict: Verdict)
    ensures verdict == PlainWalk(doc, node, MAX_ANCESTOR_WALK)
  {
    var current := node;
    var seen: set<Ref> := {};
    var step := 0;
    while step < MAX_ANCESTOR_WALK
      invariant 0 <= step <= MAX_ANCESTOR_WALK
      invariant current == Up(doc, node, step)
      invariant OnBelow(doc, node, step)
      invariant PlainWalk(doc, node, MAX_ANCESTOR_WALK) == PlainWalk(doc, current, MAX_ANCESTOR_WALK - step)
      invariant forall x :: x in seen ==> exists j: nat :: j < step && Up(doc, node, j) == x
    {
      if current !in doc {
        return Renders;
      }
      if doc[current].switchedOff {
        return Hidden;
      }
      if step >= CYCLE_WATCH_AFTER {
        if current in seen {
          ghost var j: nat :| j < step && Up(doc, node, j) == current;
          RevisitStaysOn(doc, node, j, step, MAX_ANCESTOR_WALK);
          VerdictMeaning(doc, node, MAX_ANCESTOR_WALK);
          return Undetermined;
        }
        seen := seen + {current};
      }
      assert Up(doc, node, step + 1) == doc[current].parent;
      current := doc[current].parent;
      step := step + 1;
    }
    return Undetermined;
  }
}
