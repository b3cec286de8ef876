/** A serialized forest read in the order it was written: every attempt at a node, whether
    the node came out, and what the budgets were by then, counted on the output alone. */
module Attempts {
  import opened Common
  import opened Document
  import opened Walk
  import opened Serialize

  /** A node written at `level` below nodes with the ids `above`; or one that was refused,
      and what the output says of it. */
  datatype Attempt =
    | Wrote(out: DesignNode, level: nat, above: set<string>)
    | Missing(node: Ref, above: set<string>, told: Option<Truncation>)

  function IdOf(c: Config, r: Ref): string {
    c.view.host(r).id
  }

  /** It carries the id of a node above it. */
  predicate Repeats(c: Config, r: Ref, above: set<string>) {
    IdOf(c, r) != "" && IdOf(c, r) in above
  }

  /** Nothing below it is tried. */
  predicate StopsHere(c: Config, n: DesignNode, level: nat, above: set<string>) {
    n.stub || Repeats(c, n.node, above) || level >= c.depth
  }

  // ---------- reading the output ----------

  function AttemptsAt(c: Config, n: DesignNode, level: nat, above: set<string>): seq<Attempt>
    decreases n, 1
  {
    [Wrote(n, level, above)]
    + if StopsHere(c, n, level, above) then []
      else
        var below := above + {IdOf(c, n.node)};
        AttemptsOf(c, n.children, level + 1, below)
        + Shortfall(|n.children|, c.view.kids(n.node), below, n.childrenTruncation)
  }

  function AttemptsOf(c: Config, ns: seq<DesignNode>, level: nat, above: set<string>): seq<Attempt>
    decreases ns, 0
  {
    if ns == [] then []
    else AttemptsOf(c, ns[..|ns| - 1], level, above) + AttemptsAt(c, ns[|ns| - 1], level, above)
  }

  /** A list that is short was ended by the next node of it. */
  function Shortfall(written: nat, nodes: seq<Ref>, above: set<string>, told: Option<Truncation>): seq<Attempt> {
    if written < |nodes| then [Missing(nodes[written], above, told)] else []
  }

  /** All attempts of a run, read off its forest. */
  function ForestAttempts(c: Config, roots: seq<Ref>, f: Forest): seq<Attempt> {
    AttemptsOf(c, f.nodes, 0, {}) + Shortfall(|f.nodes|, roots, {}, f.truncation)
  }

  // ---------- counting ----------

  function Written(es: seq<Attempt>): nat {
    if es == [] then 0 else Written(es[..|es| - 1]) + if es[|es| - 1].Wrote? then 1 else 0
  }

  function OwnBytes(c: Config, n: DesignNode): nat {
    if n.stub then c.stubBytes(n.node) else c.shellBytes(n.node)
  }

  function WrittenBytes(c: Config, es: seq<Attempt>): nat {
    if es == [] then 0
    else WrittenBytes(c, es[..|es| - 1]) + if es[|es| - 1].Wrote? then OwnBytes(c, es[|es| - 1].out) else 0
  }

  predicate IsMain(c: Config, r: Ref) {
    c.view.host(r).kind == "COMPONENT" || c.view.host(r).kind == "COMPONENT_SET"
  }

  /** A component written out in full that later ones refer to. One cut off for repeating an
      id above it is not. */
  predicate Recorded(c: Config, e: Attempt, id: string) {
    && e.Wrote? && !e.out.stub && IsMain(c, e.out.node) && IdOf(c, e.out.node) == id != ""
    && (id in e.above ==> c.view.kids(e.out.node) == [])
  }

  ghost predicate WasRecorded(c: Config, es: seq<Attempt>, id: string) {
    exists j :: 0 <= j < |es| && Recorded(c, es[j], id)
  }

  /** A component is a stub when the same id was written out before, unless it stands below
      a node of that id. */
  ghost predicate StubDue(c: Config, before: seq<Attempt>, r: Ref, above: set<string>) {
    c.dedupe && IsMain(c, r) && IdOf(c, r) !in above && WasRecorded(c, before, IdOf(c, r))
  }

  ghost function CostOf(c: Config, before: seq<Attempt>, r: Ref, above: set<string>): nat {
    if StubDue(c, before, r, above) then c.stubBytes(r) else c.shellBytes(r)
  }

  /** Every attempt counts against the visits, every node written against the other two. */
  ghost predicate Fits(c: Config, before: seq<Attempt>, r: Ref, above: set<string>) {
    && |before| < c.limits.visited
    && Written(before) < c.limits.returned
    && WrittenBytes(c, before) + CostOf(c, before, r, above) <= c.limits.encoded
  }

  /** The cut an attempt makes, if any. */
  ghost function CutAt(c: Config, before: seq<Attempt>, e: Attempt): Option<Truncation> {
    match e
    case Missing(r, above, _) =>
      Some(if |before| >= c.limits.visited then NodeLimit(c.limits.visited)
           else if Written(before) >= c.limits.returned then NodeLimit(|before| + 1)
           else ByteLimit(WrittenBytes(c, before) + CostOf(c, before, r, above)))
    case Wrote(n, level, above) =>
      if n.stub || c.view.kids(n.node) == [] then None
      else if Repeats(c, n.node, above) then Some(NodeLimit(|before| + 1))
      else if level >= c.depth then Some(DepthLimit(c.depth))
      else None
  }

  ghost function CutsMade(c: Config, es: seq<Attempt>): seq<Truncation> {
    if es == [] then []
    else
      var before, last := es[..|es| - 1], es[|es| - 1];
      CutsMade(c, before) + match CutAt(c, before, last) case None => [] case Some(t) => [t]
  }

  /** `t` is the first budget among the cuts, or the first cut when all are for depth. */
  ghost predicate Names(t: Option<Truncation>, cuts: seq<Truncation>) {
    && (t.None? <==> cuts == [])
    && (t.Some? ==>
          if forall k :: 0 <= k < |cuts| ==> cuts[k].DepthLimit? then cuts[0] == t.value
          else exists k: nat :: FirstGlobal(cuts, k) && cuts[k] == t.value)
  }

  /** An attempt comes out exactly when it fits, and as the attempts before it decide. */
  ghost predicate IsRight(c: Config, before: seq<Attempt>, e: Attempt) {
    match e
    case Missing(r, above, told) =>
      && !Fits(c, before, r, above)
      && Names(told, CutsMade(c, before + [e]))
    case Wrote(n, level, above) =>
      var kids := c.view.kids(n.node);
      && Fits(c, before, n.node, above)
      && (n.stub <==> StubDue(c, before, n.node, above))
      && (forall i :: 0 <= i < |n.children| ==> i < |kids| && n.children[i].node == kids[i])
      && (n.childrenTruncated <==> n.stub || |n.children| < |kids|)
      && (if n.stub then n.children == [] && n.childrenTruncation.None?
          else if kids == [] then n.childrenTruncation.None?
          else if CutAt(c, before, e).Some? then n.children == [] && n.childrenTruncation == CutAt(c, before, e)
          else n.childrenTruncation.None? <==> |n.children| == |kids|)
  }

  ghost predicate AllRight(c: Config, es: seq<Attempt>) {
    forall k :: 0 <= k < |es| ==> IsRight(c, es[..k], es[k])
  }

  // ---------- the books are the counts ----------

  /** The books of a run after these attempts. */
  ghost predicate Tally(c: Config, es: seq<Attempt>, l: Ledger) {
    && l.visited == Min(|es|, c.limits.visited)
    && l.returned == Written(es)
    && l.encoded == WrittenBytes(c, es)
    && (forall id :: id in l.emitted <==> c.dedupe && WasRecorded(c, es, id))
    && l.marks == CutsMade(c, es)
  }

  ghost predicate SameAbove(ancestors: set<string>, above: set<string>) {
    forall id :: id in ancestors <==> id != "" && id in above
  }

  lemma {:induction false} StubsAgree(c: Config, es: seq<Attempt>, l: Ledger, r: Ref, ancestors: set<string>,
                                      above: set<string>)
    requires Tally(c, es, l) && SameAbove(ancestors, above)
    ensures GoesAsStub(c, r, ancestors, l) <==> StubDue(c, es, r, above)
    ensures HasRoom(c, r, ancestors, l) <==> Fits(c, es, r, above)
    ensures Cost(c, r, ancestors, l) == CostOf(c, es, r, above)
    ensures Cut(c.view, At(r, ancestors)) <==> Repeats(c, r, above)
  {
    hide Written, WrittenBytes, CutsMade;
  }

  lemma {:induction false} CountsOneMore(c: Config, es: seq<Attempt>, e: Attempt)
    ensures Written(es + [e]) == Written(es) + if e.Wrote? then 1 else 0
    ensures WrittenBytes(c, es + [e]) == WrittenBytes(c, es) + if e.Wrote? then OwnBytes(c, e.out) else 0
    ensures CutsMade(c, es + [e]) == CutsMade(c, es) + match CutAt(c, es, e) case None => [] case Some(t) => [t]
  {
    assert (es + [e])[..|es|] == es;
  }

  lemma {:induction false} RightOneMore(c: Config, es: seq<Attempt>, e: Attempt)
    requires AllRight(c, es) && IsRight(c, es, e)
    ensures AllRight(c, es + [e])
  {
    hide IsRight;
    var all := es + [e];
    assert all[..|es|] == es;
    forall k | 0 <= k < |all|
      ensures IsRight(c, all[..k], all[k])
    {
      if k < |es| {
        assert all[..k] == es[..k];
      }
    }
  }

  lemma {:induction false} RecordedOneMore(c: Config, es: seq<Attempt>, e: Attempt, id: string)
    ensures WasRecorded(c, es + [e], id) <==>
            WasRecorded(c, es, id) || Recorded(c, e, id)
  {
    hide Recorded;
    var all := es + [e];
    if j :| 0 <= j < |es| && Recorded(c, es[j], id) {
      assert Recorded(c, all[j], id);
    }
    if Recorded(c, e, id) {
      assert all[|es|] == e;
    }
  }

  lemma {:induction false} VerdictNames(marks: seq<Truncation>)
    ensures Names(Verdict(marks), marks)
  {
    VerdictOfMarks(marks);
  }

  // ---------- every output reads so ----------

  /** The books once `node` is written, and its own cut noted. */
  function WithOwnCut(c: Config, n: DesignNode, level: nat, ancestors: set<string>, l: Ledger): Ledger {
    var entered := Entered(c, n.node, ancestors, l);
    if n.stub then entered
    else match OwnCut(c, n.node, level, ancestors, entered) case None => entered case Some(t) => Noted(entered, t)
  }

  lemma {:induction false} WrittenIsRight(c: Config, n: DesignNode, node: Ref, level: nat, ancestors: set<string>,
                                          l: Ledger, above: set<string>, es: seq<Attempt>)
    requires Explained(c, n, node, level, ancestors, l)
    requires SameAbove(ancestors, above) && Tally(c, es, l)
    ensures IsRight(c, es, Wrote(n, level, above))
  {
    hide Written, WrittenBytes, CutsMade, After, AfterSome, AfterAll, Tally;
    hide GoesAsStub, StubDue, HasRoom, Fits, SomeExplained;
    StubsAgree(c, es, l, node, ancestors, above);
    VisitsTally(c, es, l);
    RoomMeansVisits(c, es, node, above);
    if !n.stub && OwnCut(c, node, level, ancestors, Entered(c, node, ancestors, l)).None? {
      var entered, below := Entered(c, node, ancestors, l), Below(c.view, At(node, ancestors));
      SomeNodes(c, n.children, c.view.kids(node), level + 1, below, entered);
      ExplainedIsFaithful(c, n, node, level, ancestors, l);
    }
  }

  lemma {:induction false} VisitsTally(c: Config, es: seq<Attempt>, l: Ledger)
    requires Tally(c, es, l)
    ensures l.visited == Min(|es|, c.limits.visited)
  {
  }

  lemma {:induction false} RoomMeansVisits(c: Config, es: seq<Attempt>, r: Ref, above: set<string>)
    ensures Fits(c, es, r, above) ==> |es| < c.limits.visited
  {
  }

  lemma {:induction false} SomeNodes(c: Config, ns: seq<DesignNode>, nodes: seq<Ref>, level: nat,
                                     ancestors: set<string>, l: Ledger)
    requires SomeExplained(c, ns, nodes, level, ancestors, l)
    ensures |ns| <= |nodes| && forall i :: 0 <= i < |ns| ==> ns[i].node == nodes[i]
    decreases |ns|
  {
    if ns != [] {
      SomeNodes(c, ns[..|ns| - 1], nodes, level, ancestors, l);
      assert forall i :: 0 <= i < |ns| - 1 ==> ns[i] == ns[..|ns| - 1][i];
    }
  }

  lemma {:induction false} EmittedTally(c: Config, n: DesignNode, level: nat, ancestors: set<string>, l: Ledger,
                                        above: set<string>, es: seq<Attempt>, id: string)
    requires SameAbove(ancestors, above) && Tally(c, es, l) && (n.stub <==> GoesAsStub(c, n.node, ancestors, l))
    ensures var all := es + [Wrote(n, level, above)];
      id in Entered(c, n.node, ancestors, l).emitted
      <==> c.dedupe && WasRecorded(c, all, id)
  {
    hide Written, WrittenBytes, CutsMade;
    RecordedOneMore(c, es, Wrote(n, level, above), id);
  }

  lemma {:induction false} WrittenTally(c: Config, n: DesignNode, node: Ref, level: nat, ancestors: set<string>,
                                        l: Ledger, above: set<string>, es: seq<Attempt>)
    requires Explained(c, n, node, level, ancestors, l)
    requires SameAbove(ancestors, above) && Tally(c, es, l)
    ensures Tally(c, es + [Wrote(n, level, above)], WithOwnCut(c, n, level, ancestors, l))
  {
    hide Written, WrittenBytes, CutsMade, After, AfterSome, AfterAll, SomeExplained, AllExplained, Recorded;
    var e := Wrote(n, level, above);
    StubsAgree(c, es, l, node, ancestors, above);
    RoomMeansVisits(c, es, node, above);
    CountsOneMore(c, es, e);
    assert CutsMade(c, es) + [] == CutsMade(c, es);
    forall id
      ensures id in Entered(c, node, ancestors, l).emitted
         <==> c.dedupe && WasRecorded(c, es + [e], id)
    {
      EmittedTally(c, n, level, ancestors, l, above, es, id);
    }
  }

  lemma {:induction false} RefusedIsRight(c: Config, r: Ref, ancestors: set<string>, l: Ledger, above: set<string>,
                                          es: seq<Attempt>, told: Option<Truncation>)
    requires SameAbove(ancestors, above) && Tally(c, es, l) && !HasRoom(c, r, ancestors, l)
    requires told == Verdict(Refused(c, r, ancestors, l).marks)
    ensures var e := Missing(r, above, told);
      IsRight(c, es, e) && Tally(c, es + [e], Refused(c, r, ancestors, l))
  {
    hide Written, WrittenBytes, CutsMade, Recorded, Names, GoesAsStub, StubDue;
    var e := Missing(r, above, told);
    StubsAgree(c, es, l, r, ancestors, above);
    CountsOneMore(c, es, e);
    VerdictNames(Refused(c, r, ancestors, l).marks);
    forall id
      ensures WasRecorded(c, es + [e], id)
         <==> WasRecorded(c, es, id)
    {
      RecordedOneMore(c, es, e, id);
      MissingIsNotRecorded(c, r, above, told, id);
    }
  }

  lemma {:induction false} MissingIsNotRecorded(c: Config, r: Ref, above: set<string>, told: Option<Truncation>,
                                                id: string)
    ensures !Recorded(c, Missing(r, above, told), id)
  {
  }

  lemma {:induction false} SameBelow(c: Config, r: Ref, ancestors: set<string>, above: set<string>)
    requires SameAbove(ancestors, above)
    ensures SameAbove(Below(c.view, At(r, ancestors)), above + {IdOf(c, r)})
  {
  }

  /** A node and what is under it. */
  lemma {:induction false} NodeReads(c: Config, n: DesignNode, node: Ref, level: nat, ancestors: set<string>, l: Ledger,
                                     above: set<string>, es: seq<Attempt>)
    requires Explained(c, n, node, level, ancestors, l)
    requires SameAbove(ancestors, above) && Tally(c, es, l) && AllRight(c, es)
    ensures var all := es + AttemptsAt(c, n, level, above);
      AllRight(c, all) && Tally(c, all, After(c, n, level, ancestors, l))
    decreases n
  {
    hide Tally, AllRight, IsRight, Explained, SomeExplained;
    hide AttemptsAt, AttemptsOf, SameAbove, HasRoom, GoesAsStub, After;
    var e := Wrote(n, level, above);
    WrittenIsRight(c, n, node, level, ancestors, l, above, es);
    WrittenTally(c, n, node, level, ancestors, l, above, es);
    RightOneMore(c, es, e);
    NodeParts(c, n, node, level, ancestors, l, above, es);
    if !StopsHere(c, n, level, above) {
      var kids, entered := c.view.kids(node), Entered(c, node, ancestors, l);
      var below, under := Below(c.view, At(node, ancestors)), above + {IdOf(c, node)};
      SameBelow(c, node, ancestors, above);
      ListReads(c, n.children, kids, level + 1, below, entered, under, es + [e]);
      var done := es + [e] + AttemptsOf(c, n.children, level + 1, under);
      ShortfallReads(c, |n.children|, kids, below, AfterSome(c, n.children, level + 1, below, entered), under, done,
                     n.childrenTruncation);
      assert done + Shortfall(|n.children|, kids, under, n.childrenTruncation)
          == es + AttemptsAt(c, n, level, above);
    }
  }

  lemma {:induction false} ShortfallReads(c: Config, written: nat, nodes: seq<Ref>, ancestors: set<string>, l: Ledger,
                                          above: set<string>, es: seq<Attempt>, told: Option<Truncation>)
    requires SameAbove(ancestors, above) && Tally(c, es, l) && AllRight(c, es)
    requires written < |nodes| ==>
      !HasRoom(c, nodes[written], ancestors, l) && told == Verdict(Refused(c, nodes[written], ancestors, l).marks)
    ensures var all := es + Shortfall(written, nodes, above, told);
      && AllRight(c, all)
      && Tally(c, all, if written < |nodes| then Refused(c, nodes[written], ancestors, l) else l)
  {
    hide Tally, AllRight, IsRight, SameAbove, HasRoom, Refused;
    if written < |nodes| {
      RefusedIsRight(c, nodes[written], ancestors, l, above, es, told);
      RightOneMore(c, es, Missing(nodes[written], above, told));
    } else {
      assert es + [] == es;
    }
  }

  /** How an explained node and its attempts are put together. */
  lemma {:induction false} NodeParts(c: Config, n: DesignNode, node: Ref, level: nat, ancestors: set<string>, l: Ledger,
                                     above: set<string>, es: seq<Attempt>)
    requires Explained(c, n, node, level, ancestors, l) && SameAbove(ancestors, above)
    ensures n.node == node
    ensures StopsHere(c, n, level, above) ==>
      && es + AttemptsAt(c, n, level, above) == es + [Wrote(n, level, above)]
      && After(c, n, level, ancestors, l) == WithOwnCut(c, n, level, ancestors, l)
    ensures !StopsHere(c, n, level, above) ==>
      var kids, entered := c.view.kids(node), Entered(c, node, ancestors, l);
      var below, under := Below(c.view, At(node, ancestors)), above + {IdOf(c, node)};
      var end := AfterSome(c, n.children, level + 1, below, entered);
      && AttemptsAt(c, n, level, above) == [Wrote(n, level, above)]
           + (AttemptsOf(c, n.children, level + 1, under) + Shortfall(|n.children|, kids, under, n.childrenTruncation))
      && WithOwnCut(c, n, level, ancestors, l) == entered
      && SomeExplained(c, n.children, kids, level + 1, below, entered)
      && (|n.children| < |kids| ==>
            && !HasRoom(c, kids[|n.children|], below, end)
            && n.childrenTruncation == Verdict(Refused(c, kids[|n.children|], below, end).marks))
      && After(c, n, level, ancestors, l)
           == if |n.children| < |kids| then Refused(c, kids[|n.children|], below, end) else end
  {
    hide HasRoom, Refused, GoesAsStub, SomeExplained, AfterSome, AttemptsOf, Verdict;
    assert Cut(c.view, At(node, ancestors)) <==> Repeats(c, node, above);
    if StopsHere(c, n, level, above) && !n.stub && c.view.kids(node) == [] {
      NothingUnder(c, n, node, level, ancestors, l);
    }
    if !StopsHere(c, n, level, above) {
      var kids, entered, below := c.view.kids(node), Entered(c, node, ancestors, l), Below(c.view, At(node, ancestors));
      assert After(c, n, level, ancestors, l) == AfterAll(c, n.children, kids, level + 1, below, entered);
    }
  }

  lemma {:induction false} NothingUnder(c: Config, n: DesignNode, node: Ref, level: nat, ancestors: set<string>,
                                        l: Ledger)
    requires Explained(c, n, node, level, ancestors, l) && !n.stub && c.view.kids(node) == []
    ensures After(c, n, level, ancestors, l) == Entered(c, node, ancestors, l)
  {
    var entered, below := Entered(c, node, ancestors, l), Below(c.view, At(node, ancestors));
    assert AllExplained(c, n.children, c.view.kids(node), level + 1, below, entered);
    SomeNodes(c, n.children, c.view.kids(node), level + 1, below, entered);
  }

  /** A list of nodes, one after the other. */
  lemma {:induction false} ListReads(c: Config, ns: seq<DesignNode>, nodes: seq<Ref>, level: nat,
                                     ancestors: set<string>, l: Ledger, above: set<string>, es: seq<Attempt>)
    requires SomeExplained(c, ns, nodes, level, ancestors, l)
    requires SameAbove(ancestors, above) && Tally(c, es, l) && AllRight(c, es)
    ensures var all := es + AttemptsOf(c, ns, level, above);
      AllRight(c, all) && Tally(c, all, AfterSome(c, ns, level, ancestors, l))
    decreases ns, |ns|
  {
    hide Tally, AllRight, Explained, SameAbove, After, AttemptsAt;
    if ns == [] {
      assert es + [] == es;
    } else {
      var front, last := ns[..|ns| - 1], ns[|ns| - 1];
      ListReads(c, front, nodes, level, ancestors, l, above, es);
      var done := es + AttemptsOf(c, front, level, above);
      NodeReads(c, last, nodes[|ns| - 1], level, ancestors, AfterSome(c, front, level, ancestors, l), above, done);
      assert done + AttemptsAt(c, last, level, above) == es + AttemptsOf(c, ns, level, above);
    }
  }

  /** The forest of a run, read in order: every attempt came out exactly when it fitted, as a
      stub exactly when one was due, cut for an id above it or for depth exactly when that
      was so, and the verdict names the first budget among the cuts. */
  lemma {:induction false} ForestReads(c: Config, roots: seq<Ref>, f: Forest)
    requires IsForest(c, roots, f)
    ensures var es := ForestAttempts(c, roots, f);
      && AllRight(c, es) && Names(f.truncation, CutsMade(c, es))
      && forall i :: 0 <= i < |f.nodes| ==> i < |roots| && f.nodes[i].node == roots[i]
  {
    hide IsRight, Names, HasRoom, Refused, Verdict, SomeExplained, AfterSome;
    var end := AfterSome(c, f.nodes, 0, {}, UNSPENT);
    NothingTried(c);
    SomeNodes(c, f.nodes, roots, 0, {}, UNSPENT);
    ListReads(c, f.nodes, roots, 0, {}, UNSPENT, {}, []);
    var done := AttemptsOf(c, f.nodes, 0, {});
    assert [] + done == done;
    ShortfallReads(c, |f.nodes|, roots, {}, end, {}, done, f.truncation);
    VerdictNames(Closing(c, roots, f).marks);
  }

  lemma {:induction false} NothingTried(c: Config)
    ensures Tally(c, [], UNSPENT) && AllRight(c, []) && SameAbove({}, {})
  {
  }

  // ---------- components that are written once ----------

  /** A component of this id stands there in full. */
  ghost predicate WroteInFull(c: Config, es: seq<Attempt>, id: string) {
    exists j :: 0 <= j < |es| && es[j].Wrote? && !es[j].out.stub
      && IsMain(c, es[j].out.node) && IdOf(c, es[j].out.node) == id
  }

  /** One id never names both a component and something else. */
  ghost predicate OneKindPerId(c: Config) {
    forall r: Ref, s: Ref :: IdOf(c, r) == IdOf(c, s) != "" ==> (IsMain(c, r) <==> IsMain(c, s))
  }

  predicate IsHead(c: Config, e: Attempt, id: string) {
    e.Wrote? && !e.out.stub && IdOf(c, e.out.node) == id && id !in e.above
  }

  ghost predicate Headed(c: Config, es: seq<Attempt>, id: string) {
    exists i :: 0 <= i < |es| && IsHead(c, es[i], id)
  }

  ghost predicate AllHeaded(c: Config, es: seq<Attempt>, above: set<string>) {
    forall id :: id in above ==> Headed(c, es, id)
  }

  /** Every id a node stands below was written before it, by a node not below that id. */
  ghost predicate TopsFirst(c: Config, es: seq<Attempt>) {
    forall k :: 0 <= k < |es| ==> AllHeaded(c, es[..k], es[k].above)
  }

  lemma {:induction false} HeadsStay(c: Config, es: seq<Attempt>, more: seq<Attempt>, above: set<string>)
    requires AllHeaded(c, es, above)
    ensures AllHeaded(c, es + more, above)
  {
    hide IsHead;
    var all := es + more;
    forall id | id in above
      ensures Headed(c, all, id)
    {
      var i :| 0 <= i < |es| && IsHead(c, es[i], id);
      assert IsHead(c, all[i], id);
    }
  }

  lemma {:induction false} TopsOneMore(c: Config, es: seq<Attempt>, e: Attempt)
    requires TopsFirst(c, es) && AllHeaded(c, es, e.above)
    ensures TopsFirst(c, es + [e])
  {
    hide AllHeaded;
    var all := es + [e];
    assert all[..|es|] == es;
    forall k | 0 <= k < |all|
      ensures AllHeaded(c, all[..k], all[k].above)
    {
      assert k < |es| ==> all[..k] == es[..k];
    }
  }

  lemma {:induction false} NewHead(c: Config, n: DesignNode, level: nat, above: set<string>, es: seq<Attempt>)
    requires AllHeaded(c, es, above) && !n.stub
    ensures AllHeaded(c, es + [Wrote(n, level, above)], above + {IdOf(c, n.node)})
  {
    hide Headed;
    var e := Wrote(n, level, above);
    HeadsStay(c, es, [e], above);
    if IdOf(c, n.node) !in above {
      assert (es + [e])[|es|] == e;
      assert Headed(c, es + [e], IdOf(c, n.node)) by {
        IsAHead(c, es + [e], |es|);
      }
    }
  }

  lemma {:induction false} IsAHead(c: Config, es: seq<Attempt>, i: nat)
    requires i < |es| && es[i].Wrote? && IsHead(c, es[i], IdOf(c, es[i].out.node))
    ensures Headed(c, es, IdOf(c, es[i].out.node))
  {
  }

  lemma {:induction false} NodeTops(c: Config, n: DesignNode, level: nat, above: set<string>, es: seq<Attempt>)
    requires TopsFirst(c, es) && AllHeaded(c, es, above)
    ensures TopsFirst(c, es + AttemptsAt(c, n, level, above))
    decreases n, 1
  {
    hide TopsFirst, AllHeaded, AttemptsOf;
    var e := Wrote(n, level, above);
    TopsOneMore(c, es, e);
    if StopsHere(c, n, level, above) {
      assert AttemptsAt(c, n, level, above) == [e];
    } else {
      var kids, under := c.view.kids(n.node), above + {IdOf(c, n.node)};
      NewHead(c, n, level, above, es);
      ListTops(c, n.children, level + 1, under, es + [e]);
      var done := AttemptsOf(c, n.children, level + 1, under);
      HeadsStay(c, es + [e], done, under);
      ShortfallTops(c, |n.children|, kids, under, n.childrenTruncation, es + [e] + done);
      assert es + [e] + done + Shortfall(|n.children|, kids, under, n.childrenTruncation)
          == es + AttemptsAt(c, n, level, above);
    }
  }

  lemma {:induction false} ShortfallTops(c: Config, written: nat, nodes: seq<Ref>, above: set<string>,
                                         told: Option<Truncation>, es: seq<Attempt>)
    requires TopsFirst(c, es) && AllHeaded(c, es, above)
    ensures TopsFirst(c, es + Shortfall(written, nodes, above, told))
  {
    hide TopsFirst, AllHeaded;
    if written < |nodes| {
      TopsOneMore(c, es, Missing(nodes[written], above, told));
    } else {
      assert es + [] == es;
    }
  }

  lemma {:induction false} ListTops(c: Config, ns: seq<DesignNode>, level: nat, above: set<string>, es: seq<Attempt>)
    requires TopsFirst(c, es) && AllHeaded(c, es, above)
    ensures TopsFirst(c, es + AttemptsOf(c, ns, level, above))
    decreases ns, 0
  {
    hide TopsFirst, AllHeaded, AttemptsAt;
    if ns == [] {
      assert es + [] == es;
    } else {
      var front, last := ns[..|ns| - 1], ns[|ns| - 1];
      var done := AttemptsOf(c, front, level, above);
      ListTops(c, front, level, above, es);
      HeadsStay(c, es, done, above);
      NodeTops(c, last, level, above, es + done);
      assert es + done + AttemptsAt(c, last, level, above) == es + AttemptsOf(c, ns, level, above);
    }
  }

  lemma {:induction false} ForestTops(c: Config, roots: seq<Ref>, f: Forest)
    ensures TopsFirst(c, ForestAttempts(c, roots, f))
  {
    hide AttemptsOf, Shortfall;
    ListTops(c, f.nodes, 0, {}, []);
    var done := AttemptsOf(c, f.nodes, 0, {});
    assert [] + done == done;
    ShortfallTops(c, |f.nodes|, roots, {}, f.truncation, done);
  }

  lemma {:induction false} FullMeansRecorded(c: Config, es: seq<Attempt>, k: nat, id: string)
    requires TopsFirst(c, es) && OneKindPerId(c) && k <= |es| && id != ""
    ensures WasRecorded(c, es[..k], id) <==> WroteInFull(c, es[..k], id)
  {
    var before := es[..k];
    if j :| 0 <= j < k && Recorded(c, es[j], id) {
      assert before[j] == es[j];
    }
    if WroteInFull(c, before, id) {
      var j :| 0 <= j < k && before[j].Wrote? && !before[j].out.stub && IsMain(c, before[j].out.node)
        && IdOf(c, before[j].out.node) == id;
      assert before[j] == es[j];
      if id in es[j].above {
        HeadIsRecorded(c, es, j, id);
        var i :| 0 <= i < j && Recorded(c, es[i], id);
        assert before[i] == es[i];
      } else {
        assert Recorded(c, before[j], id);
      }
    }
  }

  lemma {:induction false} HeadIsRecorded(c: Config, es: seq<Attempt>, j: nat, id: string)
    requires TopsFirst(c, es) && OneKindPerId(c) && j < |es| && id != "" && id in es[j].above
    requires es[j].Wrote? && IdOf(c, es[j].out.node) == id && IsMain(c, es[j].out.node)
    ensures exists i :: 0 <= i < j && Recorded(c, es[i], id)
  {
    assert AllHeaded(c, es[..j], es[j].above);
    var i :| 0 <= i < |es[..j]| && IsHead(c, es[..j][i], id);
    assert Recorded(c, es[i], id);
  }

  /** With dedupe, and where no id names both a component and something else, a component
      with an id, not below a node of that id, is a stub exactly when it was written in full
      before. Without dedupe there are no stubs. */
  lemma {:induction false} StubExactlyWhenWrittenBefore(c: Config, roots: seq<Ref>, f: Forest, k: nat)
    requires IsForest(c, roots, f) && k < |ForestAttempts(c, roots, f)| && ForestAttempts(c, roots, f)[k].Wrote?
    ensures var (es, e) := (ForestAttempts(c, roots, f), ForestAttempts(c, roots, f)[k]);
      var id := IdOf(c, e.out.node);
      && (e.out.stub ==> c.dedupe && IsMain(c, e.out.node) && id != "" && id !in e.above)
      && (OneKindPerId(c) && c.dedupe && IsMain(c, e.out.node) && id != "" && id !in e.above ==>
            (e.out.stub <==> WroteInFull(c, es[..k], id)))
  {
    hide Fits, Names, CutAt, CutsMade, WroteInFull, OneKindPerId, TopsFirst, IsForest, ForestAttempts;
    var es := ForestAttempts(c, roots, f);
    ForestReads(c, roots, f);
    ForestTops(c, roots, f);
    assert IsRight(c, es[..k], es[k]);
    var id := IdOf(c, es[k].out.node);
    if WasRecorded(c, es[..k], id) {
      RecordedHaveIds(c, es[..k], id);
    }
    if OneKindPerId(c) && id != "" {
      FullMeansRecorded(c, es, k, id);
    }
  }

  lemma {:induction false} RecordedHaveIds(c: Config, es: seq<Attempt>, id: string)
    requires WasRecorded(c, es, id)
    ensures id != ""
  {
  }

  // ---------- a component that is forgotten ----------

  /** A frame 1 and the component 2 under it have one id, and the component has a child. */
  ghost predicate FrameHidesComponent(c: Config) {
    && c.dedupe && c.depth == MAX_DEPTH
    && c.view.host(1).id == c.view.host(2).id == "C" && c.view.host(1).kind == "FRAME"
    && c.view.host(2).kind == "COMPONENT" && c.view.host(3).kind == "TEXT"
    && c.view.kids(1) == [2] && c.view.kids(2) == [3] && c.view.kids(3) == []
    && c.limits.visited >= 4 && c.limits.returned >= 4
    && c.limits.encoded >= c.shellBytes(1) + 2 * c.shellBytes(2) + c.shellBytes(3)
  }

  function CutComponent(): DesignNode {
    DesignNode(2, false, [], true, Some(NodeLimit(2)))
  }

  function LeafOfComponent(): DesignNode {
    DesignNode(3, false, [], false, None)
  }

  function FrameThenComponent(): Forest {
    Forest([DesignNode(1, false, [CutComponent()], false, None),
            DesignNode(2, false, [LeafOfComponent()], false, None)],
           Some(NodeLimit(2)))
  }

  lemma {:induction false} ListOfOne(c: Config, n: DesignNode, node: Ref, level: nat, ancestors: set<string>, l: Ledger)
    requires Explained(c, n, node, level, ancestors, l)
    ensures AllExplained(c, [n], [node], level, ancestors, l)
    ensures AfterAll(c, [n], [node], level, ancestors, l) == After(c, n, level, ancestors, l)
  {
    hide Explained, After;
    NothingWritten(c, [node], level, ancestors, l);
    OneMoreExplained(c, [], n, [node], level, ancestors, l);
    assert [] + [n] == [n];
    ListEnds(c, [n], [node], level, ancestors, l);
  }

  lemma {:induction false} WholeNode(c: Config, child: DesignNode, node: Ref, below: Ref, level: nat,
                                     ancestors: set<string>, l: Ledger)
    requires c.view.kids(node) == [below] && level < c.depth
    requires HasRoom(c, node, ancestors, l) && !GoesAsStub(c, node, ancestors, l) && !Cut(c.view, At(node, ancestors))
    requires Explained(c, child, below, level + 1, Below(c.view, At(node, ancestors)), Entered(c, node, ancestors, l))
    ensures var n := DesignNode(node, false, [child], false, None);
      && Explained(c, n, node, level, ancestors, l)
      && After(c, n, level, ancestors, l)
         == After(c, child, level + 1, Below(c.view, At(node, ancestors)), Entered(c, node, ancestors, l))
  {
    var entered := Entered(c, node, ancestors, l);
    ListOfOne(c, child, below, level + 1, Below(c.view, At(node, ancestors)), entered);
    assert OwnCut(c, node, level, ancestors, entered).None?;
    assert [child] != [];
  }

  lemma {:induction false} FrameComes(c: Config)
    requires FrameHidesComponent(c)
    ensures var (n, b) := (FrameThenComponent().nodes[0], c.shellBytes(1) + c.shellBytes(2));
      && Explained(c, n, 1, 0, {}, UNSPENT)
      && After(c, n, 0, {}, UNSPENT) == Ledger(2, 2, b, {}, [NodeLimit(2)])
  {
    var entered := Entered(c, 1, {}, UNSPENT);
    assert entered == Ledger(1, 1, c.shellBytes(1), {}, []);
    var below := Below(c.view, At(1, {}));
    assert below == {"C"};
    var cut := CutComponent();
    assert Explained(c, cut, 2, 1, below, entered);
    assert After(c, cut, 1, below, entered) == Ledger(2, 2, c.shellBytes(1) + c.shellBytes(2), {}, [NodeLimit(2)]);
    WholeNode(c, cut, 1, 2, 0, {}, UNSPENT);
  }

  lemma {:induction false} ComponentComes(c: Config, l: Ledger)
    requires FrameHidesComponent(c)
    requires l == Ledger(2, 2, c.shellBytes(1) + c.shellBytes(2), {}, [NodeLimit(2)])
    ensures var n := FrameThenComponent().nodes[1];
      Explained(c, n, 2, 0, {}, l) && After(c, n, 0, {}, l).marks == l.marks
  {
    var entered, leaf := Entered(c, 2, {}, l), LeafOfComponent();
    var below := Below(c.view, At(2, {}));
    LeafIsExplained(c, 3, 1, below, entered);
    WholeNode(c, leaf, 2, 3, 0, {}, l);
  }

  /** Why one id must not name both: the component under the frame was cut for repeating the
      frame's id, so it was not recorded, and the next one of its id is written again. */
  lemma {:induction false} ACutComponentIsWrittenAgain(c: Config)
    requires FrameHidesComponent(c)
    ensures var f := FrameThenComponent();
      var es := ForestAttempts(c, [1, 2], f);
      && IsForest(c, [1, 2], f) && |es| == 4
      && es[2].Wrote? && es[2].above == {} && IsMain(c, es[2].out.node) && !es[2].out.stub
      && WroteInFull(c, es[..2], IdOf(c, es[2].out.node))
  {
    hide Explained, After;
    var f, roots := FrameThenComponent(), [1, 2];
    var first, second := f.nodes[0], f.nodes[1];
    FrameComes(c);
    var l := After(c, first, 0, {}, UNSPENT);
    ComponentComes(c, l);
    NothingWritten(c, roots, 0, {}, UNSPENT);
    OneMoreExplained(c, [], first, roots, 0, {}, UNSPENT);
    assert [] + [first] == [first];
    OneMoreExplained(c, [first], second, roots, 0, {}, UNSPENT);
    assert [first] + [second] == f.nodes;
    ListEnds(c, f.nodes, roots, 0, {}, UNSPENT);
    assert [NodeLimit(2)][..0] == [];
    ReadsInOrder(c);
  }

  lemma {:induction false} ReadsInOrder(c: Config)
    requires FrameHidesComponent(c)
    ensures var f := FrameThenComponent();
      ForestAttempts(c, [1, 2], f)
        == [Wrote(f.nodes[0], 0, {}), Wrote(CutComponent(), 1, {"C"}), Wrote(f.nodes[1], 0, {}),
            Wrote(LeafOfComponent(), 1, {"C"})]
    ensures WroteInFull(c, ForestAttempts(c, [1, 2], FrameThenComponent())[..2], "C")
  {
    var f := FrameThenComponent();
    var first, second, cut, leaf := f.nodes[0], f.nodes[1], CutComponent(), LeafOfComponent();
    OneAttempt(c, cut, 1, {"C"});
    OneAttempt(c, leaf, 1, {"C"});
    assert AttemptsAt(c, cut, 1, {"C"}) == [Wrote(cut, 1, {"C"})];
    assert AttemptsAt(c, leaf, 1, {"C"}) == [Wrote(leaf, 1, {"C"})];
    assert {} + {"C"} == {"C"};
    assert AttemptsAt(c, first, 0, {}) == [Wrote(first, 0, {}), Wrote(cut, 1, {"C"})];
    assert AttemptsAt(c, second, 0, {}) == [Wrote(second, 0, {}), Wrote(leaf, 1, {"C"})];
    OneAttempt(c, first, 0, {});
    assert f.nodes[..1] == [first];
    assert AttemptsOf(c, f.nodes, 0, {}) == AttemptsOf(c, [first], 0, {}) + AttemptsAt(c, second, 0, {});
    var es := ForestAttempts(c, [1, 2], f);
    assert es[..2][1] == Wrote(cut, 1, {"C"});
  }

  lemma {:induction false} OneAttempt(c: Config, n: DesignNode, level: nat, above: set<string>)
    ensures AttemptsOf(c, [n], level, above) == AttemptsAt(c, n, level, above)
  {
    assert [n][..0] == [];
    assert AttemptsOf(c, [], level, above) == [];
  }
}
