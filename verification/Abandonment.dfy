/** The one way a live ticket is out of its queue: a promotion reaches it in the line after
    its caller has let go of the receiver, and before it lets go of the ticket. */
module Abandonment {
  import opened Common
  import opened Pending
  import Q = Queue
  import opened Broker

  // ---------- dispatch tasks ----------

  /** The ticket a dispatch task listens for is gone, or belongs to the entry it serves. */
  ghost predicate DispatcherHolds(s: State, c: CallId)
    requires c in s.calls
  {
    s.calls[c].stage.Dispatching? ==>
      var x: Ticket := (s.calls[c].socket, s.calls[c].stage.ticket);
      && x.0 in s.queues && x.1 < s.queues[x.0].nextId
      && (x in s.tickets ==>
            s.tickets[x].ByEntry? && s.tickets[x].key in s.pending && s.pending[s.tickets[x].key].call == c)
  }

  ghost predicate DispatchersHold(s: State) {
    forall c :: c in s.calls ==> DispatcherHolds(s, c)
  }

  lemma {:induction false} StageKeepsDispatchers(s: State, c: CallId, stage: Stage)
    requires DispatchersHold(s) && c in s.calls && !stage.Dispatching?
    ensures DispatchersHold(At(s, c, stage))
  {
    forall d | d in s.calls
      ensures DispatcherHolds(At(s, c, stage), d)
    {
      assert DispatcherHolds(s, d);
    }
  }

  lemma {:induction false} ReleaseKeepsDispatchers(s: State, x: Ticket)
    requires DispatchersHold(s) && x.0 in s.queues
    ensures DispatchersHold(ReleaseTicket(s, x))
  {
    forall d | d in s.calls
      ensures DispatcherHolds(ReleaseTicket(s, x), d)
    {
      assert DispatcherHolds(s, d);
      if s.calls[d].stage.Dispatching? {
        ReleaseCounter(s, s.calls[d].socket, x);
      }
    }
  }

  lemma {:induction false} RemoveKeepsDispatchers(s: State, key: Key)
    requires DispatchersHold(s) && OwnersHold(s, {}) && key in s.pending && key.0 in s.queues
    ensures DispatchersHold(RemoveEntry(s, key))
  {
    forall d | d in s.calls
      ensures DispatcherHolds(RemoveEntry(s, key), d)
    {
      assert DispatcherHolds(s, d);
      if s.calls[d].stage.Dispatching? {
        RemoveCounter(s, s.calls[d].socket, key);
      }
    }
  }

  lemma {:induction false} TakeKeepsDispatchers(s: State, c: CallId)
    requires DispatchersHold(s) && c in s.calls && s.calls[c].stage.Found? && s.calls[c].socket in s.queues
    requires Unsaturated(s)
    ensures DispatchersHold(TakeTicket(s, c))
  {
    var t := TakeTicket(s, c);
    Q.EnqueueEffect(s.queues[s.calls[c].socket]);
    forall d | d in t.calls
      ensures DispatcherHolds(t, d)
    {
      assert DispatcherHolds(s, d);
    }
  }

  lemma {:induction false} AdmitKeepsDispatcher(s: State, c: CallId, at: nat, d: CallId)
    requires Enabled(s, Admit(c, at)) && KeyOf(s.calls[c]) !in s.pending && CallHolds(s, c)
    requires TicketOf(s, c).1 < s.queues[s.calls[c].socket].nextId
    requires d in s.calls && DispatcherHolds(s, d)
    ensures d in AdmitCall(s, c, at).calls && DispatcherHolds(AdmitCall(s, c, at), d)
  {
  }

  lemma {:induction false} AdmitKeepsDispatchers(s: State, c: CallId, at: nat)
    requires DispatchersHold(s) && SlotInv(s, {}) && Enabled(s, Admit(c, at)) && KeyOf(s.calls[c]) !in s.pending
    ensures DispatchersHold(AdmitCall(s, c, at))
  {
    hide DispatcherHolds, CallHolds, EntriesHold, QueuesHold, QueuedAreLive, LiveAreQueued;
    assert CallHolds(s, c);
    HolderIsCounted(s, c);
    AdmitMovesOne(s, c, at);
    forall d | d in s.calls
      ensures DispatcherHolds(AdmitCall(s, c, at), d)
    {
      AdmitKeepsDispatcher(s, c, at, d);
    }
  }

  lemma {:induction false} AdmitMovesOne(s: State, c: CallId, at: nat)
    requires Enabled(s, Admit(c, at))
    ensures AdmitCall(s, c, at).calls.Keys == s.calls.Keys
  {
  }

  lemma {:induction false} HolderIsCounted(s: State, c: CallId)
    requires OwnersHold(s, {}) && c in s.calls && CallHolds(s, c) && Carries(s, c)
    ensures s.calls[c].socket in s.queues && TicketOf(s, c).1 < s.queues[s.calls[c].socket].nextId
  {
  }

  lemma {:induction false} DispatchKeepsDispatchers(s: State, c: CallId, delivered: bool)
    requires DispatchersHold(s) && OwnersHold(s, {}) && Enabled(s, Dispatch(c, delivered))
    ensures DispatchersHold(DispatchCall(s, c, delivered))
  {
    var t := At(s, c, Finished);
    StageKeepsDispatchers(s, c, Finished);
    if KeyOf(s.calls[c]) in s.pending {
      if delivered {
        WireKeepsDispatchers(t, DispatchCall(s, c, delivered));
      } else {
        RemoveKeepsDispatchers(t, KeyOf(s.calls[c]));
      }
    }
  }

  lemma {:induction false} WireKeepsDispatchers(s: State, t: State)
    requires DispatchersHold(s) && SameSlots(s, t)
    ensures DispatchersHold(t)
  {
    forall d | d in t.calls
      ensures DispatcherHolds(t, d)
    {
      assert DispatcherHolds(s, d);
    }
  }

  lemma {:induction false} CallStepKeepsDispatchers(s: State, step: Step)
    requires DispatchersHold(s) && SlotInv(s, {}) && Unsaturated(s) && Enabled(s, step) && IsCallStep(step)
    ensures DispatchersHold(Next(s, step))
  {
    match step
    case Look(c) =>
      var stage := if s.calls[c].socket in s.listed * s.queues.Keys then Found else Finished;
      StageKeepsDispatchers(s, c, stage);
    case Take(c) => TakeKeepsDispatchers(s, c);
    case Admit(c, at) =>
      if KeyOf(s.calls[c]) in s.pending {
        StageKeepsDispatchers(s, c, Finished);
        ReleaseKeepsDispatchers(At(s, c, Finished), TicketOf(s, c));
      } else {
        AdmitKeepsDispatchers(s, c, at);
      }
    case DropWait(c) => StageKeepsDispatchers(s, c, Abandoned(s.calls[c].stage.ticket));
    case DropTicket(c) =>
      StageKeepsDispatchers(s, c, Finished);
      ReleaseKeepsDispatchers(At(s, c, Finished), TicketOf(s, c));
    case Dispatch(c, delivered) => DispatchKeepsDispatchers(s, c, delivered);
    case GiveUp(c) => StageKeepsDispatchers(s, c, Finished);
  }

  lemma {:induction false} OpeningKeepsDispatchers(s: State, step: Step)
    requires DispatchersHold(s) && Enabled(s, step) && (step.Route? || step.OpenQueue?)
    ensures DispatchersHold(Next(s, step))
  {
    var t := Next(s, step);
    forall d | d in t.calls
      ensures DispatcherHolds(t, d)
    {
      assert d in s.calls ==> DispatcherHolds(s, d);
    }
  }

  lemma {:induction false} StepKeepsDispatchers(s: State, step: Step)
    requires DispatchersHold(s) && SlotInv(s, {}) && Unsaturated(s) && Enabled(s, step)
    ensures DispatchersHold(Next(s, step))
  {
    if IsCallStep(step) {
      CallStepKeepsDispatchers(s, step);
    } else if step.Remove? {
      RemoveKeepsDispatchers(s, step.key);
      OwedIsFree(s, step.key, step.outcome);
      WireKeepsDispatchers(RemoveEntry(s, step.key), Next(s, step));
    } else if step.Route? || step.OpenQueue? {
      OpeningKeepsDispatchers(s, step);
    } else {
      OtherStepIsFree(s, step);
      WireKeepsDispatchers(s, Next(s, step));
    }
  }

  lemma {:induction false} RunKeepsDispatchers(s: State, steps: seq<Step>)
    requires Sound(s) && DispatchersHold(s) && Runs(s, steps) && Unsaturated(After(s, steps))
    ensures Sound(After(s, steps)) && DispatchersHold(After(s, steps))
    decreases |steps|
  {
    if steps != [] {
      RunStaysUnsaturated(s, steps);
      RunStaysUnsaturated(Next(s, steps[0]), steps[1..]);
      StepKeepsSound(s, steps[0]);
      StepKeepsDispatchers(s, steps[0]);
      RunKeepsDispatchers(Next(s, steps[0]), steps[1..]);
    }
  }

  // ---------- when a live ticket leaves its queue ----------

  /** The ticket a step drops, and the state it is dropped in, if it drops one. */
  function Dropping(s: State, step: Step): Option<(Ticket, State)>
    requires Enabled(s, step)
  {
    match step
    case Admit(c, at) =>
      if KeyOf(s.calls[c]) in s.pending then Some((TicketOf(s, c), At(s, c, Finished))) else None
    case DropTicket(c) => Some((TicketOf(s, c), At(s, c, Finished)))
    case Dispatch(c, delivered) =>
      var key := KeyOf(s.calls[c]);
      if key in s.pending && !delivered then
        Some(((key.0, s.pending[key].ticket), Broker.Dropped(At(s, c, Finished), key)))
      else None
    case Remove(key, outcome) => Some(((key.0, s.pending[key].ticket), Broker.Dropped(s, key)))
    case _ => None
  }

  /** The step frees a slot of the ticket's queue, and the promotion that follows reaches
      the ticket in the line. */
  predicate Reached(s: State, step: Step, x: Ticket)
    requires Enabled(s, step)
  {
    match Dropping(s, step)
    case None => false
    case Some((dropped, t)) =>
      && dropped.0 == x.0 && x.0 in s.queues && dropped.1 in s.queues[x.0].active
      && var q := s.queues[x.0];
         x.1 in q.waiting[..Q.Taken(Q.Freed(q, dropped.1), Listening(t, x.0))]
  }

  lemma {:induction false} DropsAreReleases(s: State, step: Step, k: Socket)
    requires Enabled(s, step) && Dropping(s, step).Some? && k in s.queues
    ensures var (dropped, t) := Dropping(s, step).value;
      && dropped !in Next(s, step).tickets && k in Next(s, step).queues
      && Next(s, step).queues[k]
         == (if k == dropped.0 then Q.Release(s.queues[k], dropped.1, Listening(t, k)) else s.queues[k])
  {
    hide Q.Release, Listening, ReleaseTicket;
    var (dropped, t) := Dropping(s, step).value;
    ReleaseTicketEffect(t, dropped, k);
    assert t.queues == s.queues;
    match step
    case Admit(c, at) =>
    case DropTicket(c) =>
    case Dispatch(c, delivered) =>
    case Remove(key, outcome) =>
    case _ =>
  }

  lemma {:induction false} ReleaseTicketEffect(s: State, x: Ticket, k: Socket)
    requires x.0 in s.queues && k in s.queues
    ensures var t := ReleaseTicket(s, x);
      && x !in t.tickets && k in t.queues
      && t.queues[k] == (if k == x.0 then Q.Release(s.queues[k], x.1, Listening(s, k)) else s.queues[k])
  {
  }

  lemma {:induction false} OtherStepsKeepQueued(s: State, step: Step, x: Ticket)
    requires Enabled(s, step) && Dropping(s, step).None? && x.0 in s.queues && Q.Holds(s.queues[x.0], x.1)
    ensures x.0 in Next(s, step).queues && Q.Holds(Next(s, step).queues[x.0], x.1)
  {
    if step.Take? {
      Q.EnqueueEffect(s.queues[s.calls[step.call].socket]);
    }
  }

  /** The calls are those of before, but for the one that acts, which is finished. */
  predicate OnlyFinishes(s: State, t: State, x: Ticket) {
    && t.calls.Keys == s.calls.Keys
    && forall c :: c in s.calls ==>
         t.calls[c] == s.calls[c]
         || (t.calls[c].stage.Finished? && (Carries(s, c) ==> TicketOf(s, c) == x)
             && (s.calls[c].stage.Dispatching? ==>
                   KeyOf(s.calls[c]) in s.pending && x == (s.calls[c].socket, s.pending[KeyOf(s.calls[c])].ticket)))
  }

  lemma {:induction false} DroppingOnlyFinishes(s: State, step: Step)
    requires Enabled(s, step) && Dropping(s, step).Some?
    ensures OnlyFinishes(s, Dropping(s, step).value.1, Dropping(s, step).value.0)
  {
  }

  lemma {:induction false} AbandonedIsUnheard(s: State, t: State, dropped: Ticket, x: Ticket)
    requires SlotInv(s, {}) && DispatchersHold(s) && OnlyFinishes(s, t, dropped) && IsAbandoned(s, x)
    ensures x.1 !in Listening(t, x.0)
  {
    forall c | c in t.calls && t.calls[c].socket == x.0 && (t.calls[c].stage.Holding? || t.calls[c].stage.Dispatching?)
      ensures t.calls[c].stage.ticket != x.1
    {
      assert t.calls[c] == s.calls[c];
      assert CallHolds(s, c) && DispatcherHolds(s, c);
    }
  }

  lemma {:induction false} WaiterIsHeard(s: State, t: State, dropped: Ticket, x: Ticket)
    requires SlotInv(s, {}) && OnlyFinishes(s, t, dropped) && x != dropped && !IsAbandoned(s, x)
    requires x in s.tickets && x.0 in s.queues && x.1 in s.queues[x.0].waiting
    ensures x.1 in Listening(t, x.0)
  {
    var c := match s.tickets[x] case ByCall(c) => c case ByEntry(k) => s.pending[k].call;
    if s.tickets[x].ByEntry? {
      assert EntryHolds(s, s.tickets[x].key);
      assert Q.WellKept(s.queues[x.0]);
      Q.ActiveMeansGranted(s.queues[x.0], x.1);
    }
    assert s.calls[c].stage == Holding(x.1) || s.calls[c].stage == Dispatching(x.1);
    ListeningHas(t, c);
  }

  lemma {:induction false} HeardUnlessAbandoned(s: State, t: State, dropped: Ticket, x: Ticket)
    requires SlotInv(s, {}) && DispatchersHold(s) && OnlyFinishes(s, t, dropped) && x != dropped
    requires x in s.tickets && x.0 in s.queues && x.1 in s.queues[x.0].waiting
    ensures x.1 !in Listening(t, x.0) <==> IsAbandoned(s, x)
  {
    if IsAbandoned(s, x) {
      AbandonedIsUnheard(s, t, dropped, x);
    } else {
      WaiterIsHeard(s, t, dropped, x);
    }
  }

  lemma {:induction false} ReleaseLosesExactly(s: State, t: State, dropped: Ticket, x: Ticket)
    requires SlotInv(s, {}) && DispatchersHold(s) && OnlyFinishes(s, t, dropped) && x != dropped
    requires x in s.tickets && x.0 in s.queues && Q.Holds(s.queues[x.0], x.1) && dropped.0 == x.0
    ensures var (q, listening) := (s.queues[x.0], Listening(t, x.0));
      !Q.Holds(Q.Release(q, dropped.1, listening), x.1) <==>
        && IsAbandoned(s, x)
        && dropped.1 in q.active && x.1 in q.waiting[..Q.Taken(Q.Freed(q, dropped.1), listening)]
  {
    var q := s.queues[x.0];
    assert Q.WellKept(q);
    Q.ReleaseDropsExactly(q, dropped.1, Listening(t, x.0), x.1);
    if x.1 in q.waiting[..Q.Taken(Q.Freed(q, dropped.1), Listening(t, x.0))] {
      HeardUnlessAbandoned(s, t, dropped, x);
    }
  }

  /** Exactly when a live ticket leaves its queue, whatever runs next: a promotion reaches
      it while its call has let go of the receiver but not of the ticket. */
  lemma {:induction false} LeavesExactlyWhenAbandoned(s: State, step: Step, x: Ticket)
    requires SlotInv(s, {}) && DispatchersHold(s) && Enabled(s, step)
    requires x in s.tickets && x.0 in s.queues && Q.Holds(s.queues[x.0], x.1)
    requires x in Next(s, step).tickets && x.0 in Next(s, step).queues
    ensures !Q.Holds(Next(s, step).queues[x.0], x.1) <==> IsAbandoned(s, x) && Reached(s, step, x)
  {
    hide Next, Enabled, Dropping, Listening, IsAbandoned, SlotInv, DispatchersHold, OnlyFinishes;
    match Dropping(s, step)
    case None => OtherStepsKeepQueued(s, step, x);
    case Some((dropped, t)) =>
      DropsAreReleases(s, step, x.0);
      if dropped.0 == x.0 {
        DroppingOnlyFinishes(s, step);
        ReleaseLosesExactly(s, t, dropped, x);
      }
  }

  /** The same of every step of every run. */
  lemma {:induction false} EveryRunDropsExactlyTheAbandoned(steps: seq<Step>, step: Step, x: Ticket)
    requires Runs(INITIAL, steps) && Unsaturated(After(INITIAL, steps)) && Enabled(After(INITIAL, steps), step)
    ensures var s := After(INITIAL, steps);
      var t := Next(s, step);
      x in s.tickets && x in t.tickets && x.0 in s.queues && Q.Holds(s.queues[x.0], x.1) ==>
        && x.0 in t.queues
        && (!Q.Holds(t.queues[x.0], x.1) <==> IsAbandoned(s, x) && Reached(s, step, x))
  {
    InitialIsSound();
    RunKeepsDispatchers(INITIAL, steps);
    var s := After(INITIAL, steps);
    if x in s.tickets && x in Next(s, step).tickets && x.0 in s.queues && Q.Holds(s.queues[x.0], x.1) {
      QueuesStay(s, step, x.0);
      LeavesExactlyWhenAbandoned(s, step, x);
    }
  }

  lemma {:induction false} QueuesStay(s: State, step: Step, socket: Socket)
    requires Enabled(s, step) && socket in s.queues
    ensures socket in Next(s, step).queues
  {
    hide Next;
    if IsCallStep(step) || step.OpenQueue? || step.Remove? {
      QueuesAreUpdated(s, step, socket);
    } else {
      OthersKeepQueues(s, step);
    }
  }

  lemma {:induction false} OthersKeepQueues(s: State, step: Step)
    requires Enabled(s, step) && !IsCallStep(step) && !step.OpenQueue? && !step.Remove?
    ensures Next(s, step).queues == s.queues
  {
  }

  lemma {:induction false} QueuesAreUpdated(s: State, step: Step, socket: Socket)
    requires Enabled(s, step) && socket in s.queues && (IsCallStep(step) || step.OpenQueue? || step.Remove?)
    ensures socket in Next(s, step).queues
  {
    hide Q.Release, Q.Enqueue, Listening;
    match step
    case Take(c) =>
    case Admit(c, at) =>
    case DropTicket(c) =>
    case Dispatch(c, delivered) =>
    case Remove(key, outcome) =>
    case _ =>
  }

  // ---------- a run that does it ----------

  /** The run takes the first four slots of socket `k` for calls 0 to 3, with request ids
      of their own, and lets call 4 wait. */
  function FirstCalls(k: Socket, n: nat): seq<Step> {
    if n == 0 then [Register(k), OpenQueue(k)]
    else FirstCalls(k, n - 1) + [Route(n - 1, k, n - 1), Look(n - 1), Take(n - 1)]
  }

  /** Call 4 lets go of its receiver; call 0 goes away before call 4 drops its ticket. */
  function Departures(): seq<Step> {
    [DropWait(4), DropWait(0), DropTicket(0)]
  }

  /** `n` calls hold the tickets 1 to n of socket `k`, four of them active. */
  ghost predicate Lined(s: State, k: Socket, n: nat) {
    && n <= 5 && k in s.routes && k in s.listed && k in s.outbound
    && (forall j :: j in s.queues <==> j == k)
    && LinedQueue(s.queues[k], n)
    && (forall c: CallId :: c in s.calls <==> c < n)
    && (forall c :: c in s.calls ==> s.calls[c] == Call(k, c, Holding(c + 1)))
    && (forall id: nat :: 1 <= id <= n ==> (k, id) in s.tickets)
  }

  ghost predicate LinedQueue(q: Q.Queue, n: nat) {
    && q.nextId == n + 1 && q.inFlight == Min(n, 4) && q.waiting == (if n == 5 then [5] else [])
    && (forall id: nat :: id in q.active <==> 1 <= id <= Min(n, 4))
  }

  lemma {:induction false} OneMoreInLine(q: Q.Queue, n: nat)
    requires LinedQueue(q, n) && n < 5
    ensures var (p, admission) := Q.Enqueue(q); LinedQueue(p, n + 1) && !admission.Full? && admission.id == n + 1
  {
  }

  lemma {:induction false} OneMoreCall(s: State, k: Socket, n: nat)
    requires Lined(s, k, n) && n < 5
    ensures var more := [Route(n, k, n), Look(n), Take(n)]; Runs(s, more) && Lined(After(s, more), k, n + 1)
  {
    hide Q.Enqueue, LinedQueue;
    var routed := Next(s, Route(n, k, n));
    var found := Next(routed, Look(n));
    assert found.calls == s.calls[n := Call(k, n, Found)] && found.queues == s.queues;
    var taken := Next(found, Take(n));
    ThreeSteps(s, Route(n, k, n), Look(n), Take(n));
    OneMoreInLine(s.queues[k], n);
    assert taken.calls == s.calls[n := Call(k, n, Holding(n + 1))];
    assert taken.tickets == s.tickets[(k, n + 1) := ByCall(n)];
  }

  lemma {:induction false} CallsLineUp(k: Socket, n: nat)
    requires n <= 5
    ensures Runs(INITIAL, FirstCalls(k, n)) && Lined(After(INITIAL, FirstCalls(k, n)), k, n)
  {
    if n == 0 {
      OneStep(INITIAL, Register(k));
      OneStep(Next(INITIAL, Register(k)), OpenQueue(k));
      RunsThen(INITIAL, [Register(k)], [OpenQueue(k)]);
      var start := Next(Next(INITIAL, Register(k)), OpenQueue(k));
      assert [Register(k)] + [OpenQueue(k)] == FirstCalls(k, n) && start == After(INITIAL, FirstCalls(k, n));
      assert start.queues == map[k := Q.EMPTY] && start.calls == map[] && LinedQueue(Q.EMPTY, 0);
      assert Lined(start, k, 0);
    } else {
      CallsLineUp(k, n - 1);
      var s := After(INITIAL, FirstCalls(k, n - 1));
      OneMoreCall(s, k, n - 1);
      var more := [Route(n - 1, k, n - 1), Look(n - 1), Take(n - 1)];
      RunsThen(INITIAL, FirstCalls(k, n - 1), more);
      assert FirstCalls(k, n) == FirstCalls(k, n - 1) + more;
    }
  }

  lemma {:induction false} PromotionDropsTheFifth(q: Q.Queue, listening: set<nat>)
    requires LinedQueue(q, 5) && 5 !in listening
    ensures var p := Q.Release(q, 1, listening); !Q.Holds(p, 5) && p.nextId == 6
  {
    var f := Q.Freed(q, 1);
    var p := Q.Advance(f, listening);
    assert p.waiting == [];
    assert Q.Promote(f, listening) == Q.Promote(p, listening) == p;
  }

  lemma {:induction false} DeparturesLoseATicket(s: State, k: Socket)
    requires Lined(s, k, 5)
    ensures Runs(s, Departures())
    ensures var t := After(s, Departures());
      && (k, 5) in t.tickets && k in t.queues && !Q.Holds(t.queues[k], 5) && Unsaturated(t)
  {
    var left := Next(s, DropWait(4));
    var both := Next(left, DropWait(0));
    assert both.calls == s.calls[4 := Call(k, 4, Abandoned(5))][0 := Call(k, 0, Abandoned(1))];
    ThreeSteps(s, DropWait(4), DropWait(0), DropTicket(0));
    var ended := At(both, 0, Finished);
    forall c | c in ended.calls && ended.calls[c].stage.Holding?
      ensures ended.calls[c].stage.ticket != 5
    {
      assert ended.calls[c] == s.calls[c];
    }
    PromotionDropsTheFifth(s.queues[k], Listening(ended, k));
  }

  /** A run from the start leaves a live ticket outside its queue, before the id counters
      have run out and with nothing else amiss. */
  lemma {:induction false} ALiveTicketCanLoseItsPlace(k: Socket)
    ensures var steps := FirstCalls(k, 5) + Departures();
      && Runs(INITIAL, steps)
      && var s := After(INITIAL, steps);
         Unsaturated(s) && (k, 5) in s.tickets && k in s.queues && !Q.Holds(s.queues[k], 5)
  {
    CallsLineUp(k, 5);
    DeparturesLoseATicket(After(INITIAL, FirstCalls(k, 5)), k);
    RunsThen(INITIAL, FirstCalls(k, 5), Departures());
  }
}
