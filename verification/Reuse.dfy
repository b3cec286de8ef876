/** A request id used again after its request was answered: the earlier call's dispatch task
    may still wait for its slot, and asks only whether something is pending under the id. */
module Reuse {
  import opened Common
  import Q = Queue
  import opened Pending
  import opened Broker

  // ---------- whose entry a dispatch task finds ----------

  /** A dispatch task that still waits has its own entry pending, or its call was answered. */
  ghost predicate TaskHolds(s: State, c: CallId)
    requires c in s.calls
  {
    s.calls[c].stage.Dispatching? ==>
      var key := KeyOf(s.calls[c]);
      c in s.answers || (key in s.pending && s.pending[key].call == c)
  }

  ghost predicate TasksHold(s: State) {
    forall c :: c in s.calls ==> TaskHolds(s, c)
  }

  lemma {:induction false} WaitingTask(s: State, step: Step, c: CallId)
    requires Enabled(s, step) && c in s.calls && s.calls[c].stage.Dispatching? && TaskHolds(s, c)
    ensures var (t, key) := (Next(s, step), KeyOf(s.calls[c]));
      c in t.answers || (key in t.pending && t.pending[key].call == c)
  {
    hide Next, Enabled;
    var key := KeyOf(s.calls[c]);
    MarksStay(s, step);
    if c !in s.answers {
      if Removed(s, step).Some? {
        RemovalAnswers(s, step);
      } else {
        OtherStepsAnswerNobody(s, step);
      }
      if key in Next(s, step).pending {
        StepKeepsTotal(s, step, key);
      }
    }
  }

  /** Only admission starts a dispatch task. */
  lemma {:induction false} OnlyAdmitStarts(s: State, step: Step, c: CallId)
    requires Enabled(s, step) && c in Next(s, step).calls && Next(s, step).calls[c].stage.Dispatching?
    requires c in s.calls ==> !s.calls[c].stage.Dispatching?
    ensures step.Admit? && step.call == c
  {
    hide ReleaseTicket, RemoveEntry, Q.Enqueue;
    if step.Route? {
    } else if IsCallStep(step) {
      if c in s.calls {
        CallStepMovesOne(s, step, c);
      }
    } else {
      OthersKeepCalls(s, step);
    }
  }

  lemma {:induction false} AdmittedTask(s: State, c: CallId, at: nat)
    requires Enabled(s, Admit(c, at)) && Next(s, Admit(c, at)).calls[c].stage.Dispatching?
    ensures TaskHolds(Next(s, Admit(c, at)), c)
  {
    hide ReleaseTicket;
  }

  lemma {:induction false} StepKeepsTasks(s: State, step: Step)
    requires TasksHold(s) && Enabled(s, step)
    ensures TasksHold(Next(s, step))
  {
    hide Next, Enabled;
    forall c | c in Next(s, step).calls
      ensures TaskHolds(Next(s, step), c)
    {
      if c in s.calls && s.calls[c].stage.Dispatching? {
        assert TaskHolds(s, c);
        WaitingTask(s, step, c);
        KeyStays(s, step, c);
      } else if Next(s, step).calls[c].stage.Dispatching? {
        OnlyAdmitStarts(s, step, c);
        AdmittedTask(s, c, step.at);
      }
    }
  }

  lemma {:induction false} RunKeepsTasks(s: State, steps: seq<Step>)
    requires TasksHold(s) && Runs(s, steps)
    ensures TasksHold(After(s, steps))
    decreases |steps|
  {
    hide Next, Enabled, TasksHold;
    if steps != [] {
      StepKeepsTasks(s, steps[0]);
      RunKeepsTasks(Next(s, steps[0]), steps[1..]);
    }
  }

  lemma {:induction false} DispatchSends(s: State, c: CallId)
    requires Enabled(s, Dispatch(c, true))
    ensures var (socket, t) := (s.calls[c].socket, Next(s, Dispatch(c, true)));
      t.outbound[socket] == s.outbound[socket]
        + if KeyOf(s.calls[c]) in s.pending then [RequestFrame(s.calls[c].request, c)] else []
  {
    assert s.outbound[s.calls[c].socket] + [] == s.outbound[s.calls[c].socket];
  }

  /** In every run, whatever ids are used: a dispatch task sends if and only if something is
      pending under its id, and that is its own entry exactly while its call is unanswered.
      So an answered call is still sent if and only if its id is pending again by then. */
  lemma {:induction false} AnsweredCallsAreSentExactlyOnReuse(steps: seq<Step>, c: CallId)
    requires Runs(INITIAL, steps) && Unsaturated(After(INITIAL, steps))
    requires Enabled(After(INITIAL, steps), Dispatch(c, true))
    ensures var s := After(INITIAL, steps);
      var (socket, key, t) := (s.calls[c].socket, KeyOf(s.calls[c]), Next(s, Dispatch(c, true)));
      && t.outbound[socket] ==
           s.outbound[socket] + (if key in s.pending then [RequestFrame(key.1, c)] else [])
      && (key in s.pending ==> (s.pending[key].call == c <==> c !in s.answers))
      && (key !in s.pending ==> c in s.answers)
  {
    hide Next, Enabled;
    var s := After(INITIAL, steps);
    InitialIsSound();
    RunKeepsSound(INITIAL, steps);
    RunKeepsTasks(INITIAL, steps);
    DispatchIsEnabled(s, c);
    DispatchSends(s, c);
    assert TaskHolds(s, c);
  }

  lemma {:induction false} DispatchIsEnabled(s: State, c: CallId)
    requires Enabled(s, Dispatch(c, true))
    ensures c in s.calls && s.calls[c].stage.Dispatching?
  {
  }

  // ---------- a run that sends one id twice ----------

  /** The steps that take call `c` with `request` to a dispatch task of its own. */
  function Enters(k: Socket, request: RequestId, c: CallId): seq<Step> {
    [Route(c, k, request), Look(c), Take(c)] + [Admit(c, 0)]
  }

  /** Socket `k` is open, its queue idle with `n` as the next id, and nothing is pending. */
  ghost predicate Idle(s: State, k: Socket, n: nat) {
    && k in s.routes && k in s.listed && k in s.outbound && k in s.queues && s.pending == map[]
    && s.queues[k].nextId == n < U64_MAX && s.queues[k].inFlight == 0 && s.queues[k].waiting == []
    && s.queues[k].active == {}
  }

  ghost predicate Serves(s: State, k: Socket, request: RequestId, c: CallId, n: nat) {
    && k in s.routes && k in s.listed && k in s.outbound && k in s.queues
    && c in s.calls && s.calls[c] == Call(k, request, Dispatching(n))
    && s.pending.Keys == {(k, request)} && s.pending[(k, request)].call == c
    && s.pending[(k, request)].ticket == n
    && s.queues[k].nextId == n + 1 && s.queues[k].inFlight == 1 && s.queues[k].waiting == []
    && s.queues[k].active == {n} && n in s.queues[k].granted
  }

  lemma {:induction false} CallTakesItsTurn(s: State, k: Socket, request: RequestId, c: CallId, n: nat)
    requires Idle(s, k, n) && c !in s.calls
    ensures var steps := [Route(c, k, request), Look(c), Take(c)];
      && Runs(s, steps)
      && After(s, steps) == s.(calls := s.calls[c := Call(k, request, Holding(n))],
                               queues := s.queues[k := Q.Enqueue(s.queues[k]).0],
                               tickets := s.tickets[(k, n) := ByCall(c)])
  {
    hide Idle, Q.Enqueue;
    FreeSlot(s, k, n);
    var routed := Next(s, Route(c, k, request));
    var found := Next(routed, Look(c));
    assert found.calls == s.calls[c := Call(k, request, Found)] && found.queues == s.queues;
    assert Next(found, Take(c)).calls == s.calls[c := Call(k, request, Holding(n))];
    ThreeSteps(s, Route(c, k, request), Look(c), Take(c));
  }

  lemma {:induction false} FreeSlot(s: State, k: Socket, n: nat)
    requires Idle(s, k, n)
    ensures k in s.routes && k in s.listed && k in s.outbound && k in s.queues && s.pending == map[]
    ensures Q.Enqueue(s.queues[k]).1 == Q.Dispatched(n)
  {
  }

  lemma {:induction false} CallEnters(s: State, k: Socket, request: RequestId, c: CallId, n: nat)
    requires Idle(s, k, n) && c !in s.calls
    ensures Runs(s, Enters(k, request, c))
    ensures var t := After(s, Enters(k, request, c));
      && Serves(t, k, request, c, n)
      && t.calls == s.calls[c := Call(k, request, Dispatching(n))]
      && s.queues[k].granted <= t.queues[k].granted && t.queues.Keys == s.queues.Keys
      && t.outbound == s.outbound && t.answers == s.answers
  {
    hide Runs, After;
    var steps := [Route(c, k, request), Look(c), Take(c)];
    CallTakesItsTurn(s, k, request, c, n);
    var holding := After(s, steps);
    OneStep(holding, Admit(c, 0));
    assert Next(holding, Admit(c, 0)).calls == s.calls[c := Call(k, request, Dispatching(n))];
    RunsThen(s, steps, [Admit(c, 0)]);
  }

  /** The request is cancelled before its dispatch task runs: answered, and its slot free. */
  lemma {:induction false} CancelLeavesIdle(s: State, k: Socket, request: RequestId, c: CallId, n: nat)
    requires Serves(s, k, request, c, n) && n + 1 < U64_MAX
    ensures Enabled(s, Remove((k, request), Cancelled))
    ensures var t := Next(s, Remove((k, request), Cancelled));
      && Idle(t, k, n + 1) && c in t.answers && t.calls == s.calls
      && t.queues[k].granted == s.queues[k].granted && t.queues.Keys == s.queues.Keys && t.outbound == s.outbound
  {
    var q, t := s.queues[k], Next(s, Remove((k, request), Cancelled));
    assert t.queues[k] == Q.Freed(q, n);
    assert t.pending == map[];
  }

  lemma {:induction false} BothAreSent(s: State, k: Socket, request: RequestId)
    requires Serves(s, k, request, 1, 2) && 1 in s.queues[k].granted
    requires 0 in s.calls && s.calls[0] == Call(k, request, Dispatching(1))
    ensures var both := [Dispatch(0, true), Dispatch(1, true)];
      && Runs(s, both)
      && k in After(s, both).outbound
      && After(s, both).outbound[k] == s.outbound[k] + [RequestFrame(request, 0), RequestFrame(request, 1)]
      && After(s, both).queues == s.queues && After(s, both).answers == s.answers
  {
    var once := Next(s, Dispatch(0, true));
    DispatchSends(s, 0);
    DispatchSends(once, 1);
    OneStep(s, Dispatch(0, true));
    OneStep(once, Dispatch(1, true));
    RunsThen(s, [Dispatch(0, true)], [Dispatch(1, true)]);
    assert [Dispatch(0, true)] + [Dispatch(1, true)] == [Dispatch(0, true), Dispatch(1, true)];
    assert s.outbound[k] + [RequestFrame(request, 0)] + [RequestFrame(request, 1)]
        == s.outbound[k] + [RequestFrame(request, 0), RequestFrame(request, 1)];
  }

  lemma {:induction false} SocketOpens(k: Socket)
    ensures var opening := [Register(k)] + [OpenQueue(k)];
      && Runs(INITIAL, opening)
      && var s := After(INITIAL, opening);
         Idle(s, k, 1) && s.calls == map[] && s.outbound[k] == [] && s.queues.Keys == {k}
  {
    OneStep(INITIAL, Register(k));
    OneStep(Next(INITIAL, Register(k)), OpenQueue(k));
    RunsThen(INITIAL, [Register(k)], [OpenQueue(k)]);
  }

  /** Call 0 is cancelled before its turn, and call 1 comes with the same id. */
  function CancelledFirst(k: Socket, request: RequestId): seq<Step> {
    [Register(k)] + [OpenQueue(k)] + Enters(k, request, 0) + [Remove((k, request), Cancelled)]
  }

  lemma {:induction false} CancelledFirstRuns(k: Socket, request: RequestId)
    ensures Runs(INITIAL, CancelledFirst(k, request))
    ensures var s := After(INITIAL, CancelledFirst(k, request));
      && Idle(s, k, 2) && 1 in s.queues[k].granted && s.queues.Keys == {k}
      && s.calls.Keys == {0} && s.calls[0] == Call(k, request, Dispatching(1))
      && 0 in s.answers && s.outbound[k] == []
  {
    hide Next, Enabled, Enters;
    var opening, cancel := [Register(k)] + [OpenQueue(k)], Remove((k, request), Cancelled);
    SocketOpens(k);
    var open := After(INITIAL, opening);
    CallEnters(open, k, request, 0, 1);
    RunsThen(INITIAL, opening, Enters(k, request, 0));
    var first := After(open, Enters(k, request, 0));
    CancelLeavesIdle(first, k, request, 0, 1);
    OneStep(first, cancel);
    RunsThen(INITIAL, opening + Enters(k, request, 0), [cancel]);
  }

  lemma {:induction false} TwiceIsDisorder(request: RequestId, c: CallId, d: CallId)
    ensures !WellOrdered([RequestFrame(request, c), RequestFrame(request, d)])
  {
    var frames := [RequestFrame(request, c), RequestFrame(request, d)];
    assert frames[0].request == frames[1].request && frames[1].RequestFrame?;
  }

  /** Why the wire results ask for unique ids. In this run of one socket the plugin gets two
      requests under one id, and the first of them was answered before it was sent. */
  lemma {:induction false} AReusedIdIsSentTwice(k: Socket, request: RequestId)
    ensures var steps := CancelledFirst(k, request) + Enters(k, request, 1) + [Dispatch(0, true), Dispatch(1, true)];
      && Runs(INITIAL, steps)
      && var s := After(INITIAL, steps);
         && Unsaturated(s) && k in s.outbound && 0 in s.answers
         && s.outbound[k] == [RequestFrame(request, 0), RequestFrame(request, 1)]
         && !WellOrdered(s.outbound[k])
  {
    hide Next, Enabled, Enters, CancelledFirst;
    var before := CancelledFirst(k, request);
    CancelledFirstRuns(k, request);
    var idle := After(INITIAL, before);
    CallEnters(idle, k, request, 1, 2);
    RunsThen(INITIAL, before, Enters(k, request, 1));
    var second := After(idle, Enters(k, request, 1));
    BothAreSent(second, k, request);
    TwiceIsDisorder(request, 0, 1);
    RunsThen(INITIAL, before + Enters(k, request, 1), [Dispatch(0, true), Dispatch(1, true)]);
  }
}
