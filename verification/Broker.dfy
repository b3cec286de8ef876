/** The broker as one protocol: every lock region of invoke, dispatch, response,
    cancel, expiry and socket loss is one atomic step over the shared state. */
module Broker {
  import opened Common
  import Q = Queue
  import opened Pending

  type Ticket = (Socket, nat)

  /** Where one invocation is. Its dispatch receiver is alive while it holds its
      ticket before admission, and while its dispatch task waits. */
  datatype Stage = Routed | Found | Holding(ticket: nat) | Abandoned(ticket: nat) | Dispatching(ticket: nat) | Finished

  datatype Call = Call(socket: Socket, request: RequestId, stage: Stage)

  /** Who owns a live queue ticket. */
  datatype Owner = ByCall(call: CallId) | ByEntry(key: Key)

  datatype Frame = RequestFrame(request: RequestId, call: CallId) | CancelFrame(request: RequestId, call: CallId)

  datatype State = State(
    now: nat,
    routes: set<Socket>,
    listed: set<Socket>,
    queues: map<Socket, Q.Queue>,
    calls: map<CallId, Call>,
    pending: Requests,
    tickets: map<Ticket, Owner>,
    outbound: map<Socket, seq<Frame>>,
    owed: set<(Key, CallId)>,
    answers: map<CallId, nat>,
    sent: set<CallId>)

  const INITIAL: State := State(0, {}, {}, map[], map[], map[], map[], map[], {}, map[], {})

  datatype Step =
    | Tick(to: nat)
    | Register(socket: Socket)
    | OpenQueue(socket: Socket)
    | Unregister(socket: Socket)
    | CloseQueue(socket: Socket)
    | Route(call: CallId, socket: Socket, request: RequestId)
    | Look(call: CallId)
    | Take(call: CallId)
    | Admit(call: CallId, at: nat)
    | DropWait(call: CallId)
    | DropTicket(call: CallId)
    | Dispatch(call: CallId, delivered: bool)
    | GiveUp(call: CallId)
    | Remove(key: Key, outcome: Outcome)
    | SendCancel(key: Key, call: CallId, delivered: bool)
    | Progress(key: Key)

  function KeyOf(c: Call): Key {
    (c.socket, c.request)
  }

  /** The tickets of `socket` whose dispatch receivers are alive. */
  function Listening(s: State, socket: Socket): set<nat> {
    set c | c in s.calls && s.calls[c].socket == socket
      && (s.calls[c].stage.Holding? || s.calls[c].stage.Dispatching?) :: s.calls[c].stage.ticket
  }

  // ---------- the steps ----------

  predicate Enabled(s: State, step: Step) {
    match step
    case Tick(to) => s.now <= to
    case Register(socket) => socket !in s.outbound
    case OpenQueue(socket) => socket in s.outbound && socket !in s.queues
    case Unregister(socket) => true
    case CloseQueue(socket) => true
    case Route(call, socket, request) => call !in s.calls && socket in s.routes && socket in s.outbound
    case Look(call) => call in s.calls && s.calls[call].stage.Routed?
    case Take(call) => call in s.calls && s.calls[call].stage.Found? && s.calls[call].socket in s.queues
    case Admit(call, at) =>
      call in s.calls && s.calls[call].stage.Holding? && at <= s.now && s.calls[call].socket in s.queues
    case DropWait(call) => call in s.calls && s.calls[call].stage.Holding?
    case DropTicket(call) => call in s.calls && s.calls[call].stage.Abandoned? && s.calls[call].socket in s.queues
    case Dispatch(call, delivered) =>
      && call in s.calls && s.calls[call].stage.Dispatching?
      && s.calls[call].socket in s.queues && s.calls[call].socket in s.outbound
      && s.calls[call].stage.ticket in s.queues[s.calls[call].socket].granted
    case GiveUp(call) =>
      && call in s.calls && s.calls[call].stage.Dispatching?
      && s.calls[call].socket in s.queues
      && s.calls[call].stage.ticket !in s.queues[s.calls[call].socket].granted
      && s.calls[call].stage.ticket !in s.queues[s.calls[call].socket].waiting
    case Remove(key, outcome) =>
      && key in s.pending && key.0 in s.queues && outcome != SendFailed
      && (outcome == TimedOut ==> Expired(s.pending[key], s.now))
    case SendCancel(key, call, delivered) => (key, call) in s.owed && key.0 in s.outbound
    case Progress(key) => key in s.pending
  }

  function At(s: State, call: CallId, stage: Stage): (t: State)
    requires call in s.calls
    ensures t.(calls := s.calls) == s
  {
    s.(calls := s.calls[call := s.calls[call].(stage := stage)])
  }

  /** Dropping a ticket releases it. */
  function ReleaseTicket(s: State, ticket: Ticket): (t: State)
    requires ticket.0 in s.queues
    ensures t.(queues := s.queues, tickets := s.tickets) == s
  {
    s.(queues := s.queues[ticket.0 := Q.Release(s.queues[ticket.0], ticket.1, Listening(s, ticket.0))],
       tickets := s.tickets - {ticket})
  }

  function Count(answers: map<CallId, nat>, call: CallId): nat {
    if call in answers then answers[call] else 0
  }

  /** Remove an entry: its result is sent and its ticket dropped. */
  function RemoveEntry(s: State, key: Key): (t: State)
    requires key in s.pending && key.0 in s.queues
    ensures t.(queues := s.queues, tickets := s.tickets, pending := s.pending, answers := s.answers) == s
  {
    ReleaseTicket(Dropped(s, key), (key.0, s.pending[key].ticket))
  }

  /** The entry is gone and its result sent, but its ticket is still live. */
  function Dropped(s: State, key: Key): State
    requires key in s.pending
  {
    var call := s.pending[key].call;
    s.(pending := s.pending - {key}, answers := s.answers[call := Count(s.answers, call) + 1])
  }

  function Next(s: State, step: Step): State
    requires Enabled(s, step)
  {
    match step
    case Tick(to) => s.(now := to)
    case Register(socket) => s.(routes := s.routes + {socket}, outbound := s.outbound[socket := []])
    case OpenQueue(socket) => s.(listed := s.listed + {socket}, queues := s.queues[socket := Q.EMPTY])
    case Unregister(socket) => s.(routes := s.routes - {socket})
    case CloseQueue(socket) => s.(listed := s.listed - {socket})
    case Route(call, socket, request) => s.(calls := s.calls[call := Call(socket, request, Routed)])
    case Look(call) => At(s, call, if s.calls[call].socket in s.listed * s.queues.Keys then Found else Finished)
    case Take(call) => TakeTicket(s, call)
    case Admit(call, at) => AdmitCall(s, call, at)
    case DropWait(call) => At(s, call, Abandoned(s.calls[call].stage.ticket))
    case DropTicket(call) => ReleaseTicket(At(s, call, Finished), (s.calls[call].socket, s.calls[call].stage.ticket))
    case Dispatch(call, delivered) => DispatchCall(s, call, delivered)
    case GiveUp(call) => At(s, call, Finished)
    case Remove(key, outcome) =>
      var t := RemoveEntry(s, key);
      if outcome.Cancelled? || outcome.TimedOut? then t.(owed := t.owed + {(key, s.pending[key].call)}) else t
    case SendCancel(key, call, delivered) =>
      var t := s.(owed := s.owed - {(key, call)});
      if delivered then t.(outbound := t.outbound[key.0 := t.outbound[key.0] + [CancelFrame(key.1, call)]]) else t
    case Progress(key) =>
      s.(pending := s.pending[key := s.pending[key].(inactivity := s.now + INACTIVITY_TIMEOUT_MS)])
  }

  function TakeTicket(s: State, call: CallId): (t: State)
    requires call in s.calls && s.calls[call].socket in s.queues
    ensures t.(queues := s.queues, tickets := s.tickets, calls := s.calls) == s
  {
    var socket := s.calls[call].socket;
    var (q, admission) := Q.Enqueue(s.queues[socket]);
    var t := s.(queues := s.queues[socket := q]);
    if admission.Full? then At(t, call, Finished)
    else At(t, call, Holding(admission.id)).(tickets := t.tickets[(socket, admission.id) := ByCall(call)])
  }

  /** A duplicate id is refused and gives its slot back; otherwise the entry takes the
      ticket over. */
  function AdmitCall(s: State, call: CallId, at: nat): (t: State)
    requires call in s.calls && s.calls[call].stage.Holding? && s.calls[call].socket in s.queues
    ensures t.(queues := s.queues, tickets := s.tickets, calls := s.calls, pending := s.pending) == s
  {
    var key, ticket := KeyOf(s.calls[call]), s.calls[call].stage.ticket;
    if key in s.pending then ReleaseTicket(At(s, call, Finished), (key.0, ticket))
    else
      At(s, call, Dispatching(ticket)).(
        pending := s.pending[key := Entry(call, ticket, at + TOTAL_TIMEOUT_MS, at + INACTIVITY_TIMEOUT_MS)],
        tickets := s.tickets[(key.0, ticket) := ByEntry(key)])
  }

  /** Under the pending lock: nothing if the request is gone, else send it, and answer
      it with the error if it cannot be sent. */
  function DispatchCall(s: State, call: CallId, delivered: bool): (t: State)
    requires call in s.calls && s.calls[call].socket in s.queues && s.calls[call].socket in s.outbound
    ensures (t.now, t.routes, t.listed, t.owed) == (s.now, s.routes, s.listed, s.owed)
  {
    var key := KeyOf(s.calls[call]);
    var t := At(s, call, Finished);
    if key !in s.pending then t
    else if delivered then
      t.(outbound := t.outbound[key.0 := t.outbound[key.0] + [RequestFrame(key.1, call)]], sent := t.sent + {call})
    else RemoveEntry(t, key)
  }

  // ---------- slots and tickets ----------

  /** Every queue is orderly and keeps its slots full while anyone waits. */
  ghost predicate QueuesHold(s: State) {
    forall k :: k in s.queues ==> Q.WellKept(s.queues[k])
  }

  /** The 64-bit id counters have not run out. */
  ghost predicate Unsaturated(s: State) {
    forall k :: k in s.queues ==> s.queues[k].nextId < U64_MAX
  }

  /** Every live ticket, but for those just orphaned, is where its owner says. */
  ghost predicate OwnersHold(s: State, orphans: set<Ticket>) {
    forall t :: t in s.tickets ==>
      && t.0 in s.queues && t.1 < s.queues[t.0].nextId
      && (t !in orphans ==>
            match s.tickets[t]
            case ByCall(c) =>
              && c in s.calls && s.calls[c].socket == t.0
              && (s.calls[c].stage == Holding(t.1) || s.calls[c].stage == Abandoned(t.1))
            case ByEntry(k) => k in s.pending && k.0 == t.0 && s.pending[k].ticket == t.1)
  }

  ghost predicate CallHolds(s: State, c: CallId)
    requires c in s.calls
  {
    var call := s.calls[c];
    && call.socket in s.outbound
    && match call.stage
       case Holding(t) => (call.socket, t) in s.tickets && s.tickets[(call.socket, t)] == ByCall(c)
       case Abandoned(t) => (call.socket, t) in s.tickets && s.tickets[(call.socket, t)] == ByCall(c)
       case _ => true
  }

  ghost predicate CallsHold(s: State) {
    forall c :: c in s.calls ==> CallHolds(s, c)
  }

  /** An entry owns its ticket, and its call has been dispatched or is about to be. */
  ghost predicate EntryHolds(s: State, k: Key)
    requires k in s.pending
  {
    var e := s.pending[k];
    && k.0 in s.queues
    && (k.0, e.ticket) in s.tickets && s.tickets[(k.0, e.ticket)] == ByEntry(k)
    && e.call in s.calls && KeyOf(s.calls[e.call]) == k
    && (s.calls[e.call].stage == Dispatching(e.ticket)
        || (s.calls[e.call].stage == Finished && e.ticket in s.queues[k.0].granted))
  }

  ghost predicate EntriesHold(s: State) {
    forall k :: k in s.pending ==> EntryHolds(s, k)
  }

  ghost predicate QueuedAreLive(s: State) {
    forall k, id: nat :: k in s.queues && Q.Holds(s.queues[k], id) ==> (k, id) in s.tickets
  }

  ghost predicate IsAbandoned(s: State, t: Ticket) {
    t in s.tickets && s.tickets[t].ByCall? && s.tickets[t].call in s.calls
    && s.calls[s.tickets[t].call].stage.Abandoned?
  }

  ghost predicate LiveAreQueued(s: State, orphans: set<Ticket>) {
    forall t :: t in s.tickets && t !in orphans ==>
      t.0 in s.queues && (Q.Holds(s.queues[t.0], t.1) || IsAbandoned(s, t))
  }

  ghost predicate SlotInv(s: State, orphans: set<Ticket>) {
    && QueuesHold(s) && OwnersHold(s, orphans) && CallsHold(s) && EntriesHold(s)
    && QueuedAreLive(s) && LiveAreQueued(s, orphans)
  }

  // ---------- slots: releasing ----------

  lemma {:induction false} ListeningHas(s: State, c: CallId)
    requires c in s.calls && (s.calls[c].stage.Holding? || s.calls[c].stage.Dispatching?)
    ensures s.calls[c].stage.ticket in Listening(s, s.calls[c].socket)
  {
  }

  /** A waiter that promotion drops was abandoned: every other one has someone
      listening for it. */
  lemma {:induction false} UnheardIsAbandoned(s: State, orphans: set<Ticket>, socket: Socket, id: nat)
    requires SlotInv(s, orphans) && socket in s.queues && id in s.queues[socket].waiting
    requires (socket, id) !in orphans && id !in Listening(s, socket)
    ensures IsAbandoned(s, (socket, id))
  {
  }

  /** No call and no entry refers to the ticket any more. */
  ghost predicate Orphan(s: State, t: Ticket) {
    && t in s.tickets && t.0 in s.queues
    && (forall c :: c in s.calls && s.calls[c].socket == t.0 ==>
          s.calls[c].stage != Holding(t.1) && s.calls[c].stage != Abandoned(t.1))
    && (forall k :: k in s.pending && k.0 == t.0 ==> s.pending[k].ticket != t.1)
  }

  lemma {:induction false} ReleaseKeepsQueues(s: State, t: Ticket)
    requires QueuesHold(s) && OwnersHold(s, {t}) && Orphan(s, t) && Unsaturated(s)
    ensures QueuesHold(ReleaseTicket(s, t)) && OwnersHold(ReleaseTicket(s, t), {})
    ensures Unsaturated(ReleaseTicket(s, t))
  {
    Q.ReleaseKeeps(s.queues[t.0], t.1, Listening(s, t.0));
    Q.PromoteNextId(Q.Freed(s.queues[t.0], t.1), Listening(s, t.0));
  }

  lemma {:induction false} ReleaseKeepsCalls(s: State, t: Ticket)
    requires CallsHold(s) && Orphan(s, t)
    ensures CallsHold(ReleaseTicket(s, t))
  {
  }

  lemma {:induction false} ReleaseKeepsEntries(s: State, t: Ticket)
    requires EntriesHold(s) && QueuesHold(s) && Orphan(s, t)
    ensures EntriesHold(ReleaseTicket(s, t))
  {
    var r := ReleaseTicket(s, t);
    Q.ReleaseEffect(s.queues[t.0], t.1, Listening(s, t.0));
    forall k | k in r.pending
      ensures EntryHolds(r, k)
    {
      assert EntryHolds(s, k);
    }
  }

  lemma {:induction false} ReleaseKeepsLive(s: State, t: Ticket)
    requires SlotInv(s, {t}) && Orphan(s, t)
    ensures QueuedAreLive(ReleaseTicket(s, t)) && LiveAreQueued(ReleaseTicket(s, t), {})
  {
    var socket, r := t.0, ReleaseTicket(s, t);
    var q, p := s.queues[socket], r.queues[socket];
    Q.ReleaseEffect(q, t.1, Listening(s, socket));
    forall k, id: nat | k in r.queues && Q.Holds(r.queues[k], id)
      ensures (k, id) in r.tickets
    {
      assert Q.Holds(s.queues[k], id);
      assert (k, id) in s.tickets;
    }
    forall x | x in r.tickets
      ensures x.0 in r.queues && (Q.Holds(r.queues[x.0], x.1) || IsAbandoned(r, x))
    {
      assert x in s.tickets && x != t;
      if x.0 == socket && Q.Holds(q, x.1) && !Q.Holds(p, x.1) {
        UnheardIsAbandoned(s, {t}, socket, x.1);
      }
    }
  }

  lemma {:induction false} ReleaseKeepsSlots(s: State, t: Ticket)
    requires SlotInv(s, {t}) && Orphan(s, t) && Unsaturated(s)
    ensures SlotInv(ReleaseTicket(s, t), {}) && Unsaturated(ReleaseTicket(s, t))
  {
    ReleaseKeepsQueues(s, t);
    ReleaseKeepsCalls(s, t);
    ReleaseKeepsEntries(s, t);
    ReleaseKeepsLive(s, t);
  }

  // ---------- slots: the steps ----------

  lemma {:induction false} DropKeepsOwners(s: State, key: Key)
    requires OwnersHold(s, {}) && key in s.pending
    ensures OwnersHold(Dropped(s, key), {(key.0, s.pending[key].ticket)})
  {
  }

  lemma {:induction false} DropKeepsCalls(s: State, key: Key)
    requires CallsHold(s) && key in s.pending
    ensures CallsHold(Dropped(s, key))
  {
  }

  lemma {:induction false} DropKeepsEntries(s: State, key: Key)
    requires EntriesHold(s) && key in s.pending
    ensures EntriesHold(Dropped(s, key))
  {
  }

  lemma {:induction false} DropOrphans(s: State, key: Key)
    requires CallsHold(s) && EntriesHold(s) && key in s.pending
    ensures Orphan(Dropped(s, key), (key.0, s.pending[key].ticket))
  {
  }

  lemma {:induction false} DropKeepsLive(s: State, key: Key, orphans: set<Ticket>)
    requires QueuedAreLive(s) && LiveAreQueued(s, {}) && key in s.pending
    ensures QueuedAreLive(Dropped(s, key)) && LiveAreQueued(Dropped(s, key), orphans)
  {
  }

  lemma {:induction false} RemoveEntryKeepsSlots(s: State, key: Key)
    requires SlotInv(s, {}) && Unsaturated(s) && key in s.pending && key.0 in s.queues
    ensures SlotInv(RemoveEntry(s, key), {}) && Unsaturated(RemoveEntry(s, key))
  {
    var ticket := (key.0, s.pending[key].ticket);
    DropKeepsOwners(s, key);
    DropKeepsCalls(s, key);
    DropKeepsEntries(s, key);
    DropOrphans(s, key);
    DropKeepsLive(s, key, {ticket});
    ReleaseKeepsSlots(Dropped(s, key), ticket);
  }

  // ---------- slots: one call moves on ----------

  lemma {:induction false} StageOwners(s: State, c: CallId, stage: Stage, orphans: set<Ticket>)
    requires OwnersHold(s, {}) && c in s.calls
    requires forall t :: t in s.tickets && t !in orphans && s.tickets[t] == ByCall(c) ==>
      stage == Holding(t.1) || stage == Abandoned(t.1)
    ensures OwnersHold(At(s, c, stage), orphans)
  {
  }

  lemma {:induction false} StageCalls(s: State, c: CallId, stage: Stage)
    requires CallsHold(s) && c in s.calls
    requires stage.Holding? || stage.Abandoned? ==> s.calls[c].stage == Holding(stage.ticket)
    ensures CallsHold(At(s, c, stage))
  {
  }

  lemma {:induction false} StageEntries(s: State, c: CallId, stage: Stage)
    requires EntriesHold(s) && c in s.calls
    requires forall k :: k in s.pending && s.pending[k].call == c ==>
      stage == Finished && k.0 in s.queues && s.pending[k].ticket in s.queues[k.0].granted
    ensures EntriesHold(At(s, c, stage))
  {
  }

  lemma {:induction false} StageLive(s: State, c: CallId, stage: Stage, orphans: set<Ticket>)
    requires QueuedAreLive(s) && LiveAreQueued(s, {}) && c in s.calls
    requires stage.Abandoned? || (forall t :: t in s.tickets && t !in orphans ==> s.tickets[t] != ByCall(c))
    ensures QueuedAreLive(At(s, c, stage)) && LiveAreQueued(At(s, c, stage), orphans)
  {
  }

  /** Before admission a call has no entry and exactly one ticket. */
  lemma {:induction false} EarlyCallsHaveNoEntry(s: State, c: CallId)
    requires EntriesHold(s) && c in s.calls && !s.calls[c].stage.Dispatching? && !s.calls[c].stage.Finished?
    ensures forall k :: k in s.pending ==> s.pending[k].call != c
  {
  }

  predicate Carries(s: State, c: CallId) {
    c in s.calls && (s.calls[c].stage.Holding? || s.calls[c].stage.Abandoned?)
  }

  function TicketOf(s: State, c: CallId): Ticket
    requires Carries(s, c)
  {
    (s.calls[c].socket, s.calls[c].stage.ticket)
  }

  lemma {:induction false} EndOrphans(s: State, c: CallId)
    requires OwnersHold(s, {}) && CallsHold(s) && EntriesHold(s) && Carries(s, c)
    ensures Orphan(At(s, c, Finished), TicketOf(s, c))
  {
  }

  /** A call that never had an entry lets its ticket go. */
  lemma {:induction false} LetGoKeepsSlots(s: State, c: CallId)
    requires SlotInv(s, {}) && Unsaturated(s) && Carries(s, c) && s.calls[c].socket in s.queues
    ensures SlotInv(ReleaseTicket(At(s, c, Finished), TicketOf(s, c)), {})
    ensures Unsaturated(ReleaseTicket(At(s, c, Finished), TicketOf(s, c)))
  {
    var ticket := TicketOf(s, c);
    StageOwners(s, c, Finished, {ticket});
    StageCalls(s, c, Finished);
    EarlyCallsHaveNoEntry(s, c);
    StageEntries(s, c, Finished);
    StageLive(s, c, Finished, {ticket});
    EndOrphans(s, c);
    ReleaseKeepsSlots(At(s, c, Finished), ticket);
  }

  lemma {:induction false} DropWaitKeepsSlots(s: State, c: CallId)
    requires SlotInv(s, {}) && c in s.calls && s.calls[c].stage.Holding?
    ensures SlotInv(At(s, c, Abandoned(s.calls[c].stage.ticket)), {})
  {
    var stage := Abandoned(s.calls[c].stage.ticket);
    StageOwners(s, c, stage, {});
    StageCalls(s, c, stage);
    EarlyCallsHaveNoEntry(s, c);
    StageEntries(s, c, stage);
    StageLive(s, c, stage, {});
  }

  lemma {:induction false} LookKeepsSlots(s: State, c: CallId)
    requires SlotInv(s, {}) && Enabled(s, Look(c))
    ensures SlotInv(Next(s, Look(c)), {})
  {
    var stage := if s.calls[c].socket in s.listed * s.queues.Keys then Found else Finished;
    assert Next(s, Look(c)) == At(s, c, stage);
    StageOwners(s, c, stage, {});
    StageCalls(s, c, stage);
    EarlyCallsHaveNoEntry(s, c);
    StageEntries(s, c, stage);
    StageLive(s, c, stage, {});
  }

  lemma {:induction false} FinishKeepsSlots(s: State, c: CallId)
    requires SlotInv(s, {}) && c in s.calls && s.calls[c].stage.Dispatching?
    requires forall k :: k in s.pending && s.pending[k].call == c ==>
      k.0 in s.queues && s.pending[k].ticket in s.queues[k.0].granted
    ensures SlotInv(At(s, c, Finished), {})
  {
    StageOwners(s, c, Finished, {});
    StageCalls(s, c, Finished);
    StageEntries(s, c, Finished);
    StageLive(s, c, Finished, {});
  }

  // ---------- slots: taking a ticket ----------

  lemma {:induction false} TakeCounts(s: State, c: CallId)
    requires c in s.calls && s.calls[c].socket in s.queues && Unsaturated(TakeTicket(s, c))
    ensures Unsaturated(s)
  {
    var q := s.queues[s.calls[c].socket];
    Q.EnqueueEffect(q);
    assert TakeTicket(s, c).queues[s.calls[c].socket] == Q.Enqueue(q).0;
    forall k | k in s.queues
      ensures s.queues[k].nextId < U64_MAX
    {
      assert k in TakeTicket(s, c).queues;
    }
  }

  lemma {:induction false} TakeIsOneJoin(s: State, c: CallId, k: Socket)
    requires c in s.calls && s.calls[c].socket in s.queues && k in TakeTicket(s, c).queues
    ensures k in s.queues
    ensures TakeTicket(s, c).queues[k] == if k == s.calls[c].socket then Q.Enqueue(s.queues[k]).0 else s.queues[k]
  {
  }

  lemma {:induction false} TakeKeepsQueues(s: State, c: CallId)
    requires QueuesHold(s) && c in s.calls && s.calls[c].socket in s.queues && Unsaturated(s)
    ensures QueuesHold(TakeTicket(s, c))
  {
    var t := TakeTicket(s, c);
    forall k | k in t.queues
      ensures Q.WellKept(t.queues[k])
    {
      TakeIsOneJoin(s, c, k);
      assert Q.WellKept(s.queues[k]);
      Q.JoinKeepsOrder(s.queues[k]);
    }
  }

  /** Joining moves the queue's counter on and finishes the call or hands it a ticket. */
  lemma {:induction false} FullKeepsOwners(s: State, c: CallId, q: Q.Queue)
    requires OwnersHold(s, {}) && c in s.calls && s.calls[c].stage.Found? && s.calls[c].socket in s.queues
    requires s.queues[s.calls[c].socket].nextId <= q.nextId
    ensures OwnersHold(At(s.(queues := s.queues[s.calls[c].socket := q]), c, Finished), {})
  {
  }

  lemma {:induction false} HoldKeepsOwners(s: State, c: CallId, q: Q.Queue, id: nat)
    requires OwnersHold(s, {}) && c in s.calls && s.calls[c].stage.Found? && s.calls[c].socket in s.queues
    requires s.queues[s.calls[c].socket].nextId == id < q.nextId
    ensures var socket := s.calls[c].socket;
      var t := At(s.(queues := s.queues[socket := q]), c, Holding(id));
      OwnersHold(t.(tickets := t.tickets[(socket, id) := ByCall(c)]), {})
  {
  }

  lemma {:induction false} TakeKeepsOwners(s: State, c: CallId)
    requires OwnersHold(s, {}) && c in s.calls && s.calls[c].stage.Found? && s.calls[c].socket in s.queues
    requires s.queues[s.calls[c].socket].nextId < U64_MAX
    ensures OwnersHold(TakeTicket(s, c), {})
  {
    hide OwnersHold, Q.Enqueue, At;
    var q := s.queues[s.calls[c].socket];
    Q.JoinTakesTheNextId(q);
    if Q.Enqueue(q).1.Full? {
      FullKeepsOwners(s, c, Q.Enqueue(q).0);
    } else {
      HoldKeepsOwners(s, c, Q.Enqueue(q).0, q.nextId);
    }
  }

  lemma {:induction false} TakeKeepsCalls(s: State, c: CallId)
    requires OwnersHold(s, {}) && CallsHold(s)
    requires c in s.calls && s.calls[c].stage.Found? && s.calls[c].socket in s.queues
    ensures CallsHold(TakeTicket(s, c))
  {
    hide Q.Enqueue;
    Q.JoinTakesTheNextId(s.queues[s.calls[c].socket]);
  }

  lemma {:induction false} TakeKeepsEntries(s: State, c: CallId)
    requires OwnersHold(s, {}) && EntriesHold(s)
    requires c in s.calls && s.calls[c].stage.Found? && s.calls[c].socket in s.queues
    ensures EntriesHold(TakeTicket(s, c))
  {
    var t := TakeTicket(s, c);
    Q.EnqueueEffect(s.queues[s.calls[c].socket]);
    forall k | k in t.pending
      ensures EntryHolds(t, k)
    {
      assert EntryHolds(s, k);
    }
  }

  lemma {:induction false} TakeKeepsLive(s: State, c: CallId)
    requires OwnersHold(s, {}) && QueuedAreLive(s) && LiveAreQueued(s, {})
    requires c in s.calls && s.calls[c].stage.Found? && s.calls[c].socket in s.queues
    ensures QueuedAreLive(TakeTicket(s, c)) && LiveAreQueued(TakeTicket(s, c), {})
  {
    var socket, t := s.calls[c].socket, TakeTicket(s, c);
    Q.EnqueueEffect(s.queues[socket]);
    forall k, id: nat | k in t.queues && Q.Holds(t.queues[k], id)
      ensures (k, id) in t.tickets
    {
      assert Q.Holds(s.queues[k], id) || (k == socket && id == s.queues[socket].nextId);
    }
    forall x | x in t.tickets
      ensures x.0 in t.queues && (Q.Holds(t.queues[x.0], x.1) || IsAbandoned(t, x))
    {
      assert x in s.tickets || x == (socket, s.queues[socket].nextId);
    }
  }

  lemma {:induction false} TakeKeepsSlots(s: State, c: CallId)
    requires SlotInv(s, {}) && c in s.calls && s.calls[c].stage.Found? && s.calls[c].socket in s.queues
    requires Unsaturated(TakeTicket(s, c))
    ensures SlotInv(TakeTicket(s, c), {}) && Unsaturated(s)
  {
    TakeCounts(s, c);
    TakeKeepsQueues(s, c);
    TakeKeepsOwners(s, c);
    TakeKeepsCalls(s, c);
    TakeKeepsEntries(s, c);
    TakeKeepsLive(s, c);
  }

  // ---------- slots: admission ----------

  lemma {:induction false} AdmitKeepsOwners(s: State, c: CallId, at: nat)
    requires OwnersHold(s, {}) && CallsHold(s) && c in s.calls && s.calls[c].stage.Holding?
    requires KeyOf(s.calls[c]) !in s.pending && s.calls[c].socket in s.queues
    ensures OwnersHold(AdmitCall(s, c, at), {})
  {
  }

  lemma {:induction false} AdmitKeepsCalls(s: State, c: CallId, at: nat)
    requires CallsHold(s) && c in s.calls && s.calls[c].stage.Holding?
    requires KeyOf(s.calls[c]) !in s.pending && s.calls[c].socket in s.queues
    ensures CallsHold(AdmitCall(s, c, at))
  {
  }

  lemma {:induction false} AdmitKeepsEntries(s: State, c: CallId, at: nat)
    requires CallsHold(s) && EntriesHold(s) && c in s.calls && s.calls[c].stage.Holding?
    requires KeyOf(s.calls[c]) !in s.pending && s.calls[c].socket in s.queues
    ensures EntriesHold(AdmitCall(s, c, at))
  {
  }

  lemma {:induction false} AdmitKeepsLive(s: State, c: CallId, at: nat)
    requires CallsHold(s) && QueuedAreLive(s) && LiveAreQueued(s, {}) && c in s.calls && s.calls[c].stage.Holding?
    requires KeyOf(s.calls[c]) !in s.pending && s.calls[c].socket in s.queues
    ensures QueuedAreLive(AdmitCall(s, c, at)) && LiveAreQueued(AdmitCall(s, c, at), {})
  {
  }

  lemma {:induction false} AdmitKeepsSlots(s: State, c: CallId, at: nat)
    requires SlotInv(s, {}) && Unsaturated(s)
    requires c in s.calls && s.calls[c].stage.Holding? && s.calls[c].socket in s.queues
    ensures SlotInv(AdmitCall(s, c, at), {}) && Unsaturated(AdmitCall(s, c, at))
  {
    if KeyOf(s.calls[c]) in s.pending {
      LetGoKeepsSlots(s, c);
    } else {
      AdmitKeepsOwners(s, c, at);
      AdmitKeepsCalls(s, c, at);
      AdmitKeepsEntries(s, c, at);
      AdmitKeepsLive(s, c, at);
    }
  }

  // ---------- slots: the other steps ----------

  lemma {:induction false} DispatchKeepsSlots(s: State, c: CallId, delivered: bool)
    requires SlotInv(s, {}) && Unsaturated(s) && Enabled(s, Dispatch(c, delivered))
    ensures SlotInv(DispatchCall(s, c, delivered), {}) && Unsaturated(DispatchCall(s, c, delivered))
  {
    var key, t := KeyOf(s.calls[c]), At(s, c, Finished);
    forall k | k in s.pending && s.pending[k].call == c
      ensures k.0 in s.queues && s.pending[k].ticket in s.queues[k.0].granted
    {
      assert EntryHolds(s, k);
    }
    FinishKeepsSlots(s, c);
    if key in s.pending {
      if delivered {
        OutboundIsFree(t, DispatchCall(s, c, delivered));
      } else {
        assert EntryHolds(s, key);
        RemoveEntryKeepsSlots(t, key);
      }
    }
  }

  /** The two states differ at most on the wire, the clock, the routes, the answers and
      the deadlines, on none of which slots depend. */
  predicate SameSlots(s: State, t: State) {
    && t.queues == s.queues && t.calls == s.calls && t.tickets == s.tickets
    && s.outbound.Keys <= t.outbound.Keys
    && t.pending.Keys == s.pending.Keys
    && forall k :: k in s.pending ==>
         t.pending[k].call == s.pending[k].call && t.pending[k].ticket == s.pending[k].ticket
  }

  lemma {:induction false} OutboundIsFree(s: State, t: State)
    requires SlotInv(s, {}) && Unsaturated(s) && SameSlots(s, t)
    ensures SlotInv(t, {}) && Unsaturated(t)
  {
  }

  lemma {:induction false} GiveUpKeepsSlots(s: State, c: CallId)
    requires SlotInv(s, {}) && Enabled(s, GiveUp(c))
    ensures SlotInv(At(s, c, Finished), {})
  {
    GivenUpHasNoEntry(s, c);
    FinishKeepsSlots(s, c);
  }

  /** A dispatch task hears that its sender is gone only when its request is. */
  lemma {:induction false} GivenUpHasNoEntry(s: State, c: CallId)
    requires SlotInv(s, {}) && Enabled(s, GiveUp(c))
    ensures forall k :: k in s.pending ==> s.pending[k].call != c
  {
    forall k | k in s.pending
      ensures s.pending[k].call != c
    {
      assert EntryHolds(s, k);
      var ticket := (k.0, s.pending[k].ticket);
      assert Q.Holds(s.queues[ticket.0], ticket.1) || IsAbandoned(s, ticket);
    }
  }

  lemma {:induction false} RouteKeepsReferences(s: State, c: CallId, socket: Socket, request: RequestId)
    requires OwnersHold(s, {}) && CallsHold(s) && EntriesHold(s) && Enabled(s, Route(c, socket, request))
    ensures var t := Next(s, Route(c, socket, request)); OwnersHold(t, {}) && CallsHold(t) && EntriesHold(t)
  {
  }

  lemma {:induction false} RouteKeepsLive(s: State, c: CallId, socket: Socket, request: RequestId)
    requires LiveAreQueued(s, {}) && Enabled(s, Route(c, socket, request))
    ensures LiveAreQueued(Next(s, Route(c, socket, request)), {})
  {
  }

  lemma {:induction false} RouteKeepsSlots(s: State, c: CallId, socket: Socket, request: RequestId)
    requires SlotInv(s, {}) && Enabled(s, Route(c, socket, request))
    ensures SlotInv(Next(s, Route(c, socket, request)), {})
  {
    RouteKeepsReferences(s, c, socket, request);
    RouteKeepsLive(s, c, socket, request);
  }

  lemma {:induction false} OpenQueueKeepsReferences(s: State, socket: Socket)
    requires OwnersHold(s, {}) && CallsHold(s) && EntriesHold(s) && Enabled(s, OpenQueue(socket))
    ensures var t := Next(s, OpenQueue(socket)); OwnersHold(t, {}) && CallsHold(t) && EntriesHold(t)
  {
  }

  lemma {:induction false} OpenQueueKeepsLive(s: State, socket: Socket)
    requires QueuedAreLive(s) && LiveAreQueued(s, {}) && Enabled(s, OpenQueue(socket))
    ensures var t := Next(s, OpenQueue(socket)); QueuedAreLive(t) && LiveAreQueued(t, {})
  {
  }

  lemma {:induction false} OpenQueueKeepsSlots(s: State, socket: Socket)
    requires SlotInv(s, {}) && Enabled(s, OpenQueue(socket))
    ensures SlotInv(Next(s, OpenQueue(socket)), {})
  {
    OpenQueueKeepsReferences(s, socket);
    OpenQueueKeepsLive(s, socket);
  }

  predicate IsCallStep(step: Step) {
    step.Look? || step.Take? || step.Admit? || step.DropWait? || step.DropTicket? || step.Dispatch? || step.GiveUp?
  }

  lemma {:induction false} CallStepKeepsSlots(s: State, step: Step)
    requires SlotInv(s, {}) && Unsaturated(s) && Enabled(s, step) && IsCallStep(step)
    requires Unsaturated(Next(s, step))
    ensures SlotInv(Next(s, step), {})
  {
    match step
    case Look(c) => LookKeepsSlots(s, c);
    case Take(c) => TakeKeepsSlots(s, c);
    case Admit(c, at) => AdmitKeepsSlots(s, c, at);
    case DropWait(c) => DropWaitKeepsSlots(s, c);
    case DropTicket(c) => LetGoKeepsSlots(s, c);
    case Dispatch(c, delivered) => DispatchKeepsSlots(s, c, delivered);
    case GiveUp(c) => GiveUpKeepsSlots(s, c);
  }

  lemma {:induction false} OwedIsFree(s: State, key: Key, outcome: Outcome)
    requires Enabled(s, Remove(key, outcome))
    ensures SameSlots(RemoveEntry(s, key), Next(s, Remove(key, outcome)))
  {
  }

  lemma {:induction false} OtherStepIsFree(s: State, step: Step)
    requires Enabled(s, step) && !IsCallStep(step) && !step.Remove? && !step.Route? && !step.OpenQueue?
    ensures SameSlots(s, Next(s, step))
  {
    hide At, ReleaseTicket, RemoveEntry, TakeTicket, AdmitCall, DispatchCall;
  }

  lemma {:induction false} RemoveKeepsSlots(s: State, key: Key, outcome: Outcome)
    requires SlotInv(s, {}) && Unsaturated(s) && Enabled(s, Remove(key, outcome))
    ensures SlotInv(Next(s, Remove(key, outcome)), {})
  {
    RemoveEntryKeepsSlots(s, key);
    OwedIsFree(s, key, outcome);
    OutboundIsFree(RemoveEntry(s, key), Next(s, Remove(key, outcome)));
  }

  lemma {:induction false} OtherStepKeepsSlots(s: State, step: Step)
    requires SlotInv(s, {}) && Unsaturated(s) && Enabled(s, step)
    requires !IsCallStep(step) && !step.Remove? && !step.Route? && !step.OpenQueue?
    ensures SlotInv(Next(s, step), {})
  {
    OtherStepIsFree(s, step);
    OutboundIsFree(s, Next(s, step));
  }

  /** Slot conservation, one step: whatever runs next, every queue stays orderly, its
      ids are live tickets, and every live ticket is in it unless its caller let go of
      the receiver first. */
  lemma {:induction false} StepKeepsSlots(s: State, step: Step)
    requires SlotInv(s, {}) && Enabled(s, step) && Unsaturated(Next(s, step))
    ensures SlotInv(Next(s, step), {})
  {
    CountersGrow(s, step);
    if IsCallStep(step) {
      CallStepKeepsSlots(s, step);
    } else if step.Remove? {
      RemoveKeepsSlots(s, step.key, step.outcome);
    } else if step.Route? {
      RouteKeepsSlots(s, step.call, step.socket, step.request);
    } else if step.OpenQueue? {
      OpenQueueKeepsSlots(s, step.socket);
    } else {
      OtherStepKeepsSlots(s, step);
    }
  }

  /** Id counters only go up. */
  lemma {:induction false} CountersGrow(s: State, step: Step)
    requires Enabled(s, step)
    ensures Unsaturated(Next(s, step)) ==> Unsaturated(s)
  {
    var t := Next(s, step);
    forall k | k in s.queues
      ensures k in t.queues
      ensures t.queues[k].nextId < U64_MAX ==> s.queues[k].nextId < U64_MAX
    {
      match step
      case Take(c) =>
      case Admit(c, at) => ReleaseCounter(At(s, c, Finished), k, (s.calls[c].socket, s.calls[c].stage.ticket));
      case DropTicket(c) => ReleaseCounter(At(s, c, Finished), k, (s.calls[c].socket, s.calls[c].stage.ticket));
      case Dispatch(c, delivered) =>
        if KeyOf(s.calls[c]) in s.pending && !delivered {
          RemoveCounter(At(s, c, Finished), k, KeyOf(s.calls[c]));
        }
      case Remove(key, outcome) => RemoveCounter(s, k, key);
      case _ =>
    }
  }

  lemma {:induction false} ReleaseCounter(s: State, k: Socket, t: Ticket)
    requires t.0 in s.queues && k in s.queues
    ensures ReleaseTicket(s, t).queues[k].nextId == s.queues[k].nextId
  {
    Q.PromoteNextId(Q.Freed(s.queues[t.0], t.1), Listening(s, t.0));
  }

  lemma {:induction false} RemoveCounter(s: State, k: Socket, key: Key)
    requires key in s.pending && key.0 in s.queues && k in s.queues
    ensures RemoveEntry(s, key).queues[k].nextId == s.queues[k].nextId
  {
    ReleaseCounter(Dropped(s, key), k, (key.0, s.pending[key].ticket));
  }

  // ---------- what a step leaves alone ----------

  lemma {:induction false} OthersKeepWire(s: State, step: Step)
    requires Enabled(s, step) && !step.Register? && !step.Dispatch? && !step.SendCancel?
    ensures Next(s, step).outbound == s.outbound
  {
    hide At, ReleaseTicket, RemoveEntry, TakeTicket, AdmitCall, DispatchCall;
  }

  lemma {:induction false} OthersKeepCalls(s: State, step: Step)
    requires Enabled(s, step) && !step.Route? && !IsCallStep(step)
    ensures Next(s, step).calls == s.calls
  {
    hide At, ReleaseTicket, RemoveEntry, TakeTicket, AdmitCall, DispatchCall;
  }

  lemma {:induction false} OthersKeepMarks(s: State, step: Step)
    requires Enabled(s, step) && !step.Dispatch? && !step.Remove?
    ensures Next(s, step).answers == s.answers && Next(s, step).sent == s.sent
  {
    hide At, ReleaseTicket, RemoveEntry, TakeTicket, AdmitCall, DispatchCall;
  }

  lemma {:induction false} OthersKeepOwed(s: State, step: Step)
    requires Enabled(s, step) && !step.Remove? && !step.SendCancel?
    ensures Next(s, step).owed == s.owed
  {
    hide At, ReleaseTicket, RemoveEntry, TakeTicket, AdmitCall, DispatchCall;
  }

  lemma {:induction false} OthersKeepPending(s: State, step: Step)
    requires Enabled(s, step) && !step.Admit? && !step.Dispatch? && !step.Remove? && !step.Progress?
    ensures Next(s, step).pending == s.pending
  {
    hide At, ReleaseTicket, RemoveEntry, TakeTicket, AdmitCall, DispatchCall;
  }

  /** Between two states `c` has kept its key, and its stage too unless it is `moved`. */
  ghost predicate MovesOnly(s: State, t: State, moved: CallId, c: CallId)
    requires c in s.calls
  {
    c in t.calls && KeyOf(t.calls[c]) == KeyOf(s.calls[c]) && (c != moved ==> t.calls[c] == s.calls[c])
  }

  lemma {:induction false} TakeMovesOne(s: State, d: CallId, c: CallId)
    requires Enabled(s, Take(d)) && c in s.calls
    ensures MovesOnly(s, TakeTicket(s, d), d, c)
  {
    hide Q.Enqueue;
  }

  lemma {:induction false} AdmitMovesOne(s: State, d: CallId, at: nat, c: CallId)
    requires Enabled(s, Admit(d, at)) && c in s.calls
    ensures MovesOnly(s, AdmitCall(s, d, at), d, c)
  {
    hide ReleaseTicket;
  }

  lemma {:induction false} DispatchMovesOne(s: State, d: CallId, delivered: bool, c: CallId)
    requires Enabled(s, Dispatch(d, delivered)) && c in s.calls
    ensures MovesOnly(s, DispatchCall(s, d, delivered), d, c)
  {
    hide RemoveEntry;
  }

  /** A step of one call moves that call's stage and no other call. */
  lemma {:induction false} CallStepMovesOne(s: State, step: Step, c: CallId)
    requires Enabled(s, step) && IsCallStep(step) && c in s.calls
    ensures MovesOnly(s, Next(s, step), step.call, c)
  {
    hide TakeTicket, AdmitCall, DispatchCall, ReleaseTicket;
    match step
    case Take(d) => TakeMovesOne(s, d, c);
    case Admit(d, at) => AdmitMovesOne(s, d, at, c);
    case Dispatch(d, delivered) => DispatchMovesOne(s, d, delivered, c);
    case _ =>
  }

  // ---------- answers ----------

  /** A call is answered at most once, only after admission, and not while pending. */
  ghost predicate AnswersHold(s: State) {
    && (forall c :: c in s.answers ==>
          s.answers[c] == 1 && c in s.calls && (s.calls[c].stage.Dispatching? || s.calls[c].stage.Finished?))
    && (forall k :: k in s.pending ==> s.pending[k].call !in s.answers)
  }

  /** Only calls that are done were sent. */
  ghost predicate SentHold(s: State) {
    forall c :: c in s.sent ==> c in s.calls && s.calls[c].stage.Finished?
  }

  lemma {:induction false} DropKeepsAnswers(s: State, key: Key)
    requires AnswersHold(s) && EntriesHold(s) && key in s.pending
    ensures AnswersHold(Dropped(s, key))
  {
  }

  lemma {:induction false} DispatchKeepsAnswers(s: State, c: CallId, delivered: bool)
    requires AnswersHold(s) && EntriesHold(s) && Enabled(s, Dispatch(c, delivered))
    ensures AnswersHold(DispatchCall(s, c, delivered))
  {
  }

  lemma {:induction false} AdmitKeepsAnswers(s: State, c: CallId, at: nat)
    requires AnswersHold(s) && Enabled(s, Admit(c, at))
    ensures AnswersHold(AdmitCall(s, c, at))
  {
  }

  lemma {:induction false} RouteKeepsAnswers(s: State, c: CallId, socket: Socket, request: RequestId)
    requires AnswersHold(s) && Enabled(s, Route(c, socket, request))
    ensures AnswersHold(Next(s, Route(c, socket, request)))
  {
  }

  lemma {:induction false} EarlyKeepsAnswers(s: State, c: CallId, stage: Stage)
    requires AnswersHold(s) && c in s.calls && !s.calls[c].stage.Dispatching? && !s.calls[c].stage.Finished?
    ensures AnswersHold(At(s, c, stage))
  {
  }

  lemma {:induction false} GiveUpKeepsAnswers(s: State, c: CallId)
    requires AnswersHold(s) && c in s.calls
    ensures AnswersHold(At(s, c, Finished))
  {
  }

  /** Answers hang on calls, entries and results alone. */
  predicate SameAnswers(s: State, t: State) {
    && t.answers == s.answers && t.calls == s.calls && t.pending.Keys == s.pending.Keys
    && forall k :: k in s.pending ==> t.pending[k].call == s.pending[k].call
  }

  lemma {:induction false} SameKeepsAnswers(s: State, t: State)
    requires AnswersHold(s) && SameAnswers(s, t)
    ensures AnswersHold(t)
  {
  }

  lemma {:induction false} CallStepKeepsAnswers(s: State, step: Step)
    requires AnswersHold(s) && EntriesHold(s) && Enabled(s, step) && IsCallStep(step)
    ensures AnswersHold(Next(s, step))
  {
    hide AnswersHold, EntriesHold, Q.Release, Q.Enqueue, Listening;
    match step
    case Look(c) =>
      EarlyKeepsAnswers(s, c, if s.calls[c].socket in s.listed * s.queues.Keys then Found else Finished);
    case Take(c) =>
      var stage := TakeTicket(s, c).calls[c].stage;
      EarlyKeepsAnswers(s, c, stage);
      SameKeepsAnswers(At(s, c, stage), TakeTicket(s, c));
    case Admit(c, at) => AdmitKeepsAnswers(s, c, at);
    case DropWait(c) => EarlyKeepsAnswers(s, c, Abandoned(s.calls[c].stage.ticket));
    case DropTicket(c) =>
      EarlyKeepsAnswers(s, c, Finished);
      SameKeepsAnswers(At(s, c, Finished), Next(s, step));
    case Dispatch(c, delivered) => DispatchKeepsAnswers(s, c, delivered);
    case GiveUp(c) => GiveUpKeepsAnswers(s, c);
  }

  lemma {:induction false} RemoveKeepsAnswers(s: State, key: Key, outcome: Outcome)
    requires AnswersHold(s) && EntriesHold(s) && Enabled(s, Remove(key, outcome))
    ensures AnswersHold(Next(s, Remove(key, outcome)))
  {
    DropKeepsAnswers(s, key);
    SameKeepsAnswers(Dropped(s, key), Next(s, Remove(key, outcome)));
  }

  lemma {:induction false} StepKeepsAnswers(s: State, step: Step)
    requires AnswersHold(s) && EntriesHold(s) && Enabled(s, step)
    ensures AnswersHold(Next(s, step))
  {
    hide AnswersHold, EntriesHold, Q.Release, Q.Enqueue, Listening;
    if IsCallStep(step) {
      CallStepKeepsAnswers(s, step);
    } else if step.Remove? {
      RemoveKeepsAnswers(s, step.key, step.outcome);
    } else if step.Route? {
      RouteKeepsAnswers(s, step.call, step.socket, step.request);
    } else {
      SameKeepsAnswers(s, Next(s, step));
    }
  }

  lemma {:induction false} FinishedStays(s: State, step: Step, c: CallId)
    requires Enabled(s, step) && c in s.calls && s.calls[c].stage.Finished?
    ensures c in Next(s, step).calls && Next(s, step).calls[c] == s.calls[c]
  {
    hide Next;
    if step.Route? {
      RouteAddsOne(s, step, c);
    } else if IsCallStep(step) {
      CallStepMovesOne(s, step, c);
    } else {
      OthersKeepCalls(s, step);
    }
  }

  lemma {:induction false} RouteAddsOne(s: State, step: Step, c: CallId)
    requires Enabled(s, step) && step.Route? && c in s.calls
    ensures c in Next(s, step).calls && Next(s, step).calls[c] == s.calls[c]
  {
  }

  lemma {:induction false} NewlySent(s: State, step: Step, c: CallId)
    requires Enabled(s, step) && c in Next(s, step).sent && c !in s.sent
    ensures step == Dispatch(c, true) && c in Next(s, step).calls && Next(s, step).calls[c].stage.Finished?
  {
    hide Next;
    if step.Dispatch? {
      DispatchSendsOne(s, step, c);
    } else if step.Remove? {
      RemoveSendsNone(s, step);
    } else {
      OthersKeepMarks(s, step);
    }
  }

  lemma {:induction false} DispatchSendsOne(s: State, step: Step, c: CallId)
    requires Enabled(s, step) && step.Dispatch? && c in Next(s, step).sent && c !in s.sent
    ensures step == Dispatch(c, true) && c in Next(s, step).calls && Next(s, step).calls[c].stage.Finished?
  {
  }

  lemma {:induction false} RemoveSendsNone(s: State, step: Step)
    requires Enabled(s, step) && step.Remove?
    ensures Next(s, step).sent == s.sent
  {
  }

  lemma {:induction false} StepKeepsSent(s: State, step: Step)
    requires SentHold(s) && Enabled(s, step)
    ensures SentHold(Next(s, step))
  {
    hide Next, Enabled;
    forall c | c in Next(s, step).sent
      ensures c in Next(s, step).calls && Next(s, step).calls[c].stage.Finished?
    {
      if c in s.sent {
        FinishedStays(s, step, c);
      } else {
        NewlySent(s, step, c);
      }
    }
  }

  /** The entry a step removes, if it removes one. */
  function Removed(s: State, step: Step): Option<Key>
    requires Enabled(s, step)
  {
    if step.Remove? then Some(step.key)
    else if step.Dispatch? && !step.delivered && KeyOf(s.calls[step.call]) in s.pending then
      Some(KeyOf(s.calls[step.call]))
    else None
  }

  lemma {:induction false} RemoveEntryEffect(s: State, key: Key)
    requires key in s.pending && key.0 in s.queues
    ensures var t := RemoveEntry(s, key);
      && t.pending == s.pending - {key} && (key.0, s.pending[key].ticket) !in t.tickets
      && t.answers == s.answers[s.pending[key].call := Count(s.answers, s.pending[key].call) + 1]
  {
  }

  lemma {:induction false} RemovalAnswers(s: State, step: Step)
    requires Enabled(s, step) && Removed(s, step).Some?
    ensures var (key, t) := (Removed(s, step).value, Next(s, step));
      && key in s.pending && t.pending == s.pending - {key}
      && (key.0, s.pending[key].ticket) !in t.tickets
      && t.answers == s.answers[s.pending[key].call := Count(s.answers, s.pending[key].call) + 1]
  {
    hide RemoveEntry, Count;
    match step
    case Dispatch(c, delivered) => RemoveEntryEffect(At(s, c, Finished), KeyOf(s.calls[c]));
    case Remove(key, outcome) => RemoveEntryEffect(s, key);
    case _ =>
  }

  lemma {:induction false} OtherStepsAnswerNobody(s: State, step: Step)
    requires Enabled(s, step) && Removed(s, step).None?
    ensures Next(s, step).answers == s.answers && s.pending.Keys <= Next(s, step).pending.Keys
  {
    hide Next;
    if step.Admit? || step.Dispatch? || step.Progress? {
      KeepsItsEntries(s, step);
    } else {
      OthersKeepMarks(s, step);
      OthersKeepPending(s, step);
    }
  }

  lemma {:induction false} KeepsItsEntries(s: State, step: Step)
    requires Enabled(s, step) && (step.Admit? || step.Dispatch? || step.Progress?) && Removed(s, step).None?
    ensures Next(s, step).answers == s.answers && s.pending.Keys <= Next(s, step).pending.Keys
  {
  }

  /** A pending request whose dispatch task is done has been sent. */
  ghost predicate DoneMeansSent(s: State) {
    forall k :: k in s.pending && s.pending[k].call in s.calls && s.calls[s.pending[k].call].stage.Finished? ==>
      s.pending[k].call in s.sent
  }

  lemma {:induction false} DispatchKeepsDone(s: State, c: CallId, delivered: bool)
    requires DoneMeansSent(s) && EntriesHold(s) && Enabled(s, Dispatch(c, delivered))
    ensures DoneMeansSent(DispatchCall(s, c, delivered))
  {
    forall k | k in s.pending && s.pending[k].call == c
      ensures k == KeyOf(s.calls[c])
    {
      assert EntryHolds(s, k);
    }
  }

  lemma {:induction false} FinishKeepsDone(s: State, c: CallId, stage: Stage)
    requires DoneMeansSent(s) && c in s.calls
    requires !stage.Finished? || forall k :: k in s.pending ==> s.pending[k].call != c
    ensures DoneMeansSent(At(s, c, stage))
  {
  }

  lemma {:induction false} StepKeepsDone(s: State, step: Step)
    requires DoneMeansSent(s) && SlotInv(s, {}) && Enabled(s, step)
    ensures DoneMeansSent(Next(s, step))
  {
    if step.Dispatch? {
      DispatchKeepsDone(s, step.call, step.delivered);
    } else if step.GiveUp? {
      GivenUpHasNoEntry(s, step.call);
      FinishKeepsDone(s, step.call, Finished);
    } else if IsCallStep(step) {
      EarlyCallsHaveNoEntry(s, step.call);
      EarlyStepKeepsDone(s, step);
    } else {
      OtherStepKeepsDone(s, step);
    }
  }

  lemma {:induction false} EarlyStepKeepsDone(s: State, step: Step)
    requires DoneMeansSent(s) && Enabled(s, step) && IsCallStep(step) && !step.Dispatch? && !step.GiveUp?
    requires forall k :: k in s.pending ==> s.pending[k].call != step.call
    ensures DoneMeansSent(Next(s, step))
  {
  }

  lemma {:induction false} OtherStepKeepsDone(s: State, step: Step)
    requires DoneMeansSent(s) && EntriesHold(s) && Enabled(s, step) && !IsCallStep(step)
    ensures DoneMeansSent(Next(s, step))
  {
    if step.Route? {
      forall k | k in s.pending
        ensures s.pending[k].call != step.call
      {
        assert EntryHolds(s, k);
      }
    }
  }

  /** A result is sent in the very step that removes the entry and its ticket, and no
      entry goes away without one. */
  lemma {:induction false} ResultsComeWithRemoval(s: State, step: Step)
    requires Enabled(s, step)
    ensures var t := Next(s, step);
      && (forall c :: Count(t.answers, c) != Count(s.answers, c) ==>
            exists k :: k in s.pending && s.pending[k].call == c && k !in t.pending
              && (k.0, s.pending[k].ticket) !in t.tickets && Count(t.answers, c) == Count(s.answers, c) + 1)
      && (forall k :: k in s.pending && k !in t.pending ==>
            && Count(t.answers, s.pending[k].call) == Count(s.answers, s.pending[k].call) + 1
            && (k.0, s.pending[k].ticket) !in t.tickets)
  {
    if Removed(s, step).Some? {
      RemovalAnswers(s, step);
    } else {
      OtherStepsAnswerNobody(s, step);
    }
  }

  // ---------- the wire ----------

  /** No two invocations use one request id on one socket. */
  ghost predicate UniqueIds(s: State) {
    forall c, d :: c in s.calls && d in s.calls && KeyOf(s.calls[c]) == KeyOf(s.calls[d]) ==> c == d
  }

  /** A cancel frame, sent or owed, is for a request already answered. */
  ghost predicate OwedHold(s: State) {
    forall k, c :: (k, c) in s.owed ==> CancelHolds(s, k.0, CancelFrame(k.1, c))
  }

  ghost predicate CancelsHold(s: State) {
    forall k, i :: k in s.outbound && 0 <= i < |s.outbound[k]| && s.outbound[k][i].CancelFrame? ==>
      CancelHolds(s, k, s.outbound[k][i])
  }

  ghost predicate CancelHolds(s: State, socket: Socket, f: Frame) {
    f.call in s.answers && f.call in s.calls && KeyOf(s.calls[f.call]) == (socket, f.request)
  }

  ghost predicate RequestHolds(s: State, socket: Socket, f: Frame) {
    f.call in s.sent && f.call in s.calls && KeyOf(s.calls[f.call]) == (socket, f.request)
  }

  ghost predicate RequestsHold(s: State) {
    forall k, i :: k in s.outbound && 0 <= i < |s.outbound[k]| && s.outbound[k][i].RequestFrame? ==>
      RequestHolds(s, k, s.outbound[k][i])
  }

  /** A request goes out at most once, and never after its cancel. */
  ghost predicate WellOrdered(frames: seq<Frame>) {
    forall i, j :: 0 <= i < j < |frames| && frames[j].RequestFrame? ==> frames[i].request != frames[j].request
  }

  ghost predicate OrderHolds(s: State) {
    forall k :: k in s.outbound ==> WellOrdered(s.outbound[k])
  }

  lemma {:induction false} NewlyOwed(s: State, step: Step, k: Key, c: CallId)
    requires Enabled(s, step) && (k, c) in Next(s, step).owed && (k, c) !in s.owed
    ensures k in s.pending && s.pending[k].call == c && c in Next(s, step).answers
  {
    hide Next;
    if step.Remove? || step.SendCancel? {
      RemovalOwes(s, step, k, c);
    } else {
      OthersKeepOwed(s, step);
    }
  }

  lemma {:induction false} RemovalOwes(s: State, step: Step, k: Key, c: CallId)
    requires Enabled(s, step) && (step.Remove? || step.SendCancel?) && (k, c) in Next(s, step).owed && (k, c) !in s.owed
    ensures k in s.pending && s.pending[k].call == c && c in Next(s, step).answers
  {
  }

  lemma {:induction false} StepKeepsOwed(s: State, step: Step)
    requires OwedHold(s) && EntriesHold(s) && Enabled(s, step)
    ensures OwedHold(Next(s, step))
  {
    hide Next, Enabled;
    var t := Next(s, step);
    CallsStay(s, step);
    forall k, c | (k, c) in t.owed
      ensures CancelHolds(t, k.0, CancelFrame(k.1, c))
    {
      if (k, c) in s.owed {
        assert CancelHolds(s, k.0, CancelFrame(k.1, c));
      } else {
        NewlyOwed(s, step, k, c);
        assert EntryHolds(s, k);
      }
    }
  }

  /** The frame a step puts on the wire, and the socket it goes to. */
  function Emitted(s: State, step: Step): Option<(Socket, Frame)>
    requires Enabled(s, step)
  {
    match step
    case Dispatch(c, delivered) =>
      var key := KeyOf(s.calls[c]);
      if key in s.pending && delivered then Some((key.0, RequestFrame(key.1, c))) else None
    case SendCancel(key, call, delivered) => if delivered then Some((key.0, CancelFrame(key.1, call))) else None
    case _ => None
  }

  /** A step adds its frame to the end of one socket's order, and nothing else. */
  lemma {:induction false} WireGrows(s: State, step: Step, k: Socket)
    requires Enabled(s, step) && k in Next(s, step).outbound
    ensures k !in s.outbound ==> Next(s, step).outbound[k] == []
    ensures k in s.outbound ==>
      Next(s, step).outbound[k]
      == match Emitted(s, step)
         case None => s.outbound[k]
         case Some((j, f)) => if j == k then s.outbound[k] + [f] else s.outbound[k]
  {
    hide Next;
    if step.Register? || step.Dispatch? || step.SendCancel? {
      SenderGrows(s, step, k);
    } else {
      OthersKeepWire(s, step);
    }
  }

  lemma {:induction false} DispatchGrows(s: State, c: CallId, delivered: bool, k: Socket)
    requires Enabled(s, Dispatch(c, delivered)) && k in s.outbound
    ensures var t := DispatchCall(s, c, delivered);
      && t.outbound.Keys == s.outbound.Keys
      && t.outbound[k] == match Emitted(s, Dispatch(c, delivered))
                          case None => s.outbound[k]
                          case Some((j, f)) => if j == k then s.outbound[k] + [f] else s.outbound[k]
  {
    hide RemoveEntry;
  }

  lemma {:induction false} SenderGrows(s: State, step: Step, k: Socket)
    requires Enabled(s, step) && (step.Register? || step.Dispatch? || step.SendCancel?) && k in Next(s, step).outbound
    ensures k !in s.outbound ==> Next(s, step).outbound[k] == []
    ensures k in s.outbound ==>
      Next(s, step).outbound[k]
      == match Emitted(s, step)
         case None => s.outbound[k]
         case Some((j, f)) => if j == k then s.outbound[k] + [f] else s.outbound[k]
  {
    hide DispatchCall;
    match step
    case Register(socket) =>
    case Dispatch(c, delivered) => DispatchGrows(s, c, delivered, s.calls[c].socket);
      if k in s.outbound {
        DispatchGrows(s, c, delivered, k);
      }
    case SendCancel(key, call, delivered) =>
  }

  /** A frame of the wire after a step was there before, or is the one the step sends. */
  lemma {:induction false} FrameOrigin(s: State, step: Step, k: Socket, i: nat)
    requires Enabled(s, step) && k in Next(s, step).outbound && i < |Next(s, step).outbound[k]|
    ensures var f := Next(s, step).outbound[k][i];
      (k in s.outbound && i < |s.outbound[k]| && s.outbound[k][i] == f) || Emitted(s, step) == Some((k, f))
  {
    hide Next, Enabled, Emitted;
    WireGrows(s, step, k);
  }

  lemma {:induction false} EmittedMeaning(s: State, step: Step)
    requires Enabled(s, step) && Emitted(s, step).Some?
    ensures Emitted(s, step).value.0 in s.outbound
    ensures var (k, f) := Emitted(s, step).value;
      match f
      case RequestFrame(request, c) =>
        && step == Dispatch(c, true) && c in s.calls && KeyOf(s.calls[c]) == (k, request) && (k, request) in s.pending
        && c in Next(s, step).sent
      case CancelFrame(request, c) => ((k, request), c) in s.owed
  {
    hide ReleaseTicket;
  }

  lemma {:induction false} StepKeepsCancels(s: State, step: Step)
    requires CancelsHold(s) && OwedHold(s) && Enabled(s, step)
    ensures CancelsHold(Next(s, step))
  {
    hide Next, Enabled, Emitted;
    var t := Next(s, step);
    CallsStay(s, step);
    forall k, i | k in t.outbound && 0 <= i < |t.outbound[k]| && t.outbound[k][i].CancelFrame?
      ensures CancelHolds(t, k, t.outbound[k][i])
    {
      FrameOrigin(s, step, k, i);
      var f := t.outbound[k][i];
      if Emitted(s, step) == Some((k, f)) {
        EmittedMeaning(s, step);
        assert CancelHolds(s, (k, f.request).0, CancelFrame((k, f.request).1, f.call));
      } else {
        assert CancelHolds(s, k, s.outbound[k][i]);
      }
    }
  }

  lemma {:induction false} KeyStays(s: State, step: Step, c: CallId)
    requires Enabled(s, step) && c in s.calls
    ensures c in Next(s, step).calls && KeyOf(Next(s, step).calls[c]) == KeyOf(s.calls[c])
  {
    hide Next;
    if step.Route? {
      RouteAddsOne(s, step, c);
    } else if IsCallStep(step) {
      CallStepMovesOne(s, step, c);
    } else {
      OthersKeepCalls(s, step);
    }
  }

  lemma {:induction false} MarksStay(s: State, step: Step)
    requires Enabled(s, step)
    ensures (forall c :: c in s.answers ==> c in Next(s, step).answers) && s.sent <= Next(s, step).sent
  {
    hide Next;
    if step.Dispatch? || step.Remove? {
      MarksGrow(s, step);
    } else {
      OthersKeepMarks(s, step);
    }
  }

  lemma {:induction false} MarksGrow(s: State, step: Step)
    requires Enabled(s, step) && (step.Dispatch? || step.Remove?)
    ensures (forall c :: c in s.answers ==> c in Next(s, step).answers) && s.sent <= Next(s, step).sent
  {
  }

  /** Calls, their keys, answers and sent marks are never forgotten. */
  lemma {:induction false} CallsStay(s: State, step: Step)
    requires Enabled(s, step)
    ensures var t := Next(s, step);
      && (forall c :: c in s.calls ==> c in t.calls && KeyOf(t.calls[c]) == KeyOf(s.calls[c]))
      && (forall c :: c in s.answers ==> c in t.answers)
      && s.sent <= t.sent
  {
    hide Next, Enabled;
    forall c | c in s.calls
      ensures c in Next(s, step).calls && KeyOf(Next(s, step).calls[c]) == KeyOf(s.calls[c])
    {
      KeyStays(s, step, c);
    }
    MarksStay(s, step);
  }

  lemma {:induction false} StepKeepsRequests(s: State, step: Step)
    requires RequestsHold(s) && Enabled(s, step)
    ensures RequestsHold(Next(s, step))
  {
    hide Next, Enabled, Emitted;
    var t := Next(s, step);
    CallsStay(s, step);
    forall k, i | k in t.outbound && 0 <= i < |t.outbound[k]| && t.outbound[k][i].RequestFrame?
      ensures RequestHolds(t, k, t.outbound[k][i])
    {
      FrameOrigin(s, step, k, i);
      if Emitted(s, step) == Some((k, t.outbound[k][i])) {
        EmittedMeaning(s, step);
      } else {
        assert RequestHolds(s, k, s.outbound[k][i]);
      }
    }
  }

  /** With unique ids a call that sends its request is the one pending under its id. */
  lemma {:induction false} DispatchIsForTheEntry(s: State, c: CallId)
    requires EntriesHold(s) && AnswersHold(s) && UniqueIds(s) && c in s.calls && KeyOf(s.calls[c]) in s.pending
    ensures s.pending[KeyOf(s.calls[c])].call == c && c !in s.answers
  {
  }

  lemma {:induction false} DispatchKeepsOrder(s: State, c: CallId)
    requires OrderHolds(s) && CancelsHold(s) && RequestsHold(s) && SentHold(s)
    requires EntriesHold(s) && AnswersHold(s) && UniqueIds(s)
    requires Enabled(s, Dispatch(c, true)) && KeyOf(s.calls[c]) in s.pending
    ensures WellOrdered(s.outbound[s.calls[c].socket] + [RequestFrame(s.calls[c].request, c)])
  {
  }

  lemma {:induction false} StepKeepsOrder(s: State, step: Step)
    requires OrderHolds(s) && CancelsHold(s) && RequestsHold(s) && SentHold(s)
    requires EntriesHold(s) && AnswersHold(s) && UniqueIds(s) && Enabled(s, step)
    ensures OrderHolds(Next(s, step))
  {
    hide Next, Enabled, Emitted, CancelsHold, RequestsHold, SentHold, EntriesHold, AnswersHold, UniqueIds;
    var t := Next(s, step);
    forall k | k in t.outbound
      ensures WellOrdered(t.outbound[k])
    {
      WireGrows(s, step, k);
      if Emitted(s, step).Some? && Emitted(s, step).value.0 == k {
        EmittedMeaning(s, step);
        var f := Emitted(s, step).value.1;
        if f.RequestFrame? {
          DispatchKeepsOrder(s, f.call);
        } else {
          CancelsComeLast(s.outbound[k], f);
        }
      } else if k in s.outbound {
        assert t.outbound[k] == s.outbound[k];
      }
    }
  }

  lemma {:induction false} CancelsComeLast(frames: seq<Frame>, f: Frame)
    requires WellOrdered(frames) && f.CancelFrame?
    ensures WellOrdered(frames + [f])
  {
  }

  // ---------- whole runs ----------

  predicate Runs(s: State, steps: seq<Step>)
    decreases |steps|
  {
    steps == [] || (Enabled(s, steps[0]) && Runs(Next(s, steps[0]), steps[1..]))
  }

  function After(s: State, steps: seq<Step>): State
    requires Runs(s, steps)
    decreases |steps|
  {
    if steps == [] then s else After(Next(s, steps[0]), steps[1..])
  }

  lemma {:induction false} RunsThen(s: State, a: seq<Step>, b: seq<Step>)
    requires Runs(s, a) && Runs(After(s, a), b)
    ensures Runs(s, a + b) && After(s, a + b) == After(After(s, a), b)
    decreases |a|
  {
    if a == [] {
      assert a + b == b;
    } else {
      RunsThen(Next(s, a[0]), a[1..], b);
      assert (a + b)[0] == a[0] && (a + b)[1..] == a[1..] + b;
    }
  }

  lemma {:induction false} OneStep(s: State, step: Step)
    requires Enabled(s, step)
    ensures Runs(s, [step]) && After(s, [step]) == Next(s, step)
  {
    assert [step][1..] == [];
  }

  lemma {:induction false} ThreeSteps(s: State, a: Step, b: Step, c: Step)
    requires Enabled(s, a) && Enabled(Next(s, a), b) && Enabled(Next(Next(s, a), b), c)
    ensures Runs(s, [a, b, c]) && After(s, [a, b, c]) == Next(Next(Next(s, a), b), c)
  {
    var t := Next(Next(s, a), b);
    OneStep(s, a);
    OneStep(Next(s, a), b);
    OneStep(t, c);
    RunsThen(Next(s, a), [b], [c]);
    RunsThen(s, [a], [b] + [c]);
    assert [a] + ([b] + [c]) == [a, b, c];
  }

  /** What every reachable state keeps. */
  ghost predicate Sound(s: State) {
    SlotInv(s, {}) && AnswersHold(s) && SentHold(s) && DoneMeansSent(s)
  }

  /** What it keeps besides while request ids are unique. */
  ghost predicate WireHolds(s: State) {
    OwedHold(s) && CancelsHold(s) && RequestsHold(s) && OrderHolds(s)
  }

  lemma {:induction false} RunStaysUnsaturated(s: State, steps: seq<Step>)
    requires Runs(s, steps) && Unsaturated(After(s, steps))
    ensures Unsaturated(s)
    decreases |steps|
  {
    if steps != [] {
      RunStaysUnsaturated(Next(s, steps[0]), steps[1..]);
      CountersGrow(s, steps[0]);
    }
  }

  lemma {:induction false} StepKeepsSound(s: State, step: Step)
    requires Sound(s) && Enabled(s, step) && Unsaturated(Next(s, step))
    ensures Sound(Next(s, step))
  {
    StepKeepsSlots(s, step);
    StepKeepsAnswers(s, step);
    StepKeepsSent(s, step);
    StepKeepsDone(s, step);
  }

  lemma {:induction false} RunKeepsSound(s: State, steps: seq<Step>)
    requires Sound(s) && Runs(s, steps) && Unsaturated(After(s, steps))
    ensures Sound(After(s, steps))
    decreases |steps|
  {
    if steps != [] {
      RunStaysUnsaturated(Next(s, steps[0]), steps[1..]);
      StepKeepsSound(s, steps[0]);
      RunKeepsSound(Next(s, steps[0]), steps[1..]);
    }
  }

  lemma {:induction false} InitialIsSound()
    ensures Sound(INITIAL) && WireHolds(INITIAL)
  {
  }

  /** The requests of a socket that are both sent to the plugin and still pending. */
  function SentAndPending(s: State, socket: Socket): set<Key> {
    set k | k in s.pending && k.0 == socket && s.pending[k].call in s.sent
  }

  lemma {:induction false} SentHoldsASlot(s: State, k: Key)
    requires Sound(s) && k in s.pending && s.pending[k].call in s.sent
    ensures k.0 in s.queues && s.pending[k].ticket in s.queues[k.0].active
  {
  }

  lemma {:induction false} DistinctTickets(s: State, j: Key, k: Key)
    requires EntriesHold(s) && j in s.pending && k in s.pending && j != k && j.0 == k.0
    ensures s.pending[j].ticket != s.pending[k].ticket
  {
  }

  lemma {:induction false} AsManyTickets(s: State, keys: set<Key>, ids: set<nat>)
    requires forall k :: k in keys ==> k in s.pending && s.pending[k].ticket in ids
    requires forall j, k :: j in keys && k in keys && j != k ==> s.pending[j].ticket != s.pending[k].ticket
    ensures |keys| <= |ids|
  {
    if keys != {} {
      var k :| k in keys;
      AsManyTickets(s, keys - {k}, ids - {s.pending[k].ticket});
    }
  }

  lemma {:induction false} FourAtATime(s: State, socket: Socket)
    requires Sound(s)
    ensures |SentAndPending(s, socket)| <= MAX_IN_FLIGHT
  {
    var keys := SentAndPending(s, socket);
    if k :| k in keys {
      SentHoldsASlot(s, k);
      var q := s.queues[socket];
      assert Q.Orderly(q);
      forall k | k in keys
        ensures k in s.pending && s.pending[k].ticket in q.active
      {
        SentHoldsASlot(s, k);
      }
      forall j, k | j in keys && k in keys && j != k
        ensures s.pending[j].ticket != s.pending[k].ticket
      {
        DistinctTickets(s, j, k);
      }
      AsManyTickets(s, keys, q.active);
    } else {
      assert keys == {};
    }
  }

  /** Slot conservation over every run: the ids a queue holds are live tickets, exactly
      the live tickets unless somebody dropped a receiver before its ticket, and a socket
      never has more than four requests sent and pending. */
  lemma {:induction false} EveryRunConservesSlots(steps: seq<Step>, socket: Socket)
    requires Runs(INITIAL, steps) && Unsaturated(After(INITIAL, steps))
    ensures var s := After(INITIAL, steps);
      && |SentAndPending(s, socket)| <= 4
      && (socket in s.queues ==>
            && Q.WellKept(s.queues[socket])
            && (forall id: nat :: Q.Holds(s.queues[socket], id) ==> (socket, id) in s.tickets)
            && (forall id: nat :: (socket, id) in s.tickets ==>
                  Q.Holds(s.queues[socket], id) || IsAbandoned(s, (socket, id))))
  {
    InitialIsSound();
    RunKeepsSound(INITIAL, steps);
    FourAtATime(After(INITIAL, steps), socket);
  }

  /** A pending request that holds a slot has been sent, or its dispatch can run now,
      never both; and one that waits in line has done neither. */
  ghost predicate SlotUsed(s: State, k: Key)
    requires k in s.pending
  {
    var entry := s.pending[k];
    && k.0 in s.queues && Q.Holds(s.queues[k.0], entry.ticket)
    && (entry.ticket in s.queues[k.0].active ==>
          (entry.call in s.sent <==> !Enabled(s, Dispatch(entry.call, true))))
    && (entry.ticket in s.queues[k.0].waiting ==>
          entry.call !in s.sent && !Enabled(s, Dispatch(entry.call, true)))
  }

  ghost predicate WellHeld(s: State, k: Key)
    requires k in s.pending
  {
    var entry := s.pending[k];
    && k.0 in s.queues && k.0 in s.outbound && Q.Orderly(s.queues[k.0])
    && Q.Holds(s.queues[k.0], entry.ticket)
    && entry.call in s.calls && s.calls[entry.call].socket == k.0
    && (if entry.call in s.sent then s.calls[entry.call].stage == Finished && entry.ticket in s.queues[k.0].granted
        else s.calls[entry.call].stage == Dispatching(entry.ticket))
  }

  lemma {:induction false} WellHeldIsUsed(s: State, k: Key)
    requires k in s.pending && WellHeld(s, k)
    ensures SlotUsed(s, k)
  {
    Q.ActiveMeansGranted(s.queues[k.0], s.pending[k].ticket);
  }

  lemma {:induction false} PendingIsHeld(s: State, k: Key)
    requires Sound(s) && k in s.pending
    ensures WellHeld(s, k)
  {
    var entry := s.pending[k];
    var ticket := (k.0, entry.ticket);
    assert EntryHolds(s, k) && CallHolds(s, entry.call);
    assert Q.Holds(s.queues[ticket.0], ticket.1) || IsAbandoned(s, ticket);
  }

  /** No slot is lost, in any run. */
  lemma {:induction false} EverySlotIsUsed(steps: seq<Step>, k: Key)
    requires Runs(INITIAL, steps) && Unsaturated(After(INITIAL, steps)) && k in After(INITIAL, steps).pending
    ensures SlotUsed(After(INITIAL, steps), k)
  {
    InitialIsSound();
    RunKeepsSound(INITIAL, steps);
    PendingIsHeld(After(INITIAL, steps), k);
    WellHeldIsUsed(After(INITIAL, steps), k);
  }

  /** Nobody is answered twice, in any run. */
  lemma {:induction false} EveryRunAnswersOnce(steps: seq<Step>, c: CallId)
    requires Runs(INITIAL, steps) && Unsaturated(After(INITIAL, steps))
    ensures Count(After(INITIAL, steps).answers, c) <= 1
  {
    InitialIsSound();
    RunKeepsSound(INITIAL, steps);
  }

  /** A refused admission leaves the pending map alone and gives its slot back. */
  lemma {:induction false} RefusedAdmissionGivesItsSlotBack(s: State, c: CallId, at: nat)
    requires Sound(s) && Unsaturated(s) && Enabled(s, Admit(c, at)) && KeyOf(s.calls[c]) in s.pending
    ensures var (t, ticket) := (Next(s, Admit(c, at)), TicketOf(s, c));
      && t.pending == s.pending && t.answers == s.answers
      && ticket !in t.tickets && !Q.Holds(t.queues[ticket.0], ticket.1)
      && (forall id: nat :: Q.Holds(s.queues[ticket.0], id) && id != ticket.1 ==>
            Q.Holds(t.queues[ticket.0], id) || IsAbandoned(s, (ticket.0, id)))
  {
    var ticket, u := TicketOf(s, c), At(s, c, Finished);
    Q.ReleaseEffect(s.queues[ticket.0], ticket.1, Listening(u, ticket.0));
    AdmitKeepsSlots(s, c, at);
    forall id: nat | Q.Holds(s.queues[ticket.0], id) && id != ticket.1
        && !Q.Holds(Next(s, Admit(c, at)).queues[ticket.0], id)
      ensures IsAbandoned(s, (ticket.0, id))
    {
      assert (ticket.0, id) in s.tickets;
      assert id !in Listening(u, ticket.0);
      OtherListenersStay(s, c, ticket.0, id);
      UnheardIsAbandoned(s, {}, ticket.0, id);
    }
  }

  lemma {:induction false} OtherListenersStay(s: State, c: CallId, socket: Socket, id: nat)
    requires Carries(s, c) && id !in Listening(At(s, c, Finished), socket) && (socket, id) != TicketOf(s, c)
    ensures id !in Listening(s, socket)
  {
    forall d | d in s.calls && s.calls[d].socket == socket
      && (s.calls[d].stage.Holding? || s.calls[d].stage.Dispatching?)
      ensures s.calls[d].stage.ticket != id
    {
      if d != c {
        ListeningHas(At(s, c, Finished), d);
      }
    }
  }

  // ---------- runs with unique ids ----------

  lemma {:induction false} RunStaysUnique(s: State, steps: seq<Step>)
    requires Runs(s, steps) && UniqueIds(After(s, steps))
    ensures UniqueIds(s)
    decreases |steps|
  {
    if steps != [] {
      RunStaysUnique(Next(s, steps[0]), steps[1..]);
      CallsStay(s, steps[0]);
    }
  }

  lemma {:induction false} RunKeepsWire(s: State, steps: seq<Step>)
    requires Sound(s) && WireHolds(s) && Runs(s, steps)
    requires Unsaturated(After(s, steps)) && UniqueIds(After(s, steps))
    ensures WireHolds(After(s, steps))
    decreases |steps|
  {
    if steps != [] {
      var step := steps[0];
      RunStaysUnsaturated(Next(s, step), steps[1..]);
      StepKeepsSound(s, step);
      RunStaysUnique(s, steps);
      StepKeepsOwed(s, step);
      StepKeepsCancels(s, step);
      StepKeepsRequests(s, step);
      StepKeepsOrder(s, step);
      RunKeepsWire(Next(s, step), steps[1..]);
    }
  }

  /** In every run with unique ids, on every socket's outbound order, a request goes out
      at most once and never after its cancel, and every cancel is for an answered one. */
  lemma {:induction false} EveryRunOrdersTheWire(steps: seq<Step>, socket: Socket)
    requires Runs(INITIAL, steps) && Unsaturated(After(INITIAL, steps)) && UniqueIds(After(INITIAL, steps))
    requires socket in After(INITIAL, steps).outbound
    ensures var s := After(INITIAL, steps);
      && WellOrdered(s.outbound[socket])
      && forall f :: f in s.outbound[socket] && f.CancelFrame? ==> f.call in s.answers
  {
    InitialIsSound();
    RunKeepsWire(INITIAL, steps);
    var s := After(INITIAL, steps);
    forall f | f in s.outbound[socket] && f.CancelFrame?
      ensures f.call in s.answers
    {
      var i :| 0 <= i < |s.outbound[socket]| && s.outbound[socket][i] == f;
      assert CancelHolds(s, socket, s.outbound[socket][i]);
    }
  }

  lemma {:induction false} StepSendsNobodyAnswered(s: State, step: Step, c: CallId)
    requires EntriesHold(s) && AnswersHold(s) && UniqueIds(s) && Enabled(s, step)
    requires c in s.answers && c !in s.sent
    ensures c in Next(s, step).answers && c !in Next(s, step).sent
  {
    hide Next, EntriesHold, AnswersHold, UniqueIds;
    MarksStay(s, step);
    if c in Next(s, step).sent {
      NewlySent(s, step, c);
      SentIsPending(s, c);
      DispatchIsForTheEntry(s, c);
    }
  }

  lemma {:induction false} SentIsPending(s: State, c: CallId)
    requires Enabled(s, Dispatch(c, true)) && c in Next(s, Dispatch(c, true)).sent && c !in s.sent
    ensures KeyOf(s.calls[c]) in s.pending
  {
  }

  /** A request answered before it was dispatched is never sent. */
  lemma {:induction false} AnsweredFirstIsNeverSent(s: State, steps: seq<Step>, c: CallId)
    requires Sound(s) && Runs(s, steps) && Unsaturated(After(s, steps)) && UniqueIds(After(s, steps))
    requires c in s.answers && c !in s.sent
    ensures c !in After(s, steps).sent
    decreases |steps|
  {
    if steps != [] {
      var step := steps[0];
      RunStaysUnsaturated(Next(s, step), steps[1..]);
      StepKeepsSound(s, step);
      RunStaysUnique(s, steps);
      StepSendsNobodyAnswered(s, step, c);
      AnsweredFirstIsNeverSent(Next(s, step), steps[1..], c);
    }
  }

  // ---------- deadlines ----------

  /** An entry under `k` all along the run. */
  predicate StaysPending(s: State, steps: seq<Step>, k: Key)
    requires Runs(s, steps)
    decreases |steps|
  {
    k in s.pending && (steps == [] || StaysPending(Next(s, steps[0]), steps[1..], k))
  }

  lemma {:induction false} StepKeepsTotal(s: State, step: Step, k: Key)
    requires Enabled(s, step) && k in s.pending && k in Next(s, step).pending
    ensures Next(s, step).pending[k].total == s.pending[k].total
    ensures Next(s, step).pending[k].call == s.pending[k].call
  {
    hide Next;
    if step.Admit? || step.Dispatch? || step.Remove? || step.Progress? {
      EntryKeepsTotal(s, step, k);
    } else {
      OthersKeepPending(s, step);
    }
  }

  lemma {:induction false} EntryKeepsTotal(s: State, step: Step, k: Key)
    requires Enabled(s, step) && (step.Admit? || step.Dispatch? || step.Remove? || step.Progress?)
    requires k in s.pending && k in Next(s, step).pending
    ensures Next(s, step).pending[k].total == s.pending[k].total
    ensures Next(s, step).pending[k].call == s.pending[k].call
  {
    hide AdmitCall, DispatchCall, RemoveEntry;
    match step
    case Admit(c, at) => AdmitKeepsEntry(s, c, at, k);
    case Dispatch(c, delivered) => DispatchKeepsEntry(s, c, delivered, k);
    case Remove(key, outcome) => RemoveEntryEffect(s, key);
    case Progress(key) =>
  }

  lemma {:induction false} AdmitKeepsEntry(s: State, c: CallId, at: nat, k: Key)
    requires Enabled(s, Admit(c, at)) && k in s.pending
    ensures k in AdmitCall(s, c, at).pending && AdmitCall(s, c, at).pending[k] == s.pending[k]
  {
    hide ReleaseTicket;
  }

  lemma {:induction false} DispatchKeepsEntry(s: State, c: CallId, delivered: bool, k: Key)
    requires Enabled(s, Dispatch(c, delivered)) && k in s.pending && k in DispatchCall(s, c, delivered).pending
    ensures DispatchCall(s, c, delivered).pending[k] == s.pending[k]
  {
    hide RemoveEntry;
    if KeyOf(s.calls[c]) in s.pending {
      RemoveEntryEffect(At(s, c, Finished), KeyOf(s.calls[c]));
    }
  }

  /** Whatever progress arrives, the total deadline stays where admission put it, so the
      first expiry pass at or after it removes the request. */
  lemma {:induction false} NothingPostponesTheTotalDeadline(s: State, steps: seq<Step>, k: Key)
    requires Runs(s, steps) && StaysPending(s, steps, k)
    ensures var t := After(s, steps);
      && k in t.pending && t.pending[k].total == s.pending[k].total
      && (s.pending[k].total <= t.now ==> k !in Unexpired(t.pending, t.now))
    decreases |steps|
  {
    if steps != [] {
      StepKeepsTotal(s, steps[0], k);
      NothingPostponesTheTotalDeadline(Next(s, steps[0]), steps[1..], k);
    }
  }

  /** An expiry pass as the steps it is made of. */
  function Sweep(keys: seq<Key>): seq<Step> {
    if keys == [] then [] else [Remove(keys[0], TimedOut)] + Sweep(keys[1..])
  }

  /** `keys` are the requests an expiry pass finds, each once. */
  ghost predicate IsPass(s: State, keys: seq<Key>) {
    && Distinct(keys)
    && (forall k :: k in keys ==> k.0 in s.queues)
    && (forall k :: k in keys <==> k in s.pending && Expired(s.pending[k], s.now))
  }

  lemma {:induction false} PassGoesOn(s: State, t: State, keys: seq<Key>)
    requires keys != [] && IsPass(s, keys)
    requires t.pending == s.pending - {keys[0]} && t.now == s.now && t.queues.Keys == s.queues.Keys
    ensures IsPass(t, keys[1..])
    ensures Unexpired(t.pending, t.now) == Unexpired(s.pending, s.now)
  {
  }

  lemma {:induction false} RemovalKeepsTheRest(s: State, key: Key)
    requires Enabled(s, Remove(key, TimedOut))
    ensures var t := Next(s, Remove(key, TimedOut));
      t.pending == s.pending - {key} && t.now == s.now && t.queues.Keys == s.queues.Keys
  {
  }

  /** Run to its end, the pass leaves exactly what the pending map's own pass leaves. */
  lemma {:induction false} SweepIsTheExpiryPass(s: State, keys: seq<Key>)
    requires IsPass(s, keys)
    ensures Runs(s, Sweep(keys))
    ensures After(s, Sweep(keys)).pending == Unexpired(s.pending, s.now)
    decreases |keys|
  {
    if keys != [] {
      var step := Remove(keys[0], TimedOut);
      assert keys[0] in keys;
      RemovalKeepsTheRest(s, keys[0]);
      PassGoesOn(s, Next(s, step), keys);
      SweepIsTheExpiryPass(Next(s, step), keys[1..]);
      assert Sweep(keys)[0] == step && Sweep(keys)[1..] == Sweep(keys[1..]);
    } else {
      assert Unexpired(s.pending, s.now) == s.pending;
    }
  }
}
