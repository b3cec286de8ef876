/** The plugin's one broker socket: generations, request owners, the reconnect timer.
    JavaScript runs one event handler at a time, so each event is one atomic step. */
module Transport {
  import opened Common

  type ControllerId = nat
  type BrokerId = nat
  type Uuid = nat

  datatype Ready = Connecting | Open | Closing | Closed

  /** One socket. Generations are told apart by their place in the list of all sockets
      ever made. */
  datatype Generation = Generation(metadata: Uuid, ready: Ready, helloSent: bool, accepted: bool)

  datatype Owner = Owner(id: ControllerId, generation: nat, broker: BrokerId)

  /** What the transport does to the outside, in order. */
  datatype Effect =
    | AskReady(metadata: Uuid)
    | Hello(generation: nat)
    | Accepted(generation: nat)
    | Relay(id: ControllerId, generation: nat, broker: BrokerId)
    | CancelRelay(id: ControllerId, generation: nat, broker: BrokerId)
    | Progress(id: ControllerId, generation: nat, broker: BrokerId)
    | Final(id: ControllerId, generation: nat, broker: BrokerId)
    | Pong(generation: nat)
    | Schedule(delay: nat)

  datatype Transport = Transport(
    stopped: bool, attempt: nat, timer: bool, active: Option<nat>,
    generations: seq<Generation>, owners: seq<Owner>,
    log: seq<Effect>, carried: map<ControllerId, Owner>)

  datatype Frame = Malformed | Request(broker: BrokerId, relayable: bool) | Cancel(broker: BrokerId) | Ping

  datatype Event =
    | TimerFires(metadata: Uuid, made: bool)
    | Opens(generation: nat)
    | Message(generation: nat, frame: Frame, id: ControllerId)
    | StartsClosing(generation: nat)
    | Fails(generation: nat)
    | Closes(generation: nat)
    | ControllerReady(metadata: Uuid, wellFormed: bool)
    | Reply(id: ControllerId, terminal: bool)
    | Stop

  const DELAYS: seq<nat> := [250, 500, 1_000, 2_000, 5_000]

  function DelayFor(attempt: nat): nat {
    DELAYS[Min(attempt, 4)]
  }

  // ---------- the owner table ----------

  function FindOwner(owners: seq<Owner>, g: nat, b: BrokerId): Option<Owner> {
    if owners == [] then None
    else if owners[0].generation == g && owners[0].broker == b then Some(owners[0])
    else FindOwner(owners[1..], g, b)
  }

  function OwnerOf(owners: seq<Owner>, id: ControllerId): Option<Owner> {
    if owners == [] then None
    else if owners[0].id == id then Some(owners[0])
    else OwnerOf(owners[1..], id)
  }

  function Delete(owners: seq<Owner>, id: ControllerId): seq<Owner> {
    if owners == [] then []
    else if owners[0].id == id then Delete(owners[1..], id)
    else [owners[0]] + Delete(owners[1..], id)
  }

  /** The owners a closing generation leaves, and the cancels it sends, in table order. */
  function Kept(owners: seq<Owner>, g: nat): seq<Owner> {
    if owners == [] then []
    else if owners[0].generation == g then Kept(owners[1..], g)
    else [owners[0]] + Kept(owners[1..], g)
  }

  function Cancels(owners: seq<Owner>, g: nat): seq<Effect> {
    if owners == [] then []
    else if owners[0].generation == g then
      [CancelRelay(owners[0].id, g, owners[0].broker)] + Cancels(owners[1..], g)
    else Cancels(owners[1..], g)
  }

  // ---------- the handlers ----------

  predicate IsActiveOpen(t: Transport, g: nat) {
    !t.stopped && t.active == Some(g) && g < |t.generations| && t.generations[g].ready.Open?
  }

  function Put(t: Transport, g: nat, generation: Generation): Transport
    requires g < |t.generations|
  {
    t.(generations := t.generations[g := generation])
  }

  function Emit(t: Transport, e: Effect): Transport {
    t.(log := t.log + [e])
  }

  function CancelRequests(t: Transport, g: nat): Transport {
    t.(owners := Kept(t.owners, g), log := t.log + Cancels(t.owners, g))
  }

  function ScheduleReconnect(t: Transport): Transport {
    if t.stopped || t.timer then t
    else Emit(t, Schedule(DelayFor(t.attempt))).(attempt := t.attempt + 1, timer := true)
  }

  /** `made` is false when the WebSocket constructor throws. */
  function Connect(t: Transport, metadata: Uuid, made: bool): Transport {
    if t.stopped || t.active.Some? then t
    else if !made then ScheduleReconnect(t)
    else t.(generations := t.generations + [Generation(metadata, Connecting, false, false)],
            active := Some(|t.generations|))
  }

  function Receive(t: Transport, g: nat, frame: Frame, id: ControllerId): Transport
    requires g < |t.generations|
  {
    if !IsActiveOpen(t, g) || !t.generations[g].helloSent || frame.Malformed? then t
    else Dispatch(Accept(t, g), g, frame, id)
  }

  /** The first frame that parses proves the broker works and resets the backoff. */
  function Accept(t: Transport, g: nat): Transport
    requires g < |t.generations|
  {
    if t.generations[g].accepted then t
    else Emit(Put(t, g, t.generations[g].(accepted := true)), Accepted(g)).(attempt := 0)
  }

  function Dispatch(t: Transport, g: nat, frame: Frame, id: ControllerId): Transport {
    match frame
    case Malformed => t
    case Ping => Emit(t, Pong(g))
    case Request(b, relayable) =>
      if FindOwner(t.owners, g, b).Some? || !relayable then t
      else Emit(t, Relay(id, g, b)).(owners := t.owners + [Owner(id, g, b)],
                                      carried := t.carried[id := Owner(id, g, b)])
    case Cancel(b) =>
      match FindOwner(t.owners, g, b)
      case None => t
      case Some(owner) => Emit(t, CancelRelay(owner.id, g, b)).(owners := Delete(t.owners, owner.id))
  }

  function SocketGone(t: Transport, g: nat): Transport
    requires g < |t.generations|
  {
    var u := CancelRequests(Put(t, g, t.generations[g].(ready := Closed)), g);
    if u.active != Some(g) then u else ScheduleReconnect(u.(active := None))
  }

  function Shut(t: Transport, g: nat): Transport
    requires g < |t.generations|
  {
    if t.generations[g].ready.Closed? then t else Put(t, g, t.generations[g].(ready := Closing))
  }

  function SayHello(t: Transport, metadata: Uuid, wellFormed: bool): Transport {
    if t.active.Some? && IsActiveOpen(t, t.active.value) && wellFormed
       && !t.generations[t.active.value].helloSent && t.generations[t.active.value].metadata == metadata then
      var g := t.active.value;
      Put(Emit(t, Hello(g)), g, t.generations[g].(helloSent := true))
    else t
  }

  function ForwardReply(t: Transport, id: ControllerId, terminal: bool): Transport {
    match OwnerOf(t.owners, id)
    case None => t
    case Some(owner) =>
      if !IsActiveOpen(t, owner.generation) then t
      else if terminal then Emit(t, Final(id, owner.generation, owner.broker)).(owners := Delete(t.owners, id))
      else Emit(t, Progress(id, owner.generation, owner.broker))
  }

  function StopAll(t: Transport): Transport {
    var u := t.(stopped := true, timer := false, active := None);
    match t.active
    case None => u
    case Some(g) => if g < |t.generations| then Shut(CancelRequests(u, g), g) else u
  }

  predicate Enabled(t: Transport, e: Event) {
    match e
    case TimerFires(_, _) => t.timer
    case Opens(g) => g < |t.generations| && t.generations[g].ready.Connecting?
    case Message(g, frame, id) => g < |t.generations| && id !in t.carried
    case StartsClosing(g) => g < |t.generations|
    case Fails(g) => g < |t.generations|
    case Closes(g) => g < |t.generations| && !t.generations[g].ready.Closed?
    case _ => true
  }

  function Next(t: Transport, e: Event): Transport
    requires Enabled(t, e)
  {
    match e
    case TimerFires(metadata, made) => Connect(t.(timer := false), metadata, made)
    case Opens(g) =>
      var u := Put(t, g, t.generations[g].(ready := Open));
      if IsActiveOpen(u, g) then Emit(u, AskReady(u.generations[g].metadata)) else u
    case Message(g, frame, id) => Receive(t, g, frame, id)
    case StartsClosing(g) => Shut(t, g)
    case Fails(g) => Shut(t, g)
    case Closes(g) => SocketGone(t, g)
    case ControllerReady(metadata, wellFormed) => SayHello(t, metadata, wellFormed)
    case Reply(id, terminal) => ForwardReply(t, id, terminal)
    case Stop => StopAll(t)
  }

  const BLANK: Transport := Transport(false, 0, false, None, [], [], [], map[])

  function Start(metadata: Uuid, made: bool): Transport {
    Connect(BLANK, metadata, made)
  }

  // ---------- counting ----------

  predicate IsEnd(e: Effect) {
    e.Final? || e.CancelRelay?
  }

  function Ends(log: seq<Effect>, id: ControllerId): nat {
    if log == [] then 0
    else Ends(log[..|log| - 1], id) + (if IsEnd(log[|log| - 1]) && log[|log| - 1].id == id then 1 else 0)
  }

  function Owns(owners: seq<Owner>, id: ControllerId): nat {
    if owners == [] then 0 else (if owners[0].id == id then 1 else 0) + Owns(owners[1..], id)
  }

  function OwnsFor(owners: seq<Owner>, g: nat, b: BrokerId): nat {
    if owners == [] then 0
    else (if owners[0].generation == g && owners[0].broker == b then 1 else 0) + OwnsFor(owners[1..], g, b)
  }

  lemma {:induction false} EndsOneMore(log: seq<Effect>, e: Effect, id: ControllerId)
    ensures Ends(log + [e], id) == Ends(log, id) + (if IsEnd(e) && e.id == id then 1 else 0)
  {
  }

  lemma {:induction false} EndsOfFirst(e: Effect, rest: seq<Effect>, log: seq<Effect>)
    ensures log + ([e] + rest) == log + [e] + rest
  {
  }

  lemma {:induction false} EndsOfLast(e: Effect, rest: seq<Effect>, log: seq<Effect>)
    ensures log + rest + [e] == log + (rest + [e])
  {
  }

  lemma {:induction false} SpliceOne(kept: seq<Owner>, all: seq<Owner>, i: nat)
    requires i < |all|
    ensures kept + all[i..] == kept + [all[i]] + all[i + 1..]
  {
  }

  /** Closing a generation turns each of its owners into one cancel. */
  lemma {:induction false} CancelsConserve(owners: seq<Owner>, g: nat, log: seq<Effect>, id: ControllerId)
    ensures Ends(log + Cancels(owners, g), id) + Owns(Kept(owners, g), id) == Ends(log, id) + Owns(owners, id)
    decreases owners
  {
    if owners == [] {
      assert log + [] == log;
    } else if owners[0].generation == g {
      var e := CancelRelay(owners[0].id, g, owners[0].broker);
      EndsOfFirst(e, Cancels(owners[1..], g), log);
      EndsOneMore(log, e, id);
      CancelsConserve(owners[1..], g, log + [e], id);
    } else {
      CancelsConserve(owners[1..], g, log, id);
      assert ([owners[0]] + Kept(owners[1..], g))[1..] == Kept(owners[1..], g);
    }
  }

  lemma {:induction false} DeleteOwns(owners: seq<Owner>, id: ControllerId, other: ControllerId)
    ensures Owns(Delete(owners, id), other) == if other == id then 0 else Owns(owners, other)
  {
    if owners != [] {
      DeleteOwns(owners[1..], id, other);
      assert ([owners[0]] + Delete(owners[1..], id))[1..] == Delete(owners[1..], id);
    }
  }

  lemma {:induction false} DeleteOwnsFor(owners: seq<Owner>, id: ControllerId, g: nat, b: BrokerId)
    ensures OwnsFor(Delete(owners, id), g, b) <= OwnsFor(owners, g, b)
  {
    if owners != [] {
      DeleteOwnsFor(owners[1..], id, g, b);
      assert ([owners[0]] + Delete(owners[1..], id))[1..] == Delete(owners[1..], id);
    }
  }

  lemma {:induction false} KeptOwnsFor(owners: seq<Owner>, gone: nat, g: nat, b: BrokerId)
    ensures OwnsFor(Kept(owners, gone), g, b) <= OwnsFor(owners, g, b)
  {
    if owners != [] {
      KeptOwnsFor(owners[1..], gone, g, b);
      assert ([owners[0]] + Kept(owners[1..], gone))[1..] == Kept(owners[1..], gone);
    }
  }

  lemma {:induction false} OwnsOneMore(owners: seq<Owner>, o: Owner, id: ControllerId)
    ensures Owns(owners + [o], id) == Owns(owners, id) + (if o.id == id then 1 else 0)
  {
    if owners == [] {
      assert owners + [o] == [o] && [o][1..] == [];
    } else {
      assert (owners + [o])[1..] == owners[1..] + [o];
      OwnsOneMore(owners[1..], o, id);
    }
  }

  lemma {:induction false} OwnsForOneMore(owners: seq<Owner>, o: Owner, g: nat, b: BrokerId)
    ensures OwnsFor(owners + [o], g, b)
         == OwnsFor(owners, g, b) + (if o.generation == g && o.broker == b then 1 else 0)
  {
    if owners == [] {
      assert owners + [o] == [o] && [o][1..] == [];
    } else {
      assert (owners + [o])[1..] == owners[1..] + [o];
      OwnsForOneMore(owners[1..], o, g, b);
    }
  }

  lemma {:induction false} FindOwnerMeaning(owners: seq<Owner>, g: nat, b: BrokerId)
    ensures var found := FindOwner(owners, g, b);
      && (found.Some? ==> found.value in owners && found.value.generation == g && found.value.broker == b)
      && (found.None? <==> OwnsFor(owners, g, b) == 0)
  {
    if owners != [] {
      FindOwnerMeaning(owners[1..], g, b);
    }
  }

  lemma {:induction false} OwnerOfMeaning(owners: seq<Owner>, id: ControllerId)
    ensures var found := OwnerOf(owners, id);
      && (found.Some? ==> found.value in owners && found.value.id == id)
      && (found.None? <==> Owns(owners, id) == 0)
  {
    if owners != [] {
      OwnerOfMeaning(owners[1..], id);
    }
  }

  lemma {:induction false} OwnedIsCounted(owners: seq<Owner>, o: Owner)
    requires o in owners
    ensures Owns(owners, o.id) > 0 && OwnsFor(owners, o.generation, o.broker) > 0
  {
    if owners[0] != o {
      assert o in owners[1..];
      OwnedIsCounted(owners[1..], o);
    }
  }

  lemma {:induction false} DeleteMembers(owners: seq<Owner>, id: ControllerId)
    ensures forall o :: o in Delete(owners, id) <==> o in owners && o.id != id
  {
    if owners != [] {
      DeleteMembers(owners[1..], id);
      assert owners == [owners[0]] + owners[1..];
    }
  }

  lemma {:induction false} KeptMembers(owners: seq<Owner>, g: nat)
    ensures forall o :: o in Kept(owners, g) <==> o in owners && o.generation != g
  {
    if owners != [] {
      KeptMembers(owners[1..], g);
      assert owners == [owners[0]] + owners[1..];
    }
  }

  lemma {:induction false} CancelMembers(owners: seq<Owner>, g: nat)
    ensures forall e :: e in Cancels(owners, g) ==> e.CancelRelay? && Owner(e.id, e.generation, e.broker) in owners
  {
    if owners != [] {
      CancelMembers(owners[1..], g);
      assert owners == [owners[0]] + owners[1..];
    }
  }

  // ---------- what every run keeps ----------

  /** Until stopped, exactly one of an active socket and a reconnect timer. */
  ghost predicate OneWayForward(t: Transport) {
    && (t.stopped ==> !t.timer && t.active.None?)
    && (!t.stopped ==> (t.timer <==> t.active.None?))
    && (t.active.Some? ==> t.active.value < |t.generations| && !t.generations[t.active.value].ready.Closed?)
  }

  ghost predicate OwnersAreActive(t: Transport) {
    forall o :: o in t.owners ==> t.active == Some(o.generation)
  }

  ghost predicate PairsAreUnique(t: Transport) {
    forall g: nat, b: BrokerId :: OwnsFor(t.owners, g, b) <= 1
  }

  /** Every relayed request is owned and open, or unowned and ended exactly once; nothing
      else is either. */
  ghost predicate RequestsAreConserved(t: Transport) {
    forall id: ControllerId :: Ends(t.log, id) + Owns(t.owners, id) == if id in t.carried then 1 else 0
  }

  predicate IsAbout(e: Effect) {
    e.Relay? || e.CancelRelay? || e.Progress? || e.Final?
  }

  ghost predicate Traces(e: Effect, carried: map<ControllerId, Owner>) {
    IsAbout(e) ==> e.id in carried && carried[e.id] == Owner(e.id, e.generation, e.broker)
  }

  /** A frame about a request goes only where, and says only what, the request did. */
  ghost predicate EffectsAreTraced(t: Transport) {
    && (forall e :: e in t.log ==> Traces(e, t.carried))
    && (forall o :: o in t.owners ==> o.id in t.carried && t.carried[o.id] == o)
  }

  /** Reconnects scheduled since the broker last proved itself. */
  function Failures(log: seq<Effect>): nat {
    if log == [] || log[|log| - 1].Accepted? then 0
    else Failures(log[..|log| - 1]) + (if log[|log| - 1].Schedule? then 1 else 0)
  }

  /** Each delay is the table's entry for the failures before it. */
  predicate Paced(log: seq<Effect>) {
    log == []
    || (Paced(log[..|log| - 1])
        && (log[|log| - 1].Schedule? ==> log[|log| - 1].delay == DelayFor(Failures(log[..|log| - 1]))))
  }

  ghost predicate BackoffHolds(t: Transport) {
    Paced(t.log) && t.attempt == Failures(t.log)
  }

  // ---------- the socket and the timer ----------

  lemma {:induction false} StepKeepsWay(t: Transport, e: Event)
    requires OneWayForward(t) && Enabled(t, e)
    ensures OneWayForward(Next(t, e))
  {
  }

  // ---------- owners ----------

  lemma {:induction false} DispatchKeepsOwners(t: Transport, g: nat, frame: Frame, id: ControllerId)
    requires OwnersAreActive(t) && t.active == Some(g)
    ensures OwnersAreActive(Dispatch(t, g, frame, id))
  {
    if frame.Cancel? && FindOwner(t.owners, g, frame.broker).Some? {
      DeleteMembers(t.owners, FindOwner(t.owners, g, frame.broker).value.id);
    }
  }

  lemma {:induction false} NobodyIsKept(t: Transport, g: nat)
    requires OwnersAreActive(t)
    ensures t.active == Some(g) ==> Kept(t.owners, g) == []
    ensures t.active.None? ==> t.owners == []
    ensures t.active.Some? && t.active != Some(g) ==> forall o :: o in Kept(t.owners, g) ==> o in t.owners
  {
    KeptMembers(t.owners, g);
    assert Kept(t.owners, g) != [] ==> Kept(t.owners, g)[0] in Kept(t.owners, g);
    assert t.owners != [] ==> t.owners[0] in t.owners;
  }

  lemma {:induction false} StepKeepsOwners(t: Transport, e: Event)
    requires OwnersAreActive(t) && OneWayForward(t) && Enabled(t, e)
    ensures OwnersAreActive(Next(t, e))
  {
    match e
    case Message(g, frame, id) =>
      if IsActiveOpen(t, g) {
        DispatchKeepsOwners(Accept(t, g), g, frame, id);
      }
    case Closes(g) => NobodyIsKept(t, g);
    case Stop => NobodyIsKept(t, if t.active.Some? then t.active.value else 0);
    case Reply(id, terminal) => DeleteMembers(t.owners, id);
    case TimerFires(_, _) => NobodyIsKept(t, 0);
    case _ =>
  }

  lemma {:induction false} DispatchKeepsPairs(t: Transport, g: nat, frame: Frame, id: ControllerId)
    requires PairsAreUnique(t)
    ensures PairsAreUnique(Dispatch(t, g, frame, id))
  {
    if frame.Request? {
      FindOwnerMeaning(t.owners, g, frame.broker);
      forall h: nat, b: BrokerId
        ensures OwnsFor(Dispatch(t, g, frame, id).owners, h, b) <= 1
      {
        OwnsForOneMore(t.owners, Owner(id, g, frame.broker), h, b);
      }
    } else if frame.Cancel? && FindOwner(t.owners, g, frame.broker).Some? {
      DeleteKeepsPairs(t, FindOwner(t.owners, g, frame.broker).value.id);
    }
  }

  lemma {:induction false} DeleteKeepsPairs(t: Transport, id: ControllerId)
    requires PairsAreUnique(t)
    ensures forall g: nat, b: BrokerId :: OwnsFor(Delete(t.owners, id), g, b) <= 1
  {
    forall g: nat, b: BrokerId
      ensures OwnsFor(Delete(t.owners, id), g, b) <= 1
    {
      DeleteOwnsFor(t.owners, id, g, b);
    }
  }

  lemma {:induction false} KeptKeepsPairs(t: Transport, gone: nat)
    requires PairsAreUnique(t)
    ensures forall g: nat, b: BrokerId :: OwnsFor(Kept(t.owners, gone), g, b) <= 1
  {
    forall g: nat, b: BrokerId
      ensures OwnsFor(Kept(t.owners, gone), g, b) <= 1
    {
      KeptOwnsFor(t.owners, gone, g, b);
    }
  }

  lemma {:induction false} StepKeepsPairs(t: Transport, e: Event)
    requires PairsAreUnique(t) && Enabled(t, e)
    ensures PairsAreUnique(Next(t, e))
  {
    match e
    case Message(g, frame, id) => DispatchKeepsPairs(Accept(t, g), g, frame, id);
    case Closes(g) => KeptKeepsPairs(t, g);
    case Stop => KeptKeepsPairs(t, if t.active.Some? then t.active.value else 0);
    case Reply(id, terminal) => DeleteKeepsPairs(t, id);
    case _ =>
  }

  // ---------- requests ----------

  lemma {:induction false} EmitConserves(t: Transport, e: Effect)
    requires RequestsAreConserved(t) && !IsEnd(e)
    ensures RequestsAreConserved(Emit(t, e))
  {
  }

  /** One end for one owner. */
  lemma {:induction false} EndConserves(t: Transport, e: Effect)
    requires RequestsAreConserved(t) && IsEnd(e) && Owns(t.owners, e.id) > 0
    ensures RequestsAreConserved(Emit(t, e).(owners := Delete(t.owners, e.id)))
  {
    forall id: ControllerId
      ensures Ends(t.log + [e], id) + Owns(Delete(t.owners, e.id), id) == Ends(t.log, id) + Owns(t.owners, id)
    {
      EndsOneMore(t.log, e, id);
      DeleteOwns(t.owners, e.id, id);
      assert Ends(t.log, e.id) + Owns(t.owners, e.id) == if e.id in t.carried then 1 else 0;
    }
  }

  lemma {:induction false} CancelRequestsConserve(t: Transport, g: nat)
    requires RequestsAreConserved(t)
    ensures RequestsAreConserved(CancelRequests(t, g))
  {
    forall id: ControllerId
      ensures Ends(t.log + Cancels(t.owners, g), id) + Owns(Kept(t.owners, g), id)
           == Ends(t.log, id) + Owns(t.owners, id)
    {
      CancelsConserve(t.owners, g, t.log, id);
    }
  }

  lemma {:induction false} RelayConserves(t: Transport, o: Owner)
    requires RequestsAreConserved(t) && o.id !in t.carried
    ensures RequestsAreConserved(Emit(t, Relay(o.id, o.generation, o.broker)).(
              owners := t.owners + [o], carried := t.carried[o.id := o]))
  {
    forall id: ControllerId
      ensures Ends(t.log + [Relay(o.id, o.generation, o.broker)], id) + Owns(t.owners + [o], id)
           == if id in t.carried[o.id := o] then 1 else 0
    {
      EndsOneMore(t.log, Relay(o.id, o.generation, o.broker), id);
      OwnsOneMore(t.owners, o, id);
    }
  }

  lemma {:induction false} DispatchConserves(t: Transport, g: nat, frame: Frame, id: ControllerId)
    requires RequestsAreConserved(t) && id !in t.carried
    ensures RequestsAreConserved(Dispatch(t, g, frame, id))
  {
    match frame
    case Malformed =>
    case Ping => EmitConserves(t, Pong(g));
    case Request(b, relayable) => RelayConserves(t, Owner(id, g, b));
    case Cancel(b) =>
      FindOwnerMeaning(t.owners, g, b);
      if FindOwner(t.owners, g, b).Some? {
        var owner := FindOwner(t.owners, g, b).value;
        OwnedIsCounted(t.owners, owner);
        EndConserves(t, CancelRelay(owner.id, g, b));
      }
  }

  lemma {:induction false} ReceiveConserves(t: Transport, g: nat, frame: Frame, id: ControllerId)
    requires RequestsAreConserved(t) && id !in t.carried && g < |t.generations|
    ensures RequestsAreConserved(Receive(t, g, frame, id))
  {
    AcceptConserves(t, g);
    DispatchConserves(Accept(t, g), g, frame, id);
  }

  lemma {:induction false} AcceptConserves(t: Transport, g: nat)
    requires RequestsAreConserved(t) && g < |t.generations|
    ensures RequestsAreConserved(Accept(t, g)) && Accept(t, g).carried == t.carried
  {
  }

  lemma {:induction false} ReplyConserves(t: Transport, id: ControllerId, terminal: bool)
    requires RequestsAreConserved(t)
    ensures RequestsAreConserved(ForwardReply(t, id, terminal))
  {
    OwnerOfMeaning(t.owners, id);
    if OwnerOf(t.owners, id).Some? {
      var owner := OwnerOf(t.owners, id).value;
      EndConserves(t, Final(id, owner.generation, owner.broker));
      EmitConserves(t, Progress(id, owner.generation, owner.broker));
    }
  }

  lemma {:induction false} ScheduleConserves(t: Transport)
    requires RequestsAreConserved(t)
    ensures RequestsAreConserved(ScheduleReconnect(t))
  {
  }

  lemma {:induction false} GoneConserves(t: Transport, g: nat)
    requires RequestsAreConserved(t) && g < |t.generations|
    ensures RequestsAreConserved(SocketGone(t, g))
  {
    var u := Put(t, g, t.generations[g].(ready := Closed));
    CancelRequestsConserve(u, g);
    ScheduleConserves(CancelRequests(u, g).(active := None));
  }

  lemma {:induction false} StepConserves(t: Transport, e: Event)
    requires RequestsAreConserved(t) && Enabled(t, e)
    ensures RequestsAreConserved(Next(t, e))
  {
    match e
    case TimerFires(metadata, made) => ScheduleConserves(t.(timer := false));
    case Opens(g) => EmitConserves(t, AskReady(t.generations[g].metadata));
    case Message(g, frame, id) => ReceiveConserves(t, g, frame, id);
    case Closes(g) => GoneConserves(t, g);
    case ControllerReady(_, _) => EmitConserves(t, Hello(if t.active.Some? then t.active.value else 0));
    case Reply(id, terminal) => ReplyConserves(t, id, terminal);
    case Stop => CancelRequestsConserve(t, if t.active.Some? then t.active.value else 0);
    case _ =>
  }

  // ---------- where frames go ----------

  lemma {:induction false} DispatchKeepsTraces(t: Transport, g: nat, frame: Frame, id: ControllerId)
    requires EffectsAreTraced(t) && id !in t.carried
    ensures EffectsAreTraced(Dispatch(t, g, frame, id))
  {
    if frame.Cancel? {
      FindOwnerMeaning(t.owners, g, frame.broker);
      if FindOwner(t.owners, g, frame.broker).Some? {
        DeleteMembers(t.owners, FindOwner(t.owners, g, frame.broker).value.id);
      }
    }
  }

  lemma {:induction false} CancelRequestsKeepTraces(t: Transport, g: nat)
    requires EffectsAreTraced(t)
    ensures EffectsAreTraced(CancelRequests(t, g))
  {
    KeptMembers(t.owners, g);
    CancelMembers(t.owners, g);
  }

  lemma {:induction false} StepKeepsTraces(t: Transport, e: Event)
    requires EffectsAreTraced(t) && Enabled(t, e)
    ensures EffectsAreTraced(Next(t, e))
  {
    match e
    case Message(g, frame, id) =>
      if IsActiveOpen(t, g) {
        DispatchKeepsTraces(Accept(t, g), g, frame, id);
      }
    case Closes(g) => CancelRequestsKeepTraces(t, g);
    case Reply(id, terminal) =>
      OwnerOfMeaning(t.owners, id);
      DeleteMembers(t.owners, id);
    case Stop => CancelRequestsKeepTraces(t, if t.active.Some? then t.active.value else 0);
    case _ =>
  }

  // ---------- the backoff ----------

  lemma {:induction false} PacedOneMore(log: seq<Effect>, e: Effect)
    requires Paced(log) && (e.Schedule? ==> e.delay == DelayFor(Failures(log)))
    ensures Paced(log + [e])
    ensures Failures(log + [e]) == if e.Accepted? then 0 else Failures(log) + (if e.Schedule? then 1 else 0)
  {
  }

  lemma {:induction false} CancelsKeepPace(owners: seq<Owner>, g: nat, log: seq<Effect>)
    requires Paced(log)
    ensures Paced(log + Cancels(owners, g)) && Failures(log + Cancels(owners, g)) == Failures(log)
    decreases owners
  {
    if owners == [] {
      assert log + [] == log;
    } else if owners[0].generation == g {
      var e := CancelRelay(owners[0].id, g, owners[0].broker);
      EndsOfFirst(e, Cancels(owners[1..], g), log);
      PacedOneMore(log, e);
      CancelsKeepPace(owners[1..], g, log + [e]);
    } else {
      CancelsKeepPace(owners[1..], g, log);
    }
  }

  lemma {:induction false} EmitKeepsPace(t: Transport, e: Effect)
    requires BackoffHolds(t) && !e.Schedule? && !e.Accepted?
    ensures BackoffHolds(Emit(t, e))
  {
  }

  lemma {:induction false} ScheduleKeepsPace(t: Transport)
    requires BackoffHolds(t)
    ensures BackoffHolds(ScheduleReconnect(t))
  {
  }

  lemma {:induction false} ReceiveKeepsPace(t: Transport, g: nat, frame: Frame, id: ControllerId)
    requires BackoffHolds(t) && g < |t.generations|
    ensures BackoffHolds(Receive(t, g, frame, id))
  {
    PacedOneMore(t.log, Accepted(g));
    var u := Accept(t, g);
    match frame
    case Malformed =>
    case Ping => EmitKeepsPace(u, Pong(g));
    case Request(b, relayable) => EmitKeepsPace(u, Relay(id, g, b));
    case Cancel(b) =>
      if FindOwner(u.owners, g, b).Some? {
        EmitKeepsPace(u, CancelRelay(FindOwner(u.owners, g, b).value.id, g, b));
      }
  }

  lemma {:induction false} GoneKeepsPace(t: Transport, g: nat)
    requires BackoffHolds(t) && g < |t.generations|
    ensures BackoffHolds(SocketGone(t, g))
  {
    var u := CancelRequests(Put(t, g, t.generations[g].(ready := Closed)), g);
    CancelsKeepPace(t.owners, g, t.log);
    assert BackoffHolds(u);
    ScheduleKeepsPace(u.(active := None));
  }

  lemma {:induction false} ReplyKeepsPace(t: Transport, id: ControllerId, terminal: bool)
    requires BackoffHolds(t)
    ensures BackoffHolds(ForwardReply(t, id, terminal))
  {
  }

  lemma {:induction false} StepKeepsPace(t: Transport, e: Event)
    requires BackoffHolds(t) && Enabled(t, e)
    ensures BackoffHolds(Next(t, e))
  {
    match e
    case TimerFires(metadata, made) => ScheduleKeepsPace(t.(timer := false));
    case Opens(g) => EmitKeepsPace(t, AskReady(t.generations[g].metadata));
    case Message(g, frame, id) => ReceiveKeepsPace(t, g, frame, id);
    case Closes(g) => GoneKeepsPace(t, g);
    case ControllerReady(_, _) => EmitKeepsPace(t, Hello(if t.active.Some? then t.active.value else 0));
    case Reply(id, terminal) => ReplyKeepsPace(t, id, terminal);
    case Stop => CancelsKeepPace(t.owners, if t.active.Some? then t.active.value else 0, t.log);
    case _ =>
  }

  // ---------- whole runs ----------

  predicate Runs(t: Transport, events: seq<Event>)
    decreases |events|
  {
    events == [] || (Enabled(t, events[0]) && Runs(Next(t, events[0]), events[1..]))
  }

  function After(t: Transport, events: seq<Event>): Transport
    requires Runs(t, events)
    decreases |events|
  {
    if events == [] then t else After(Next(t, events[0]), events[1..])
  }

  ghost predicate Sound(t: Transport) {
    && OneWayForward(t) && OwnersAreActive(t) && PairsAreUnique(t)
    && RequestsAreConserved(t) && EffectsAreTraced(t) && BackoffHolds(t)
  }

  lemma {:induction false} StartIsSound(metadata: Uuid, made: bool)
    ensures Sound(Start(metadata, made))
  {
  }

  lemma {:induction false} RunKeepsSound(t: Transport, events: seq<Event>)
    requires Sound(t) && Runs(t, events)
    ensures Sound(After(t, events))
    decreases |events|
  {
    if events != [] {
      var e := events[0];
      StepKeepsWay(t, e);
      StepKeepsOwners(t, e);
      StepKeepsPairs(t, e);
      StepConserves(t, e);
      StepKeepsTraces(t, e);
      StepKeepsPace(t, e);
      RunKeepsSound(Next(t, e), events[1..]);
    }
  }

  lemma {:induction false} PairsMeaning(owners: seq<Owner>, i: nat, j: nat)
    requires i < j < |owners| && owners[i].generation == owners[j].generation && owners[i].broker == owners[j].broker
    ensures OwnsFor(owners, owners[i].generation, owners[i].broker) >= 2
  {
    if i > 0 {
      PairsMeaning(owners[1..], i - 1, j - 1);
    } else {
      assert owners[j] == owners[1..][j - 1];
      OwnedIsCounted(owners[1..], owners[j]);
    }
  }

  /** In every run: until stopped there is an active socket or a reconnect timer and never
      both; every owner belongs to the active generation and no two share a request; a
      request is never ended twice, and is ended exactly when nobody owns it any more;
      and a reply goes out only on the socket its request came in on. */
  ghost predicate Safe(t: Transport) {
    && (if t.stopped then !t.timer && t.active.None? && t.owners == [] else (t.timer <==> t.active.None?))
    && (forall o :: o in t.owners ==> t.active == Some(o.generation))
    && (forall i, j :: 0 <= i < j < |t.owners| ==>
          t.owners[i].generation != t.owners[j].generation || t.owners[i].broker != t.owners[j].broker)
    && (forall id: ControllerId ::
          if id in t.carried then Ends(t.log, id) + Owns(t.owners, id) == 1
          else Ends(t.log, id) == Owns(t.owners, id) == 0)
    && (forall e :: e in t.log && IsAbout(e) ==>
          e.id in t.carried && t.carried[e.id] == Owner(e.id, e.generation, e.broker))
  }

  lemma {:induction false} SoundIsSafe(t: Transport)
    requires Sound(t)
    ensures Safe(t)
  {
    NobodyIsKept(t, 0);
    forall i, j | 0 <= i < j < |t.owners|
      ensures t.owners[i].generation != t.owners[j].generation || t.owners[i].broker != t.owners[j].broker
    {
      if t.owners[i].generation == t.owners[j].generation && t.owners[i].broker == t.owners[j].broker {
        PairsMeaning(t.owners, i, j);
      }
    }
  }

  lemma {:induction false} EveryRunIsSound(metadata: Uuid, made: bool, events: seq<Event>)
    requires Runs(Start(metadata, made), events)
    ensures Sound(After(Start(metadata, made), events))
  {
    StartIsSound(metadata, made);
    RunKeepsSound(Start(metadata, made), events);
  }

  lemma {:induction false} EveryRunIsSafe(metadata: Uuid, made: bool, events: seq<Event>)
    requires Runs(Start(metadata, made), events)
    ensures Safe(After(Start(metadata, made), events))
  {
    EveryRunIsSound(metadata, made, events);
    SoundIsSafe(After(Start(metadata, made), events));
  }

  /** While the active socket is open a reply of an owned request goes out on it, and a
      final one ends the request. */
  lemma {:induction false} OwnedRepliesGoOut(t: Transport, o: Owner, terminal: bool)
    requires Sound(t) && o in t.owners && IsActiveOpen(t, o.generation)
    ensures var u := Next(t, Reply(o.id, terminal));
      if terminal then
        u.log == t.log + [Final(o.id, o.generation, o.broker)] && forall p :: p in u.owners <==> p in t.owners && p != o
      else u == t.(log := t.log + [Progress(o.id, o.generation, o.broker)])
  {
    OwnerOfMeaning(t.owners, o.id);
    OwnedIsCounted(t.owners, o);
    var found := OwnerOf(t.owners, o.id).value;
    assert t.carried[o.id] == o == found;
    DeleteMembers(t.owners, o.id);
    forall p | p in t.owners && p.id == o.id
      ensures p == o
    {
      assert t.carried[p.id] == p;
    }
  }

  /** A request is relayed exactly when it can be and its socket has none open with its
      broker id; a cancel ends exactly the request it names; a ping is answered. */
  lemma {:induction false} FramesAreHonoured(t: Transport, g: nat, frame: Frame, id: ControllerId)
    requires Sound(t) && Enabled(t, Message(g, frame, id))
    requires IsActiveOpen(t, g) && t.generations[g].helloSent && !frame.Malformed?
    ensures var (a, u) := (Accept(t, g), Next(t, Message(g, frame, id)));
      match frame
      case Ping => u == Emit(a, Pong(g))
      case Request(b, relayable) =>
        if relayable && (forall o :: o in t.owners ==> o.broker != b) then
          u.owners == t.owners + [Owner(id, g, b)] && u.log == a.log + [Relay(id, g, b)]
        else u == a
      case Cancel(b) =>
        && (forall p :: p in u.owners <==> p in t.owners && p.broker != b)
        && ((forall o :: o in t.owners ==> o.broker != b) ==> u == a)
        && (forall o :: o in t.owners && o.broker == b ==> u.log == a.log + [CancelRelay(o.id, g, b)])
  {
    match frame
    case Ping =>
    case Request(b, _) => NoneForBroker(t, g, b);
    case Cancel(b) =>
      NoneForBroker(t, g, b);
      if FindOwner(t.owners, g, b).Some? {
        OneForBroker(t, g, b);
      }
  }

  lemma {:induction false} NoneForBroker(t: Transport, g: nat, b: BrokerId)
    requires OwnersAreActive(t) && t.active == Some(g)
    ensures FindOwner(t.owners, g, b).None? <==> forall o :: o in t.owners ==> o.broker != b
  {
    FindOwnerMeaning(t.owners, g, b);
    forall o | o in t.owners && o.broker == b
      ensures OwnsFor(t.owners, g, b) > 0
    {
      OwnedIsCounted(t.owners, o);
    }
  }

  lemma {:induction false} OneForBroker(t: Transport, g: nat, b: BrokerId)
    requires OwnersAreActive(t) && PairsAreUnique(t) && EffectsAreTraced(t) && t.active == Some(g)
    requires FindOwner(t.owners, g, b).Some?
    ensures var found := FindOwner(t.owners, g, b).value;
      && (forall p :: p in Delete(t.owners, found.id) <==> p in t.owners && p.broker != b)
      && (forall o :: o in t.owners && o.broker == b ==> o == found)
  {
    var found := FindOwner(t.owners, g, b).value;
    FindOwnerMeaning(t.owners, g, b);
    DeleteMembers(t.owners, found.id);
    forall o | o in t.owners && o.broker == b
      ensures o == found
    {
      SamePairSameOwner(t.owners, o, found);
    }
    forall o | o in t.owners && o.id == found.id
      ensures o == found
    {
      assert t.carried[o.id] == o && t.carried[found.id] == found;
    }
  }

  lemma {:induction false} SamePairSameOwner(owners: seq<Owner>, o: Owner, p: Owner)
    requires o in owners && p in owners && o.generation == p.generation && o.broker == p.broker
    requires OwnsFor(owners, o.generation, o.broker) <= 1
    ensures o == p
  {
    var i :| 0 <= i < |owners| && owners[i] == o;
    var j :| 0 <= j < |owners| && owners[j] == p;
    if i < j {
      PairsMeaning(owners, i, j);
    } else if j < i {
      PairsMeaning(owners, j, i);
    }
  }

  /** No owner outlives its socket's close, or a stop. */
  lemma {:induction false} CloseAndStopLeaveNobody(t: Transport, g: nat)
    requires Sound(t)
    ensures Next(t, Stop).owners == []
    ensures Enabled(t, Closes(g)) ==> forall o :: o in Next(t, Closes(g)).owners ==> o.generation != g
  {
    NobodyIsKept(t, if t.active.Some? then t.active.value else 0);
    KeptMembers(t.owners, g);
  }

  /** The delay before a reconnect, after a close or a socket that could not be made, is the
      table's entry for the failures since the broker last sent a frame the plugin could
      parse. Opening a socket, or sending the hello, is no proof and resets nothing. */
  lemma {:induction false} OnlyAcceptanceResetsTheBackoff(t: Transport, e: Event)
    requires Sound(t) && Enabled(t, e)
    ensures Next(t, e).attempt < t.attempt ==> e.Message? && !e.frame.Malformed?
    ensures e.Closes? && t.active == Some(e.generation) && !t.stopped ==>
      Last(Next(t, e).log) == Some(Schedule(DelayFor(Failures(t.log))))
    ensures e.TimerFires? && !e.made ==> Next(t, e).log == t.log + [Schedule(DelayFor(Failures(t.log)))]
  {
  }

  function Last(log: seq<Effect>): Option<Effect> {
    if log == [] then None else Some(log[|log| - 1])
  }

  // ---------- appending to the table ----------

  lemma {:induction false} KeptAppend(owners: seq<Owner>, o: Owner, g: nat)
    ensures Kept(owners + [o], g) == Kept(owners, g) + (if o.generation == g then [] else [o])
    ensures Cancels(owners + [o], g)
         == Cancels(owners, g) + (if o.generation == g then [CancelRelay(o.id, g, o.broker)] else [])
  {
    if owners == [] {
      assert owners + [o] == [o] && [o][1..] == [];
    } else {
      assert (owners + [o])[1..] == owners[1..] + [o];
      KeptAppend(owners[1..], o, g);
    }
  }

  // ---------- the transport object ----------

  class SocketTransport {
    var stopped: bool
    var reconnectAttempt: nat
    var reconnectTimer: bool
    var active: Option<nat>
    var generations: seq<Generation>
    /** The owners table, in insertion order. */
    var requestOwners: seq<Owner>
    var log: seq<Effect>
    ghost var carried: map<ControllerId, Owner>

    ghost function Model(): Transport
      reads this
    {
      Transport(stopped, reconnectAttempt, reconnectTimer, active, generations, requestOwners, log, carried)
    }

    constructor (metadata: Uuid, made: bool)
      ensures Model() == Start(metadata, made)
    {
      stopped, reconnectAttempt, reconnectTimer, active := false, 0, false, None;
      generations, requestOwners, log, carried := [], [], [], map[];
      new;
      TryConnect(metadata, made);
    }

    predicate ActiveOpen(g: nat)
      reads this
    {
      !stopped && active == Some(g) && g < |generations| && generations[g].ready.Open?
    }

    method FindGenerationRequest(g: nat, b: BrokerId) returns (found: Option<Owner>)
      ensures found == FindOwner(requestOwners, g, b)
    {
      assert requestOwners[0..] == requestOwners;
      for i := 0 to |requestOwners|
        invariant FindOwner(requestOwners, g, b) == FindOwner(requestOwners[i..], g, b)
      {
        if requestOwners[i].generation == g && requestOwners[i].broker == b {
          return Some(requestOwners[i]);
        }
      }
      return None;
    }

    method OwnerWith(id: ControllerId) returns (found: Option<Owner>)
      ensures found == OwnerOf(requestOwners, id)
    {
      assert requestOwners[0..] == requestOwners;
      for i := 0 to |requestOwners|
        invariant OwnerOf(requestOwners, id) == OwnerOf(requestOwners[i..], id)
      {
        if requestOwners[i].id == id {
          return Some(requestOwners[i]);
        }
      }
      return None;
    }

    /** Delete while iterating, sending a cancel for each request that goes. */
    method CancelGenerationRequests(g: nat)
      modifies this`requestOwners, this`log
      ensures Model() == CancelRequests(old(Model()), g)
    {
      var all := requestOwners;
      var kept: seq<Owner> := [];
      assert all[..0] == [];
      for i := 0 to |all|
        invariant kept == Kept(all[..i], g)
        invariant requestOwners == kept + all[i..]
        invariant log == old(log) + Cancels(all[..i], g)
      {
        assert all[..i + 1] == all[..i] + [all[i]];
        KeptAppend(all[..i], all[i], g);
        EndsOfLast(CancelRelay(all[i].id, g, all[i].broker), Cancels(all[..i], g), old(log));
        if all[i].generation == g {
          requestOwners := kept + all[i + 1..];
          log := log + [CancelRelay(all[i].id, g, all[i].broker)];
        } else {
          SpliceOne(kept, all, i);
          kept := kept + [all[i]];
        }
      }
      assert all[..|all|] == all;
    }

    method ScheduleOne()
      modifies this`log, this`reconnectAttempt, this`reconnectTimer
      ensures Model() == ScheduleReconnect(old(Model()))
    {
      if stopped || reconnectTimer {
        return;
      }
      var index := if reconnectAttempt < |DELAYS| - 1 then reconnectAttempt else |DELAYS| - 1;
      log := log + [Schedule(DELAYS[index])];
      reconnectAttempt := reconnectAttempt + 1;
      reconnectTimer := true;
    }

    method TryConnect(metadata: Uuid, made: bool)
      modifies this
      ensures Model() == Connect(old(Model()), metadata, made)
    {
      if stopped || active.Some? {
        return;
      }
      if !made {
        ScheduleOne();
        return;
      }
      active := Some(|generations|);
      generations := generations + [Generation(metadata, Connecting, false, false)];
    }

    method OnTimer(metadata: Uuid, made: bool)
      requires reconnectTimer
      modifies this
      ensures Model() == Next(old(Model()), TimerFires(metadata, made))
    {
      reconnectTimer := false;
      TryConnect(metadata, made);
    }

    method OnOpen(g: nat)
      requires g < |generations| && generations[g].ready.Connecting?
      modifies this`generations, this`log
      ensures Model() == Next(old(Model()), Opens(g))
    {
      generations := generations[g := generations[g].(ready := Open)];
      if ActiveOpen(g) {
        log := log + [AskReady(generations[g].metadata)];
      }
    }

    method OnMessage(g: nat, frame: Frame, id: ControllerId)
      requires g < |generations| && id !in carried
      modifies this
      ensures Model() == Next(old(Model()), Message(g, frame, id))
    {
      if !ActiveOpen(g) || !generations[g].helloSent || frame.Malformed? {
        return;
      }
      if !generations[g].accepted {
        generations := generations[g := generations[g].(accepted := true)];
        reconnectAttempt := 0;
        log := log + [Accepted(g)];
      }
      match frame
      case Request(b, relayable) =>
        var found := FindGenerationRequest(g, b);
        if found.Some? || !relayable {
          return;
        }
        requestOwners := requestOwners + [Owner(id, g, b)];
        carried := carried[id := Owner(id, g, b)];
        log := log + [Relay(id, g, b)];
      case Cancel(b) =>
        var found := FindGenerationRequest(g, b);
        if found.Some? {
          requestOwners := Delete(requestOwners, found.value.id);
          log := log + [CancelRelay(found.value.id, g, b)];
        }
      case Ping => log := log + [Pong(g)];
    }

    method OnClose(g: nat)
      requires g < |generations| && !generations[g].ready.Closed?
      modifies this
      ensures Model() == Next(old(Model()), Closes(g))
    {
      generations := generations[g := generations[g].(ready := Closed)];
      CancelGenerationRequests(g);
      if active != Some(g) {
        return;
      }
      active := None;
      ScheduleOne();
    }

    method OnError(g: nat)
      requires g < |generations|
      modifies this`generations
      ensures Model() == Next(old(Model()), Fails(g))
    {
      if !generations[g].ready.Closed? {
        generations := generations[g := generations[g].(ready := Closing)];
      }
    }

    method OnControllerReady(metadata: Uuid, wellFormed: bool)
      modifies this`generations, this`log
      ensures Model() == Next(old(Model()), Event.ControllerReady(metadata, wellFormed))
    {
      if active.Some? && ActiveOpen(active.value) && wellFormed
         && !generations[active.value].helloSent && generations[active.value].metadata == metadata {
        log := log + [Hello(active.value)];
        generations := generations[active.value := generations[active.value].(helloSent := true)];
      }
    }

    method OnReply(id: ControllerId, terminal: bool)
      modifies this`requestOwners, this`log
      ensures Model() == Next(old(Model()), Reply(id, terminal))
    {
      var owner := OwnerWith(id);
      if owner.None? || !ActiveOpen(owner.value.generation) {
        return;
      }
      if terminal {
        requestOwners := Delete(requestOwners, id);
        log := log + [Final(id, owner.value.generation, owner.value.broker)];
      } else {
        log := log + [Progress(id, owner.value.generation, owner.value.broker)];
      }
    }

    method OnStop()
      modifies this
      ensures Model() == Next(old(Model()), Stop)
    {
      stopped := true;
      reconnectTimer := false;
      var generation := active;
      active := None;
      if generation.Some? && generation.value < |generations| {
        CancelGenerationRequests(generation.value);
        OnError(generation.value);
      }
    }
  }
}
