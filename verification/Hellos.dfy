/** How a socket is greeted and proves itself: when the plugin says hello, which frames it
    listens to, and what the first of them does. */
module Hellos {
  import opened Common
  import opened Transport

  function Count(log: seq<Effect>, e: Effect): nat {
    if log == [] then 0 else Count(log[..|log| - 1], e) + if log[|log| - 1] == e then 1 else 0
  }

  lemma {:induction false} CountOneMore(log: seq<Effect>, last: Effect, e: Effect)
    ensures Count(log + [last], e) == Count(log, e) + if last == e then 1 else 0
  {
    assert (log + [last])[..|log|] == log;
  }

  lemma {:induction false} CountJoins(log: seq<Effect>, more: seq<Effect>, e: Effect)
    ensures Count(log + more, e) == Count(log, e) + Count(more, e)
    decreases |more|
  {
    if more == [] {
      assert log + more == log;
    } else {
      var front := more[..|more| - 1];
      CountJoins(log, front, e);
      assert (log + more)[..|log + more| - 1] == log + front;
    }
  }

  lemma {:induction false} CountNone(log: seq<Effect>, e: Effect)
    ensures Count(log, e) == 0 <==> e !in log
  {
    if log != [] {
      CountNone(log[..|log| - 1], e);
      assert log == log[..|log| - 1] + [log[|log| - 1]];
    }
  }

  // ---------- what one event adds to the log ----------

  /** This socket is the one in use, and it is open. */
  predicate InUse(t: Transport, g: nat) {
    !t.stopped && t.active == Some(g) && g < |t.generations| && t.generations[g].ready == Open
  }

  /** A ready message of the controller that answers what `g` asked. */
  predicate Answers(t: Transport, e: Event, g: nat) {
    g < |t.generations| && e == ControllerReady(t.generations[g].metadata, true)
  }

  /** A frame that parses, on the socket in use, once it has said hello. */
  predicate Heard(t: Transport, e: Event, g: nat) {
    e.Message? && e.generation == g && InUse(t, g) && t.generations[g].helloSent && !e.frame.Malformed?
  }

  lemma {:induction false} CancelsGreetNobody(owners: seq<Owner>, g: nat, e: Effect)
    requires e.Hello? || e.Accepted? || e.AskReady?
    ensures Count(Cancels(owners, g), e) == 0
  {
    CancelMembers(owners, g);
    CountNone(Cancels(owners, g), e);
  }

  lemma {:induction false} CloseGreetsNobody(t: Transport, g: nat, e: Effect)
    requires e.Hello? || e.Accepted? || e.AskReady?
    requires g < |t.generations|
    ensures Count(SocketGone(t, g).log, e) == Count(t.log, e)
  {
    hide Kept, Cancels;
    CancelsGreetNobody(t.owners, g, e);
    CountJoins(t.log, Cancels(t.owners, g), e);
    CountOneMore(t.log + Cancels(t.owners, g), Schedule(DelayFor(t.attempt)), e);
  }

  lemma {:induction false} StopGreetsNobody(t: Transport, e: Effect)
    requires e.Hello? || e.Accepted? || e.AskReady?
    ensures Count(StopAll(t).log, e) == Count(t.log, e)
  {
    hide Kept, Cancels;
    if t.active.Some? {
      CancelsGreetNobody(t.owners, t.active.value, e);
      CountJoins(t.log, Cancels(t.owners, t.active.value), e);
    }
  }

  lemma {:induction false} FrameGreets(t: Transport, g: nat, frame: Frame, id: ControllerId, e: Effect)
    requires e.Hello? || e.Accepted? || e.AskReady?
    ensures Count(Dispatch(t, g, frame, id).log, e) == Count(t.log, e)
  {
    hide Delete, FindOwner, Count;
    match frame
    case Malformed =>
    case Ping => CountOneMore(t.log, Pong(g), e);
    case Request(b, _) => CountOneMore(t.log, Relay(id, g, b), e);
    case Cancel(b) =>
      if FindOwner(t.owners, g, b).Some? {
        CountOneMore(t.log, CancelRelay(FindOwner(t.owners, g, b).value.id, g, b), e);
      }
  }

  lemma {:induction false} ReceiveGreets(t: Transport, g: nat, frame: Frame, id: ControllerId, e: Effect)
    requires g < |t.generations| && (e.Hello? || e.Accepted? || e.AskReady?)
    ensures Count(Receive(t, g, frame, id).log, e) == Count(t.log, e)
      + if e == Accepted(g) && Heard(t, Message(g, frame, id), g) && !t.generations[g].accepted then 1 else 0
  {
    hide Dispatch, Count;
    CountOneMore(t.log, Accepted(g), e);
    if IsActiveOpen(t, g) && t.generations[g].helloSent && !frame.Malformed? {
      FrameGreets(Accept(t, g), g, frame, id, e);
    }
  }

  lemma {:induction false} ReplyGreetsNobody(t: Transport, id: ControllerId, terminal: bool, e: Effect)
    requires e.Hello? || e.Accepted? || e.AskReady?
    ensures Count(ForwardReply(t, id, terminal).log, e) == Count(t.log, e)
  {
    hide Delete, OwnerOf, Count;
    if OwnerOf(t.owners, id).Some? {
      var o := OwnerOf(t.owners, id).value;
      CountOneMore(t.log, Final(id, o.generation, o.broker), e);
      CountOneMore(t.log, Progress(id, o.generation, o.broker), e);
    }
  }

  /** Which greetings an event adds: a hello at the ready message the socket in use asked
      for, unless it was said; the request for one when that socket opens; and the proof at
      the first frame heard on it. */
  lemma {:induction false} StepGreets(t: Transport, e: Event, g: nat)
    requires Enabled(t, e)
    ensures Count(Next(t, e).log, Hello(g)) == Count(t.log, Hello(g))
      + if InUse(t, g) && Answers(t, e, g) && !t.generations[g].helloSent then 1 else 0
    ensures Count(Next(t, e).log, Accepted(g)) == Count(t.log, Accepted(g))
      + if Heard(t, e, g) && !t.generations[g].accepted then 1 else 0
  {
    hide Count, Receive, ForwardReply, SocketGone, StopAll;
    match e
    case TimerFires(metadata, made) =>
      CountOneMore(t.log, Schedule(DelayFor(t.attempt)), Hello(g));
      CountOneMore(t.log, Schedule(DelayFor(t.attempt)), Accepted(g));
    case Opens(h) =>
      CountOneMore(t.log, AskReady(t.generations[h].metadata), Hello(g));
      CountOneMore(t.log, AskReady(t.generations[h].metadata), Accepted(g));
    case Message(h, frame, id) =>
      ReceiveGreets(t, h, frame, id, Hello(g));
      ReceiveGreets(t, h, frame, id, Accepted(g));
    case Closes(h) =>
      CloseGreetsNobody(t, h, Hello(g));
      CloseGreetsNobody(t, h, Accepted(g));
    case ControllerReady(metadata, wellFormed) =>
      if t.active.Some? {
        CountOneMore(t.log, Hello(t.active.value), Hello(g));
        CountOneMore(t.log, Hello(t.active.value), Accepted(g));
      }
    case Reply(id, terminal) =>
      ReplyGreetsNobody(t, id, terminal, Hello(g));
      ReplyGreetsNobody(t, id, terminal, Accepted(g));
    case Stop =>
      StopGreetsNobody(t, Hello(g));
      StopGreetsNobody(t, Accepted(g));
    case _ =>
  }

  // ---------- the flags of a socket ----------

  /** Between two states socket `g` has kept its metadata id, and its flags but for these. */
  predicate FlagsMove(t: Transport, u: Transport, g: nat, said: bool, heard: bool) {
    && g < |t.generations| && g < |u.generations|
    && u.generations[g].metadata == t.generations[g].metadata
    && u.generations[g].helloSent == (t.generations[g].helloSent || said)
    && u.generations[g].accepted == (t.generations[g].accepted || heard)
  }

  lemma {:induction false} ReceiveMovesFlags(t: Transport, h: nat, frame: Frame, id: ControllerId, g: nat)
    requires g < |t.generations| && h < |t.generations|
    ensures FlagsMove(t, Receive(t, h, frame, id), g, false, Heard(t, Message(h, frame, id), g))
  {
    hide Delete, FindOwner;
  }

  lemma {:induction false} LossMovesNoFlags(t: Transport, g: nat, h: nat)
    requires g < |t.generations| && h < |t.generations|
    ensures FlagsMove(t, SocketGone(t, h), g, false, false) && FlagsMove(t, StopAll(t), g, false, false)
    ensures FlagsMove(t, Shut(t, h), g, false, false)
  {
    hide Kept, Cancels, DelayFor;
  }

  /** A socket keeps its metadata id; its flags are set by its hello and by the first frame
      heard, and nothing else. */
  lemma {:induction false} StepMovesFlags(t: Transport, e: Event, g: nat)
    requires Enabled(t, e) && g < |t.generations|
    ensures FlagsMove(t, Next(t, e), g, InUse(t, g) && Answers(t, e, g), Heard(t, e, g))
  {
    hide Receive, SocketGone, StopAll, Shut, OwnerOf, Delete, DelayFor;
    match e
    case Message(h, frame, id) => ReceiveMovesFlags(t, h, frame, id, g);
    case Closes(h) => LossMovesNoFlags(t, g, h);
    case StartsClosing(h) => LossMovesNoFlags(t, g, h);
    case Fails(h) => LossMovesNoFlags(t, g, h);
    case Stop => LossMovesNoFlags(t, g, g);
    case _ =>
  }

  /** A new socket is made by the timer alone, is the one in use, carries the metadata id it
      was made with, and has said and heard nothing. */
  lemma {:induction false} StepMakesFreshSockets(t: Transport, e: Event, g: nat)
    requires Enabled(t, e) && |t.generations| <= g < |Next(t, e).generations|
    ensures !Next(t, e).generations[g].helloSent && !Next(t, e).generations[g].accepted
    ensures e.TimerFires? && e.made && g == |t.generations| && Next(t, e).generations[g].metadata == e.metadata
    ensures Next(t, e).active == Some(g) && Next(t, e).generations[g].ready == Connecting
  {
    hide Kept, Cancels, Delete, FindOwner, OwnerOf;
  }

  predicate Said(t: Transport, g: nat) {
    g < |t.generations| && t.generations[g].helloSent
  }

  predicate Proved(t: Transport, g: nat) {
    g < |t.generations| && t.generations[g].accepted
  }

  ghost predicate GreetingsHold(t: Transport) {
    forall g: nat ::
      && Count(t.log, Hello(g)) == (if Said(t, g) then 1 else 0)
      && Count(t.log, Accepted(g)) == (if Proved(t, g) then 1 else 0)
  }

  lemma {:induction false} StepKeepsGreetings(t: Transport, e: Event)
    requires GreetingsHold(t) && Enabled(t, e)
    ensures GreetingsHold(Next(t, e))
  {
    hide Next, Enabled, Count;
    forall g: nat
      ensures var u := Next(t, e);
        && Count(u.log, Hello(g)) == (if Said(u, g) then 1 else 0)
        && Count(u.log, Accepted(g)) == (if Proved(u, g) then 1 else 0)
    {
      StepGreets(t, e, g);
      if g < |t.generations| {
        StepMovesFlags(t, e, g);
      } else if g < |Next(t, e).generations| {
        StepMakesFreshSockets(t, e, g);
      }
    }
  }

  lemma {:induction false} RunKeepsGreetings(t: Transport, events: seq<Event>)
    requires GreetingsHold(t) && Runs(t, events)
    ensures GreetingsHold(After(t, events))
    decreases |events|
  {
    hide Next, Enabled, GreetingsHold;
    if events != [] {
      StepKeepsGreetings(t, events[0]);
      RunKeepsGreetings(Next(t, events[0]), events[1..]);
    }
  }

  lemma {:induction false} StartGreetsNobody(metadata: Uuid, made: bool)
    ensures GreetingsHold(Start(metadata, made))
  {
    forall g: nat
      ensures Count(Start(metadata, made).log, Hello(g)) == Count(Start(metadata, made).log, Accepted(g)) == 0
    {
      CountOneMore([], Schedule(DelayFor(0)), Hello(g));
      CountOneMore([], Schedule(DelayFor(0)), Accepted(g));
      assert [] + [Schedule(DelayFor(0))] == [Schedule(DelayFor(0))];
    }
  }

  /** In every run a socket says hello at most once, and exactly at the first ready message
      that answers what it asked while it is open and in use; it proves the broker at most
      once, and exactly at the first frame that parses after that hello. */
  lemma {:induction false} EverySocketGreetsOnce(metadata: Uuid, made: bool, events: seq<Event>, e: Event, g: nat)
    requires Runs(Start(metadata, made), events) && Enabled(After(Start(metadata, made), events), e)
    ensures var t := After(Start(metadata, made), events);
      var u := Next(t, e);
      && Count(u.log, Hello(g)) <= 1 && Count(u.log, Accepted(g)) <= 1
      && (Hello(g) in u.log <==> Hello(g) in t.log || (InUse(t, g) && Answers(t, e, g)))
      && (Accepted(g) in u.log <==>
            || Accepted(g) in t.log
            || (e.Message? && e.generation == g && InUse(t, g) && Hello(g) in t.log && !e.frame.Malformed?))
  {
    hide Next, Enabled, Count, Runs, After, InUse;
    var t := After(Start(metadata, made), events);
    var u := Next(t, e);
    StartGreetsNobody(metadata, made);
    RunKeepsGreetings(Start(metadata, made), events);
    StepKeepsGreetings(t, e);
    StepGreets(t, e, g);
    CountNone(t.log, Hello(g));
    CountNone(u.log, Hello(g));
    CountNone(t.log, Accepted(g));
    CountNone(u.log, Accepted(g));
    assert Said(t, g) <==> Hello(g) in t.log;
    assert InUse(t, g) ==> g < |t.generations| by {
      UsedIsMade(t, g);
    }
  }

  lemma {:induction false} UsedIsMade(t: Transport, g: nat)
    ensures InUse(t, g) ==> g < |t.generations|
  {
  }

  // ---------- what the other events do to the socket in use ----------

  /** A frame that is not heard changes nothing; the first one heard on a socket clears the
      count of failures, a later one leaves it. */
  lemma {:induction false} OnlyHeardFramesCount(t: Transport, g: nat, frame: Frame, id: ControllerId)
    requires Enabled(t, Message(g, frame, id))
    ensures var u := Next(t, Message(g, frame, id));
      && (!Heard(t, Message(g, frame, id), g) ==> u == t)
      && (Heard(t, Message(g, frame, id), g) ==> u.attempt == if t.generations[g].accepted then t.attempt else 0)
  {
    hide Delete, FindOwner;
  }

  /** A socket asks for the ready message when it opens while in use, and only then. */
  lemma {:induction false} OpeningAsks(t: Transport, g: nat)
    requires Enabled(t, Opens(g))
    ensures var u := Next(t, Opens(g));
      && u.generations[g].ready == Open
      && u.log == t.log
           + if !t.stopped && t.active == Some(g) then [AskReady(t.generations[g].metadata)] else []
  {
    assert t.log + [] == t.log;
  }

  /** A stop closes the socket in use, and none is in use after it. */
  lemma {:induction false} StopClosesTheSocket(t: Transport, g: nat)
    ensures !InUse(Next(t, Stop), g) && Next(t, Stop).stopped
    ensures InUse(t, g) ==> Next(t, Stop).generations[g].ready == Closing
  {
    hide Kept, Cancels;
  }

  function Rank(ready: Ready): nat {
    match ready
    case Connecting => 0
    case Open => 1
    case Closing => 2
    case Closed => 3
  }

  predicate MovesOn(t: Transport, u: Transport, g: nat) {
    g < |t.generations| && g < |u.generations| && Rank(t.generations[g].ready) <= Rank(u.generations[g].ready)
  }

  lemma {:induction false} FramesMoveNobody(t: Transport, h: nat, frame: Frame, id: ControllerId, g: nat)
    requires g < |t.generations| && h < |t.generations|
    ensures MovesOn(t, Receive(t, h, frame, id), g)
  {
    hide Delete, FindOwner;
  }

  lemma {:induction false} LossMovesOn(t: Transport, g: nat, h: nat)
    requires g < |t.generations| && h < |t.generations|
    ensures MovesOn(t, SocketGone(t, h), g) && SocketGone(t, h).generations[h].ready == Closed
    ensures MovesOn(t, Shut(t, h), g) && Rank(Shut(t, h).generations[h].ready) >= Rank(Closing)
    ensures MovesOn(t, StopAll(t), g)
  {
    hide Kept, Cancels, DelayFor;
  }

  /** A socket only moves on, from connecting to open, closing and closed; its close event
      closes it for good. */
  lemma {:induction false} SocketsOnlyMoveOn(t: Transport, e: Event, g: nat)
    requires Enabled(t, e) && g < |t.generations|
    ensures MovesOn(t, Next(t, e), g)
    ensures e == Closes(g) ==> Next(t, e).generations[g].ready == Closed
    ensures e == StartsClosing(g) || e == Fails(g) ==> Rank(Next(t, e).generations[g].ready) >= Rank(Closing)
  {
    hide Receive, SocketGone, StopAll, Shut, OwnerOf, Delete, DelayFor;
    match e
    case Message(h, frame, id) => FramesMoveNobody(t, h, frame, id, g);
    case Closes(h) => LossMovesOn(t, g, h);
    case StartsClosing(h) => LossMovesOn(t, g, h);
    case Fails(h) => LossMovesOn(t, g, h);
    case Stop => LossMovesOn(t, g, g);
    case _ =>
  }

  /** A reply nobody owns, or whose socket is not in use and open, changes nothing. */
  lemma {:induction false} StrayRepliesAreDropped(t: Transport, id: ControllerId, terminal: bool)
    requires forall o :: o in t.owners && o.id == id ==> !InUse(t, o.generation)
    ensures Next(t, Reply(id, terminal)) == t
  {
    hide Delete;
    OwnerOfMeaning(t.owners, id);
  }

  /** The transport starts by making a socket; where that throws it waits for the timer. */
  lemma {:induction false} StartConnects(metadata: Uuid, made: bool)
    ensures var t := Start(metadata, made);
      && !t.stopped && t.owners == []
      && (made ==> t.active == Some(0) && t.generations == [Generation(metadata, Connecting, false, false)]
                   && !t.timer && t.log == [])
      && (!made ==> t.active.None? && t.generations == [] && t.timer && t.log == [Schedule(250)])
  {
    assert [] + [Schedule(250)] == [Schedule(250)];
    assert [] + [Generation(metadata, Connecting, false, false)] == [Generation(metadata, Connecting, false, false)];
  }

  lemma {:induction false} DelaysInNumbers(failures: nat)
    ensures DelayFor(failures) ==
      if failures >= 4 then 5_000
      else if failures == 3 then 2_000
      else 250 * (if failures == 0 then 1 else if failures == 1 then 2 else 4)
  {
  }

  /** The socket in use is lost: the reconnect comes 250 ms later, 500 after a second failure in
      a row, then 1000, 2000, and 5000 from there on. */
  lemma {:induction false} ReconnectsInNumbers(t: Transport, e: Event)
    requires Sound(t) && Enabled(t, e) && !t.stopped
    requires (e.Closes? && t.active == Some(e.generation)) || (e.TimerFires? && !e.made)
    ensures var failures := Failures(t.log);
      Last(Next(t, e).log) == Some(Schedule(
        if failures >= 4 then 5_000
        else if failures == 3 then 2_000
        else 250 * (if failures == 0 then 1 else if failures == 1 then 2 else 4)))
  {
    hide Sound, DelayFor, Failures, Next;
    OnlyAcceptanceResetsTheBackoff(t, e);
    DelaysInNumbers(Failures(t.log));
  }
}
