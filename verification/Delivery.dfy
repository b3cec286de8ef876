/** Who may call at all, and what becomes of a cancel: told from the steps of a run. */
module Delivery {
  import opened Common
  import opened Pending
  import opened Broker

  lemma {:induction false} RunsFront(s: State, steps: seq<Step>)
    requires Runs(s, steps) && steps != []
    ensures var (front, last) := (steps[..|steps| - 1], steps[|steps| - 1]);
      Runs(s, front) && Enabled(After(s, front), last) && After(s, steps) == Next(After(s, front), last)
    decreases |steps|
  {
    hide Next, Enabled;
    var front := steps[..|steps| - 1];
    if |steps| == 1 {
      assert front == [] && steps[1..] == [];
    } else {
      RunsFront(Next(s, steps[0]), steps[1..]);
      assert front[1..] == steps[1..][..|steps| - 2] && front[0] == steps[0];
    }
  }

  // ---------- sockets and the clock ----------

  /** The socket has registered and not left since. */
  predicate IsRegistered(steps: seq<Step>, k: Socket) {
    steps != [] &&
    match steps[|steps| - 1]
    case Register(socket) => socket == k || IsRegistered(steps[..|steps| - 1], k)
    case Unregister(socket) => socket != k && IsRegistered(steps[..|steps| - 1], k)
    case _ => IsRegistered(steps[..|steps| - 1], k)
  }

  /** Its queue has been opened and not closed since. */
  predicate IsListed(steps: seq<Step>, k: Socket) {
    steps != [] &&
    match steps[|steps| - 1]
    case OpenQueue(socket) => socket == k || IsListed(steps[..|steps| - 1], k)
    case CloseQueue(socket) => socket != k && IsListed(steps[..|steps| - 1], k)
    case _ => IsListed(steps[..|steps| - 1], k)
  }

  function LastTick(steps: seq<Step>): nat {
    if steps == [] then 0
    else match steps[|steps| - 1] case Tick(to) => to case _ => LastTick(steps[..|steps| - 1])
  }

  lemma {:induction false} StepMovesSockets(s: State, step: Step, k: Socket)
    requires Enabled(s, step)
    ensures k in Next(s, step).routes <==> step == Register(k) || (k in s.routes && step != Unregister(k))
    ensures k in Next(s, step).listed <==> step == OpenQueue(k) || (k in s.listed && step != CloseQueue(k))
    ensures Next(s, step).now == if step.Tick? then step.to else s.now
  {
    hide At, ReleaseTicket, RemoveEntry, TakeTicket, AdmitCall, DispatchCall;
  }

  /** What a step never takes away: a socket's outbound channel and its queue. */
  ghost predicate SocketsStand(s: State) {
    s.routes <= s.outbound.Keys && s.listed <= s.queues.Keys
  }

  lemma {:induction false} StepKeepsSockets(s: State, step: Step)
    requires SocketsStand(s) && Enabled(s, step)
    ensures SocketsStand(Next(s, step))
  {
    hide At, RemoveEntry, DispatchCall;
    if step.Dispatch? {
      DispatchKeepsKeys(s, step.call, step.delivered);
    } else if step.Remove? {
      assert RemoveEntry(s, step.key).queues.Keys >= s.queues.Keys by {
        RemoveKeepsKeys(s, step.key);
      }
    }
  }

  lemma {:induction false} RemoveKeepsKeys(s: State, key: Key)
    requires key in s.pending && key.0 in s.queues
    ensures RemoveEntry(s, key).queues.Keys == s.queues.Keys
  {
  }

  lemma {:induction false} DispatchKeepsKeys(s: State, c: CallId, delivered: bool)
    requires Enabled(s, Dispatch(c, delivered))
    ensures DispatchCall(s, c, delivered).queues.Keys == s.queues.Keys
    ensures DispatchCall(s, c, delivered).outbound.Keys == s.outbound.Keys
  {
    hide RemoveEntry;
    if KeyOf(s.calls[c]) in s.pending {
      RemoveKeepsKeys(At(s, c, Finished), KeyOf(s.calls[c]));
    }
  }

  lemma {:induction false} RunFollowsSockets(steps: seq<Step>, k: Socket)
    requires Runs(INITIAL, steps)
    ensures var s := After(INITIAL, steps);
      && SocketsStand(s) && (k in s.routes <==> IsRegistered(steps, k)) && (k in s.listed <==> IsListed(steps, k))
      && s.now == LastTick(steps)
    decreases |steps|
  {
    hide Next, Enabled;
    if steps != [] {
      var front, last := steps[..|steps| - 1], steps[|steps| - 1];
      RunsFront(INITIAL, steps);
      RunFollowsSockets(front, k);
      StepMovesSockets(After(INITIAL, front), last, k);
      StepKeepsSockets(After(INITIAL, front), last);
    }
  }

  /** In every run: a socket may leave at any time; a new call is taken exactly for one that is
      registered, and goes on to its queue exactly while that is listed; else it ends there,
      and nothing else has moved. */
  lemma {:induction false} OnlyLiveSocketsAreCalled(steps: seq<Step>, c: CallId, k: Socket, r: RequestId)
    requires Runs(INITIAL, steps)
    ensures var s := After(INITIAL, steps);
      && (Enabled(s, Route(c, k, r)) <==> c !in s.calls && IsRegistered(steps, k))
      && Enabled(s, Unregister(k)) && Enabled(s, CloseQueue(k))
      && (Enabled(s, Route(c, k, r)) ==> Next(s, Route(c, k, r)) == s.(calls := s.calls[c := Call(k, r, Routed)]))
      && (c in s.calls && s.calls[c].stage == Routed ==>
            && Enabled(s, Look(c))
            && Next(s, Look(c)) == s.(calls := s.calls[c := s.calls[c].(stage :=
                 if IsListed(steps, s.calls[c].socket) then Found else Finished)]))
  {
    hide Runs, After;
    var s := After(INITIAL, steps);
    RunFollowsSockets(steps, k);
    if c in s.calls {
      RunFollowsSockets(steps, s.calls[c].socket);
    }
  }

  // ---------- cancels ----------

  /** A call was taken out by a cancel or a time-out. */
  predicate CutsOff(s: State, step: Step, k: Key, c: CallId) {
    step.Remove? && step.key == k && (step.outcome == Cancelled || step.outcome == TimedOut)
    && k in s.pending && s.pending[k].call == c
  }

  predicate Offers(step: Step, k: Key, c: CallId) {
    step.SendCancel? && step.key == k && step.call == c
  }

  function CutOffs(s: State, steps: seq<Step>, k: Key, c: CallId): nat
    requires Runs(s, steps)
    decreases |steps|
  {
    if steps == [] then 0
    else (if CutsOff(s, steps[0], k, c) then 1 else 0) + CutOffs(Next(s, steps[0]), steps[1..], k, c)
  }

  function OffersIn(steps: seq<Step>, k: Key, c: CallId): nat {
    if steps == [] then 0 else (if Offers(steps[0], k, c) then 1 else 0) + OffersIn(steps[1..], k, c)
  }

  function DeliveredIn(steps: seq<Step>, k: Key, c: CallId): nat {
    if steps == [] then 0
    else (if Offers(steps[0], k, c) && steps[0].delivered then 1 else 0) + DeliveredIn(steps[1..], k, c)
  }

  function Owing(s: State, k: Key, c: CallId): nat {
    if (k, c) in s.owed then 1 else 0
  }

  /** How often a frame stands on a socket's wire. */
  function Frames(frames: seq<Frame>, f: Frame): nat {
    if frames == [] then 0 else Frames(frames[..|frames| - 1], f) + if frames[|frames| - 1] == f then 1 else 0
  }

  function OnTheWire(s: State, k: Socket, f: Frame): nat {
    if k in s.outbound then Frames(s.outbound[k], f) else 0
  }

  lemma {:induction false} StepMovesOwed(s: State, step: Step, k: Key, c: CallId)
    requires Enabled(s, step)
    ensures (k, c) in Next(s, step).owed <==> CutsOff(s, step, k, c) || ((k, c) in s.owed && !Offers(step, k, c))
  {
    hide At, RemoveEntry, TakeTicket, AdmitCall, DispatchCall, ReleaseTicket;
    if !step.Remove? && !step.SendCancel? {
      OthersKeepOwed(s, step);
    }
  }

  lemma {:induction false} OfferedWasOwed(s: State, step: Step, k: Key, c: CallId)
    requires Enabled(s, step) && Offers(step, k, c)
    ensures (k, c) in s.owed
  {
  }

  lemma {:induction false} OwedIsAnswered(s: State, k: Key, c: CallId)
    requires OwedHold(s) && (k, c) in s.owed
    ensures c in s.answers
  {
    assert CancelHolds(s, k.0, CancelFrame(k.1, c));
  }

  lemma {:induction false} CutOffIsNotOwed(s: State, step: Step, k: Key, c: CallId)
    requires Sound(s) && OwedHold(s) && CutsOff(s, step, k, c)
    ensures (k, c) !in s.owed
  {
    hide SlotInv, SentHold, DoneMeansSent;
    if (k, c) in s.owed {
      OwedIsAnswered(s, k, c);
    }
  }

  lemma {:induction false} StepKeepsOwing(s: State, step: Step)
    requires Sound(s) && OwedHold(s) && Enabled(s, step)
    ensures OwedHold(Next(s, step))
  {
    StepKeepsOwed(s, step);
  }

  lemma {:induction false} RunConservesCancels(s: State, steps: seq<Step>, k: Key, c: CallId)
    requires Sound(s) && OwedHold(s) && Runs(s, steps) && Unsaturated(After(s, steps))
    ensures Owing(s, k, c) + CutOffs(s, steps, k, c) == OffersIn(steps, k, c) + Owing(After(s, steps), k, c)
    decreases |steps|
  {
    hide Next, Enabled, Sound, OwedHold, CutsOff, Offers;
    if steps != [] {
      var step := steps[0];
      RunStaysUnsaturated(Next(s, step), steps[1..]);
      StepKeepsSound(s, step);
      StepKeepsOwing(s, step);
      StepMovesOwed(s, step, k, c);
      if Offers(step, k, c) {
        OfferedWasOwed(s, step, k, c);
      }
      if CutsOff(s, step, k, c) {
        CutOffIsNotOwed(s, step, k, c);
        OneOrTheOther(s, step, k, c);
      }
      RunConservesCancels(Next(s, step), steps[1..], k, c);
    }
  }

  lemma {:induction false} OneOrTheOther(s: State, step: Step, k: Key, c: CallId)
    ensures !CutsOff(s, step, k, c) || !Offers(step, k, c)
  {
  }

  lemma {:induction false} FramesOneMore(frames: seq<Frame>, last: Frame, f: Frame)
    ensures Frames(frames + [last], f) == Frames(frames, f) + if last == f then 1 else 0
  {
    assert (frames + [last])[..|frames|] == frames;
  }

  lemma {:induction false} StepMovesCancels(s: State, step: Step, k: Key, c: CallId)
    requires Enabled(s, step)
    ensures OnTheWire(Next(s, step), k.0, CancelFrame(k.1, c))
         == OnTheWire(s, k.0, CancelFrame(k.1, c)) + if Offers(step, k, c) && step.delivered then 1 else 0
  {
    hide Next, Frames;
    var f := CancelFrame(k.1, c);
    if step.Register? || step.Dispatch? || step.SendCancel? {
      SenderMovesCancels(s, step, k, c);
    } else {
      OthersKeepWire(s, step);
    }
  }

  lemma {:induction false} SenderMovesCancels(s: State, step: Step, k: Key, c: CallId)
    requires Enabled(s, step) && (step.Register? || step.Dispatch? || step.SendCancel?)
    ensures OnTheWire(Next(s, step), k.0, CancelFrame(k.1, c))
         == OnTheWire(s, k.0, CancelFrame(k.1, c)) + if Offers(step, k, c) && step.delivered then 1 else 0
  {
    hide Frames, RemoveEntry;
    var f := CancelFrame(k.1, c);
    match step
    case Register(socket) => NothingSent(f);
    case Dispatch(call, delivered) =>
      var key := KeyOf(s.calls[call]);
      FramesOneMore(s.outbound[key.0], RequestFrame(key.1, call), f);
    case SendCancel(key, call, delivered) => FramesOneMore(s.outbound[key.0], CancelFrame(key.1, call), f);
  }

  lemma {:induction false} NothingSent(f: Frame)
    ensures Frames([], f) == 0
  {
  }

  lemma {:induction false} RunDeliversCancels(s: State, steps: seq<Step>, k: Key, c: CallId)
    requires Runs(s, steps)
    ensures OnTheWire(After(s, steps), k.0, CancelFrame(k.1, c))
         == OnTheWire(s, k.0, CancelFrame(k.1, c)) + DeliveredIn(steps, k, c)
    decreases |steps|
  {
    hide Next, Enabled, OnTheWire, Offers;
    if steps != [] {
      StepMovesCancels(s, steps[0], k, c);
      RunDeliversCancels(Next(s, steps[0]), steps[1..], k, c);
    }
  }

  /** Every call taken out by a cancel or a time-out, and no other, is owed one cancel frame:
      in every run it has been offered to the socket's channel once or is still to be; and the
      frames on the wire are exactly those the channel took. */
  lemma {:induction false} EveryCancelIsOfferedOnce(steps: seq<Step>, k: Key, c: CallId)
    requires Runs(INITIAL, steps) && Unsaturated(After(INITIAL, steps))
    ensures var s := After(INITIAL, steps);
      && CutOffs(INITIAL, steps, k, c) == OffersIn(steps, k, c) + Owing(s, k, c)
      && OnTheWire(s, k.0, CancelFrame(k.1, c)) == DeliveredIn(steps, k, c)
      && ((k, c) in s.owed && k.0 in s.outbound ==> Enabled(s, SendCancel(k, c, true)))
  {
    hide Sound, WireHolds;
    InitialIsSound();
    InitialOwesNothing();
    RunConservesCancels(INITIAL, steps, k, c);
    RunDeliversCancels(INITIAL, steps, k, c);
  }

  lemma {:induction false} InitialOwesNothing()
    ensures OwedHold(INITIAL)
  {
  }
}
