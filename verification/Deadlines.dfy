/** When a request times out: the deadlines of every pending entry, in terms of when it was
    admitted and when it last made progress. */
module Deadlines {
  import opened Common
  import opened Pending
  import opened Broker

  /** When a request was admitted, and when it was last active: then, or at its latest
      progress. */
  datatype Clock = Clock(admitted: nat, active: nat)

  /** What watching one step tells: a request nobody has pending starts its clock when it is
      admitted, at the time the caller read; progress moves the second hand to now. */
  function Watched(s: State, step: Step, clocks: map<Key, Clock>): map<Key, Clock> {
    match step
    case Admit(c, at) =>
      if c in s.calls && KeyOf(s.calls[c]) !in s.pending then clocks[KeyOf(s.calls[c]) := Clock(at, at)] else clocks
    case Progress(k) => if k in clocks then clocks[k := Clock(clocks[k].admitted, s.now)] else clocks
    case _ => clocks
  }

  function WatchedAll(s: State, steps: seq<Step>, clocks: map<Key, Clock>): map<Key, Clock>
    requires Runs(s, steps)
    decreases |steps|
  {
    if steps == [] then clocks else WatchedAll(Next(s, steps[0]), steps[1..], Watched(s, steps[0], clocks))
  }

  /** Two minutes in all, and fifteen seconds without progress. */
  ghost predicate OnTheClock(s: State, k: Key, clocks: map<Key, Clock>)
    requires k in s.pending
  {
    && k in clocks && clocks[k].admitted <= clocks[k].active <= s.now
    && s.pending[k].total == clocks[k].admitted + 120_000
    && s.pending[k].inactivity == clocks[k].active + 15_000
  }

  ghost predicate AllOnTheClock(s: State, clocks: map<Key, Clock>) {
    forall k :: k in s.pending ==> OnTheClock(s, k, clocks)
  }

  lemma {:induction false} OnlyAdmissionAdds(s: State, step: Step, k: Key)
    requires Enabled(s, step) && k !in s.pending && k in Next(s, step).pending
    ensures step.Admit? && step.call in s.calls && KeyOf(s.calls[step.call]) == k
  {
    hide ReleaseTicket, RemoveEntry, TakeTicket;
    if step.Dispatch? || step.Remove? {
      RemovalAddsNone(s, step, k);
    } else if !step.Admit? && !step.Progress? {
      OthersKeepPending(s, step);
    }
  }

  lemma {:induction false} RemovalAddsNone(s: State, step: Step, k: Key)
    requires Enabled(s, step) && (step.Dispatch? || step.Remove?)
    ensures k in Next(s, step).pending ==> k in s.pending
  {
    hide RemoveEntry;
    match step
    case Dispatch(c, delivered) =>
      if KeyOf(s.calls[c]) in s.pending {
        RemoveEntryEffect(At(s, c, Finished), KeyOf(s.calls[c]));
      }
    case Remove(key, outcome) => RemoveEntryEffect(s, key);
  }

  lemma {:induction false} AdmittedOnTheClock(s: State, c: CallId, at: nat, clocks: map<Key, Clock>)
    requires Enabled(s, Admit(c, at)) && KeyOf(s.calls[c]) !in s.pending
    ensures var (t, k) := (Next(s, Admit(c, at)), KeyOf(s.calls[c]));
      k in t.pending && OnTheClock(t, k, Watched(s, Admit(c, at), clocks))
  {
    hide ReleaseTicket;
  }

  /** Only progress of its own moves an entry's deadlines. */
  lemma {:induction false} OthersKeepEntry(s: State, step: Step, k: Key)
    requires Enabled(s, step) && k in s.pending && k in Next(s, step).pending && step != Progress(k)
    ensures Next(s, step).pending[k] == s.pending[k]
  {
    hide AdmitCall, DispatchCall, RemoveEntry, ReleaseTicket, TakeTicket;
    if step.Admit? || step.Dispatch? || step.Remove? || step.Progress? {
      match step
      case Admit(c, at) => AdmitKeepsEntry(s, c, at, k);
      case Dispatch(c, delivered) => DispatchKeepsEntry(s, c, delivered, k);
      case Remove(key, outcome) => RemoveEntryEffect(s, key);
      case Progress(key) =>
    } else {
      OthersKeepPending(s, step);
    }
  }

  lemma {:induction false} TimePasses(s: State, step: Step)
    requires Enabled(s, step)
    ensures s.now <= Next(s, step).now
  {
    hide At, ReleaseTicket, RemoveEntry, TakeTicket, AdmitCall, DispatchCall;
  }

  lemma {:induction false} ProgressOnTheClock(s: State, k: Key, clocks: map<Key, Clock>)
    requires Enabled(s, Progress(k)) && OnTheClock(s, k, clocks)
    ensures OnTheClock(Next(s, Progress(k)), k, Watched(s, Progress(k), clocks))
  {
  }

  lemma {:induction false} OthersKeepClock(s: State, step: Step, k: Key, clocks: map<Key, Clock>)
    requires Enabled(s, step) && k in s.pending && k in clocks && step != Progress(k)
    ensures k in Watched(s, step, clocks) && Watched(s, step, clocks)[k] == clocks[k]
  {
  }

  lemma {:induction false} StepKeepsClocks(s: State, step: Step, clocks: map<Key, Clock>)
    requires AllOnTheClock(s, clocks) && Enabled(s, step)
    ensures AllOnTheClock(Next(s, step), Watched(s, step, clocks))
  {
    hide Next, Enabled, Watched;
    var t := Next(s, step);
    forall k | k in t.pending
      ensures OnTheClock(t, k, Watched(s, step, clocks))
    {
      if k !in s.pending {
        OnlyAdmissionAdds(s, step, k);
        AdmittedOnTheClock(s, step.call, step.at, clocks);
      } else if step == Progress(k) {
        ProgressOnTheClock(s, k, clocks);
      } else {
        OthersKeepEntry(s, step, k);
        OthersKeepClock(s, step, k, clocks);
        TimePasses(s, step);
      }
    }
  }

  lemma {:induction false} RunKeepsClocks(s: State, steps: seq<Step>, clocks: map<Key, Clock>)
    requires AllOnTheClock(s, clocks) && Runs(s, steps)
    ensures AllOnTheClock(After(s, steps), WatchedAll(s, steps, clocks))
    decreases |steps|
  {
    hide Next, Enabled, Watched, AllOnTheClock;
    if steps != [] {
      StepKeepsClocks(s, steps[0], clocks);
      RunKeepsClocks(Next(s, steps[0]), steps[1..], Watched(s, steps[0], clocks));
    }
  }

  /** In every run the deadlines of every pending request are two minutes after its admission
      and fifteen seconds after it was last active; so an expiry pass takes it exactly when
      it has made no progress for fifteen seconds or is two minutes old. */
  lemma {:induction false} EveryRunKeepsDeadlines(steps: seq<Step>, k: Key)
    requires Runs(INITIAL, steps) && k in After(INITIAL, steps).pending
    ensures var (s, clocks) := (After(INITIAL, steps), WatchedAll(INITIAL, steps, map[]));
      && k in clocks && clocks[k].admitted <= clocks[k].active <= s.now
      && s.pending[k].total == clocks[k].admitted + 120_000
      && s.pending[k].inactivity == clocks[k].active + 15_000
      && (k !in Unexpired(s.pending, s.now) <==>
            s.now - clocks[k].active >= 15_000 || s.now - clocks[k].admitted >= 120_000)
      && (k.0 in s.queues ==>
            (Enabled(s, Remove(k, TimedOut)) <==>
               s.now - clocks[k].active >= 15_000 || s.now - clocks[k].admitted >= 120_000))
  {
    hide Next, Runs, After, WatchedAll;
    RunKeepsClocks(INITIAL, steps, map[]);
    assert OnTheClock(After(INITIAL, steps), k, WatchedAll(INITIAL, steps, map[]));
  }
}
