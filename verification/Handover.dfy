/** Handing the broker backend over to calls that wait for one. The cell sits behind a
    lock and the generation in a watch channel, so each access is one atomic step. */
module Handover {
  import opened Common

  type Backend = nat
  type Installer = nat
  type Waiter = nat

  /** `Subscribed` has marked a generation as seen and is about to read the cell;
      `Parked` has read an empty cell and sleeps until the generation moves. The client
      never has a `Peeked` or `Late` waiter: those read the cell before subscribing, and
      are here to show what the order is worth. */
  datatype Wait = Subscribed(seen: nat) | Parked(seen: nat) | Served(backend: Backend) | Peeked | Late(seen: nat)

  /** `between` holds the installers that have written the cell but not yet bumped. */
  datatype State = State(cell: Option<Backend>, generation: nat, between: set<Installer>, waits: map<Waiter, Wait>)

  const UNATTACHED: State := State(None, 0, {}, map[])

  datatype Step =
    | Write(installer: Installer, backend: Backend)
    | Bump(installer: Installer)
    | Detach
    | Subscribe(waiter: Waiter)
    | Read(waiter: Waiter)
    | Wake(waiter: Waiter)
    | Abandon(waiter: Waiter)
    | Peek(waiter: Waiter)
    | SubscribeLate(waiter: Waiter)

  predicate Enabled(s: State, step: Step) {
    match step
    case Write(installer, backend) => installer !in s.between
    case Bump(installer) => installer in s.between
    case Detach => true
    case Subscribe(waiter) => waiter !in s.waits
    case Read(waiter) => waiter in s.waits && s.waits[waiter].Subscribed?
    case Wake(waiter) =>
      && waiter in s.waits && (s.waits[waiter].Parked? || s.waits[waiter].Late?)
      && s.waits[waiter].seen != s.generation
    case Abandon(waiter) => waiter in s.waits
    case Peek(waiter) => waiter !in s.waits
    case SubscribeLate(waiter) => waiter in s.waits && s.waits[waiter].Peeked?
  }

  function Next(s: State, step: Step): State
    requires Enabled(s, step)
  {
    match step
    case Write(installer, backend) => s.(cell := Some(backend), between := s.between + {installer})
    case Bump(installer) => s.(generation := s.generation + 1, between := s.between - {installer})
    case Detach => s.(cell := None)
    case Subscribe(waiter) => s.(waits := s.waits[waiter := Subscribed(s.generation)])
    case Read(waiter) =>
      s.(waits := s.waits[waiter := if s.cell.Some? then Served(s.cell.value) else Parked(s.waits[waiter].seen)])
    case Wake(waiter) => s.(waits := s.waits[waiter := Subscribed(s.generation)])
    case Abandon(waiter) => s.(waits := s.waits - {waiter})
    case Peek(waiter) => s.(waits := s.waits[waiter := if s.cell.Some? then Served(s.cell.value) else Peeked])
    case SubscribeLate(waiter) => s.(waits := s.waits[waiter := Late(s.generation)])
  }

  /** Nobody sleeps beside a full cell unless an installer is about to wake them. */
  ghost predicate NoLostWakeUp(s: State) {
    && (forall w :: w in s.waits && (s.waits[w].Subscribed? || s.waits[w].Parked?) ==> s.waits[w].seen <= s.generation)
    && (forall w :: w in s.waits && s.waits[w].Parked? && s.waits[w].seen == s.generation && s.cell.Some? ==>
          s.between != {})
  }

  lemma {:induction false} StepKeepsWakeUps(s: State, step: Step)
    requires NoLostWakeUp(s) && Enabled(s, step)
    ensures NoLostWakeUp(Next(s, step))
  {
  }

  predicate Runs(s: State, steps: seq<Step>)
    decreases |steps|
  {
    steps == [] || (Enabled(s, steps[0]) && Runs(Next(s, steps[0]), steps[1..]))
  }

  function After(s: State, steps: seq<Step>): State
    requires Runs(s, steps)
    decreases |steps|
  {
    if steps == [] then s else After(Next(s, steps[0]), steps[1..])
  }

  lemma {:induction false} RunKeepsWakeUps(s: State, steps: seq<Step>)
    requires NoLostWakeUp(s) && Runs(s, steps)
    ensures NoLostWakeUp(After(s, steps))
    decreases |steps|
  {
    if steps != [] {
      StepKeepsWakeUps(s, steps[0]);
      RunKeepsWakeUps(Next(s, steps[0]), steps[1..]);
    }
  }

  /** Over every interleaving of installs, detaches and waiters: a waiter asleep beside a
      full cell on the current generation has an installer between its two steps. Once no
      installer is, two steps of its own serve it the installed backend. */
  lemma {:induction false} NoWakeUpIsLost(steps: seq<Step>, w: Waiter)
    requires Runs(UNATTACHED, steps)
    ensures var s := After(UNATTACHED, steps);
      w in s.waits && s.waits[w].Parked? && s.cell.Some? ==>
        && (s.waits[w].seen == s.generation ==> s.between != {})
        && (s.between == {} ==>
              && Enabled(s, Wake(w)) && Enabled(Next(s, Wake(w)), Read(w))
              && Next(Next(s, Wake(w)), Read(w)).waits[w] == Served(s.cell.value))
  {
    RunKeepsWakeUps(UNATTACHED, steps);
  }

  /** The bump of any installer caught between its steps wakes every sleeper. */
  lemma {:induction false} BumpWakesEveryone(steps: seq<Step>, i: Installer, w: Waiter)
    requires Runs(UNATTACHED, steps)
    requires var s := After(UNATTACHED, steps); i in s.between && w in s.waits && s.waits[w].Parked?
    ensures Enabled(Next(After(UNATTACHED, steps), Bump(i)), Wake(w))
  {
    RunKeepsWakeUps(UNATTACHED, steps);
  }

  // ---------- what a waiter is served ----------

  /** What was installed last in a run, unless it has been detached since. */
  function LatestIn(steps: seq<Step>): Option<Backend> {
    if steps == [] then None
    else
      match steps[|steps| - 1]
      case Write(_, backend) => Some(backend)
      case Detach => None
      case _ => LatestIn(steps[..|steps| - 1])
  }

  function BumpsIn(steps: seq<Step>): nat {
    if steps == [] then 0 else BumpsIn(steps[..|steps| - 1]) + if steps[|steps| - 1].Bump? then 1 else 0
  }

  lemma {:induction false} RunsFront(s: State, steps: seq<Step>)
    requires Runs(s, steps) && steps != []
    ensures var (front, last) := (steps[..|steps| - 1], steps[|steps| - 1]);
      Runs(s, front) && Enabled(After(s, front), last) && After(s, steps) == Next(After(s, front), last)
    decreases |steps|
  {
    var front := steps[..|steps| - 1];
    if |steps| == 1 {
      assert front == [] && steps[1..] == [];
    } else {
      RunsFront(Next(s, steps[0]), steps[1..]);
      assert front[1..] == steps[1..][..|steps| - 2] && front[0] == steps[0];
    }
  }

  lemma {:induction false} CellIsTheLatest(steps: seq<Step>)
    requires Runs(UNATTACHED, steps)
    ensures After(UNATTACHED, steps).cell == LatestIn(steps)
    ensures After(UNATTACHED, steps).generation == BumpsIn(steps)
    decreases |steps|
  {
    if steps != [] {
      RunsFront(UNATTACHED, steps);
      CellIsTheLatest(steps[..|steps| - 1]);
    }
  }

  /** In every run a waiter that reads is served what was installed last, or parks on the
      generation it had seen; it sees the bumps made before it subscribed or woke, and wakes
      exactly when there have been others since. No step of one waiter moves another. */
  lemma {:induction false} ReadersAreServedTheLatest(steps: seq<Step>, w: Waiter)
    requires Runs(UNATTACHED, steps)
    ensures var (s, latest, bumps) := (After(UNATTACHED, steps), LatestIn(steps), BumpsIn(steps));
      && (Enabled(s, Read(w)) ==>
            Next(s, Read(w)).waits
            == s.waits[w := if latest.Some? then Served(latest.value) else Parked(s.waits[w].seen)])
      && (Enabled(s, Subscribe(w)) ==> Next(s, Subscribe(w)).waits == s.waits[w := Subscribed(bumps)])
      && (w in s.waits && s.waits[w].Parked? ==>
            && (Enabled(s, Wake(w)) <==> s.waits[w].seen != bumps)
            && (Enabled(s, Wake(w)) ==> Next(s, Wake(w)).waits == s.waits[w := Subscribed(bumps)]))
      && Enabled(s, Detach)
      && (w in s.waits ==> Enabled(s, Abandon(w)) && Next(s, Abandon(w)).waits == s.waits - {w})
  {
    CellIsTheLatest(steps);
  }

  // ---------- what the order of the two reads is worth ----------

  /** Nobody installs, and `w` does not give up. */
  predicate Quiet(steps: seq<Step>, w: Waiter) {
    forall i :: 0 <= i < |steps| ==> !steps[i].Write? && steps[i] != Abandon(w)
  }

  /** With nobody between its steps, only a new install wakes a waiter that has seen the
      current generation. */
  lemma {:induction false} LateSleepsOn(s: State, steps: seq<Step>, w: Waiter)
    requires Runs(s, steps) && Quiet(steps, w)
    requires s.between == {} && w in s.waits && s.waits[w] == Late(s.generation)
    ensures var t := After(s, steps);
      t.between == {} && t.generation == s.generation && w in t.waits && t.waits[w] == s.waits[w]
    decreases |steps|
  {
    if steps != [] {
      assert !steps[0].Write? && steps[0] != Abandon(w);
      assert forall i :: 0 <= i < |steps| - 1 ==> steps[1..][i] == steps[i + 1];
      LateSleepsOn(Next(s, steps[0]), steps[1..], w);
    }
  }

  function MissedInstall(w: Waiter, i: Installer, b: Backend): seq<Step> {
    [Peek(w), Write(i, b), Bump(i), SubscribeLate(w)]
  }

  lemma {:induction false} MissedInstallRuns(w: Waiter, i: Installer, b: Backend)
    ensures Runs(UNATTACHED, MissedInstall(w, i, b))
    ensures After(UNATTACHED, MissedInstall(w, i, b)) == State(Some(b), 1, {}, map[w := Late(1)])
  {
    var steps := MissedInstall(w, i, b);
    var s1 := Next(UNATTACHED, steps[0]);
    var s2 := Next(s1, steps[1]);
    var s3 := Next(s2, steps[2]);
    assert s3 == State(Some(b), 1, {}, map[w := Peeked]);
    var s4 := Next(s3, steps[3]);
    assert s4 == State(Some(b), 1, {}, map[w := Late(1)]);
    assert steps[3..][1..] == [] && steps[2..][1..] == steps[3..] && steps[1..][1..] == steps[2..];
    assert Runs(s3, steps[3..]) && After(s3, steps[3..]) == s4;
    assert Runs(s2, steps[2..]) && After(s2, steps[2..]) == s4;
    assert Runs(s1, steps[1..]) && After(s1, steps[1..]) == s4;
  }

  /** A waiter that reads the cell first and subscribes afterwards can miss an install that
      lands in between. It then sleeps beside the very backend it waits for, in every
      continuation in which nobody installs again. */
  lemma {:induction false} ReadingFirstLosesAWakeUp(w: Waiter, i: Installer, b: Backend, later: seq<Step>)
    requires Quiet(later, w)
    ensures Runs(UNATTACHED, MissedInstall(w, i, b))
    ensures var s := After(UNATTACHED, MissedInstall(w, i, b));
      && s.cell == Some(b) && s.between == {}
      && (Runs(s, later) ==> w in After(s, later).waits && After(s, later).waits[w] == Late(s.generation)
                             && !Enabled(After(s, later), Wake(w)))
  {
    MissedInstallRuns(w, i, b);
    var s := After(UNATTACHED, MissedInstall(w, i, b));
    if Runs(s, later) {
      LateSleepsOn(s, later, w);
    }
  }

  /** The next install does wake it. */
  lemma {:induction false} AnInstallWakesTheLate(s: State, w: Waiter, i: Installer, b: Backend)
    requires w in s.waits && s.waits[w] == Late(s.generation) && i !in s.between
    ensures Enabled(s, Write(i, b)) && Enabled(Next(s, Write(i, b)), Bump(i))
    ensures Enabled(Next(Next(s, Write(i, b)), Bump(i)), Wake(w))
  {
  }

  // ---------- the client object ----------

  class BrokerClient {
    var cell: Option<Backend>
    var generation: nat
    /** Installers between their two steps, the waiters, and the steps taken so far. */
    ghost var between: set<Installer>
    ghost var waits: map<Waiter, Wait>
    ghost var taken: seq<Step>

    ghost function Model(): State
      reads this
    {
      State(cell, generation, between, waits)
    }

    constructor ()
      ensures Model() == UNATTACHED && taken == []
    {
      cell, generation, between, waits, taken := None, 0, {}, map[], [];
    }

    /** The write lock's step. */
    method WriteCell(backend: Backend, ghost i: Installer)
      requires i !in between
      modifies this`cell, this`between, this`taken
      ensures Model() == Next(old(Model()), Write(i, backend))
      ensures taken == old(taken) + [Write(i, backend)]
    {
      cell := Some(backend);
      between := between + {i};
      taken := taken + [Write(i, backend)];
    }

    /** The watch channel's step, which only an installer that has written can take. */
    method BumpGeneration(ghost i: Installer)
      requires i in between
      modifies this`generation, this`between, this`taken
      ensures Model() == Next(old(Model()), Bump(i))
      ensures taken == old(taken) + [Bump(i)]
    {
      generation := generation + 1;
      between := between - {i};
      taken := taken + [Bump(i)];
    }

    /** The write is taken first and the bump second. */
    method Install(backend: Backend, ghost i: Installer)
      requires i !in between
      modifies this
      ensures taken == old(taken) + [Write(i, backend), Bump(i)]
      ensures cell == Some(backend) && generation == old(generation) + 1 && between == old(between)
    {
      WriteCell(backend, i);
      BumpGeneration(i);
    }

    /** A detach is the machine's step, and wakes nobody. */
    method DetachBackend()
      modifies this`cell, this`taken
      ensures Model() == Next(old(Model()), Detach)
      ensures taken == old(taken) + [Detach]
    {
      cell := None;
      taken := taken + [Detach];
    }
  }
}
