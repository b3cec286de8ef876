/** How fast a broker process may cycle through roles that keep dying. Times are
    milliseconds on a clock that never goes back. */
module Supervisor {
  import opened Common

  const MIN_ELECTION_INTERVAL: nat := 100
  const RETRY_DELAY_BASE: nat := 100
  const RETRY_DELAY_CAP: nat := 5_000
  const HEALTHY_ROLE_LIFETIME: nat := 5_000

  /** `1 << n` */
  function Shifted(n: nat): nat {
    if n == 0 then 1 else 2 * Shifted(n - 1)
  }

  /** The wait before re-electing after `consecutive` roles in a row died on arrival. */
  function RecycleDelay(consecutive: nat): nat {
    if consecutive == 0 then 0
    else Min(MIN_ELECTION_INTERVAL * Shifted(Min(consecutive - 1, 16)), RETRY_DELAY_CAP)
  }

  lemma {:induction false} ShiftedGrows(m: nat, n: nat)
    requires m <= n
    ensures 1 <= Shifted(m) <= Shifted(n)
  {
    if m < n {
      ShiftedGrows(m, n - 1);
    } else if n > 0 {
      ShiftedGrows(m - 1, n - 1);
    }
  }

  lemma {:induction false} SixDoublings()
    ensures Shifted(6) == 64
  {
  }

  /** The clamp on the shift never shows: the delay is 100 ms doubled for each further
      death, and at most five seconds. */
  lemma {:induction false} DelayDoublesToTheCap(k: nat)
    requires k > 0
    ensures RecycleDelay(k) == Min(100 * Shifted(k - 1), 5_000)
  {
    if k > 17 {
      SixDoublings();
      ShiftedGrows(6, 16);
      ShiftedGrows(6, k - 1);
    }
  }

  lemma {:induction false} DelayGrows(j: nat, k: nat)
    requires j <= k
    ensures RecycleDelay(j) <= RecycleDelay(k)
  {
    if j > 0 {
      DelayDoublesToTheCap(j);
      DelayDoublesToTheCap(k);
      ShiftedGrows(j - 1, k - 1);
    }
  }

  // ---------- one cycle ----------

  datatype Pace = Pace(electedAt: Option<nat>, lastLifetime: Option<nat>, deaths: nat)

  /** A role lives, is torn down, and the next one starts `waited` after the delay. */
  datatype Cycle = Cycle(lived: nat, teardown: nat, waited: nat)

  function Elapsed(since: nat, now: nat): nat {
    if now < since then 0 else now - since
  }

  function NoteDeath(p: Pace, now: nat): Pace {
    p.(lastLifetime := if p.electedAt.Some? then Some(Elapsed(p.electedAt.value, now)) else None)
  }

  /** Count the death and work out how long to hold back the next election. */
  function Reckon(p: Pace, now: nat): (Pace, nat) {
    if p.electedAt.None? then (p, 0)
    else
      var aliveFor := Elapsed(p.electedAt.value, now);
      var lifetime := if p.lastLifetime.Some? then p.lastLifetime.value else aliveFor;
      var deaths := if lifetime >= HEALTHY_ROLE_LIFETIME then 0 else Min(p.deaths + 1, U32_MAX);
      (p.(deaths := deaths), Elapsed(aliveFor, RecycleDelay(deaths)))
  }

  function Install(p: Pace, now: nat): Pace {
    p.(electedAt := Some(now))
  }

  function Recycle(p: Pace, c: Cycle): Pace
    requires p.electedAt.Some?
  {
    var died := p.electedAt.value + c.lived;
    var (q, floor) := Reckon(NoteDeath(p, died), died + c.teardown);
    Install(q, died + c.teardown + floor + c.waited)
  }

  /** One cycle: whether the death counts depends on the role's life alone, and the next
      role is held back to a full delay after the start of this one, and no longer. */
  lemma {:induction false} CycleIsFloored(p: Pace, c: Cycle)
    requires p.electedAt.Some? && p.deaths <= U32_MAX
    ensures var q := Recycle(p, c);
      && q.electedAt.Some?
      && q.deaths == (if c.lived >= 5_000 then 0 else Min(p.deaths + 1, U32_MAX))
      && q.electedAt.value == p.electedAt.value + Max(RecycleDelay(q.deaths), c.lived + c.teardown) + c.waited
  {
  }

  /** However slow the wind-down and the election, a role that died early still counts. */
  lemma {:induction false} SlowTeardownNeverResets(p: Pace, c: Cycle, teardown: nat, waited: nat)
    requires p.electedAt.Some? && c.lived < 5_000
    ensures Recycle(p, c.(teardown := teardown, waited := waited)).deaths == Recycle(p, c).deaths > 0
  {
  }

  /** The first election is not held back, and counts nothing. */
  lemma {:induction false} FirstElectionIsFree(p: Pace, now: nat)
    requires p.electedAt.None?
    ensures Reckon(p, now) == (p, 0)
  {
  }

  // ---------- spins ----------

  function Run(p: Pace, cycles: seq<Cycle>): (q: Pace)
    requires p.electedAt.Some?
    ensures q.electedAt.Some?
  {
    if cycles == [] then p else Recycle(Run(p, cycles[..|cycles| - 1]), cycles[|cycles| - 1])
  }

  predicate Spin(cycles: seq<Cycle>) {
    forall i :: 0 <= i < |cycles| ==> cycles[i].lived < 5_000
  }

  lemma {:induction false} SpinCounts(p: Pace, cycles: seq<Cycle>)
    requires p.electedAt.Some? && p.deaths <= U32_MAX && Spin(cycles)
    ensures Run(p, cycles).deaths == Min(p.deaths + |cycles|, U32_MAX)
  {
    if cycles != [] {
      var most := cycles[..|cycles| - 1];
      SpinCounts(p, most);
      CycleIsFloored(Run(p, most), cycles[|cycles| - 1]);
    }
  }

  /** After k roles in a row that each lived under five seconds, the next one starts at
      least min(100 * 2^(k - 1), 5000) ms after the one before it started. */
  lemma {:induction false} SpinIsPaced(p: Pace, cycles: seq<Cycle>)
    requires p.electedAt.Some? && p.deaths <= U32_MAX && Spin(cycles) && 0 < |cycles|
    ensures var k := |cycles|;
      Run(p, cycles).electedAt.value
      >= Run(p, cycles[..k - 1]).electedAt.value + Min(100 * Shifted(k - 1), 5_000)
  {
    var k := |cycles|;
    var most := cycles[..k - 1];
    SpinCounts(p, most);
    SpinCounts(p, cycles);
    CycleIsFloored(Run(p, most), cycles[k - 1]);
    DelayDoublesToTheCap(k);
    if k <= U32_MAX {
      DelayGrows(k, Run(p, cycles).deaths);
    } else {
      SixDoublings();
      ShiftedGrows(6, U32_MAX - 1);
      DelayDoublesToTheCap(U32_MAX);
    }
  }

  /** A bound on the sum of the first n delays. */
  function SpinTime(n: nat): nat {
    if n == 0 then 0 else SpinTime(n - 1) + Min(100 * Shifted(n - 1), 5_000)
  }

  lemma {:induction false} SpinTimeIs(n: nat)
    requires n >= 6
    ensures SpinTime(n) == 6_300 + 5_000 * (n - 6)
  {
    if n == 6 {
      assert SpinTime(3) == 700;
    } else {
      SpinTimeIs(n - 1);
      SixDoublings();
      ShiftedGrows(6, n - 1);
    }
  }

  lemma {:induction false} SpinTakesTheSum(p: Pace, cycles: seq<Cycle>)
    requires p.electedAt.Some? && p.deaths <= U32_MAX && Spin(cycles)
    ensures Run(p, cycles).electedAt.value >= p.electedAt.value + SpinTime(|cycles|)
  {
    if cycles != [] {
      SpinTakesTheSum(p, cycles[..|cycles| - 1]);
      SpinIsPaced(p, cycles);
    }
  }

  /** A spin of n >= 6 roles that die on arrival takes at least 6300 + 5000 (n - 6) ms. */
  lemma {:induction false} SpinIsSlow(p: Pace, cycles: seq<Cycle>)
    requires p.electedAt.Some? && p.deaths <= U32_MAX && Spin(cycles) && |cycles| >= 6
    ensures Run(p, cycles).electedAt.value >= p.electedAt.value + 6_300 + 5_000 * (|cycles| - 6)
  {
    SpinTakesTheSum(p, cycles);
    SpinTimeIs(|cycles|);
  }

  /** A healthy role starts the count again, and the next role is not held back at all. */
  lemma {:induction false} HealthyRoleResets(p: Pace, c: Cycle)
    requires p.electedAt.Some? && c.lived >= 5_000
    ensures Recycle(p, c).deaths == 0
    ensures Recycle(p, c).electedAt == Some(p.electedAt.value + c.lived + c.teardown + c.waited)
  {
  }

  /** The waits between elections that keep failing: the same curve, so the two loops
      back off identically. */
  method ElectUntilEntered(failures: nat) returns (slept: seq<nat>)
    ensures |slept| == failures
    ensures forall i :: 0 <= i < failures ==> slept[i] == RecycleDelay(i + 1)
  {
    slept := [];
    var delay := RETRY_DELAY_BASE;
    var attempt := 1;
    while attempt <= failures
      invariant 1 <= attempt <= failures + 1
      invariant |slept| == attempt - 1
      invariant delay == RecycleDelay(attempt)
      invariant forall i :: 0 <= i < attempt - 1 ==> slept[i] == RecycleDelay(i + 1)
    {
      slept := slept + [delay];
      DelayDoublesToTheCap(attempt);
      DelayDoublesToTheCap(attempt + 1);
      delay := if delay * 2 < RETRY_DELAY_CAP then delay * 2 else RETRY_DELAY_CAP;
      attempt := attempt + 1;
    }
  }

  // ---------- the supervisor object ----------

  class RoleSupervisor {
    var holdsRole: bool
    var electedAt: Option<nat>
    var lastRoleLifetime: Option<nat>
    var consecutiveImmediateDeaths: nat

    function Model(): Pace
      reads this
    {
      Pace(electedAt, lastRoleLifetime, consecutiveImmediateDeaths)
    }

    constructor ()
      ensures !holdsRole && Model() == Pace(None, None, 0)
    {
      holdsRole, electedAt, lastRoleLifetime, consecutiveImmediateDeaths := false, None, None, 0;
    }

    method InstallRole(now: nat)
      modifies this
      ensures holdsRole && Model() == Install(old(Model()), now)
    {
      holdsRole := true;
      electedAt := Some(now);
    }

    method ClearRole() returns (held: bool)
      modifies this`holdsRole
      ensures !holdsRole && held == old(holdsRole)
    {
      held := holdsRole;
      holdsRole := false;
    }

    /** Returns the time to sleep before the election starts. */
    method ElectNext(now: nat) returns (floor: nat)
      modifies this
      ensures (Model(), floor) == Reckon(old(Model()), now)
      ensures holdsRole == old(holdsRole)
    {
      floor := 0;
      if electedAt.Some? {
        var aliveFor := Elapsed(electedAt.value, now);
        var lifetime := if lastRoleLifetime.Some? then lastRoleLifetime.value else aliveFor;
        if lifetime >= HEALTHY_ROLE_LIFETIME {
          consecutiveImmediateDeaths := 0;
        } else if consecutiveImmediateDeaths < U32_MAX {
          consecutiveImmediateDeaths := consecutiveImmediateDeaths + 1;
        } else {
          consecutiveImmediateDeaths := U32_MAX;
        }
        var delay := RecycleDelay(consecutiveImmediateDeaths);
        if delay > aliveFor {
          floor := delay - aliveFor;
        }
      }
    }

    /** One turn of the supervising loop: the death, the wind-down, the wait, the next
        role. */
    method SuperviseOnce(c: Cycle)
      requires electedAt.Some?
      modifies this
      ensures holdsRole && Model() == Recycle(old(Model()), c)
    {
      var died := electedAt.value + c.lived;
      lastRoleLifetime := Some(Elapsed(electedAt.value, died));
      var held := ClearRole();
      var floor := ElectNext(died + c.teardown);
      InstallRole(died + c.teardown + floor + c.waited);
    }
  }
}
