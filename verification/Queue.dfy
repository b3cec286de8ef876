/** One bounded admission queue per live plugin socket: four slots, sixteen waiters. */
module Queue {
  import opened Common

  /** The queue's fields, with the ids whose dispatch signal has been sent and the ids
      given to callers, in order. */
  datatype Queue = Queue(nextId: nat, inFlight: nat, waiting: seq<nat>, active: set<nat>,
                         granted: set<nat>, issued: seq<nat>)

  datatype Admission = Dispatched(id: nat) | Queued(id: nat) | Full

  const EMPTY: Queue := Queue(1, 0, [], {}, {}, [])

  function Enqueue(q: Queue): (Queue, Admission) {
    var id := q.nextId;
    var p := q.(nextId := Min(id + 1, U64_MAX));
    if q.inFlight < MAX_IN_FLIGHT && q.waiting == [] then
      (p.(inFlight := q.inFlight + 1, active := q.active + {id}, granted := q.granted + {id},
          issued := q.issued + [id]),
       Dispatched(id))
    else if |q.waiting| >= MAX_QUEUE then (p, Full)
    else (p.(waiting := q.waiting + [id], issued := q.issued + [id]), Queued(id))
  }

  /** Move the oldest waiter into a free slot. One whose receiver is gone (not in
      `listening`) is dropped instead. */
  function Advance(q: Queue, listening: set<nat>): Queue
    requires q.waiting != []
  {
    var next, rest := q.waiting[0], q.waiting[1..];
    if next in listening then
      q.(waiting := rest, inFlight := q.inFlight + 1, active := q.active + {next}, granted := q.granted + {next})
    else q.(waiting := rest, active := q.active - {next})
  }

  function Promote(q: Queue, listening: set<nat>): Queue
    decreases |q.waiting|
  {
    if q.inFlight >= MAX_IN_FLIGHT || q.waiting == [] then q else Promote(Advance(q, listening), listening)
  }

  function Without(ids: seq<nat>, id: nat): seq<nat> {
    if ids == [] then []
    else if ids[0] == id then ids[1..]
    else [ids[0]] + Without(ids[1..], id)
  }

  /** Drop a ticket: leave the line, or free the slot and promote. */
  function Release(q: Queue, id: nat, listening: set<nat>): Queue {
    if id in q.waiting then q.(waiting := Without(q.waiting, id))
    else if id in q.active then Promote(Freed(q, id), listening)
    else q
  }

  function Freed(q: Queue, id: nat): Queue {
    q.(active := q.active - {id}, inFlight := if q.inFlight == 0 then 0 else q.inFlight - 1)
  }

  predicate Increasing(ids: seq<nat>) {
    forall i, j :: 0 <= i < j < |ids| ==> ids[i] < ids[j]
  }

  /** Slots are counted right, no id has been given out twice, and every id dispatched so
      far was given out before every id that still waits: first in, first out. */
  ghost predicate Fair(q: Queue) {
    && q.inFlight == |q.active| <= MAX_IN_FLIGHT
    && |q.waiting| <= MAX_QUEUE
    && Increasing(q.issued)
    && Increasing(q.waiting)
    && q.active <= q.granted
    && (forall g, w :: g in q.granted && w in q.waiting ==> g < w)
    && (forall id :: id in q.granted || id in q.waiting ==> id in q.issued)
  }

  /** The 64-bit counter is past every id given out, but for its last value. */
  ghost predicate Counted(q: Queue) {
    q.nextId <= U64_MAX && forall id :: id in q.issued ==> id < q.nextId || id == q.nextId == U64_MAX
  }

  ghost predicate Orderly(q: Queue) {
    Fair(q) && Counted(q)
  }

  /** Nobody waits while a slot is free. */
  predicate FullBeforeWaiting(q: Queue) {
    q.waiting != [] ==> q.inFlight == MAX_IN_FLIGHT
  }

  ghost predicate WellKept(q: Queue) {
    Orderly(q) && FullBeforeWaiting(q)
  }

  lemma {:induction false} AppendIncreasing(ids: seq<nat>, id: nat)
    requires Increasing(ids)
    ensures Increasing(ids + [id]) <==> forall x :: x in ids ==> x < id
  {
    var longer := ids + [id];
    if Increasing(longer) {
      forall x | x in ids
        ensures x < id
      {
        var i :| 0 <= i < |ids| && ids[i] == x;
        assert longer[i] < longer[|ids|];
      }
    } else {
      var i, j :| 0 <= i < j < |longer| && longer[i] >= longer[j];
      assert ids[i] in ids;
    }
  }

  lemma {:induction false} JoinersActive(active: set<nat>, id: nat)
    requires id !in active
    ensures |active + {id}| == |active| + 1
  {
  }

  /** How far the order reaches: a join keeps it exactly unless the counter's last value
      has been given out before and is now given out again. */
  lemma {:induction false} OrderLastsAsLongAsIds(q: Queue)
    requires Orderly(q)
    ensures Counted(Enqueue(q).0)
    ensures Fair(Enqueue(q).0) <==> U64_MAX !in q.issued || Enqueue(q).1.Full?
    ensures FullBeforeWaiting(q) ==> FullBeforeWaiting(Enqueue(q).0)
  {
    hide Increasing;
    var id := q.nextId;
    AppendIncreasing(q.issued, id);
    if U64_MAX !in q.issued {
      assert forall w :: w in q.waiting ==> w in q.issued;
      AppendIncreasing(q.waiting, id);
      JoinersActive(q.active, id);
    }
  }

  /** So no join can break it while the counter has values left. */
  lemma {:induction false} JoinKeepsOrder(q: Queue)
    requires WellKept(q) && q.nextId < U64_MAX
    ensures WellKept(Enqueue(q).0)
  {
    OrderLastsAsLongAsIds(q);
  }

  lemma {:induction false} RestIsLater(ids: seq<nat>)
    requires Increasing(ids) && ids != []
    ensures Increasing(ids[1..])
    ensures forall x :: x in ids[1..] ==> x in ids && ids[0] < x
  {
    var rest := ids[1..];
    assert forall i :: 0 <= i < |rest| ==> rest[i] == ids[i + 1];
  }

  lemma {:induction false} AdvanceKeeps(q: Queue, listening: set<nat>)
    requires Fair(q) && q.inFlight < MAX_IN_FLIGHT && q.waiting != []
    ensures Fair(Advance(q, listening))
  {
    hide Increasing;
    var next := q.waiting[0];
    assert next in q.waiting && next !in q.active;
    RestIsLater(q.waiting);
    assert |q.active + {next}| == |q.active| + 1;
    assert q.active - {next} == q.active;
  }

  lemma {:induction false} PromoteKeeps(q: Queue, listening: set<nat>)
    requires Fair(q)
    ensures Fair(Promote(q, listening)) && FullBeforeWaiting(Promote(q, listening))
    decreases |q.waiting|
  {
    if q.inFlight < MAX_IN_FLIGHT && q.waiting != [] {
      AdvanceKeeps(q, listening);
      PromoteKeeps(Advance(q, listening), listening);
    }
  }

  lemma {:induction false} FreedKeeps(q: Queue, id: nat)
    requires Fair(q) && id in q.active
    ensures Fair(Freed(q, id))
  {
  }

  lemma {:induction false} CutMeaning(ids: seq<nat>, index: nat)
    requires Increasing(ids) && index < |ids|
    ensures var w := ids[..index] + ids[index + 1..];
      Increasing(w) && ids[index] !in ids[..index] && (forall x :: x in w ==> x in ids && x != ids[index])
  {
  }

  lemma {:induction false} WithoutMeaning(ids: seq<nat>, id: nat)
    requires Increasing(ids) && id in ids
    ensures var w := Without(ids, id);
      Increasing(w) && |w| == |ids| - 1 && forall x :: x in w <==> x in ids && x != id
  {
    hide Increasing, Without;
    var index :| 0 <= index < |ids| && ids[index] == id;
    CutMeaning(ids, index);
    WithoutAt(ids, id, index);
    assert ids == ids[..index] + [id] + ids[index + 1..];
  }

  lemma {:induction false} ReleaseKeeps(q: Queue, id: nat, listening: set<nat>)
    requires Fair(q) && FullBeforeWaiting(q)
    ensures Fair(Release(q, id, listening)) && FullBeforeWaiting(Release(q, id, listening))
  {
    if id in q.waiting {
      WithoutMeaning(q.waiting, id);
    } else if id in q.active {
      FreedKeeps(q, id);
      PromoteKeeps(Freed(q, id), listening);
    }
  }

  lemma {:induction false} PromoteNextId(q: Queue, listening: set<nat>)
    ensures Promote(q, listening).nextId == q.nextId && Promote(q, listening).issued == q.issued
    decreases |q.waiting|
  {
    if q.inFlight < MAX_IN_FLIGHT && q.waiting != [] {
      PromoteNextId(Advance(q, listening), listening);
    }
  }

  /** How many waiters a promotion takes from the line. */
  function Taken(q: Queue, listening: set<nat>): (k: nat)
    ensures k <= |q.waiting|
    decreases |q.waiting|
  {
    if q.inFlight >= MAX_IN_FLIGHT || q.waiting == [] then 0 else 1 + Taken(Advance(q, listening), listening)
  }

  lemma {:induction false} PromoteWaiting(q: Queue, listening: set<nat>)
    ensures Promote(q, listening).waiting == q.waiting[Taken(q, listening)..]
    decreases |q.waiting|
  {
    if q.inFlight < MAX_IN_FLIGHT && q.waiting != [] {
      PromoteWaiting(Advance(q, listening), listening);
    }
  }

  predicate Joins(q: Queue, listening: set<nat>, x: nat) {
    x in q.waiting[..Taken(q, listening)] && x in listening
  }

  lemma {:induction false} JoinsNext(q: Queue, listening: set<nat>, x: nat)
    requires q.inFlight < MAX_IN_FLIGHT && q.waiting != []
    ensures Joins(q, listening, x) <==>
      (x == q.waiting[0] && x in listening) || Joins(Advance(q, listening), listening, x)
  {
  }

  lemma {:induction false} PromoteJoins(q: Queue, listening: set<nat>, x: nat)
    requires Fair(q)
    ensures var p := Promote(q, listening);
      && (x in p.granted <==> x in q.granted || Joins(q, listening, x))
      && (x in p.active <==> x in q.active || Joins(q, listening, x))
    decreases |q.waiting|
  {
    if q.inFlight < MAX_IN_FLIGHT && q.waiting != [] {
      assert q.waiting[0] in q.waiting && q.waiting[0] !in q.active;
      AdvanceKeeps(q, listening);
      JoinsNext(q, listening, x);
      PromoteJoins(Advance(q, listening), listening, x);
    }
  }

  /** First in, first out: promotion takes waiters from the front of the line, grants
      exactly those of them still listening, and leaves everyone else where they were. */
  lemma {:induction false} PromoteTakesTheFront(q: Queue, listening: set<nat>) returns (k: nat)
    requires Fair(q)
    ensures k <= |q.waiting|
    ensures var p := Promote(q, listening);
      && p.waiting == q.waiting[k..]
      && (forall x :: x in p.granted <==> x in q.granted || (x in q.waiting[..k] && x in listening))
      && (forall x :: x in p.active <==> x in q.active || (x in q.waiting[..k] && x in listening))
  {
    k := Taken(q, listening);
    PromoteWaiting(q, listening);
    forall x: nat
      ensures var p := Promote(q, listening);
        && (x in p.granted <==> x in q.granted || (x in q.waiting[..k] && x in listening))
        && (x in p.active <==> x in q.active || (x in q.waiting[..k] && x in listening))
    {
      PromoteJoins(q, listening, x);
    }
  }

  predicate Holds(q: Queue, id: nat) {
    id in q.waiting || id in q.active
  }

  lemma {:induction false} ActiveMeansGranted(q: Queue, id: nat)
    requires Fair(q) && Holds(q, id)
    ensures id in q.granted <==> id in q.active
    ensures id in q.active <==> id !in q.waiting
  {
  }

  /** What a promotion does to one ticket. */
  lemma {:induction false} PromoteOne(q: Queue, listening: set<nat>, x: nat)
    requires Fair(q)
    ensures var p := Promote(q, listening);
      && (Holds(p, x) ==> Holds(q, x))
      && (x in q.active ==> x in p.active)
      && (x in p.waiting ==> x in q.waiting)
      && (Holds(q, x) ==> Holds(p, x) || (x in q.waiting && x !in listening))
      && (x in q.granted ==> x in p.granted)
      && (x in p.granted && x !in q.granted ==> x in q.waiting && x in listening)
  {
    var k := Taken(q, listening);
    PromoteWaiting(q, listening);
    PromoteJoins(q, listening, x);
    assert q.waiting == q.waiting[..k] + q.waiting[k..];
  }

  lemma {:induction false} PromoteEffect(q: Queue, listening: set<nat>)
    requires Fair(q)
    ensures var p := Promote(q, listening);
      && (forall x :: Holds(p, x) ==> Holds(q, x))
      && (forall x :: x in q.active ==> x in p.active)
      && (forall x :: x in q.waiting && x in listening ==> Holds(p, x))
      && q.granted <= p.granted
      && (forall x :: x in p.granted && x !in q.granted ==> x in q.waiting && x in listening)
  {
    forall x: nat
      ensures var p := Promote(q, listening);
        && (Holds(p, x) ==> Holds(q, x))
        && (x in q.active ==> x in p.active)
        && (x in q.waiting && x in listening ==> Holds(p, x))
        && (x in q.granted ==> x in p.granted)
        && (x in p.granted && x !in q.granted ==> x in q.waiting && x in listening)
    {
      PromoteOne(q, listening, x);
    }
  }

  /** A released ticket is out of the queue, and releasing it again, or releasing one
      whose promotion failed, changes nothing. */
  lemma {:induction false} ReleaseTwiceIsOnce(q: Queue, id: nat, listening: set<nat>, later: set<nat>)
    requires Fair(q)
    ensures var p := Release(q, id, listening);
      id !in p.waiting && id !in p.active && Release(p, id, later) == p
  {
    if id in q.waiting {
      WithoutMeaning(q.waiting, id);
      assert id !in q.active;
    } else if id in q.active {
      FreedKeeps(q, id);
      PromoteOne(Freed(q, id), listening, id);
    }
  }

  /** What a release does to every other ticket: none is added, an active one stays
      active, and a waiting one stays in the queue unless nobody listens for it. */
  lemma {:induction false} ReleaseEffect(q: Queue, id: nat, listening: set<nat>)
    requires Fair(q)
    ensures var p := Release(q, id, listening);
      && (forall x :: Holds(p, x) ==> Holds(q, x) && x != id)
      && (forall x :: x in q.active && x != id ==> x in p.active)
      && (forall x :: x in q.waiting && x != id && x in listening ==> Holds(p, x))
      && q.granted <= p.granted
      && (forall x :: x in p.granted && x !in q.granted ==> x in q.waiting && x in listening)
  {
    if id in q.waiting {
      WithoutMeaning(q.waiting, id);
    } else if id in q.active {
      FreedKeeps(q, id);
      PromoteEffect(Freed(q, id), listening);
    }
  }

  /** Exactly when a release puts another ticket out of the queue: the slot it frees lets
      the promotion reach that ticket in the line, and nobody listens for it. */
  lemma {:induction false} ReleaseDropsExactly(q: Queue, id: nat, listening: set<nat>, x: nat)
    requires Fair(q) && Holds(q, x) && x != id
    ensures !Holds(Release(q, id, listening), x) <==>
      id in q.active && x in q.waiting[..Taken(Freed(q, id), listening)] && x !in listening
  {
    if id in q.waiting {
      WithoutMeaning(q.waiting, id);
      assert id !in q.active;
    } else if id in q.active {
      var f := Freed(q, id);
      var k := Taken(f, listening);
      FreedKeeps(q, id);
      PromoteWaiting(f, listening);
      PromoteJoins(f, listening, x);
      FrontOrRest(q.waiting, k, x);
    }
  }

  lemma {:induction false} FrontOrRest(ids: seq<nat>, k: nat, x: nat)
    requires Increasing(ids) && k <= |ids|
    ensures x in ids <==> x in ids[..k] || x in ids[k..]
    ensures x in ids[..k] ==> x !in ids[k..]
  {
    assert ids == ids[..k] + ids[k..];
  }

  lemma {:induction false} JoinTakesTheNextId(q: Queue)
    ensures !Enqueue(q).1.Full? ==> Enqueue(q).1.id == q.nextId
    ensures q.nextId < U64_MAX ==> Enqueue(q).0.nextId == q.nextId + 1
  {
  }

  /** What joining does to the tickets: the new one is in unless the line was full,
      everyone else stays, and no grant is taken back. */
  lemma {:induction false} EnqueueEffect(q: Queue)
    ensures var (p, admission) := Enqueue(q);
      && (forall x :: Holds(p, x) <==> Holds(q, x) || (x == q.nextId && !admission.Full?))
      && (!admission.Full? ==> admission.id == q.nextId)
      && q.granted <= p.granted
      && (q.nextId < U64_MAX ==> p.nextId == q.nextId + 1)
      && (p.nextId < U64_MAX ==> q.nextId < U64_MAX)
  {
  }

  /** A caller is sent off at once exactly while fewer than four are active, and refused
      exactly when four are active and sixteen wait: no slot is ever held back. */
  lemma {:induction false} RefusedOnlyWhenFull(q: Queue)
    requires Fair(q) && FullBeforeWaiting(q)
    ensures Enqueue(q).1.Dispatched? <==> |q.active| < 4
    ensures Enqueue(q).1.Full? <==> |q.active| == 4 && |q.waiting| == 16
    ensures Enqueue(q).1.Queued? ==> Enqueue(q).0.waiting == q.waiting + [q.nextId]
  {
  }

  /** After that every caller is given the same id, and waits under it. */
  lemma {:induction false} SaturatedIdsCollide(q: Queue)
    requires q.nextId == U64_MAX && q.inFlight == MAX_IN_FLIGHT && |q.waiting| + 2 <= MAX_QUEUE
    ensures var (p, first) := Enqueue(q);
      var (r, second) := Enqueue(p);
      first == second == Queued(U64_MAX) && r.waiting == q.waiting + [U64_MAX, U64_MAX] && !Increasing(r.waiting)
  {
    var r := Enqueue(Enqueue(q).0).0;
    assert q.waiting + [U64_MAX] + [U64_MAX] == q.waiting + [U64_MAX, U64_MAX];
    assert r.waiting[|q.waiting|] == r.waiting[|q.waiting| + 1];
  }

  // ---------- runs ----------

  datatype Operation = EnqueueOne | ReleaseOne(id: nat, listening: set<nat>)

  function Apply(q: Queue, op: Operation): Queue {
    match op
    case EnqueueOne => Enqueue(q).0
    case ReleaseOne(id, listening) => Release(q, id, listening)
  }

  function Run(q: Queue, ops: seq<Operation>): Queue {
    if ops == [] then q else Apply(Run(q, ops[..|ops| - 1]), ops[|ops| - 1])
  }

  predicate GivenTwice(issued: seq<nat>, id: nat) {
    exists i, j :: 0 <= i < j < |issued| && issued[i] == issued[j] == id
  }

  /** What every reachable queue keeps: first in, first out with unique ids, and no free
      slot beside a waiter, exactly until the counter's last value is given out again. */
  ghost predicate Invariant(q: Queue) {
    && Counted(q)
    && (Fair(q) <==> !GivenTwice(q.issued, U64_MAX))
    && (Fair(q) ==> FullBeforeWaiting(q))
  }

  lemma {:induction false} EnqueueKeeps(q: Queue)
    requires Invariant(q)
    ensures Invariant(Enqueue(q).0)
  {
    var p := Enqueue(q).0;
    assert q.issued <= p.issued;
    if GivenTwice(q.issued, U64_MAX) {
      var i, j :| 0 <= i < j < |q.issued| && q.issued[i] == q.issued[j] == U64_MAX;
      assert p.issued[i] == p.issued[j] == U64_MAX;
    } else {
      OrderLastsAsLongAsIds(q);
      if U64_MAX in q.issued && !Enqueue(q).1.Full? {
        var i :| 0 <= i < |q.issued| && q.issued[i] == U64_MAX;
        assert p.issued[i] == p.issued[|q.issued|] == U64_MAX;
      }
    }
  }

  lemma {:induction false} ReleaseKeepsInvariant(q: Queue, id: nat, listening: set<nat>)
    requires Invariant(q)
    ensures Invariant(Release(q, id, listening))
  {
    PromoteNextId(Freed(q, id), listening);
    var p := Release(q, id, listening);
    assert p.issued == q.issued;
    if Fair(q) {
      ReleaseKeeps(q, id, listening);
    }
  }

  lemma {:induction false} EveryRunIsOrderly(ops: seq<Operation>)
    ensures Invariant(Run(EMPTY, ops))
  {
    if ops != [] {
      EveryRunIsOrderly(ops[..|ops| - 1]);
      var q := Run(EMPTY, ops[..|ops| - 1]);
      match ops[|ops| - 1]
      case EnqueueOne => EnqueueKeeps(q);
      case ReleaseOne(id, listening) => ReleaseKeepsInvariant(q, id, listening);
    }
  }

  // ---------- a run to the counter's end ----------

  function JoinTimes(n: nat): seq<Operation> {
    if n == 0 then [] else JoinTimes(n - 1) + [EnqueueOne]
  }

  /** Four callers take the slots, sixteen wait, and all later ones are refused an id that
      is spent on them nevertheless; then two waiters leave. */
  function RunToTheEnd(): seq<Operation> {
    JoinTimes(U64_MAX - 1) + [ReleaseOne(5, {}), ReleaseOne(6, {})]
  }

  predicate JoinedBy(q: Queue, n: nat) {
    && q.nextId == Min(n + 1, U64_MAX) && q.inFlight == Min(n, MAX_IN_FLIGHT)
    && |q.waiting| == Min(if n < MAX_IN_FLIGHT then 0 else n - MAX_IN_FLIGHT, MAX_QUEUE)
    && forall i :: 0 <= i < |q.waiting| ==> q.waiting[i] == MAX_IN_FLIGHT + 1 + i
  }

  lemma {:induction false} EmptyIsJoinedByNone()
    ensures JoinedBy(EMPTY, 0)
  {
  }

  lemma {:induction false} OneMoreJoins(q: Queue, n: nat)
    requires JoinedBy(q, n) && n + 1 < U64_MAX
    ensures JoinedBy(Enqueue(q).0, n + 1)
  {
  }

  lemma {:induction false} RunOneMore(q: Queue, ops: seq<Operation>, op: Operation)
    ensures Run(q, ops + [op]) == Apply(Run(q, ops), op)
  {
    assert (ops + [op])[..|ops|] == ops;
  }

  lemma {:induction false} JoinOnceMore(q: Queue, n: nat)
    ensures Run(q, JoinTimes(0)) == q
    ensures Run(q, JoinTimes(n + 1)) == Enqueue(Run(q, JoinTimes(n))).0
  {
    hide Enqueue, Run;
    RunOneMore(q, JoinTimes(n), EnqueueOne);
    RunNothing(q);
  }

  lemma {:induction false} RunNothing(q: Queue)
    ensures Run(q, []) == q
  {
  }

  lemma {:induction false} JoinsFill(q: Queue, n: nat)
    requires JoinedBy(q, 0) && n < U64_MAX
    ensures JoinedBy(Run(q, JoinTimes(n)), n)
  {
    hide JoinedBy, Enqueue, Run, JoinTimes;
    JoinOnceMore(q, if n == 0 then 0 else n - 1);
    if n > 0 {
      JoinsFill(q, n - 1);
      OneMoreJoins(Run(q, JoinTimes(n - 1)), n - 1);
    }
  }

  lemma {:induction false} TwoWaitersLeave(q: Queue, n: nat)
    requires JoinedBy(q, n) && n >= MAX_IN_FLIGHT + MAX_QUEUE
    ensures var p := Apply(Apply(q, ReleaseOne(5, {})), ReleaseOne(6, {}));
      p == q.(waiting := q.waiting[2..])
  {
    assert q.waiting[0] == 5 && q.waiting[1] == 6;
    assert q.waiting[1..][1..] == q.waiting[2..];
  }

  /** A run from the empty queue that reaches the counter's last value with four active and
      room in the line. Two more callers are then given one id and both wait under it. */
  lemma {:induction false} SaturationIsReached()
    ensures var q := Run(EMPTY, RunToTheEnd());
      && q.nextId == 18_446_744_073_709_551_615 && q.inFlight == 4 && |q.waiting| + 2 == 16
      && Run(EMPTY, RunToTheEnd() + [EnqueueOne] + [EnqueueOne]).waiting == q.waiting + [U64_MAX, U64_MAX]
  {
    hide JoinTimes, Run;
    var joins := JoinTimes(U64_MAX - 1);
    var full := Run(EMPTY, joins);
    EmptyIsJoinedByNone();
    JoinsFill(EMPTY, U64_MAX - 1);
    TwoWaitersLeave(full, U64_MAX - 1);
    RunOneMore(EMPTY, joins, ReleaseOne(5, {}));
    RunOneMore(EMPTY, joins + [ReleaseOne(5, {})], ReleaseOne(6, {}));
    assert joins + [ReleaseOne(5, {})] + [ReleaseOne(6, {})] == RunToTheEnd();
    RunOneMore(EMPTY, RunToTheEnd(), EnqueueOne);
    RunOneMore(EMPTY, RunToTheEnd() + [EnqueueOne], EnqueueOne);
    SaturatedIdsCollide(Run(EMPTY, RunToTheEnd()));
  }

  // ---------- the queue object ----------

  class SessionQueue {
    var nextId: nat
    var inFlight: nat
    var waiting: seq<nat>
    var active: set<nat>
    /** Ids whose one-shot dispatch signal has been sent. */
    var granted: set<nat>
    /** Ids given to callers, in order. */
    ghost var issued: seq<nat>

    ghost function Model(): Queue
      reads this
    {
      Queue(nextId, inFlight, waiting, active, granted, issued)
    }

    constructor ()
      ensures Model() == EMPTY
    {
      nextId, inFlight, waiting, active, granted, issued := 1, 0, [], {}, {}, [];
    }

    method TryEnqueue() returns (admission: Admission)
      modifies this
      ensures (Model(), admission) == Enqueue(old(Model()))
    {
      var id := nextId;
      nextId := if nextId < U64_MAX then nextId + 1 else U64_MAX;
      if inFlight < MAX_IN_FLIGHT && waiting == [] {
        inFlight := inFlight + 1;
        active := active + {id};
        granted := granted + {id};
        issued := issued + [id];
        return Dispatched(id);
      }
      if |waiting| >= MAX_QUEUE {
        return Full;
      }
      waiting := waiting + [id];
      issued := issued + [id];
      return Queued(id);
    }

    method ReleaseTicket(id: nat, listening: set<nat>)
      modifies this
      ensures Model() == Release(old(Model()), id, listening)
    {
      var index := 0;
      while index < |waiting|
        invariant 0 <= index <= |waiting|
        invariant Model() == old(Model())
        invariant id !in waiting[..index]
      {
        if waiting[index] == id {
          WithoutAt(waiting, id, index);
          waiting := waiting[..index] + waiting[index + 1..];
          return;
        }
        index := index + 1;
      }
      assert waiting[..|waiting|] == waiting;
      if id in active {
        active := active - {id};
        inFlight := if inFlight == 0 then 0 else inFlight - 1;
        PromoteWaiters(listening);
      }
    }

    method PromoteWaiters(listening: set<nat>)
      modifies this
      ensures Model() == Promote(old(Model()), listening)
    {
      while inFlight < MAX_IN_FLIGHT
        invariant Promote(Model(), listening) == Promote(old(Model()), listening)
        decreases |waiting|
      {
        if waiting == [] {
          return;
        }
        ghost var before := active;
        var next := waiting[0];
        waiting := waiting[1..];
        inFlight := inFlight + 1;
        active := active + {next};
        if next in listening {
          granted := granted + {next};
        } else {
          inFlight := inFlight - 1;
          active := active - {next};
          assert active == before - {next};
        }
      }
    }
  }

  lemma {:induction false} WithoutAt(ids: seq<nat>, id: nat, index: nat)
    requires index < |ids| && ids[index] == id && id !in ids[..index]
    ensures Without(ids, id) == ids[..index] + ids[index + 1..]
    decreases index
  {
    if index > 0 {
      assert ids[0] == ids[..index][0];
      assert ids[..index] == [ids[0]] + ids[1..][..index - 1];
      WithoutAt(ids[1..], id, index - 1);
    }
  }
}
