/** The requests a broker has admitted and not yet answered. */
module Pending {
  import opened Common

  type Socket = nat
  type RequestId = nat
  type CallId = nat
  type Key = (Socket, RequestId)

  datatype Outcome = Answered | Cancelled | TimedOut | ConnectionLost | SendFailed

  /** One admitted request. `call` names the caller waiting for its one result, and
      `ticket` the queue ticket the entry owns. */
  datatype Entry = Entry(call: CallId, ticket: nat, total: nat, inactivity: nat)

  type Requests = map<Key, Entry>

  predicate Expired(e: Entry, now: nat) {
    e.total <= now || e.inactivity <= now
  }

  /** What an expiry pass leaves. */
  function Unexpired(requests: Requests, now: nat): Requests {
    map k | k in requests && !Expired(requests[k], now) :: requests[k]
  }

  /** The results sent when `keys` are removed in that order. */
  function ResultsFor(requests: Requests, keys: seq<Key>, outcome: Outcome): seq<(CallId, Outcome)>
    requires forall i :: 0 <= i < |keys| ==> keys[i] in requests
  {
    if keys == [] then []
    else ResultsFor(requests, keys[..|keys| - 1], outcome) + [(requests[keys[|keys| - 1]].call, outcome)]
  }

  /** The tickets dropped with them. */
  function TicketsOf(requests: Requests, keys: seq<Key>): seq<(Socket, nat)>
    requires forall i :: 0 <= i < |keys| ==> keys[i] in requests
  {
    if keys == [] then []
    else
      var last := keys[|keys| - 1];
      TicketsOf(requests, keys[..|keys| - 1]) + [(last.0, requests[last].ticket)]
  }

  predicate Distinct(keys: seq<Key>) {
    forall i, j :: 0 <= i < j < |keys| ==> keys[i] != keys[j]
  }

  class PendingMap {
    var requests: Requests
    /** Results sent on the one-shot channels, in order. */
    var results: seq<(CallId, Outcome)>
    /** Tickets dropped with their entries, in order. */
    var dropped: seq<(Socket, nat)>

    constructor ()
      ensures requests == map[] && results == [] && dropped == []
    {
      requests, results, dropped := map[], [], [];
    }

    /** A second request with a pending id is refused, and its ticket dropped. */
    method Admit(key: Key, entry: Entry) returns (ok: bool)
      modifies this`requests, this`dropped
      ensures ok <==> key !in old(requests)
      ensures requests == if ok then old(requests)[key := entry] else old(requests)
      ensures dropped == if ok then old(dropped) else old(dropped) + [(key.0, entry.ticket)]
    {
      if key in requests {
        dropped := dropped + [(key.0, entry.ticket)];
        return false;
      }
      requests := requests[key := entry];
      return true;
    }

    /** Progress moves the inactivity deadline and nothing else. */
    method NoteProgress(key: Key, now: nat) returns (found: bool)
      modifies this`requests
      ensures found <==> key in old(requests)
      ensures requests.Keys == old(requests).Keys
      ensures forall k :: k in requests ==>
        requests[k] ==
          (if k == key then old(requests)[k].(inactivity := now + INACTIVITY_TIMEOUT_MS) else old(requests)[k])
    {
      if key !in requests {
        return false;
      }
      requests := requests[key := requests[key].(inactivity := now + INACTIVITY_TIMEOUT_MS)];
      return true;
    }

    /** Removing an entry, sending its result and dropping its ticket are one step. */
    method Complete(key: Key, outcome: Outcome) returns (found: bool)
      modifies this
      ensures found <==> key in old(requests)
      ensures requests == old(requests) - {key}
      ensures found ==>
        && results == old(results) + [(old(requests)[key].call, outcome)]
        && dropped == old(dropped) + [(key.0, old(requests)[key].ticket)]
      ensures !found ==> results == old(results) && dropped == old(dropped)
    {
      if key !in requests {
        assert requests == requests - {key};
        return false;
      }
      var entry := requests[key];
      requests := requests - {key};
      results := results + [(entry.call, outcome)];
      dropped := dropped + [(key.0, entry.ticket)];
      return true;
    }

    /** Remove `keys` one after another, as the sweeps do. */
    method RemoveAll(keys: seq<Key>, outcome: Outcome)
      requires Distinct(keys) && forall i :: 0 <= i < |keys| ==> keys[i] in requests
      modifies this
      ensures requests == old(requests) - (set k | k in keys)
      ensures results == old(results) + ResultsFor(old(requests), keys, outcome)
      ensures dropped == old(dropped) + TicketsOf(old(requests), keys)
    {
      assert keys[..0] == [];
      assert requests == requests - (set k | k in keys[..0]);
      for index := 0 to |keys|
        invariant requests == old(requests) - (set k | k in keys[..index])
        invariant results == old(results) + ResultsFor(old(requests), keys[..index], outcome)
        invariant dropped == old(dropped) + TicketsOf(old(requests), keys[..index])
      {
        assert keys[index] in requests;
        var found := Complete(keys[index], outcome);
        assert keys[..index + 1][..index] == keys[..index];
        assert forall k :: k in keys[..index + 1] <==> k in keys[..index] || k == keys[index];
      }
      assert keys[..|keys|] == keys;
    }

    /** An expiry pass removes every request past either deadline and no other, and
        times each one out exactly once. The order is the map's own. */
    method TakeExpired(now: nat) returns (keys: seq<Key>)
      modifies this
      ensures requests == Unexpired(old(requests), now)
      ensures Distinct(keys)
      ensures forall k :: k in keys <==> k in old(requests) && Expired(old(requests)[k], now)
      ensures results == old(results) + ResultsFor(old(requests), keys, TimedOut)
      ensures dropped == old(dropped) + TicketsOf(old(requests), keys)
    {
      keys := Matching((e: Entry) => Expired(e, now));
      RemoveAll(keys, TimedOut);
    }

    /** Socket loss removes every request of that socket and no other. */
    method RemoveSocket(socket: Socket) returns (keys: seq<Key>)
      modifies this
      ensures requests == map k | k in old(requests) && k.0 != socket :: old(requests)[k]
      ensures Distinct(keys)
      ensures forall k :: k in keys <==> k in old(requests) && k.0 == socket
      ensures results == old(results) + ResultsFor(old(requests), keys, ConnectionLost)
      ensures dropped == old(dropped) + TicketsOf(old(requests), keys)
    {
      keys := MatchingKeys((k: Key) => k.0 == socket);
      RemoveAll(keys, ConnectionLost);
    }

    /** Shutdown answers everyone. */
    method Shutdown() returns (keys: seq<Key>)
      modifies this
      ensures requests == map[]
      ensures Distinct(keys) && forall k :: k in keys <==> k in old(requests)
      ensures results == old(results) + ResultsFor(old(requests), keys, ConnectionLost)
      ensures dropped == old(dropped) + TicketsOf(old(requests), keys)
    {
      keys := MatchingKeys((k: Key) => true);
      RemoveAll(keys, ConnectionLost);
    }

    method Matching(wanted: Entry -> bool) returns (keys: seq<Key>)
      ensures Distinct(keys)
      ensures forall k :: k in keys <==> k in requests && wanted(requests[k])
    {
      keys := [];
      var left := requests.Keys;
      while left != {}
        invariant left <= requests.Keys && Distinct(keys)
        invariant forall k :: k in keys <==> k in requests && k !in left && wanted(requests[k])
      {
        var k :| k in left;
        left := left - {k};
        if wanted(requests[k]) {
          keys := keys + [k];
        }
      }
    }

    method MatchingKeys(wanted: Key -> bool) returns (keys: seq<Key>)
      ensures Distinct(keys)
      ensures forall k :: k in keys <==> k in requests && wanted(k)
    {
      keys := [];
      var left := requests.Keys;
      while left != {}
        invariant left <= requests.Keys && Distinct(keys)
        invariant forall k :: k in keys <==> k in requests && k !in left && wanted(k)
      {
        var k :| k in left;
        left := left - {k};
        if wanted(k) {
          keys := keys + [k];
        }
      }
    }
  }
}
