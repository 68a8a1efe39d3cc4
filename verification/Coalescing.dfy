/** Sharing of requests in flight: a map from keys to the promise of the request under way.
    Message fetches use it with their JSON keys, message deletes with the message id. */
module Coalescing {
  import opened Wrappers

  /** A request that was made and whose entry is still to be removed: it may have settled already. */
  datatype Flight<K> = Flight(key: K, settled: bool)

  datatype State<K> = State(pending: map<K, nat>, flights: map<nat, Flight<K>>, next: nat)

  /** `Call`: someone asks. `Settle`: the response is handled. `Finish`: the entry is removed. A
      fetch settles and finishes in two steps (the `finally` is attached to the promise), a
      delete does both at once (the `finally` is part of the request). */
  datatype Event<K> = Call(key: K, answered: bool) | Settle(id: nat) | Finish(id: nat)

  /** A call that is not `answered` without a request (by a gate or a cache) makes one, unless one
      is in flight for its key. */
  function Step<K>(s: State<K>, e: Event<K>): State<K> {
    match e
    case Call(key, answered) =>
      if key in s.pending || answered then s
      else State(s.pending[key := s.next], s.flights[s.next := Flight(key, false)], s.next + 1)
    case Settle(id) =>
      if id in s.flights then s.(flights := s.flights[id := s.flights[id].(settled := true)]) else s
    case Finish(id) =>
      if id in s.flights then s.(pending := s.pending - {s.flights[id].key}, flights := s.flights - {id}) else s
  }

  /** The promise that a call returns: the one in flight if there is, else its own. */
  function Returned<K(==)>(s: State<K>, key: K): nat {
    if key in s.pending then s.pending[key] else s.next
  }

  class RequestTable<K(==)> {
    var pending: map<K, nat>
    var flights: map<nat, Flight<K>>
    var next: nat

    constructor ()
      ensures Now() == State(map[], map[], 0)
    {
      pending, flights, next := map[], map[], 0;
    }

    function Now(): State<K>
      reads this
    {
      State(pending, flights, next)
    }

    /** `fetchMessages` and `remove` up to their first pause. */
    method Request(key: K, answered: bool) returns (promise: Option<nat>)
      modifies this
      ensures Now() == Step(old(Now()), Call(key, answered))
      ensures promise == if key !in old(pending) && answered then None else Some(Returned(old(Now()), key))
    {
      if key in pending {
        return Some(pending[key]);
      }
      if answered {
        return None;
      }
      var id := next;
      next := next + 1;
      flights := flights[id := Flight(key, false)];
      pending := pending[key := id];
      return Some(id);
    }

    method Settled(id: nat)
      requires id in flights
      modifies this
      ensures Now() == Step(old(Now()), Settle(id))
    {
      flights := flights[id := flights[id].(settled := true)];
    }

    /** The `finally` of a request. */
    method Finally(id: nat)
      requires id in flights
      modifies this
      ensures Now() == Step(old(Now()), Finish(id))
    {
      pending := pending - {flights[id].key};
      flights := flights - {id};
    }
  }

  function Run<K(==)>(s: State<K>, es: seq<Event<K>>): State<K>
    decreases |es|
  {
    if es == [] then s else Run(Step(s, es[0]), es[1..])
  }

  /** The map is exactly the requests in flight, each under its key. */
  ghost predicate Inv<K(!new)>(s: State<K>) {
    && (forall id :: id in s.flights ==> id < s.next && s.flights[id].key in s.pending && s.pending[s.flights[id].key] == id)
    && (forall k :: k in s.pending ==> s.pending[k] in s.flights && s.flights[s.pending[k]].key == k)
  }

  /** Not yet answered. */
  predicate Outstanding<K>(s: State<K>, id: nat) {
    id in s.flights && !s.flights[id].settled
  }

  /** In every interleaving of calls and completions: the keys of the map are exactly those of the
      requests in flight, and of two requests outstanding the keys differ. */
  lemma {:induction false} EveryRunShares<K(!new)>(s: State<K>, es: seq<Event<K>>)
    requires Inv(s)
    ensures var r := Run(s, es);
            && Inv(r)
            && r.pending.Keys == (set id | id in r.flights :: r.flights[id].key)
            && forall i, j :: Outstanding(r, i) && Outstanding(r, j) && r.flights[i].key == r.flights[j].key ==> i == j
    decreases |es|
  {
    if es != [] {
      StepKeepsInv(s, es[0]);
      EveryRunShares(Step(s, es[0]), es[1..]);
    }
  }

  lemma StepKeepsInv<K(!new)>(s: State<K>, e: Event<K>)
    requires Inv(s)
    ensures Inv(Step(s, e))
  {
  }

  /** A call for a key in flight gets the promise of that request, until the request is finished. */
  lemma {:induction false} CallsInBetweenShare<K(!new)>(s: State<K>, es: seq<Event<K>>, key: K)
    requires Inv(s) && key in s.pending
    requires forall i :: 0 <= i < |es| ==> es[i] != Finish(s.pending[key])
    ensures Returned(Run(s, es), key) == Returned(s, key)
    decreases |es|
  {
    if es != [] {
      var s' := Step(s, es[0]);
      StepKeepsInv(s, es[0]);
      assert es[0] != Finish(s.pending[key]);
      assert key in s'.pending && s'.pending[key] == s.pending[key];
      CallsInBetweenShare(s', es[1..], key);
    }
  }

  /** All keys but this are mapped as before. */
  ghost predicate OthersMapped<K(!new)>(s: State<K>, s': State<K>, key: K) {
    forall k :: k != key ==> (k in s'.pending <==> k in s.pending) && (k in s.pending ==> s'.pending[k] == s.pending[k])
  }

  /** A call makes a request exactly if none is in flight for its key and it is not answered without
      one: a new one, outstanding, mapped to the key, whose promise the call returns. */
  lemma CallMakesRequestIff<K(!new)>(s: State<K>, key: K, answered: bool)
    requires Inv(s)
    ensures var s' := Step(s, Call(key, answered));
            if key !in s.pending && !answered then
              && s.next !in s.flights && Outstanding(s', s.next) && s'.flights[s.next].key == key
              && key in s'.pending && s'.pending[key] == s.next == Returned(s, key)
              && s'.flights.Keys == s.flights.Keys + {s.next}
              && (forall id :: id in s.flights ==> s'.flights[id] == s.flights[id])
              && OthersMapped(s, s', key)
            else s' == s
  {
  }

  /** Settling ends the wait of its request, and changes nothing else. */
  lemma SettledIsNotOutstanding<K(!new)>(s: State<K>, id: nat)
    requires id in s.flights
    ensures var s' := Step(s, Settle(id));
            && s'.pending == s.pending && s'.next == s.next && s'.flights.Keys == s.flights.Keys
            && (forall i :: i in s.flights ==> s'.flights[i].key == s.flights[i].key)
            && (forall i :: Outstanding(s', i) <==> Outstanding(s, i) && i != id)
  {
  }

  /** Once a request is finished its key is free, and every other key is mapped as before. */
  lemma FinishFreesTheKey<K(!new)>(s: State<K>, id: nat)
    requires Inv(s) && id in s.flights
    ensures var key, s' := s.flights[id].key, Step(s, Finish(id));
            && key !in s'.pending && id !in s'.flights && Returned(s', key) == s.next
            && (forall i :: i != id ==> (i in s'.flights <==> i in s.flights) && (i in s.flights ==> s'.flights[i] == s.flights[i]))
            && OthersMapped(s, s', key)
  {
  }

  /** From then on no call gets the finished request's promise any more, whatever else happens. */
  lemma {:induction false} FinishedIsNotShared<K(!new)>(s: State<K>, es: seq<Event<K>>, key: K, from: nat)
    requires from <= s.next && (key in s.pending ==> s.pending[key] >= from)
    ensures Returned(Run(s, es), key) >= from
    decreases |es|
  {
    if es != [] {
      var s' := Step(s, es[0]);
      assert key in s'.pending ==> s'.pending[key] >= from;
      FinishedIsNotShared(s', es[1..], key, from);
    }
  }
}

/** Message fetches share requests by their JSON keys. */
module SharedFetches {
  import opened Coalescing
  import opened FetchKey

  /** While a fetch is in flight, a second call gets its promise exactly if it asks for the same
      thing, defaults filled in. */
  lemma SharedIffSameRequest(s: State<string>, a: Args, b: Args)
    requires Inv(s) && MakeFetchKey(a) in s.pending
    ensures Returned(s, MakeFetchKey(a)) == Returned(s, MakeFetchKey(b)) <==> SameFetch(a, b)
  {
    hide MakeFetchKey, SameFetch;
    KeysAgreeIffRequestsDo(a, b);
  }
}
