/** Optimistic reactions: the change is shown at once, the request is retried on rate limits with
    growing pauses, and the change is taken back when the request fails for good. */
module Reactions {
  const MAX_RETRIES := 3

  /** One user's reaction to one message. */
  datatype Triple = Triple(message: string, user: string, emoji: string)

  datatype Kind = Add | Remove

  function Opposite(kind: Kind): Kind {
    if kind == Add then Remove else Add
  }

  /** The stores after `optimisticUpdate`; a change already there changes nothing. */
  function Apply(store: set<Triple>, kind: Kind, t: Triple): set<Triple> {
    if kind == Add then store + {t} else store - {t}
  }

  /** How a request ends: done by the server, or refused with a status and not done. */
  datatype Response = Ok | Refused(status: int)

  const TOO_MANY := 429

  function Power2(n: nat): nat {
    if n == 0 then 1 else 2 * Power2(n - 1)
  }

  /** The pause before the retry that follows attempt `attempts`, in milliseconds. */
  function Backoff(attempts: nat): nat {
    Power2(attempts) * 1000
  }

  /** All the pauses before attempt `attempts`. */
  function Waited(attempts: nat): nat {
    if attempts == 0 then 0 else Waited(attempts - 1) + Backoff(attempts - 1)
  }

  /** `retryWithExponentialBackoff`: `oracle(k)` is the response to call `k`. The result is the first
      response that is no rate limit, if one of the calls allowed brings it. */
  method RetryWithExponentialBackoff(oracle: nat -> Response, attempts: nat)
    returns (last: Response, calls: nat, waited: nat)
    requires attempts <= MAX_RETRIES
    ensures 1 <= calls <= MAX_RETRIES + 1 - attempts
    ensures last == oracle(attempts + calls - 1)
    ensures forall k :: attempts <= k < attempts + calls - 1 ==> oracle(k) == Refused(TOO_MANY)
    ensures last == Refused(TOO_MANY) ==> calls == MAX_RETRIES + 1 - attempts
    ensures Waited(attempts) + waited == Waited(attempts + calls - 1)
    decreases MAX_RETRIES - attempts
  {
    last, calls, waited := oracle(attempts), 1, 0;
    if last != Refused(TOO_MANY) {
      return;
    }
    if attempts < MAX_RETRIES {
      var c, w;
      last, c, w := RetryWithExponentialBackoff(oracle, attempts + 1);
      calls, waited := 1 + c, Backoff(attempts) + w;
    }
  }

  /** A round makes at most four calls and pauses at most seven seconds. */
  lemma RoundIsBounded(calls: nat)
    requires 1 <= calls <= MAX_RETRIES + 1
    ensures calls <= 4 && Waited(calls - 1) <= 7000
  {
    assert Waited(1) == 1000 && Waited(2) == 3000 && Waited(3) == 7000;
  }

  // ---------------------------------------------------------------- the protocol

  /** Where an action stands: its next call is due or under way, it pauses before the next call,
      or it waits to start over after a round of rate limits. */
  datatype Phase = Calling | Pausing | Restarting

  /** An action that has not ended. `attempts` is the counter of its round; `calls` and `waited`
      count the round's finished calls and its pauses. */
  datatype Flight = Flight(kind: Kind, triple: Triple, phase: Phase, attempts: nat, calls: nat, waited: nat)

  datatype State = State(local: set<Triple>, server: set<Triple>, flights: map<nat, Flight>)

  datatype Event =
    | Start(id: nat, kind: Kind, triple: Triple)   // the user adds or removes a reaction
    | Reply(id: nat, response: Response)           // the call under way ends
    | Wake(id: nat)                                // a pause ends

  /** `checkReactionResponse`: whether the change is to be taken back. On a rate limit it is not,
      and the action starts over after a pause. */
  function CheckReactionResponse(status: int): bool {
    status != TOO_MANY
  }

  function FirstCall(kind: Kind, t: Triple): Flight {
    Flight(kind, t, Calling, 0, 0, 0)
  }

  /** `performReactionAction` */
  function Perform(s: State, id: nat, kind: Kind, t: Triple): State {
    State(Apply(s.local, kind, t), s.server, s.flights[id := FirstCall(kind, t)])
  }

  function Step(s: State, e: Event): State {
    match e
    case Start(id, kind, t) => Perform(s, id, kind, t)
    case Reply(id, response) =>
      if id !in s.flights || s.flights[id].phase != Calling then s else
        var f := s.flights[id].(calls := s.flights[id].calls + 1);
        (match response
         case Ok => State(s.local, Apply(s.server, f.kind, f.triple), s.flights - {id})
         case Refused(status) =>
           if status == TOO_MANY && f.attempts < MAX_RETRIES then
             s.(flights := s.flights[id := f.(phase := Pausing, waited := f.waited + Backoff(f.attempts))])
           else if CheckReactionResponse(status) then
             State(Apply(s.local, Opposite(f.kind), f.triple), s.server, s.flights - {id})
           else s.(flights := s.flights[id := f.(phase := Restarting)]))
    case Wake(id) =>
      if id !in s.flights || s.flights[id].phase == Calling then s else
        var f := s.flights[id];
        if f.phase == Pausing then s.(flights := s.flights[id := f.(phase := Calling, attempts := f.attempts + 1)])
        else Perform(s, id, f.kind, f.triple)
  }

  class ReactionClient {
    var local: set<Triple>
    var server: set<Triple>
    var flights: map<nat, Flight>

    constructor (store: set<Triple>)
      ensures Now() == State(store, store, map[])
    {
      local, server, flights := store, store, map[];
    }

    function Now(): State
      reads this
    {
      State(local, server, flights)
    }

    /** Afterwards the reaction is shown exactly if it was added, and all others as before. */
    method OptimisticUpdate(kind: Kind, t: Triple)
      modifies this`local
      ensures forall u :: u in local <==> if u == t then kind == Add else u in old(local)
    {
      if kind == Add {
        local := local + {t};
      } else {
        local := local - {t};
      }
    }

    method PerformReactionAction(id: nat, kind: Kind, t: Triple)
      modifies this
      ensures Now() == Perform(old(Now()), id, kind, t)
    {
      OptimisticUpdate(kind, t);
      flights := flights[id := FirstCall(kind, t)];
    }

    /** The `try` and `catch` around one call, and the handler of a failed round. */
    method HandleReply(id: nat, response: Response)
      requires id in flights && flights[id].phase == Calling
      modifies this
      ensures Now() == Step(old(Now()), Reply(id, response))
    {
      var f := flights[id];
      f := f.(calls := f.calls + 1);
      if response.Ok? {
        server := Apply(server, f.kind, f.triple);
        flights := flights - {id};
        return;
      }
      if response.status == TOO_MANY {
        if f.attempts < MAX_RETRIES {
          flights := flights[id := f.(phase := Pausing, waited := f.waited + Backoff(f.attempts))];
          return;
        }
      }
      if CheckReactionResponse(response.status) {
        OptimisticUpdate(Opposite(f.kind), f.triple);
        flights := flights - {id};
      } else {
        flights := flights[id := f.(phase := Restarting)];
      }
    }

    /** The continuation after a pause: the next call of the round, or a new round. */
    method HandleWake(id: nat)
      requires id in flights && flights[id].phase != Calling
      modifies this
      ensures Now() == Step(old(Now()), Wake(id))
    {
      var f := flights[id];
      if f.phase == Pausing {
        flights := flights[id := f.(phase := Calling, attempts := f.attempts + 1)];
      } else {
        PerformReactionAction(id, f.kind, f.triple);
      }
    }
  }

  // ---------------------------------------------------------------- all runs

  ghost predicate Busy(s: State, t: Triple) {
    exists id :: id in s.flights && s.flights[id].triple == t
  }

  /** The action changes something: the reaction to add is not there, the one to remove is. */
  predicate Effective(store: set<Triple>, kind: Kind, t: Triple) {
    if kind == Add then t !in store else t in store
  }

  /** The user starts only effective actions, one at a time for each reaction. */
  ghost predicate Allowed(s: State, e: Event) {
    e.Start? ==> e.id !in s.flights && !Busy(s, e.triple) && Effective(s.local, e.kind, e.triple)
  }

  function Run(s: State, es: seq<Event>): State
    decreases |es|
  {
    if es == [] then s else Run(Step(s, es[0]), es[1..])
  }

  ghost predicate AllAllowed(s: State, es: seq<Event>)
    decreases |es|
  {
    es == [] || (Allowed(s, es[0]) && AllAllowed(Step(s, es[0]), es[1..]))
  }

  /** Idle reactions agree; a reaction being added is only shown, one being removed is only on
      the server. */
  ghost predicate Converged(s: State) {
    && (forall t :: !Busy(s, t) ==> (t in s.local <==> t in s.server))
    && (forall id :: id in s.flights ==>
          var f := s.flights[id];
          if f.kind == Add then f.triple in s.local && f.triple !in s.server
          else f.triple !in s.local && f.triple in s.server)
  }

  ghost predicate OneEach(s: State) {
    forall i, j :: i in s.flights && j in s.flights && s.flights[i].triple == s.flights[j].triple ==> i == j
  }

  /** Where the counters of a round stand in each phase. */
  predicate Counted(f: Flight) {
    && f.attempts <= MAX_RETRIES
    && match f.phase
       case Calling => f.calls == f.attempts && f.waited == Waited(f.attempts)
       case Pausing => f.attempts < MAX_RETRIES && f.calls == f.attempts + 1 && f.waited == Waited(f.attempts + 1)
       case Restarting => f.calls == MAX_RETRIES + 1 && f.waited == Waited(MAX_RETRIES)
  }

  ghost predicate Inv(s: State) {
    Converged(s) && OneEach(s) && forall id :: id in s.flights ==> Counted(s.flights[id])
  }

  lemma StepKeepsInv(s: State, e: Event)
    requires Inv(s) && Allowed(s, e)
    ensures Inv(Step(s, e))
  {
    hide Waited, Backoff, Counted;
    StepKeepsCounts(s, e);
    var s' := Step(s, e);
    match e
    case Start(id, kind, t) =>
      StartConverged(s, id, kind, t);
    case Reply(id, response) =>
      if id in s.flights {
        assert Busy(s, s.flights[id].triple);
        ReplyConverged(s, id, response);
      }
    case Wake(id) =>
      if id in s.flights {
        WakeConverged(s, id);
      }
  }

  lemma StepKeepsCounts(s: State, e: Event)
    requires forall id :: id in s.flights ==> Counted(s.flights[id])
    ensures forall id :: id in Step(s, e).flights ==> Counted(Step(s, e).flights[id])
  {
  }

  lemma StartConverged(s: State, id: nat, kind: Kind, t: Triple)
    requires Converged(s) && OneEach(s) && Allowed(s, Start(id, kind, t))
    ensures var s' := Step(s, Start(id, kind, t)); Converged(s') && OneEach(s')
  {
    var s' := Step(s, Start(id, kind, t));
    assert s'.flights[id].triple == t;
    assert Busy(s', t);
    forall u | u != t ensures Busy(s', u) <==> Busy(s, u) {
      if Busy(s, u) {
        var i :| i in s.flights && s.flights[i].triple == u;
        assert s'.flights[i].triple == u;
      }
    }
  }

  /** Nothing changes but the counters and phase of one action. */
  lemma SameFlightConverged(s: State, s': State, id: nat)
    requires Converged(s) && OneEach(s) && id in s.flights
    requires s'.local == s.local && s'.server == s.server
    requires s'.flights.Keys == s.flights.Keys
    requires forall i :: i in s.flights ==> s'.flights[i].triple == s.flights[i].triple && s'.flights[i].kind == s.flights[i].kind
    ensures Converged(s') && OneEach(s')
  {
    forall u ensures Busy(s', u) <==> Busy(s, u) {
      if Busy(s, u) {
        var i :| i in s.flights && s.flights[i].triple == u;
        assert s'.flights[i].triple == u;
      }
    }
  }

  /** The action ended: its reaction is idle, all others are as they were. */
  lemma EndedConverged(s: State, s': State, id: nat)
    requires Converged(s) && OneEach(s) && id in s.flights && s'.flights == s.flights - {id}
    requires forall u :: u != s.flights[id].triple ==> (u in s'.local <==> u in s.local) && (u in s'.server <==> u in s.server)
    requires s.flights[id].triple in s'.local <==> s.flights[id].triple in s'.server
    ensures Converged(s') && OneEach(s')
  {
    var t := s.flights[id].triple;
    forall u | u != t ensures Busy(s', u) <==> Busy(s, u) {
      if Busy(s, u) {
        var i :| i in s.flights && s.flights[i].triple == u;
        assert i in s'.flights && s'.flights[i].triple == u;
      }
    }
  }

  lemma ReplyConverged(s: State, id: nat, response: Response)
    requires Converged(s) && OneEach(s) && id in s.flights
    ensures var s' := Step(s, Reply(id, response)); Converged(s') && OneEach(s')
  {
    hide Backoff, Converged, OneEach;
    var f := s.flights[id];
    var s' := Step(s, Reply(id, response));
    if f.phase == Calling {
      FlightConverged(s, id);
      if id in s'.flights {
        SameFlightConverged(s, s', id);
      } else {
        EndedConverged(s, s', id);
      }
    }
  }

  lemma WakeConverged(s: State, id: nat)
    requires Converged(s) && OneEach(s) && id in s.flights
    ensures var s' := Step(s, Wake(id)); Converged(s') && OneEach(s')
  {
    hide Converged, OneEach;
    var s' := Step(s, Wake(id));
    FlightConverged(s, id);
    assert s'.local == s.local;
    if s.flights[id].phase != Calling {
      SameFlightConverged(s, s', id);
    }
  }

  lemma FlightConverged(s: State, id: nat)
    requires Converged(s) && id in s.flights
    ensures var f := s.flights[id]; (f.kind == Add) == (f.triple in s.local) == (f.triple !in s.server)
  {
  }

  /** In every run with allowed starts, restarts after rate limits included, each idle reaction
      is shown exactly if the server has it, whatever replies came in whatever order. */
  lemma {:induction false} EveryRunConverges(s: State, es: seq<Event>)
    requires Inv(s) && AllAllowed(s, es)
    ensures Inv(Run(s, es))
    ensures forall id :: id in Run(s, es).flights ==> Run(s, es).flights[id].calls <= 4 && Run(s, es).flights[id].waited <= 7000
    decreases |es|
  {
    if es != [] {
      StepKeepsInv(s, es[0]);
      EveryRunConverges(Step(s, es[0]), es[1..]);
    } else {
      WaitedBounds();
    }
  }

  lemma WaitedBounds()
    ensures forall n: nat :: n <= MAX_RETRIES ==> Waited(n) <= 7000
  {
    assert Waited(1) == 1000 && Waited(2) == 3000 && Waited(3) == 7000;
  }

  /** Any store that is the server's is a good place to start. */
  lemma AgreedStart(store: set<Triple>)
    ensures Inv(State(store, store, map[]))
  {
  }

  /** From the server's own store on, every run with allowed starts keeps all this. */
  lemma RunsFromAgreementConverge(store: set<Triple>, es: seq<Event>)
    requires AllAllowed(State(store, store, map[]), es)
    ensures var r := Run(State(store, store, map[]), es);
            && Inv(r)
            && (r.flights == map[] ==> r.local == r.server)
  {
    AgreedStart(store);
    EveryRunConverges(State(store, store, map[]), es);
    var r := Run(State(store, store, map[]), es);
    if r.flights == map[] {
      assert forall t :: !Busy(r, t);
    }
  }

  // ---------------------------------------------------------------- why starts must be allowed

  /** Taking a change back restores the store exactly if the change was effective. */
  lemma UndoIffEffective(store: set<Triple>, kind: Kind, t: Triple)
    ensures Apply(Apply(store, kind, t), Opposite(kind), t) == store <==> Effective(store, kind, t)
  {
    if Effective(store, kind, t) {
      assert Apply(Apply(store, kind, t), Opposite(kind), t) == store;
    } else {
      assert (t in Apply(Apply(store, kind, t), Opposite(kind), t)) != (t in store);
    }
  }

  /** With the reaction idle and in agreement, an action that fails for good leaves it in
      agreement exactly if it was effective. */
  lemma FailureRestoresIffEffective(s: State, id: nat, kind: Kind, t: Triple, status: int)
    requires Inv(s) && id !in s.flights && !Busy(s, t) && status != TOO_MANY
    ensures var s' := Step(Step(s, Start(id, kind, t)), Reply(id, Refused(status)));
            (t in s'.local <==> t in s'.server) <==> Effective(s.local, kind, t)
  {
  }

  /** Idle reactions agree. */
  ghost predicate Agrees(s: State) {
    forall t :: !Busy(s, t) ==> (t in s.local <==> t in s.server)
  }

  /** The reaction is idle, and shown or on the server but not both. */
  ghost predicate Diverged(s: State, t: Triple) {
    !Busy(s, t) && (t in s.local) != (t in s.server)
  }

  predicate NoStarts(es: seq<Event>) {
    forall i :: 0 <= i < |es| ==> !es[i].Start?
  }

  lemma RunTwo(s: State, a: Event, b: Event)
    ensures Run(s, [a, b]) == Step(Step(s, a), b)
  {
    assert [a, b][1..] == [b] && [b][1..] == [];
    assert Run(Step(s, a), [b]) == Run(Step(Step(s, a), b), []);
  }

  /** Two actions for one reaction, both with a call due, and no other action for it. */
  ghost predicate Overlap(s: State, i: nat, j: nat, t: Triple) {
    && i != j && i in s.flights && j in s.flights
    && s.flights[i].triple == t == s.flights[j].triple
    && s.flights[i].phase == Calling == s.flights[j].phase
    && forall k :: k in s.flights && s.flights[k].triple == t ==> k == i || k == j
  }

  /** Replies that leave them apart from the server: if they are of one kind, one is done and the
      other refused; else both are done, in the order that the store does not show. */
  function Replies(s: State, i: nat, j: nat, t: Triple): (es: seq<Event>)
    requires Overlap(s, i, j, t)
    ensures NoStarts(es)
  {
    if s.flights[i].kind == s.flights[j].kind then [Reply(i, Ok), Reply(j, Refused(400))]
    else if (s.flights[i].kind == Add) == (t in s.local) then [Reply(i, Ok), Reply(j, Ok)]
    else [Reply(j, Ok), Reply(i, Ok)]
  }

  lemma OverlapCanDiverge(s: State, i: nat, j: nat, t: Triple)
    requires Overlap(s, i, j, t)
    ensures Diverged(Run(s, Replies(s, i, j, t)), t)
  {
    var es := Replies(s, i, j, t);
    RunTwo(s, es[0], es[1]);
    var one := Step(s, es[0]);
    var two := Step(one, es[1]);
    assert one.flights == s.flights - {es[0].id};
    assert two.flights == s.flights - {i, j};
  }

  /** Whatever stage the action under way is at: a second one for the same reaction can end in
      divergence, with no start but its own. */
  lemma OverlapDiverges(s: State, id: nat, second: nat, kind: Kind) returns (es: seq<Event>)
    requires Inv(s) && id in s.flights && second !in s.flights
    ensures var t := s.flights[id].triple; NoStarts(es) && Diverged(Run(Step(s, Start(second, kind, t)), es), t)
  {
    hide Waited, Counted, Backoff;
    var t := s.flights[id].triple;
    var u := Step(s, Start(second, kind, t));
    if u.flights[id].phase == Calling {
      es := Replies(u, id, second, t);
      OverlapCanDiverge(u, id, second, t);
    } else {
      var v := Step(u, Wake(id));
      assert Overlap(v, id, second, t);
      es := [Wake(id)] + Replies(v, id, second, t);
      OverlapCanDiverge(v, id, second, t);
      assert es[1..] == Replies(v, id, second, t);
    }
  }

  /** With two actions at once, or one that changes nothing, some continuation diverges. */
  lemma UnallowedDiverges(s: State, id: nat, kind: Kind, t: Triple) returns (es: seq<Event>)
    requires Inv(s) && id !in s.flights && !Allowed(s, Start(id, kind, t))
    ensures NoStarts(es) && Diverged(Run(Step(s, Start(id, kind, t)), es), t)
  {
    hide Waited, Counted, Backoff;
    if Busy(s, t) {
      var other :| other in s.flights && s.flights[other].triple == t;
      es := OverlapDiverges(s, other, id, kind);
    } else {
      FailureRestoresIffEffective(s, id, kind, t, 400);
      es := [Reply(id, Refused(400))];
      var u := Step(s, Start(id, kind, t));
      assert Run(u, es) == Step(u, es[0]) by {
        assert es[1..] == [];
      }
      assert Step(u, es[0]).flights == s.flights;
    }
  }

  /** Without further starts every event is allowed. */
  lemma {:induction false} NoStartsAllowed(s: State, es: seq<Event>)
    requires NoStarts(es)
    ensures AllAllowed(s, es)
    decreases |es|
  {
    if es != [] {
      NoStartsAllowed(Step(s, es[0]), es[1..]);
    }
  }

  /** In every continuation of `s` without further starts idle reactions agree. */
  ghost predicate AlwaysAgrees(s: State) {
    forall es :: NoStarts(es) ==> Agrees(Run(s, es))
  }

  /** A start keeps idle reactions in agreement with the server, in all continuations, exactly if
      it is allowed: it changes something, and no action for the same reaction is under way. */
  lemma StartIsSafeIff(s: State, id: nat, kind: Kind, t: Triple)
    requires Inv(s) && id !in s.flights
    ensures AlwaysAgrees(Step(s, Start(id, kind, t))) <==> Allowed(s, Start(id, kind, t))
  {
    hide Step, Inv, Allowed, Run;
    var u := Step(s, Start(id, kind, t));
    if Allowed(s, Start(id, kind, t)) {
      StepKeepsInv(s, Start(id, kind, t));
      forall es | NoStarts(es) ensures Agrees(Run(u, es)) {
        NoStartsAllowed(u, es);
        EveryRunConverges(u, es);
        InvAgrees(Run(u, es));
      }
    } else {
      var es := UnallowedDiverges(s, id, kind, t);
    }
  }

  lemma InvAgrees(s: State)
    requires Inv(s)
    ensures Agrees(s)
  {
  }

  // ---------------------------------------------------------------- how an action goes on and ends

  predicate RateLimited(e: Event, id: nat) {
    e == Reply(id, Refused(TOO_MANY))
  }

  /** A rate limit takes nothing back: the action pauses before the next attempt, and after the last
      one before it starts over. */
  lemma RateLimitKeepsAction(s: State, id: nat)
    requires id in s.flights && s.flights[id].phase == Calling && s.flights[id].attempts <= MAX_RETRIES
    ensures var f, s' := s.flights[id], Step(s, Reply(id, Refused(TOO_MANY)));
            && s'.local == s.local && s'.server == s.server
            && id in s'.flights && s'.flights[id].triple == f.triple && s'.flights[id].kind == f.kind
            && s'.flights[id].calls == f.calls + 1 && s'.flights[id].attempts == f.attempts
            && s'.flights[id].phase == (if f.attempts < 3 then Pausing else Restarting)
            && s'.flights[id].waited == f.waited + (if f.attempts < 3 then Power2(f.attempts) * 1000 else 0)
            && (forall i :: i != id ==> (i in s'.flights <==> i in s.flights) && (i in s.flights ==> s'.flights[i] == s.flights[i]))
  {
  }

  /** After a pause the next attempt is due; after a round, the first attempt of a new one, with its
      change shown again. */
  lemma WakeGoesOn(s: State, id: nat)
    requires id in s.flights && s.flights[id].phase != Calling
    ensures var f, s' := s.flights[id], Step(s, Wake(id));
            && s'.server == s.server
            && id in s'.flights && s'.flights[id].triple == f.triple && s'.flights[id].kind == f.kind && s'.flights[id].phase == Calling
            && (f.phase == Pausing ==> s'.local == s.local && s'.flights[id].attempts == f.attempts + 1)
            && (f.phase == Restarting ==>
                  && s'.flights[id].attempts == 0 && s'.flights[id].calls == 0 && s'.flights[id].waited == 0
                  && forall u :: u in s'.local <==> if u == f.triple then f.kind == Add else u in s.local)
            && (forall i :: i != id ==> (i in s'.flights <==> i in s.flights) && (i in s.flights ==> s'.flights[i] == s.flights[i]))
  {
  }

  /** An action ends exactly when its call is done, or refused with another status than a rate limit:
      done, it is on the server and stays shown; refused, it is taken back and not on the server. */
  lemma EndsIff(s: State, e: Event, id: nat)
    requires Inv(s) && id in s.flights
    ensures id !in Step(s, e).flights <==>
              e.Reply? && e.id == id && s.flights[id].phase == Calling && !RateLimited(e, id)
    ensures var f, s' := s.flights[id], Step(s, e);
            id !in s'.flights ==>
              && (e.response.Ok? ==> s'.local == s.local && forall u :: u in s'.server <==> if u == f.triple then f.kind == Add else u in s.server)
              && (!e.response.Ok? ==> s'.server == s.server && forall u :: u in s'.local <==> if u == f.triple then f.kind == Remove else u in s.local)
  {
    hide Waited, Backoff;
    assert Counted(s.flights[id]);
  }

  /** In every run with allowed starts in which all replies to an action are rate limits, it stays
      under way, shown or hidden as its kind says, and nothing of it reaches the server. */
  lemma {:induction false} RateLimitsEndNothing(s: State, es: seq<Event>, id: nat)
    requires Inv(s) && AllAllowed(s, es) && id in s.flights
    requires forall i :: 0 <= i < |es| && es[i].Reply? && es[i].id == id ==> RateLimited(es[i], id)
    ensures var f, r := s.flights[id], Run(s, es);
            && id in r.flights && r.flights[id].kind == f.kind && r.flights[id].triple == f.triple
            && (f.triple in r.local <==> f.kind == Add) && (f.triple in r.server <==> f.kind == Remove)
    decreases |es|
  {
    if es == [] {
      hide Waited, Backoff, Counted;
    } else {
      assert es[0].Reply? && es[0].id == id ==> RateLimited(es[0], id);
      StepKeepsInv(s, es[0]);
      StaysUnderWay(s, es[0], id);
      hide Step, Inv, Allowed;
      RateLimitsEndNothing(Step(s, es[0]), es[1..], id);
    }
  }

  lemma StaysUnderWay(s: State, e: Event, id: nat)
    requires Inv(s) && Allowed(s, e) && id in s.flights && (e.Reply? && e.id == id ==> RateLimited(e, id))
    ensures var f, s' := s.flights[id], Step(s, e);
            id in s'.flights && s'.flights[id].kind == f.kind && s'.flights[id].triple == f.triple
  {
    hide Waited, Backoff;
    assert Counted(s.flights[id]);
  }

  /** Four rate limits in a row and the pauses after them: the round starts over, as often as it may be. */
  lemma FourRateLimitsStartOver(s: State, id: nat)
    requires id in s.flights && s.flights[id] == FirstCall(s.flights[id].kind, s.flights[id].triple)
    ensures var limit := Reply(id, Refused(429));
            var r := Run(s, [limit, Wake(id), limit, Wake(id), limit, Wake(id), limit, Wake(id)]);
            && id in r.flights && r.flights[id] == s.flights[id] && r.server == s.server
            && (s.flights[id].triple in r.local <==> s.flights[id].kind == Add)
  {
    var limit := Reply(id, Refused(429));
    var s1 := Attempt(s, id);
    var s2 := Attempt(s1, id);
    var s3 := Attempt(s2, id);
    var r := Attempt(s3, id);
    AttemptFails(s, id);
    AttemptFails(s1, id);
    AttemptFails(s2, id);
    AttemptFails(s3, id);
    hide Step, Attempt;
    RunAttempt(s3, id, []);
    RunAttempt(s2, id, [limit, Wake(id)]);
    RunAttempt(s1, id, [limit, Wake(id), limit, Wake(id)]);
    RunAttempt(s, id, [limit, Wake(id), limit, Wake(id), limit, Wake(id)]);
    assert [limit, Wake(id)] + [] == [limit, Wake(id)];
  }

  /** A rate limit and the pause after it. */
  function Attempt(s: State, id: nat): State {
    Step(Step(s, Reply(id, Refused(429))), Wake(id))
  }

  lemma AttemptFails(s: State, id: nat)
    requires id in s.flights && s.flights[id].phase == Calling && s.flights[id].attempts <= 3
    ensures var f, s' := s.flights[id], Attempt(s, id);
            && id in s'.flights && s'.server == s.server
            && s'.flights[id].kind == f.kind && s'.flights[id].triple == f.triple && s'.flights[id].phase == Calling
            && (f.attempts < 3 ==> s'.flights[id].attempts == f.attempts + 1)
            && (f.attempts == 3 ==> s'.flights[id] == FirstCall(f.kind, f.triple) && (f.triple in s'.local <==> f.kind == Add))
  {
    RateLimitKeepsAction(s, id);
    WakeGoesOn(Step(s, Reply(id, Refused(429))), id);
  }

  lemma RunAttempt(s: State, id: nat, es: seq<Event>)
    ensures Run(s, [Reply(id, Refused(429)), Wake(id)] + es) == Run(Attempt(s, id), es)
  {
    var all := [Reply(id, Refused(429)), Wake(id)] + es;
    assert all[1..] == [Wake(id)] + es && all[1..][1..] == es;
    assert Run(s, all) == Run(Step(s, all[0]), all[1..]);
    assert Run(Step(s, all[0]), all[1..]) == Run(Step(Step(s, all[0]), all[1..][0]), all[1..][1..]);
  }
}
