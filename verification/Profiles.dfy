/** Requests for user profiles: shared while in flight, and forgotten when a profile is
    invalidated or the current user's profiles are cleared. */
module Profiles {
  import opened Wrappers
  import opened Text

  const ME := "@me"

  /** `guildId ?? ME` */
  function Scope(guild: Option<string>): string {
    if guild.None? then ME else guild.value
  }

  function BuildKey(user: string, guild: Option<string>): string {
    user + ":" + Scope(guild)
  }

  /** A request that was made and whose map entry is still to be removed. */
  datatype Flight = Flight(user: string, guild: Option<string>, settled: bool)

  /** The requests by key, those in flight, and the profile store: who is cached, from which request. */
  datatype State = State(pending: map<string, nat>, flights: map<nat, Flight>, cache: map<(string, string), nat>, next: nat)

  const FRESH: State := State(map[], map[], map[], 0)

  /** `Settle`: the response, `ok` with a profile. `Finish`: the entry is removed. `Expire`: the
      timeout of a cached profile. `Reconnect`: the store drops all profiles. */
  datatype Event =
    | Fetch(user: string, guild: Option<string>, force: bool)
    | Settle(id: nat, ok: bool)
    | Finish(id: nat)
    | Invalidate(user: string, guild: Option<string>)
    | Clear(currentUser: string)
    | Expire(user: string, guild: Option<string>)
    | Reconnect

  function Key(f: Flight): string {
    BuildKey(f.user, f.guild)
  }

  function Slot(f: Flight): (string, string) {
    (f.user, Scope(f.guild))
  }

  predicate OfUser(key: string, user: string) {
    StartsWith(key, user + ":")
  }

  function Step(s: State, e: Event): State {
    match e
    case Fetch(user, guild, force) =>
      if (!force && (user, Scope(guild)) in s.cache) || BuildKey(user, guild) in s.pending then s
      else s.(pending := s.pending[BuildKey(user, guild) := s.next], flights := s.flights[s.next := Flight(user, guild, false)],
              next := s.next + 1)
    case Settle(id, ok) =>
      if id !in s.flights || s.flights[id].settled then s
      else s.(flights := s.flights[id := s.flights[id].(settled := true)],
              cache := if ok then s.cache[Slot(s.flights[id]) := id] else s.cache)
    case Finish(id) =>
      if id !in s.flights || !s.flights[id].settled then s
      else s.(pending := s.pending - {Key(s.flights[id])}, flights := s.flights - {id})
    case Invalidate(user, guild) =>
      s.(pending := s.pending - {BuildKey(user, guild)}, cache := s.cache - {(user, Scope(guild))})
    case Clear(currentUser) =>
      if currentUser == "" then s
      else s.(pending := map k | k in s.pending && !OfUser(k, currentUser) :: s.pending[k],
              cache := map c | c in s.cache && c.0 != currentUser :: s.cache[c])
    case Expire(user, guild) => s.(cache := s.cache - {(user, Scope(guild))})
    case Reconnect => s.(cache := map[])
  }

  /** The request whose profile a fetch returns. */
  function Answer(s: State, user: string, guild: Option<string>, force: bool): nat {
    if !force && (user, Scope(guild)) in s.cache then s.cache[(user, Scope(guild))]
    else if BuildKey(user, guild) in s.pending then s.pending[BuildKey(user, guild)]
    else s.next
  }

  function Run(s: State, es: seq<Event>): State
    decreases |es|
  {
    if es == [] then s else Run(Step(s, es[0]), es[1..])
  }

  // ---------------------------------------------------------------- the code

  class ProfileRequests {
    var pending: map<string, nat>
    var flights: map<nat, Flight>
    var cache: map<(string, string), nat>
    var next: nat

    constructor ()
      ensures Now() == FRESH
    {
      pending, flights, cache, next := map[], map[], map[], 0;
    }

    function Now(): State
      reads this
    {
      State(pending, flights, cache, next)
    }

    /** `fetch` up to its first pause. */
    method FetchProfile(user: string, guild: Option<string>, force: bool) returns (request: nat)
      modifies this
      ensures Now() == Step(old(Now()), Fetch(user, guild, force))
      ensures request == Answer(old(Now()), user, guild, force)
    {
      var key := BuildKey(user, guild);
      if !force {
        if (user, Scope(guild)) in cache {
          return cache[(user, Scope(guild))];
        }
        if key in pending {
          return pending[key];
        }
      } else {
        if key in pending {
          return pending[key];
        }
      }
      request := next;
      next := next + 1;
      flights := flights[request := Flight(user, guild, false)];
      pending := pending[key := request];
    }

    /** The response of a request, or its failure. */
    method Respond(id: nat, ok: bool)
      requires id in flights && !flights[id].settled
      modifies this
      ensures Now() == Step(old(Now()), Settle(id, ok))
    {
      if ok {
        cache := cache[Slot(flights[id]) := id];
      }
      flights := flights[id := flights[id].(settled := true)];
    }

    /** `fetch` after its pause: whatever entry its key has is removed. */
    method RemoveEntry(id: nat)
      requires id in flights && flights[id].settled
      modifies this
      ensures Now() == Step(old(Now()), Finish(id))
    {
      pending := pending - {Key(flights[id])};
      flights := flights - {id};
    }

    method InvalidateProfile(user: string, guild: Option<string>)
      modifies this
      ensures Now() == Step(old(Now()), Invalidate(user, guild))
    {
      cache := cache - {(user, Scope(guild))};
      pending := pending - {BuildKey(user, guild)};
    }

    /** `clearCurrentUserProfiles`; the empty id stands for none. */
    method ClearCurrentUserProfiles(currentUser: string)
      modifies this
      ensures Now() == Step(old(Now()), Clear(currentUser))
    {
      if currentUser == "" {
        return;
      }
      cache := map c | c in cache && c.0 != currentUser :: cache[c];
      var keys := pending.Keys;
      while keys != {}
        invariant keys <= old(pending).Keys
        invariant cache == (map c | c in old(cache) && c.0 != currentUser :: old(cache)[c])
        invariant pending == map k | k in old(pending) && (k in keys || !OfUser(k, currentUser)) :: old(pending)[k]
        invariant flights == old(flights) && next == old(next)
      {
        var key :| key in keys;
        keys := keys - {key};
        if OfUser(key, currentUser) {
          pending := pending - {key};
        }
      }
    }
  }

  // ---------------------------------------------------------------- the keys

  predicate NoColon(s: string) {
    ':' !in s
  }

  lemma ColonSplits(a: string, x: string, b: string, y: string)
    requires NoColon(a) && NoColon(b) && a + ":" + x == b + ":" + y
    ensures a == b && x == y
  {
    var s, t := a + ":" + x, b + ":" + y;
    assert s[|a|] == ':' && t[|b|] == ':';
    assert |a| == |b|;
    assert a == s[..|a|] && b == t[..|b|];
    assert x == s[|a| + 1..] && y == t[|b| + 1..];
  }

  /** For ids without a colon, keys agree exactly when user and scope do. */
  lemma KeyIsInjective(user: string, guild: Option<string>, user': string, guild': Option<string>)
    requires NoColon(user) && NoColon(user')
    ensures BuildKey(user, guild) == BuildKey(user', guild') <==> user == user' && Scope(guild) == Scope(guild')
  {
    if BuildKey(user, guild) == BuildKey(user', guild') {
      ColonSplits(user, Scope(guild), user', Scope(guild'));
    }
  }

  /** The prefix test finds exactly the user's own keys. */
  lemma PrefixIsUser(user: string, guild: Option<string>, currentUser: string)
    requires NoColon(user) && NoColon(currentUser)
    ensures OfUser(BuildKey(user, guild), currentUser) <==> user == currentUser
  {
    var k := BuildKey(user, guild);
    var rest := Scope(guild);
    if OfUser(k, currentUser) {
      var n := |currentUser| + 1;
      assert k == currentUser + ":" + k[n..];
      ColonSplits(user, rest, currentUser, k[n..]);
    }
  }

  /** Clearing forgets the requests of the current user and no others. */
  lemma ClearIsExact(s: State, currentUser: string, user: string, guild: Option<string>)
    requires currentUser != "" && NoColon(currentUser) && NoColon(user)
    ensures var key, s' := BuildKey(user, guild), Step(s, Clear(currentUser));
            && (key in s'.pending <==> key in s.pending && user != currentUser)
            && (key in s'.pending ==> s'.pending[key] == s.pending[key])
            && s'.flights == s.flights
  {
    PrefixIsUser(user, guild, currentUser);
  }

  // ---------------------------------------------------------------- all runs

  /** Every mapped request is in flight, under its own key. */
  ghost predicate Inv(s: State) {
    && (forall k :: k in s.pending ==> s.pending[k] in s.flights && Key(s.flights[s.pending[k]]) == k)
    && (forall id :: id in s.flights ==> id < s.next)
    && (forall c :: c in s.cache ==> s.cache[c] < s.next)
  }

  ghost function InFlight(s: State, key: string): set<nat> {
    set id | id in s.flights && Key(s.flights[id]) == key
  }

  /** The requests of `key` in flight that no later fetch can find. */
  ghost function Orphans(s: State, key: string): set<nat> {
    set id | id in InFlight(s, key) && (key !in s.pending || s.pending[key] != id)
  }

  /** An invalidation or clearing that removes the entry of `key`. */
  predicate Hits(s: State, e: Event, key: string) {
    (e.Invalidate? || e.Clear?) && key in s.pending && key !in Step(s, e).pending
  }

  function HitCount(s: State, es: seq<Event>, key: string): nat
    decreases |es|
  {
    if es == [] then 0 else (if Hits(s, es[0], key) then 1 else 0) + HitCount(Step(s, es[0]), es[1..], key)
  }

  lemma StepKeepsInv(s: State, e: Event)
    requires Inv(s)
    ensures Inv(Step(s, e))
  {
    hide OfUser, BuildKey, Scope;
  }

  /** A request that completes may orphan another one, but then it was an orphan itself. */
  lemma FinishOrphans(s: State, id: nat, key: string)
    requires Inv(s) && id in s.flights && s.flights[id].settled
    ensures |Orphans(Step(s, Finish(id)), key)| <= |Orphans(s, key)|
  {
    hide BuildKey;
    var s' := Step(s, Finish(id));
    if id in Orphans(s, key) {
      var others := Orphans(s, key) - {id};
      var newly := if key in s.pending then {s.pending[key]} else {};
      SubsetIsSmaller(Orphans(s', key), others + newly);
    } else {
      SubsetIsSmaller(Orphans(s', key), Orphans(s, key));
    }
  }

  lemma StepOrphans(s: State, e: Event, key: string)
    requires Inv(s)
    ensures |Orphans(Step(s, e), key)| <= |Orphans(s, key)| + if Hits(s, e, key) then 1 else 0
  {
    hide OfUser, BuildKey, Scope;
    var s' := Step(s, e);
    if Hits(s, e, key) {
      SubsetIsSmaller(Orphans(s', key), Orphans(s, key) + {s.pending[key]});
    } else if e.Finish? && e.id in s.flights && s.flights[e.id].settled {
      FinishOrphans(s, e.id, key);
    } else {
      SubsetIsSmaller(Orphans(s', key), Orphans(s, key));
    }
  }

  lemma {:induction false} SubsetIsSmaller(a: set<nat>, b: set<nat>)
    requires a <= b
    ensures |a| <= |b|
    decreases b
  {
    if x :| x in b {
      SubsetIsSmaller(a - {x}, b - {x});
    }
  }

  /** In every interleaving a mapped request is still in flight under its key; and a key has at
      most one request that later calls cannot find for each invalidation or clearing that
      removed its entry. */
  lemma {:induction false} EveryRunBoundsOrphans(s: State, es: seq<Event>, key: string)
    requires Inv(s)
    ensures Inv(Run(s, es))
    ensures |Orphans(Run(s, es), key)| <= |Orphans(s, key)| + HitCount(s, es, key)
    decreases |es|
  {
    if es != [] {
      hide Inv, Orphans, Hits, Step;
      StepKeepsInv(s, es[0]);
      StepOrphans(s, es[0], key);
      EveryRunBoundsOrphans(Step(s, es[0]), es[1..], key);
    }
  }

  lemma InFlightIsMappedOrOrphan(s: State, key: string)
    requires Inv(s)
    ensures |InFlight(s, key)| == |Orphans(s, key)| + if key in s.pending then 1 else 0
  {
    if key in s.pending {
      assert InFlight(s, key) == Orphans(s, key) + {s.pending[key]};
    } else {
      assert InFlight(s, key) == Orphans(s, key);
    }
  }

  /** From the start: no more than one request per key in flight, and one more for each removal
      of its entry by an invalidation or a clearing. */
  lemma DuplicatesAreBounded(es: seq<Event>, key: string)
    ensures |InFlight(Run(FRESH, es), key)| <= 1 + HitCount(FRESH, es, key)
  {
    assert Orphans(FRESH, key) == {};
    EveryRunBoundsOrphans(FRESH, es, key);
    InFlightIsMappedOrOrphan(Run(FRESH, es), key);
  }

  predicate Quiet(e: Event) {
    !e.Invalidate? && !e.Clear?
  }

  lemma {:induction false} QuietNeverHits(s: State, es: seq<Event>, key: string)
    requires forall i :: 0 <= i < |es| ==> Quiet(es[i])
    ensures HitCount(s, es, key) == 0
    decreases |es|
  {
    if es != [] {
      QuietNeverHits(Step(s, es[0]), es[1..], key);
    }
  }

  /** Without invalidations and clearings there is one request per key at most, and the map has
      exactly the requests in flight. */
  lemma QuietRunsShare(es: seq<Event>, key: string)
    requires forall i :: 0 <= i < |es| ==> Quiet(es[i])
    ensures var r := Run(FRESH, es);
            InFlight(r, key) == if key in r.pending then {r.pending[key]} else {}
  {
    var r := Run(FRESH, es);
    assert Orphans(FRESH, key) == {};
    QuietNeverHits(FRESH, es, key);
    EveryRunBoundsOrphans(FRESH, es, key);
    assert Orphans(r, key) == {};
    forall id | id in InFlight(r, key) ensures key in r.pending && r.pending[key] == id {
      assert id !in Orphans(r, key);
    }
  }

  /** A request that completes removes the entry of another one exactly if its key is mapped to
      that other one; the other is then in flight but not found any more. */
  lemma StaleCompletionIff(s: State, id: nat)
    requires Inv(s) && id in s.flights && s.flights[id].settled
    ensures var key, s' := Key(s.flights[id]), Step(s, Finish(id));
            (exists j :: j in Orphans(s', key) && j !in Orphans(s, key)) <==> key in s.pending && s.pending[key] != id
  {
    hide BuildKey;
    var key, s' := Key(s.flights[id]), Step(s, Finish(id));
    if key in s.pending && s.pending[key] != id {
      assert s.pending[key] in Orphans(s', key);
    }
  }

  lemma RunOne(s: State, e: Event, es: seq<Event>)
    ensures Run(s, [e] + es) == Run(Step(s, e), es)
  {
  }

  /** It does happen, and the bound on duplicates is met: one invalidation, two requests in flight. */
  lemma StaleCompletionHappens(user: string, guild: Option<string>)
    ensures var es := [Fetch(user, guild, false), Invalidate(user, guild), Fetch(user, guild, false), Settle(0, false), Finish(0),
                       Fetch(user, guild, false)];
            InFlight(Run(FRESH, es), BuildKey(user, guild)) == {1, 2}
  {
    var key := BuildKey(user, guild);
    var a, b := Fetch(user, guild, false), Invalidate(user, guild);
    var es := [a, b, a, Settle(0, false), Finish(0), a];
    hide BuildKey, Scope;
    var s1 := Step(FRESH, a);
    var s3 := Step(Step(s1, b), a);
    assert s3.pending == map[key := 1];
    var s5 := Step(Step(s3, Settle(0, false)), Finish(0));
    assert s5.pending == map[];
    var s6 := Step(s5, a);
    assert s6.flights == map[1 := Flight(user, guild, false), 2 := Flight(user, guild, false)];
    RunOne(FRESH, a, [b, a, Settle(0, false), Finish(0), a]);
    RunOne(s1, b, [a, Settle(0, false), Finish(0), a]);
    RunOne(Step(s1, b), a, [Settle(0, false), Finish(0), a]);
    RunOne(s3, Settle(0, false), [Finish(0), a]);
    RunOne(Step(s3, Settle(0, false)), Finish(0), [a]);
    RunOne(s5, a, []);
    assert Key(s6.flights[1]) == key;
  }

  // ---------------------------------------------------------------- freshness

  /** What a fetch for this user and guild can return, now or later, comes from request `from` or a later one. */
  ghost predicate FreshFor(s: State, user: string, guild: Option<string>, from: nat) {
    && from <= s.next
    && (BuildKey(user, guild) in s.pending ==> s.pending[BuildKey(user, guild)] >= from)
    && ((user, Scope(guild)) in s.cache ==> s.cache[(user, Scope(guild))] >= from)
    && (forall id :: id in s.flights && !s.flights[id].settled && Slot(s.flights[id]) == (user, Scope(guild)) ==> id >= from)
  }

  lemma StepStaysFresh(s: State, e: Event, user: string, guild: Option<string>, from: nat)
    requires FreshFor(s, user, guild, from)
    ensures FreshFor(Step(s, e), user, guild, from)
  {
    hide OfUser, BuildKey, Scope;
  }

  lemma {:induction false} RunStaysFresh(s: State, es: seq<Event>, user: string, guild: Option<string>, from: nat)
    requires FreshFor(s, user, guild, from)
    ensures FreshFor(Run(s, es), user, guild, from)
    decreases |es|
  {
    if es != [] {
      hide FreshFor, Step;
      StepStaysFresh(s, es[0], user, guild, from);
      RunStaysFresh(Step(s, es[0]), es[1..], user, guild, from);
    }
  }

  /** A request of this user and guild without response. */
  ghost predicate Unanswered(s: State, user: string, guild: Option<string>) {
    exists id :: id in s.flights && !s.flights[id].settled && Slot(s.flights[id]) == (user, Scope(guild))
  }

  /** The event makes fetches of this user and guild start over. */
  predicate Forgets(e: Event, user: string, guild: Option<string>) {
    || (e.Invalidate? && e.user == user && e.guild == guild)
    || (e.Clear? && e.currentUser == user && user != "")
  }

  lemma ForgettingFresh(s: State, e: Event, user: string, guild: Option<string>)
    requires Inv(s) && Forgets(e, user, guild) && !Unanswered(s, user, guild)
    ensures FreshFor(Step(s, e), user, guild, s.next)
  {
    assert OfUser(BuildKey(user, guild), user);
    hide OfUser, BuildKey, Scope;
  }

  /** A request that is without response can still fill the cache. */
  lemma LateResponse(s: State, e: Event, id: nat, user: string, guild: Option<string>)
    requires Inv(s) && Forgets(e, user, guild)
    requires id in s.flights && !s.flights[id].settled && Slot(s.flights[id]) == (user, Scope(guild))
    ensures Answer(Run(Step(s, e), [Settle(id, true)]), user, guild, false) == id < s.next
  {
    hide OfUser, BuildKey, Scope;
    RunOne(Step(s, e), Settle(id, true), []);
  }

  /** In every run from here, a fetch returns a profile of request `from` or a later one. */
  ghost predicate ReturnsFrom(s: State, user: string, guild: Option<string>, from: nat) {
    forall es, force :: Answer(Run(s, es), user, guild, force) >= from
  }

  /** A request made before is never shared afterwards, but its late response is cached: after
      an invalidation or clearing, every fetch in every run returns a profile requested after it,
      exactly if no request for that profile was without response then. */
  lemma FreshAfterIff(s: State, e: Event, user: string, guild: Option<string>)
    requires Inv(s) && Forgets(e, user, guild)
    ensures ReturnsFrom(Step(s, e), user, guild, s.next) <==> !Unanswered(s, user, guild)
  {
    hide Step, Forgets, Inv, Scope;
    var s' := Step(s, e);
    if Unanswered(s, user, guild) {
      var id :| id in s.flights && !s.flights[id].settled && Slot(s.flights[id]) == (user, Scope(guild));
      LateResponse(s, e, id, user, guild);
    } else {
      ForgettingFresh(s, e, user, guild);
      forall es, force ensures Answer(Run(s', es), user, guild, force) >= s.next {
        RunStaysFresh(s', es, user, guild, s.next);
      }
    }
  }

  /** Even then, what is shared in flight is new. */
  lemma SharedAfterIsNew(s: State, e: Event, es: seq<Event>, user: string, guild: Option<string>)
    requires Inv(s) && Forgets(e, user, guild)
    ensures Answer(Run(Step(s, e), es), user, guild, true) >= s.next
  {
    assert OfUser(BuildKey(user, guild), user);
    hide OfUser, BuildKey, Scope;
    RunSharesNew(Step(s, e), es, BuildKey(user, guild), s.next);
  }

  ghost predicate SharesFrom(s: State, key: string, from: nat) {
    from <= s.next && (key in s.pending ==> s.pending[key] >= from)
  }

  lemma {:induction false} RunSharesNew(s: State, es: seq<Event>, key: string, from: nat)
    requires SharesFrom(s, key, from)
    ensures SharesFrom(Run(s, es), key, from)
    decreases |es|
  {
    if es != [] {
      hide OfUser, BuildKey, Scope;
      assert SharesFrom(Step(s, es[0]), key, from);
      RunSharesNew(Step(s, es[0]), es[1..], key, from);
    }
  }

  // ---------------------------------------------------------------- what each event does

  /** Other keys are mapped as before. */
  ghost predicate OthersMapped(s: State, s': State, key: string) {
    forall k :: k != key ==> (k in s'.pending <==> k in s.pending) && (k in s.pending ==> s'.pending[k] == s.pending[k])
  }

  /** Other profiles are cached as before. */
  ghost predicate OthersCached(s: State, s': State, slot: (string, string)) {
    forall c :: c != slot ==> (c in s'.cache <==> c in s.cache) && (c in s.cache ==> s'.cache[c] == s.cache[c])
  }

  ghost predicate OthersFly(s: State, s': State, id: nat) {
    forall i :: i != id ==> (i in s'.flights <==> i in s.flights) && (i in s.flights ==> s'.flights[i] == s.flights[i])
  }

  /** A fetch makes a request exactly if none is in flight for its key, and it is forced or finds no
      profile: a new one, mapped to its key, whose profile it returns. Else it changes nothing, and
      returns what is cached, unless forced, or what is in flight. */
  lemma FetchMakesRequestIff(s: State, user: string, guild: Option<string>, force: bool)
    requires Inv(s)
    ensures var key, slot, s' := BuildKey(user, guild), (user, Scope(guild)), Step(s, Fetch(user, guild, force));
            && s'.cache == s.cache
            && (key !in s.pending && (force || slot !in s.cache) ==>
                  && s.next !in s.flights && s'.flights.Keys == s.flights.Keys + {s.next}
                  && s'.flights[s.next] == Flight(user, guild, false) && OthersFly(s, s', s.next)
                  && key in s'.pending && s'.pending[key] == s.next == Answer(s, user, guild, force)
                  && s'.next == s.next + 1 && OthersMapped(s, s', key))
            && (key in s.pending || (!force && slot in s.cache) ==> s' == s)
            && (!force && slot in s.cache ==> Answer(s, user, guild, force) == s.cache[slot])
            && ((force || slot !in s.cache) && key in s.pending ==> Answer(s, user, guild, force) == s.pending[key])
  {
    hide BuildKey, Scope;
  }

  /** A response, the first of its request, is cached exactly if it is a profile. */
  lemma ResponseIsCachedIff(s: State, id: nat, ok: bool)
    requires Inv(s) && id in s.flights && !s.flights[id].settled
    ensures var slot, s' := Slot(s.flights[id]), Step(s, Settle(id, ok));
            && s'.pending == s.pending && s'.next == s.next
            && id in s'.flights && s'.flights[id] == s.flights[id].(settled := true) && OthersFly(s, s', id)
            && (if ok then slot in s'.cache && s'.cache[slot] == id && OthersCached(s, s', slot) else s'.cache == s.cache)
  {
    hide BuildKey, Scope;
  }

  /** A completed request is gone, and its key is free; other keys and all cached profiles stay. */
  lemma CompletedIsGone(s: State, id: nat)
    requires id in s.flights && s.flights[id].settled
    ensures var key, s' := Key(s.flights[id]), Step(s, Finish(id));
            && id !in s'.flights && OthersFly(s, s', id)
            && key !in s'.pending && OthersMapped(s, s', key)
            && s'.cache == s.cache && s'.next == s.next
  {
    hide BuildKey;
  }

  /** Invalidating forgets the entry and the cached profile of this user and guild, and no others, and
      ends no request. */
  lemma InvalidateIsExact(s: State, user: string, guild: Option<string>)
    ensures var key, slot, s' := BuildKey(user, guild), (user, Scope(guild)), Step(s, Invalidate(user, guild));
            && key !in s'.pending && OthersMapped(s, s', key)
            && slot !in s'.cache && OthersCached(s, s', slot)
            && s'.flights == s.flights && s'.next == s.next
  {
    hide BuildKey, Scope;
  }

  /** Clearing forgets the cached profiles of the current user, in every guild, and no others; a timeout
      forgets one profile, and a new connection all of them, but neither touches a request. */
  lemma ForgettingIsExact(s: State, currentUser: string, user: string, guild: Option<string>)
    ensures currentUser != "" ==>
              forall c :: (c in Step(s, Clear(currentUser)).cache <==> c in s.cache && c.0 != currentUser)
                          && (c in Step(s, Clear(currentUser)).cache ==> Step(s, Clear(currentUser)).cache[c] == s.cache[c])
    ensures Step(s, Clear("")) == s
    ensures var s' := Step(s, Expire(user, guild));
            && (user, Scope(guild)) !in s'.cache && OthersCached(s, s', (user, Scope(guild)))
            && s'.pending == s.pending && s'.flights == s.flights
    ensures var s' := Step(s, Reconnect); s'.cache == map[] && s'.pending == s.pending && s'.flights == s.flights
  {
    hide BuildKey, Scope, OfUser;
  }
}
