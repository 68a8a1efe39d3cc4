/** The debounced writer of guild settings: updates of a key are merged while a timer runs and
    sent as one PATCH when it fires, or at once when asked to. */
module GuildSettings {
  import opened Wrappers

  datatype JsValue = Null | Bool(b: bool) | Num(n: int) | Str(s: string)

  /** The fields of one channel's override. */
  type Override = map<string, JsValue>

  /** The `channel_overrides` field of a partial update: not there, there without a map, or a map. */
  datatype Overrides = Absent | Undefined | Cleared | Channels(m: map<string, Override>)

  /** A partial settings update: the fields it mentions. */
  datatype Payload = Payload(fields: map<string, JsValue>, overrides: Overrides)

  const EMPTY := Payload(map[], Absent)

  /** `mergePayloads`: the later update spread over the earlier, maps of overrides merged. */
  function Merge(a: Payload, b: Payload): Payload {
    var spread := if b.overrides.Absent? then a.overrides else b.overrides;
    Payload(
      a.fields + b.fields,
      if a.overrides.Channels? && b.overrides.Channels? then Channels(a.overrides.m + b.overrides.m) else spread)
  }

  /** The left fold of `Merge` over updates in the order they came. */
  function Fold(ps: seq<Payload>): Payload {
    if ps == [] then EMPTY else Merge(Fold(ps[..|ps| - 1]), ps[|ps| - 1])
  }

  // ---------------------------------------------------------------- what a fold means

  /** Update `i` mentions the field and no later one does. */
  ghost predicate LastMention(ps: seq<Payload>, field: string, i: nat) {
    i < |ps| && field in ps[i].fields && forall j :: i < j < |ps| ==> field !in ps[j].fields
  }

  /** Each ordinary field has the value of its last mention; one never mentioned is not sent. */
  lemma {:induction false} FieldIsLastWritten(ps: seq<Payload>, field: string)
    ensures field in Fold(ps).fields <==> exists i: nat :: LastMention(ps, field, i)
    ensures forall i: nat :: LastMention(ps, field, i) ==> field in Fold(ps).fields && Fold(ps).fields[field] == ps[i].fields[field]
  {
    if ps != [] {
      var n := |ps| - 1;
      var front := ps[..n];
      FieldIsLastWritten(front, field);
      if field in ps[n].fields {
        assert LastMention(ps, field, n);
      } else {
        assert forall i: nat :: LastMention(front, field, i) <==> LastMention(ps, field, i);
      }
    }
  }

  /** Update `i` sets the field to something that is no map, and no later one mentions it. */
  ghost predicate LastReset(ps: seq<Payload>, i: nat) {
    && i < |ps| && (ps[i].overrides.Undefined? || ps[i].overrides.Cleared?)
    && forall j :: i < j < |ps| ==> ps[j].overrides.Absent?
  }

  /** From update `i` on there is no reset, and some update carries a map. */
  ghost predicate MapsFrom(ps: seq<Payload>, i: nat) {
    && i <= |ps|
    && (forall j :: i <= j < |ps| ==> ps[j].overrides.Absent? || ps[j].overrides.Channels?)
    && exists j :: i <= j < |ps| && ps[j].overrides.Channels?
  }

  /** Update `i` writes the channel, and after it the field is not reset and the channel not written. */
  ghost predicate LastWrite(ps: seq<Payload>, channel: string, i: nat) {
    && i < |ps| && ps[i].overrides.Channels? && channel in ps[i].overrides.m
    && forall j :: i < j < |ps| ==>
         ps[j].overrides.Absent? || (ps[j].overrides.Channels? && channel !in ps[j].overrides.m)
  }

  lemma AbsentChangesNothing(ps: seq<Payload>)
    requires ps != [] && ps[|ps| - 1].overrides.Absent?
    ensures var front := ps[..|ps| - 1];
            forall i: nat :: (LastReset(front, i) <==> LastReset(ps, i)) && (MapsFrom(front, i) <==> MapsFrom(ps, i))
  {
    var n := |ps| - 1;
    var front := ps[..n];
    forall i: nat ensures MapsFrom(front, i) <==> MapsFrom(ps, i) {
      if MapsFrom(front, i) {
        var j :| i <= j < n && front[j].overrides.Channels?;
        assert ps[j].overrides.Channels?;
      }
      if MapsFrom(ps, i) {
        var j :| i <= j < |ps| && ps[j].overrides.Channels?;
        assert front[j].overrides.Channels?;
      }
    }
  }

  ghost predicate OverridesHold(ps: seq<Payload>) {
    && (Fold(ps).overrides.Absent? <==> forall i :: 0 <= i < |ps| ==> ps[i].overrides.Absent?)
    && (forall i: nat :: LastReset(ps, i) ==> Fold(ps).overrides == ps[i].overrides)
    && (Fold(ps).overrides.Channels? <==> exists i: nat :: MapsFrom(ps, i))
  }

  /** `channel_overrides` is absent if never mentioned, and a reset value if last mentioned so ... */
  lemma {:induction false} OverridesAreLastWritten(ps: seq<Payload>)
    ensures Fold(ps).overrides.Absent? <==> forall i :: 0 <= i < |ps| ==> ps[i].overrides.Absent?
    ensures forall i: nat :: LastReset(ps, i) ==> Fold(ps).overrides == ps[i].overrides
    ensures Fold(ps).overrides.Channels? <==> exists i: nat :: MapsFrom(ps, i)
  {
    OverridesLast(ps);
    hide Fold, LastReset, MapsFrom;
  }

  lemma {:induction false} OverridesLast(ps: seq<Payload>)
    ensures OverridesHold(ps)
  {
    if ps != [] {
      hide OverridesHold;
      OverridesLast(ps[..|ps| - 1]);
      match ps[|ps| - 1].overrides
      case Absent => AbsentHolds(ps);
      case Channels(_) => MapHolds(ps);
      case _ => ResetHolds(ps);
    }
  }

  lemma AbsentHolds(ps: seq<Payload>)
    requires ps != [] && ps[|ps| - 1].overrides.Absent? && OverridesHold(ps[..|ps| - 1])
    ensures OverridesHold(ps)
  {
    AbsentChangesNothing(ps);
    AbsentStays(ps);
    hide LastReset, MapsFrom, Fold, Merge;
  }

  lemma AbsentStays(ps: seq<Payload>)
    requires ps != [] && ps[|ps| - 1].overrides.Absent?
    ensures var front := ps[..|ps| - 1];
            && Fold(ps).overrides == Fold(front).overrides
            && ((forall i :: 0 <= i < |ps| ==> ps[i].overrides.Absent?) <==> forall i :: 0 <= i < |front| ==> front[i].overrides.Absent?)
            && forall i: nat :: LastReset(ps, i) ==> i < |front| && ps[i] == front[i]
  {
  }

  lemma MapHolds(ps: seq<Payload>)
    requires ps != [] && ps[|ps| - 1].overrides.Channels?
    ensures OverridesHold(ps)
  {
    assert MapsFrom(ps, |ps| - 1);
    assert Fold(ps).overrides.Channels?;
    assert forall i: nat :: !LastReset(ps, i);
    hide LastReset, MapsFrom, Fold, Merge;
  }

  lemma ResetHolds(ps: seq<Payload>)
    requires ps != [] && (ps[|ps| - 1].overrides.Cleared? || ps[|ps| - 1].overrides.Undefined?)
    ensures OverridesHold(ps)
  {
    var n := |ps| - 1;
    assert Fold(ps).overrides == ps[n].overrides;
    assert forall i: nat :: LastReset(ps, i) ==> i == n;
    NoMapAtEnd(ps);
    hide LastReset, MapsFrom, Fold, Merge;
  }

  lemma NoMapAtEnd(ps: seq<Payload>)
    requires ps != [] && !ps[|ps| - 1].overrides.Absent? && !ps[|ps| - 1].overrides.Channels?
    ensures forall i: nat :: !MapsFrom(ps, i)
  {
    var n := |ps| - 1;
    forall i: nat ensures !MapsFrom(ps, i) {
      assert i <= n ==> !(ps[n].overrides.Absent? || ps[n].overrides.Channels?);
    }
  }

  lemma LastWriteStays(ps: seq<Payload>, channel: string)
    requires ps != [] && var o := ps[|ps| - 1].overrides; o.Absent? || (o.Channels? && channel !in o.m)
    ensures var front := ps[..|ps| - 1];
            forall i: nat :: (LastWrite(front, channel, i) <==> LastWrite(ps, channel, i))
                             && (LastWrite(ps, channel, i) ==> i < |front| && front[i] == ps[i])
  {
  }

  /** ... and otherwise the maps since the last reset, each channel as last written. */
  lemma {:induction false} ChannelIsLastWritten(ps: seq<Payload>, channel: string)
    requires Fold(ps).overrides.Channels?
    ensures channel in Fold(ps).overrides.m <==> exists i: nat :: LastWrite(ps, channel, i)
    ensures forall i: nat :: LastWrite(ps, channel, i) ==>
              channel in Fold(ps).overrides.m && Fold(ps).overrides.m[channel] == ps[i].overrides.m[channel]
  {
    var n := |ps| - 1;
    var front := ps[..n];
    match ps[n].overrides
    case Absent =>
      ChannelIsLastWritten(front, channel);
      LastWriteStays(ps, channel);
    case Channels(m) =>
      if channel in m {
        assert LastWrite(ps, channel, n);
        assert forall i: nat :: LastWrite(ps, channel, i) ==> i == n;
      } else {
        LastWriteStays(ps, channel);
        if Fold(front).overrides.Channels? {
          ChannelIsLastWritten(front, channel);
        } else {
          NoMapNoWrite(front, channel);
        }
      }
  }

  lemma {:induction false} NoMapNoWrite(ps: seq<Payload>, channel: string)
    requires !Fold(ps).overrides.Channels?
    ensures forall i: nat :: !LastWrite(ps, channel, i)
  {
    if ps != [] {
      var n := |ps| - 1;
      if ps[n].overrides.Absent? {
        NoMapNoWrite(ps[..n], channel);
        assert forall i: nat :: LastWrite(ps, channel, i) ==> LastWrite(ps[..n], channel, i);
      }
    }
  }

  /** Merging is not associative: it is exactly when the middle update does not reset the
      overrides between two maps of which the earlier has a channel of its own. */
  lemma MergeAssociates(a: Payload, b: Payload, c: Payload)
    ensures Merge(Merge(a, b), c) == Merge(a, Merge(b, c)) <==>
            !(&& a.overrides.Channels? && c.overrides.Channels?
              && (b.overrides.Cleared? || b.overrides.Undefined?)
              && !(a.overrides.m.Keys <= c.overrides.m.Keys))
  {
    assert a.fields + b.fields + c.fields == a.fields + (b.fields + c.fields);
    if a.overrides.Channels? && c.overrides.Channels? {
      var x, z := a.overrides.m, c.overrides.m;
      if b.overrides.Channels? {
        assert x + b.overrides.m + z == x + (b.overrides.m + z);
      } else if b.overrides.Absent? {
      } else if x.Keys <= z.Keys {
        assert x + z == z;
      } else {
        var k :| k in x.Keys && k !in z.Keys;
        assert k in x + z;
      }
    }
  }

  // ---------------------------------------------------------------- the writer

  const ME := "@me"

  function KeyOf(guildId: Option<string>): string {
    if guildId.None? then ME else guildId.value
  }

  /** `Endpoints.USER_GUILD_SETTINGS_ME` and `Endpoints.USER_GUILD_SETTINGS` */
  function Endpoint(guildId: Option<string>): string {
    if guildId.None? then "/users/@me/guilds/@me/settings"
    else "/users/@me/guilds/" + guildId.value + "/settings"
  }

  /** A request that was made; `key` tells for which pending entry. */
  datatype Patch = Patch(key: string, url: string, body: Payload)

  /** The module's two maps, the timers that will still fire with the guild their callback
      closed over, and the requests made so far. */
  datatype State = State(
    updates: map<string, nat>, payloads: map<string, Payload>,
    armed: map<nat, Option<string>>, next: nat, sent: seq<Patch>)

  const INITIAL := State(map[], map[], map[], 0, [])

  datatype Event = Update(guildId: Option<string>, payload: Payload, immediately: bool) | Fire(timer: nat)

  /** `flush` */
  function FlushStep(s: State, guildId: Option<string>): State {
    var key := KeyOf(guildId);
    var s' := s.(updates := s.updates - {key}, payloads := s.payloads - {key});
    if key in s.payloads then s'.(sent := s.sent + [Patch(key, Endpoint(guildId), s.payloads[key])]) else s'
  }

  /** `clearTimeout` of the key's timer, if it has one. */
  function Disarm(s: State, key: string): State {
    if key in s.updates then s.(armed := s.armed - {s.updates[key]}) else s
  }

  function Step(s: State, e: Event): State {
    match e
    case Update(guildId, payload, immediately) =>
      var key := KeyOf(guildId);
      var pending := if key in s.payloads then s.payloads[key] else EMPTY;
      var s1 := Disarm(s, key).(payloads := s.payloads[key := Merge(pending, payload)]);
      if immediately then FlushStep(s1, guildId)
      else s1.(updates := s1.updates[key := s.next], armed := s1.armed[s.next := guildId], next := s.next + 1)
    case Fire(timer) =>
      // a timer that was cleared, or has fired, does not fire
      if timer in s.armed then FlushStep(s.(armed := s.armed - {timer}), s.armed[timer]) else s
  }

  function Run(es: seq<Event>): State {
    if es == [] then INITIAL else Step(Run(es[..|es| - 1]), es[|es| - 1])
  }

  class SettingsWriter {
    var pendingUpdates: map<string, nat>
    var pendingPayloads: map<string, Payload>
    var armed: map<nat, Option<string>>
    var nextTimer: nat
    var sent: seq<Patch>

    constructor ()
      ensures Now() == INITIAL
    {
      pendingUpdates, pendingPayloads, armed, nextTimer, sent := map[], map[], map[], 0, [];
    }

    function Now(): State
      reads this
    {
      State(pendingUpdates, pendingPayloads, armed, nextTimer, sent)
    }

    method Flush(guildId: Option<string>)
      modifies this
      ensures Now() == FlushStep(old(Now()), guildId)
    {
      var key := KeyOf(guildId);
      pendingUpdates := pendingUpdates - {key};
      if key !in pendingPayloads {
        assert pendingPayloads - {key} == pendingPayloads;
        return;
      }
      var payload := pendingPayloads[key];
      pendingPayloads := pendingPayloads - {key};
      sent := sent + [Patch(key, Endpoint(guildId), payload)];
    }

    method ScheduleUpdate(guildId: Option<string>, updates: Payload, persistImmediately: bool)
      modifies this
      ensures Now() == Step(old(Now()), Update(guildId, updates, persistImmediately))
    {
      var key := KeyOf(guildId);
      var currentPending := if key in pendingPayloads then pendingPayloads[key] else EMPTY;
      pendingPayloads := pendingPayloads[key := Merge(currentPending, updates)];
      if persistImmediately {
        if key in pendingUpdates {
          armed := armed - {pendingUpdates[key]};
          pendingUpdates := pendingUpdates - {key};
        }
        assert pendingUpdates - {key} == old(pendingUpdates) - {key};
        Flush(guildId);
        return;
      }
      if key in pendingUpdates {
        armed := armed - {pendingUpdates[key]};
      }
      pendingUpdates := pendingUpdates[key := nextTimer];
      armed := armed[nextTimer := guildId];
      nextTimer := nextTimer + 1;
    }

    /** The timer's callback. */
    method TimerFires(timer: nat)
      requires timer in armed
      modifies this
      ensures Now() == Step(old(Now()), Fire(timer))
    {
      var guildId := armed[timer];
      armed := armed - {timer};
      Flush(guildId);
    }

    /** `updateChannelOverride`, given what the settings store holds for the guild; `local` is what
        the store is given at once. */
    method UpdateChannelOverride(guildId: Option<string>, channelId: string, override: Option<Override>, persistImmediately: bool,
                                 storedOverrides: map<string, Override>, storedOverride: Override)
      returns (local: map<string, Override>)
      modifies this
      ensures forall c :: c != channelId ==>
                (c in local <==> c in storedOverrides) && (c in local ==> local[c] == storedOverrides[c])
      ensures channelId in local <==> override.Some?
      ensures override.Some? ==> local[channelId] == NewOverride(channelId, storedOverride, override.value)
      ensures Now() == Step(old(Now()), Update(guildId, OverridePayload(storedOverrides, channelId,
                if override.None? then None else Some(NewOverride(channelId, storedOverride, override.value))), persistImmediately))
    {
      local := storedOverrides;
      if override.None? {
        local := local - {channelId};
      } else {
        local := local[channelId := NewOverride(channelId, storedOverride, override.value)];
      }
      ScheduleUpdate(guildId, Payload(map[], if local != map[] then Channels(local) else Cleared), persistImmediately);
    }
  }

  /** The defaults, what the store has for the channel, and the change, in this order. */
  function NewOverride(channelId: string, stored: Override, change: Override): Override {
    map["channel_id" := Str(channelId), "collapsed" := Bool(false), "message_notifications" := Num(INHERIT),
        "muted" := Bool(false), "mute_config" := Null] + stored + change
  }

  const INHERIT := 3

  /** The update that replaces (or, with `None`, removes) the override of one channel. */
  function OverridePayload(stored: map<string, Override>, channelId: string, override: Option<Override>): Payload {
    var all := if override.None? then stored - {channelId} else stored[channelId := override.value];
    Payload(map[], if all == map[] then Cleared else Channels(all))
  }

  /** Removing a channel's override: the merged payload leaves the channel out exactly when no
      override is left at all or none was pending for the channel. Otherwise the PATCH still
      carries the override that was removed. */
  lemma RemovalIsSent(pending: Payload, stored: map<string, Override>, channelId: string)
    ensures var merged := Merge(pending, OverridePayload(stored, channelId, None)).overrides;
            !(merged.Channels? && channelId in merged.m) <==>
              stored.Keys <= {channelId} || !(pending.overrides.Channels? && channelId in pending.overrides.m)
  {
    var rest := stored - {channelId};
    assert rest == map[] <==> stored.Keys <= {channelId} by {
      assert forall k :: k in stored && k != channelId ==> k in rest;
    }
  }

  // ---------------------------------------------------------------- all runs

  /** One live timer for each key with a pending payload, and for no other. */
  ghost predicate Inv(s: State) {
    && s.updates.Keys == s.payloads.Keys
    && (forall k :: k in s.updates ==> s.updates[k] in s.armed && KeyOf(s.armed[s.updates[k]]) == k)
    && (forall t :: t in s.armed ==> t < s.next && KeyOf(s.armed[t]) in s.updates && s.updates[KeyOf(s.armed[t])] == t)
    && (forall i :: 0 <= i < |s.sent| ==> s.sent[i].url == Endpoint(Some(s.sent[i].key)))
  }

  lemma EndpointOfKey(guildId: Option<string>)
    ensures Endpoint(guildId) == Endpoint(Some(KeyOf(guildId)))
  {
    assert "/users/@me/guilds/" + "@me" + "/settings" == "/users/@me/guilds/@me/settings";
  }

  /** As `Inv`, but the key may have a payload without a timer: what `flush` starts from. */
  ghost predicate InvBut(s: State, key: string) {
    && s.updates.Keys - {key} == s.payloads.Keys - {key}
    && (forall k :: k in s.updates && k != key ==> s.updates[k] in s.armed && KeyOf(s.armed[s.updates[k]]) == k)
    && (forall t :: t in s.armed ==>
          t < s.next && KeyOf(s.armed[t]) != key && KeyOf(s.armed[t]) in s.updates && s.updates[KeyOf(s.armed[t])] == t)
    && (forall i :: 0 <= i < |s.sent| ==> s.sent[i].url == Endpoint(Some(s.sent[i].key)))
  }

  lemma FlushKeepsInv(s: State, guildId: Option<string>)
    requires InvBut(s, KeyOf(guildId))
    ensures Inv(FlushStep(s, guildId))
  {
    hide Endpoint;
    EndpointOfKey(guildId);
  }

  lemma StepKeepsInv(s: State, e: Event)
    requires Inv(s)
    ensures Inv(Step(s, e))
  {
    hide Endpoint, FlushStep, Merge;
    match e
    case Update(guildId, payload, immediately) =>
      if immediately {
        var key := KeyOf(guildId);
        var pending := if key in s.payloads then s.payloads[key] else EMPTY;
        FlushKeepsInv(Disarm(s, key).(payloads := s.payloads[key := Merge(pending, payload)]), guildId);
      }
    case Fire(timer) =>
      if timer in s.armed {
        FlushKeepsInv(s.(armed := s.armed - {timer}), s.armed[timer]);
      }
  }

  /** In every run: a key has a live timer exactly while it has a pending payload, never two, and
      every request goes to the address of its key. */
  lemma {:induction false} OneTimerPerPendingKey(es: seq<Event>)
    ensures Inv(Run(es))
  {
    hide Step;
    if es != [] {
      OneTimerPerPendingKey(es[..|es| - 1]);
      StepKeepsInv(Run(es[..|es| - 1]), es[|es| - 1]);
    }
  }

  /** The updates of a key, in order. */
  function UpdatesFor(es: seq<Event>, key: string): seq<Payload> {
    if es == [] then [] else
      var e := es[|es| - 1];
      UpdatesFor(es[..|es| - 1], key) + if e.Update? && KeyOf(e.guildId) == key then [e.payload] else []
  }

  /** The bodies sent for a key, in order. */
  function SentFor(sent: seq<Patch>, key: string): seq<Payload> {
    if sent == [] then [] else
      var p := sent[|sent| - 1];
      SentFor(sent[..|sent| - 1], key) + if p.key == key then [p.body] else []
  }

  function Flatten(segments: seq<seq<Payload>>): seq<Payload> {
    if segments == [] then [] else Flatten(segments[..|segments| - 1]) + segments[|segments| - 1]
  }

  /** `updates` cut into non-empty segments and an open rest: each body is the fold of a segment,
      the pending payload that of the rest. */
  ghost predicate CutInto(updates: seq<Payload>, bodies: seq<Payload>, pending: Option<Payload>,
                          segments: seq<seq<Payload>>, open: seq<Payload>)
  {
    && updates == Flatten(segments) + open
    && |bodies| == |segments|
    && (forall i :: 0 <= i < |segments| ==> segments[i] != [] && bodies[i] == Fold(segments[i]))
    && pending == if open == [] then None else Some(Fold(open))
  }

  ghost predicate Accounted(updates: seq<Payload>, bodies: seq<Payload>, pending: Option<Payload>) {
    exists segments: seq<seq<Payload>>, open: seq<Payload> :: CutInto(updates, bodies, pending, segments, open)
  }

  function PendingFor(s: State, key: string): Option<Payload> {
    if key in s.payloads then Some(s.payloads[key]) else None
  }

  lemma AccountedUpdate(updates: seq<Payload>, bodies: seq<Payload>, pending: Option<Payload>, p: Payload)
    requires Accounted(updates, bodies, pending)
    ensures Accounted(updates + [p], bodies, Some(Merge(if pending.None? then EMPTY else pending.value, p)))
  {
    var segments, open :| CutInto(updates, bodies, pending, segments, open);
    var longer := open + [p];
    assert longer[..|open|] == open && longer[|open|] == p;
    assert Fold(longer) == Merge(Fold(open), p);
    hide Merge, Fold, Flatten;
    assert Flatten(segments) + open + [p] == Flatten(segments) + longer;
    assert CutInto(updates + [p], bodies, Some(Fold(longer)), segments, longer);
  }

  lemma AccountedFlush(updates: seq<Payload>, bodies: seq<Payload>, pending: Payload)
    requires Accounted(updates, bodies, Some(pending))
    ensures Accounted(updates, bodies + [pending], None)
  {
    var segments, open :| CutInto(updates, bodies, Some(pending), segments, open);
    assert (segments + [open])[..|segments|] == segments;
    assert CutInto(updates, bodies + [pending], None, segments + [open], []);
  }

  /** What a flush does to the account of one key. */
  lemma FlushAccounts(s: State, guildId: Option<string>, key: string, updates: seq<Payload>)
    requires Accounted(updates, SentFor(s.sent, key), PendingFor(s, key))
    ensures var s' := FlushStep(s, guildId); Accounted(updates, SentFor(s'.sent, key), PendingFor(s', key))
  {
    var k := KeyOf(guildId);
    if k in s.payloads {
      var p := Patch(k, Endpoint(guildId), s.payloads[k]);
      assert (s.sent + [p])[..|s.sent|] == s.sent;
      assert SentFor(s.sent, key) + [] == SentFor(s.sent, key);
      if k == key {
        AccountedFlush(updates, SentFor(s.sent, key), s.payloads[k]);
      }
    }
  }

  /** No update is lost or sent twice: in every run the updates of a key are, in order, those of
      its requests, one segment each, and then those still pending. */
  lemma {:induction false} UpdatesAreConserved(es: seq<Event>, key: string)
    ensures Accounted(UpdatesFor(es, key), SentFor(Run(es).sent, key), PendingFor(Run(es), key))
  {
    if es == [] {
      assert CutInto([], [], None, [], []);
    } else {
      var front, e := es[..|es| - 1], es[|es| - 1];
      var s := Run(front);
      UpdatesAreConserved(front, key);
      assert UpdatesFor(front, key) + [] == UpdatesFor(front, key);
      match e
      case Update(guildId, payload, immediately) =>
        var k := KeyOf(guildId);
        var pending := if k in s.payloads then s.payloads[k] else EMPTY;
        var s1 := Disarm(s, k).(payloads := s.payloads[k := Merge(pending, payload)]);
        if k == key {
          AccountedUpdate(UpdatesFor(front, key), SentFor(s.sent, key), PendingFor(s, key), payload);
        }
        FlushAccounts(s1, guildId, key, UpdatesFor(es, key));
      case Fire(timer) =>
        if timer in s.armed {
          FlushAccounts(s.(armed := s.armed - {timer}), s.armed[timer], key, UpdatesFor(es, key));
        }
    }
  }

  /** When no timer is left, every update of every key has been sent. */
  lemma QuietMeansAllSent(es: seq<Event>, key: string)
    requires Run(es).armed == map[]
    ensures exists segments: seq<seq<Payload>> ::
              CutInto(UpdatesFor(es, key), SentFor(Run(es).sent, key), None, segments, [])
  {
    OneTimerPerPendingKey(es);
    UpdatesAreConserved(es, key);
    var segments, open :| CutInto(UpdatesFor(es, key), SentFor(Run(es).sent, key), PendingFor(Run(es), key), segments, open);
    assert key !in Run(es).updates;
  }

  // ---------------------------------------------------------------- at once, or later

  /** The payload, the timer and the guild it is for are those of before, for every key but this. */
  ghost predicate OthersWait(s: State, s': State, key: string) {
    && (forall k :: k != key ==> (k in s'.payloads <==> k in s.payloads) && (k in s.payloads ==> s'.payloads[k] == s.payloads[k]))
    && (forall k :: k != key ==> (k in s'.updates <==> k in s.updates) && (k in s.updates ==> s'.updates[k] == s.updates[k]))
    && (forall t :: t in s.armed && KeyOf(s.armed[t]) != key ==> t in s'.armed && s'.armed[t] == s.armed[t])
    && (forall t :: t in s'.armed && KeyOf(s'.armed[t]) != key ==> t in s.armed)
  }

  /** What is pending for a key, with one more update. */
  function Longer(s: State, key: string, p: Payload): Payload {
    if key in s.payloads then Merge(s.payloads[key], p) else Merge(EMPTY, p)
  }

  /** An immediate update leaves its key without payload and timer, and one request was made: to the
      guild's address, with all that was pending and the update. */
  lemma ImmediateIsSent(s: State, guildId: Option<string>, p: Payload)
    requires Inv(s)
    ensures var key, s' := KeyOf(guildId), Step(s, Update(guildId, p, true));
            && key !in s'.payloads && key !in s'.updates && (forall t :: t in s'.armed ==> KeyOf(s'.armed[t]) != key)
            && |s'.sent| == |s.sent| + 1 && s'.sent[..|s.sent|] == s.sent
            && s'.sent[|s.sent|] == Patch(key, Endpoint(guildId), Longer(s, key, p))
            && OthersWait(s, s', key)
  {
    hide Merge, Endpoint, KeyOf;
  }

  /** A delayed update makes no request: all that is pending for its key, with the update, waits for
      a new timer, which is the key's only one. */
  lemma DelayedWaits(s: State, guildId: Option<string>, p: Payload)
    requires Inv(s)
    ensures var key, s' := KeyOf(guildId), Step(s, Update(guildId, p, false));
            && s'.sent == s.sent
            && key in s'.payloads && s'.payloads[key] == Longer(s, key, p)
            && key in s'.updates && s'.updates[key] !in s.armed
            && (forall t :: t in s'.armed && KeyOf(s'.armed[t]) == key <==> t == s'.updates[key])
            && s'.armed[s'.updates[key]] == guildId
            && OthersWait(s, s', key)
  {
    DelayedTimer(s, guildId, p);
    DelayedOthers(s, guildId, p);
    hide Step, Inv, OthersWait, KeyOf, Longer;
  }

  lemma DelayedTimer(s: State, guildId: Option<string>, p: Payload)
    requires Inv(s)
    ensures var key, s' := KeyOf(guildId), Step(s, Update(guildId, p, false));
            && s'.sent == s.sent
            && key in s'.payloads && s'.payloads[key] == Longer(s, key, p)
            && key in s'.updates && s'.updates[key] !in s.armed
            && (forall t :: t in s'.armed && KeyOf(s'.armed[t]) == key <==> t == s'.updates[key])
            && s'.armed[s'.updates[key]] == guildId
  {
    hide Merge, Endpoint, KeyOf;
  }

  lemma DelayedOthers(s: State, guildId: Option<string>, p: Payload)
    requires Inv(s)
    ensures OthersWait(s, Step(s, Update(guildId, p, false)), KeyOf(guildId))
  {
    hide Merge, Endpoint, KeyOf;
  }

  /** A live timer sends what is pending for its key; one that was replaced or has fired does nothing. */
  lemma FireSends(s: State, timer: nat)
    requires Inv(s)
    ensures var s' := Step(s, Fire(timer));
            if timer !in s.armed then s' == s
            else
              var key := KeyOf(s.armed[timer]);
              && key in s.payloads && key !in s'.payloads && key !in s'.updates
              && (forall t :: t in s'.armed ==> KeyOf(s'.armed[t]) != key)
              && |s'.sent| == |s.sent| + 1 && s'.sent[..|s.sent|] == s.sent
              && s'.sent[|s.sent|] == Patch(key, Endpoint(s.armed[timer]), s.payloads[key])
              && OthersWait(s, s', key)
  {
    hide Merge, Endpoint, KeyOf;
  }

  /** How many of the events are immediate updates, or timers that fire while they are live. */
  function Occasions(es: seq<Event>): nat {
    if es == [] then 0 else
      var front, e := es[..|es| - 1], es[|es| - 1];
      Occasions(front) + if (e.Update? && e.immediately) || (e.Fire? && e.timer in Run(front).armed) then 1 else 0
  }

  /** In every run there is one request for each immediate update and each live timer that fires, and
      there are no others: delayed updates make none. */
  lemma {:induction false} RequestsHaveOccasions(es: seq<Event>)
    ensures |Run(es).sent| == Occasions(es)
  {
    if es != [] {
      var front, e := es[..|es| - 1], es[|es| - 1];
      RequestsHaveOccasions(front);
      OneTimerPerPendingKey(front);
      hide Step, Inv;
      match e
      case Update(guildId, payload, immediately) =>
        ImmediateIsSent(Run(front), guildId, payload);
        DelayedWaits(Run(front), guildId, payload);
      case Fire(timer) =>
        FireSends(Run(front), timer);
    }
  }

  // ---------------------------------------------------------------- whose settings

  /** Keys agree for the same guild only, private channels being that of `@me`; and so do addresses. */
  lemma KeysAreGuilds(a: Option<string>, b: Option<string>)
    ensures KeyOf(a) == KeyOf(b) <==> a == b || (a.None? && b == Some("@me")) || (a == Some("@me") && b.None?)
    ensures Endpoint(a) == Endpoint(b) <==> KeyOf(a) == KeyOf(b)
  {
    EndpointOfKey(a);
    EndpointOfKey(b);
    var x, y := KeyOf(a), KeyOf(b);
    var front, back := "/users/@me/guilds/", "/settings";
    assert Endpoint(Some(x)) == front + x + back && Endpoint(Some(y)) == front + y + back;
    hide Endpoint, KeyOf;
    Between(front, x, y, back);
  }

  lemma Between(front: string, x: string, y: string, back: string)
    ensures front + x + back == front + y + back <==> x == y
  {
    var s, t := front + x + back, front + y + back;
    assert s[|front|..|s| - |back|] == x && t[|front|..|t| - |back|] == y;
  }

  /** A field of an override is as changed, else as stored, else the default. */
  lemma ChangedElseStoredElseDefault(channelId: string, stored: Override, change: Override, field: string)
    ensures var o := NewOverride(channelId, stored, change);
            && (field in change ==> field in o && o[field] == change[field])
            && (field !in change && field in stored ==> field in o && o[field] == stored[field])
            && (field !in change && field !in stored ==>
                  (field in o <==> field in {"channel_id", "collapsed", "message_notifications", "muted", "mute_config"})
                  && (field == "channel_id" ==> o[field] == Str(channelId))
                  && (field == "collapsed" || field == "muted" ==> o[field] == Bool(false))
                  && (field == "message_notifications" ==> o[field] == Num(INHERIT))
                  && (field == "mute_config" ==> o[field] == Null))
  {
  }

  /** The update for one channel's override carries the stored ones, this one replaced or removed; and
      asks for clearing exactly if none is left. */
  lemma OverrideIsReplaced(stored: map<string, Override>, channelId: string, override: Option<Override>)
    ensures var p := OverridePayload(stored, channelId, override);
            && p.fields == map[]
            && (p.overrides.Cleared? <==> override.None? && stored.Keys <= {channelId})
            && (!p.overrides.Cleared? ==>
                  && p.overrides.Channels?
                  && (channelId in p.overrides.m <==> override.Some?)
                  && (override.Some? ==> p.overrides.m[channelId] == override.value)
                  && forall c :: c != channelId ==>
                       (c in p.overrides.m <==> c in stored) && (c in stored ==> p.overrides.m[c] == stored[c]))
  {
    assert override.None? && stored.Keys <= {channelId} <==> override.None? && stored - {channelId} == map[] by {
      assert forall k :: k in stored && k != channelId ==> k in stored - {channelId};
    }
    assert override.Some? ==> channelId in stored[channelId := override.value];
  }
}
