/** Ringing once connected: starting a call arms a latch that rings when the voice connection of
    that channel comes up. */
module CallRing {
  import opened Wrappers

  /** A live `reaction`, which runs whenever the voice connection changes. */
  datatype Reaction = Reaction(id: nat, channelId: string)

  datatype PendingRing = PendingRing(channelId: string, recipients: seq<string>, reaction: nat)

  datatype Ring = Ring(channelId: string, recipients: seq<string>)

  /** The latch, the live reactions, the voice connection, and the rings sent so far. */
  datatype State = State(pending: Option<PendingRing>, reactions: seq<Reaction>, next: nat,
                         connected: bool, channelId: Option<string>, rings: seq<Ring>)

  /** `Start`: `user` is the current user, `members` the recipients of the channel, none if the
      channel is not known. `Voice`: a new value of the voice connection. */
  datatype Event =
    | Start(channel: string, silent: bool, user: Option<string>, members: seq<string>)
    | Leave(channel: string, hasUser: bool)
    | Voice(connected: bool, channelId: Option<string>)

  /** Everyone but the user, as often and in the order they are listed. */
  function Recipients(user: string, members: seq<string>): (r: seq<string>)
    ensures user !in r
    ensures multiset(r) == multiset(members)[user := 0]
  {
    if members == [] then [] else
      assert members == [members[0]] + members[1..];
      (if members[0] == user then [] else [members[0]]) + Recipients(user, members[1..])
  }

  function Dispose(reactions: seq<Reaction>, id: nat): seq<Reaction> {
    if reactions == [] then []
    else (if reactions[0].id == id then [] else [reactions[0]]) + Dispose(reactions[1..], id)
  }

  function ClearPending(s: State): State {
    if s.pending.None? then s else s.(pending := None, reactions := Dispose(s.reactions, s.pending.value.reaction))
  }

  /** What a reaction does when it runs. */
  function Effect(s: State, channelId: string): State {
    if s.connected && s.channelId == Some(channelId) && s.pending.Some? && s.pending.value.channelId == channelId then
      ClearPending(s.(rings := s.rings + [Ring(channelId, s.pending.value.recipients)]))
    else s
  }

  /** All reactions of `rs` run that are still live. */
  function Effects(s: State, rs: seq<Reaction>): State
    decreases |rs|
  {
    if rs == [] then s else Effects(if rs[0] in s.reactions then Effect(s, rs[0].channelId) else s, rs[1..])
  }

  /** `setupPendingRing`: the reaction runs at once, before the latch is set. */
  function Setup(s: State, channelId: string, recipients: seq<string>): State {
    var c := ClearPending(s);
    var r := Effect(c.(reactions := c.reactions + [Reaction(c.next, channelId)], next := c.next + 1), channelId);
    r.(pending := Some(PendingRing(channelId, recipients, c.next)))
  }

  function Step(s: State, e: Event): State {
    match e
    case Start(channel, silent, user, members) =>
      if user.None? then s
      else if silent then var c := ClearPending(s); c.(rings := c.rings + [Ring(channel, [])])
      else Setup(s, channel, Recipients(user.value, members))
    case Leave(channel, hasUser) =>
      if hasUser && s.pending.Some? && s.pending.value.channelId == channel then ClearPending(s) else s
    case Voice(connected, channelId) =>
      if connected == s.connected && channelId == s.channelId then s
      else Effects(s.(connected := connected, channelId := channelId), s.reactions)
  }

  function Run(s: State, es: seq<Event>): State {
    if es == [] then s else Step(Run(s, es[..|es| - 1]), es[|es| - 1])
  }

  // ---------------------------------------------------------------- the code

  class CallActions {
    var pending: Option<PendingRing>
    var reactions: seq<Reaction>
    var next: nat
    var connected: bool
    var channelId: Option<string>
    var rings: seq<Ring>

    function Now(): State
      reads this
    {
      State(pending, reactions, next, connected, channelId, rings)
    }

    constructor ()
      ensures Now() == State(None, [], 0, false, None, [])
    {
      pending, reactions, next, connected, channelId, rings := None, [], 0, false, None, [];
    }

    method ClearPendingRing()
      modifies this
      ensures Now() == ClearPending(old(Now()))
    {
      if pending.Some? {
        reactions := Dispose(reactions, pending.value.reaction);
        pending := None;
      }
    }

    method RunReaction(channel: string)
      modifies this
      ensures Now() == Effect(old(Now()), channel)
    {
      if connected && channelId == Some(channel) && pending.Some? && pending.value.channelId == channel {
        rings := rings + [Ring(channel, pending.value.recipients)];
        ClearPendingRing();
      }
    }

    method SetupPendingRing(channel: string, recipients: seq<string>)
      modifies this
      ensures Now() == Setup(old(Now()), channel, recipients)
    {
      ClearPendingRing();
      var id := next;
      next := next + 1;
      reactions := reactions + [Reaction(id, channel)];
      RunReaction(channel);
      pending := Some(PendingRing(channel, recipients, id));
    }

    method StartCall(channel: string, silent: bool, user: Option<string>, members: seq<string>)
      modifies this
      ensures Now() == Step(old(Now()), Start(channel, silent, user, members))
    {
      if user.None? {
        return;
      }
      var recipients := Recipients(user.value, members);
      if silent {
        ClearPendingRing();
        rings := rings + [Ring(channel, [])];
      } else {
        SetupPendingRing(channel, recipients);
      }
    }

    method LeaveCall(channel: string, hasUser: bool)
      modifies this
      ensures Now() == Step(old(Now()), Leave(channel, hasUser))
    {
      if !hasUser {
        return;
      }
      if pending.Some? && pending.value.channelId == channel {
        ClearPendingRing();
      }
    }

    /** The voice connection changes, and the live reactions run. */
    method VoiceChanges(connected': bool, channelId': Option<string>)
      modifies this
      ensures Now() == Step(old(Now()), Voice(connected', channelId'))
    {
      if connected' == connected && channelId' == channelId {
        return;
      }
      connected, channelId := connected', channelId';
      var rs := reactions;
      ghost var result := Effects(Now(), rs);
      var k := 0;
      while k < |rs|
        invariant k <= |rs| && Effects(Now(), rs[k..]) == result
      {
        if rs[k] in reactions {
          RunReaction(rs[k].channelId);
        }
        k := k + 1;
      }
    }
  }

  // ---------------------------------------------------------------- all runs

  /** The latch is set exactly while its one reaction lives. */
  predicate Inv(s: State) {
    s.reactions == if s.pending.None? then [] else [Reaction(s.pending.value.reaction, s.pending.value.channelId)]
  }

  /** The voice connection of `channel` comes up, or changes to it. */
  predicate Connects(s: State, e: Event, channel: string) {
    e.Voice? && e.connected && e.channelId == Some(channel) && (s.connected, s.channelId) != (e.connected, e.channelId)
  }

  predicate Starts(e: Event) {
    e.Start? && e.user.Some?
  }

  predicate Leaves(e: Event, channel: string) {
    e.Leave? && e.hasUser && e.channel == channel
  }

  /** What an event does while the latch is the only one with a reaction. */
  lemma StepOnInv(s: State, e: Event)
    requires Inv(s)
    ensures var s' := Step(s, e);
            && Inv(s')
            && (Starts(e) && !e.silent ==>
                  && s'.rings == s.rings && s'.pending.Some?
                  && s'.pending.value.channelId == e.channel && s'.pending.value.recipients == Recipients(e.user.value, e.members))
            && (Starts(e) && e.silent ==> s'.rings == s.rings + [Ring(e.channel, [])] && s'.pending.None?)
            && (!Starts(e) && s.pending.None? ==> s'.rings == s.rings && s'.pending.None?)
            && (!Starts(e) && s.pending.Some? ==>
                  var p := s.pending.value;
                  && s'.rings == s.rings + (if Connects(s, e, p.channelId) then [Ring(p.channelId, p.recipients)] else [])
                  && s'.pending == if Connects(s, e, p.channelId) || Leaves(e, p.channelId) then None else s.pending)
  {
    hide Recipients;
    if s.pending.Some? {
      assert Dispose(s.reactions, s.pending.value.reaction) == [] by {
        assert s.reactions[1..] == [];
      }
    }
    if e.Voice? && s.pending.Some? {
      var r := s.reactions;
      var t := s.(connected := e.connected, channelId := e.channelId);
      assert r[1..] == [];
      assert r[0] in t.reactions;
      assert Effects(t, r) == Effect(t, r[0].channelId);
      assert Effect(t, r[0].channelId).pending.Some? ==> Effect(t, r[0].channelId) == t;
    }
  }

  lemma {:induction false} EveryRunKeepsInv(s: State, es: seq<Event>)
    requires Inv(s)
    ensures Inv(Run(s, es))
  {
    if es != [] {
      hide Inv, Step;
      EveryRunKeepsInv(s, es[..|es| - 1]);
      StepOnInv(Run(s, es[..|es| - 1]), es[|es| - 1]);
    }
  }

  /** Start `j` is the one that a ring at `i` would be for: a call was started, and since then none
      was started, its channel was not left, and its connection did not come up. */
  ghost predicate Armed(s: State, es: seq<Event>, j: int, i: int) {
    && 0 <= j < i <= |es|
    && Starts(es[j]) && !es[j].silent
    && forall k :: j < k < i ==> !Starts(es[k]) && !Leaves(es[k], es[j].channel) && !Connects(Run(s, es[..k]), es[k], es[j].channel)
  }

  lemma RunSnoc(s: State, es: seq<Event>, i: nat)
    requires i < |es|
    ensures Run(s, es[..i + 1]) == Step(Run(s, es[..i]), es[i])
  {
    assert es[..i + 1][..i] == es[..i];
  }

  /** The latch before event `i` holds the channel and recipients of the start that armed it. */
  lemma {:induction false} LatchIsArmed(s: State, es: seq<Event>, i: nat) returns (j: int)
    requires Inv(s) && s.pending.None? && i <= |es|
    ensures var p := Run(s, es[..i]).pending;
            if p.None? then forall k :: !Armed(s, es, k, i)
            else
              && Armed(s, es, j, i) && (forall k :: Armed(s, es, k, i) ==> k == j)
              && p.value.channelId == es[j].channel
              && p.value.recipients == Recipients(es[j].user.value, es[j].members)
  {
    if i == 0 {
      assert es[..0] == [];
      return -1;
    }
    hide Step, Inv, Recipients, Leaves, Connects, Armed, Run, Starts;
    j := LatchIsArmed(s, es, i - 1);
    EveryRunKeepsInv(s, es[..i - 1]);
    RunSnoc(s, es, i - 1);
    StepOnInv(Run(s, es[..i - 1]), es[i - 1]);
    if Starts(es[i - 1]) {
      StartArms(s, es, i);
      j := i - 1;
    } else {
      OtherArms(s, es, i);
    }
  }

  /** A start, if it is not silent, arms the latch; no earlier one does any more. */
  lemma StartArms(s: State, es: seq<Event>, i: nat)
    requires 0 < i <= |es| && Starts(es[i - 1])
    ensures forall j :: Armed(s, es, j, i) <==> j == i - 1 && !es[j].silent
  {
    hide Leaves, Connects, Run;
  }

  /** Any other event leaves armed what it does not end. */
  lemma OtherArms(s: State, es: seq<Event>, i: nat)
    requires 0 < i <= |es| && !Starts(es[i - 1])
    ensures forall j :: Armed(s, es, j, i) ==> Armed(s, es, j, i - 1)
    ensures forall j :: Armed(s, es, j, i - 1) ==>
              (Armed(s, es, j, i) <==>
                !Leaves(es[i - 1], es[j].channel) && !Connects(Run(s, es[..i - 1]), es[i - 1], es[j].channel))
  {
    hide Leaves, Connects, Run;
  }

  /** In every run, a change of the voice connection rings exactly if it brings up the channel of a
      started call that nothing has ended since: it rings once, with that call's recipients. */
  lemma RingsExactly(s: State, es: seq<Event>, i: nat)
    requires Inv(s) && s.pending.None? && i < |es| && es[i].Voice?
    ensures var before, after := Run(s, es[..i]), Run(s, es[..i + 1]);
            && (after.rings != before.rings <==> exists j :: Armed(s, es, j, i) && Connects(before, es[i], es[j].channel))
            && (forall j :: Armed(s, es, j, i) && Connects(before, es[i], es[j].channel) ==>
                  after.rings == before.rings + [Ring(es[j].channel, Recipients(es[j].user.value, es[j].members))])
  {
    hide Step, Inv, Recipients, Armed, Connects;
    var j := LatchIsArmed(s, es, i);
    EveryRunKeepsInv(s, es[..i]);
    RunSnoc(s, es, i);
    StepOnInv(Run(s, es[..i]), es[i]);
  }

  function StartCount(es: seq<Event>): nat {
    if es == [] then 0 else StartCount(es[..|es| - 1]) + if Starts(es[|es| - 1]) then 1 else 0
  }

  /** No call rings twice: in every run there are at most as many rings as calls started, silent
      ones included, and one less while the latch is set. */
  lemma {:induction false} NoMoreRingsThanStarts(s: State, es: seq<Event>)
    requires Inv(s) && s.pending.None?
    ensures var r := Run(s, es);
            |r.rings| + (if r.pending.Some? then 1 else 0) <= |s.rings| + StartCount(es)
  {
    if es != [] {
      hide Step, Inv, Recipients, Connects;
      NoMoreRingsThanStarts(s, es[..|es| - 1]);
      EveryRunKeepsInv(s, es[..|es| - 1]);
      StepOnInv(Run(s, es[..|es| - 1]), es[|es| - 1]);
    }
  }

  lemma StillConnected(s: State, e: Event)
    requires e.Leave? || e == Voice(s.connected, s.channelId)
    ensures var s' := Step(s, e); s'.rings == s.rings && s'.connected == s.connected && s'.channelId == s.channelId
  {
  }

  /** A call that is started while its channel is connected already does not ring as long as the
      connection stays as it is. */
  lemma {:induction false} AlreadyConnectedDoesNotRing(s: State, start: Event, es: seq<Event>)
    requires Starts(start) && !start.silent
    requires Inv(s) && s.connected && s.channelId == Some(start.channel)
    requires forall i :: 0 <= i < |es| ==> es[i].Leave? || es[i] == Voice(s.connected, s.channelId)
    ensures var r := Run(Step(s, start), es);
            r.rings == s.rings && r.connected && r.channelId == s.channelId
  {
    hide Recipients, Inv;
    StepOnInv(s, start);
    if es != [] {
      var front := es[..|es| - 1];
      AlreadyConnectedDoesNotRing(s, start, front);
      StillConnected(Run(Step(s, start), front), es[|es| - 1]);
    }
  }

  /** The voice connection is as its last change says, ... */
  lemma {:induction false} VoiceIsRemembered(s: State, es: seq<Event>, i: nat)
    requires Inv(s) && i < |es| && es[i].Voice?
    requires forall j :: i < j < |es| ==> !es[j].Voice?
    ensures Run(s, es).connected == es[i].connected && Run(s, es).channelId == es[i].channelId
  {
    hide Step, Inv, Run;
    var n := |es| - 1;
    var front := es[..n];
    RunLast(s, es);
    EveryRunKeepsInv(s, front);
    VoiceMoves(Run(s, front), es[n]);
    if i < n {
      assert front[i] == es[i];
      assert forall j :: i < j < n ==> front[j] == es[j];
      VoiceIsRemembered(s, front, i);
    }
  }

  /** ... and nothing but a change moves it. */
  lemma {:induction false} VoiceStays(s: State, es: seq<Event>)
    requires Inv(s) && forall j :: 0 <= j < |es| ==> !es[j].Voice?
    ensures Run(s, es).connected == s.connected && Run(s, es).channelId == s.channelId
  {
    if es != [] {
      hide Step, Inv, Run;
      var n := |es| - 1;
      var front := es[..n];
      RunLast(s, es);
      EveryRunKeepsInv(s, front);
      VoiceMoves(Run(s, front), es[n]);
      assert forall j :: 0 <= j < n ==> front[j] == es[j];
      VoiceStays(s, front);
    }
  }

  lemma RunLast(s: State, es: seq<Event>)
    requires es != []
    ensures Run(s, es) == Step(Run(s, es[..|es| - 1]), es[|es| - 1])
  {
  }

  lemma VoiceMoves(s: State, e: Event)
    requires Inv(s)
    ensures var s' := Step(s, e);
            if e.Voice? then s'.connected == e.connected && s'.channelId == e.channelId
            else s'.connected == s.connected && s'.channelId == s.channelId
  {
    hide Recipients;
    if e.Voice? {
      EffectsKeepVoice(s.(connected := e.connected, channelId := e.channelId), s.reactions);
    }
  }

  lemma {:induction false} EffectsKeepVoice(s: State, rs: seq<Reaction>)
    ensures Effects(s, rs).connected == s.connected && Effects(s, rs).channelId == s.channelId
    decreases |rs|
  {
    if rs != [] {
      EffectsKeepVoice(if rs[0] in s.reactions then Effect(s, rs[0].channelId) else s, rs[1..]);
    }
  }

  /** Disposing of a reaction leaves just the others. */
  lemma {:induction false} DisposeIsExact(reactions: seq<Reaction>, id: nat)
    ensures forall r :: r in Dispose(reactions, id) <==> r in reactions && r.id != id
    ensures |Dispose(reactions, id)| <= |reactions|
  {
    if reactions != [] {
      DisposeIsExact(reactions[1..], id);
    }
  }

  lemma RecipientsCons(user: string, a: seq<string>)
    requires a != []
    ensures Recipients(user, a) == (if a[0] == user then [] else [a[0]]) + Recipients(user, a[1..])
  {
  }

  /** The recipients keep the order of the channel's. */
  lemma {:induction false} RecipientsInOrder(user: string, a: seq<string>, b: seq<string>)
    ensures Recipients(user, a + b) == Recipients(user, a) + Recipients(user, b)
    decreases |a|
  {
    if a == [] {
      assert a + b == b;
    } else {
      hide Recipients;
      RecipientsInOrder(user, a[1..], b);
      RecipientsCons(user, a);
      RecipientsCons(user, a + b);
      FirstOfBoth(a, b);
      Regroup(if a[0] == user then [] else [a[0]], Recipients(user, a[1..]), Recipients(user, b));
    }
  }
}
