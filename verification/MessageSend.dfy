/** The send path of direct messages: encrypt, or ask before sending in the clear. */
module MessageSend {
  import opened Wrappers

  datatype ChannelType = Dm | GroupDm | OtherType

  /** `MessageFlags.ENCRYPTED` */
  const ENCRYPTED: bv32 := 0x4_0000

  /** The parameters of a send that its path depends on. */
  datatype Params = Params(content: string, nonce: string, hasAttachments: bool, stickers: nat, flags: Option<bv32>,
                           skipE2EE: bool, isRetry: bool)

  /** What is handed to the queue. */
  datatype Job = Job(channelId: string, nonce: string, content: string, flags: Option<bv32>, isRetry: bool, payload: Option<string>)

  /** Where a send pauses: while its files, or its text, are encrypted. */
  datatype Stage = Files | Encrypting

  /** A send under way, with the type its channel had when it began; `envelope` says that its files
      are encrypted. */
  datatype Send = Send(channelId: string, params: Params, kind: Option<ChannelType>, stage: Stage, envelope: bool)

  /** The open question whether to send without encryption. */
  datatype Prompt = Prompt(channelId: string, params: Params)

  /** A job with its send's parameters, the type its channel had when the send began (none if the
      channel store did not have it), whether channel and user were known when it was to be
      encrypted, and whether its files are encrypted. */
  datatype Entry = Entry(job: Job, params: Params, kind: Option<ChannelType>, known: bool, envelope: bool)

  /** The stores that are read, the sends under way, the open prompts and the jobs enqueued; and
      as a record of the past, the nonces of the prompts raised and confirmed, and two counts. */
  datatype State = State(
    channels: map<string, ChannelType>, user: Option<string>, uploads: map<string, nat>,
    sends: map<nat, Send>, prompts: map<nat, Prompt>, next: nat, queue: seq<Entry>,
    raised: seq<string>, confirmed: seq<string>, begun: nat, lost: nat)

  /** Nothing sent yet, whatever the stores hold. */
  function Fresh(channels: map<string, ChannelType>, user: Option<string>, uploads: map<string, nat>): State {
    State(channels, user, uploads, map[], map[], 0, [], [], [], 0, 0)
  }

  /** The outcome of `tryEncryptForChannel`. */
  datatype Encryption = Encrypted(payload: string) | NotPossible | Threw

  datatype Event =
    | Begin(channelId: string, params: Params)
    | FilesDone(id: nat, ok: bool)
    | EncryptDone(id: nat, outcome: Encryption)
    | Confirm(prompt: nat)
    | Dismiss(prompt: nat)
    | SetChannel(channelId: string, kind: Option<ChannelType>)
    | SetUser(user: Option<string>)
    | SetUpload(nonce: string, files: nat)

  /** `ChannelStore.getChannel(channelId)?.type` */
  function KindOf(channels: map<string, ChannelType>, channelId: string): Option<ChannelType> {
    if channelId in channels then Some(channels[channelId]) else None
  }

  predicate Eligible(kind: Option<ChannelType>) {
    kind == Some(Dm) || kind == Some(GroupDm)
  }

  /** `channel && userId` */
  predicate Known(s: State, channelId: string) {
    channelId in s.channels && s.user.Some? && s.user.value != ""
  }

  function WithFlag(flags: Option<bv32>): bv32 {
    (if flags.None? then 0 else flags.value) | ENCRYPTED
  }

  function PlainJob(channelId: string, p: Params): Job {
    Job(channelId, p.nonce, p.content, p.flags, p.isRetry, None)
  }

  /** The job of an encrypted send. */
  function SealedEntry(f: Send, payload: string): Entry {
    Entry(Job(f.channelId, f.params.nonce, "", Some(WithFlag(f.params.flags)), f.params.isRetry, Some(payload)), f.params, f.kind,
          true, f.envelope)
  }

  function Enqueue(s: State, e: Entry): State {
    s.(queue := s.queue + [e])
  }

  /** `promptUnencryptedFallback` */
  function Ask(s: State, channelId: string, p: Params): State {
    s.(prompts := s.prompts[s.next := Prompt(channelId, p)], next := s.next + 1, raised := s.raised + [p.nonce])
  }

  function Pause(s: State, f: Send): State {
    s.(sends := s.sends[s.next := f], next := s.next + 1)
  }

  /** From the second look at the stores on: encrypt, or enqueue as is if the channel or the user
      is gone. */
  function ToEncrypt(s: State, f: Send): State {
    if Known(s, f.channelId) then Pause(s, f.(stage := Encrypting))
    else Enqueue(s, Entry(PlainJob(f.channelId, f.params), f.params, f.kind, false, f.envelope))
  }

  /** `send` up to its first pause. */
  function BeginSend(s0: State, channelId: string, p: Params): State {
    var s, kind := s0.(begun := s0.begun + 1), KindOf(s0.channels, channelId);
    if Eligible(kind) && !p.skipE2EE then
      if p.stickers > 0 then Ask(s, channelId, p)
      else if p.hasAttachments then
        if p.nonce !in s.uploads || s.uploads[p.nonce] == 0 then Ask(s, channelId, p)
        else Pause(s, Send(channelId, p, kind, Files, false))
      else ToEncrypt(s, Send(channelId, p, kind, Encrypting, false))
    else Enqueue(s, Entry(PlainJob(channelId, p), p, kind, true, false))
  }

  function Step(s: State, e: Event): State {
    match e
    case Begin(channelId, params) => BeginSend(s, channelId, params)
    case FilesDone(id, ok) =>
      if id !in s.sends || s.sends[id].stage != Files then s else
        var f := s.sends[id];
        var s' := s.(sends := s.sends - {id});
        if ok then ToEncrypt(s', f.(envelope := true)) else Ask(s', f.channelId, f.params)
    case EncryptDone(id, outcome) =>
      if id !in s.sends || s.sends[id].stage != Encrypting then s else
        var f := s.sends[id];
        var s' := s.(sends := s.sends - {id});
        (match outcome
         case Encrypted(payload) =>
           Enqueue(s', SealedEntry(f, payload))
         case NotPossible => Ask(s', f.channelId, f.params)
         case Threw => s'.(lost := s'.lost + 1))
    case Confirm(prompt) =>
      if prompt !in s.prompts then s else
        var q := s.prompts[prompt];
        BeginSend(s.(prompts := s.prompts - {prompt}, confirmed := s.confirmed + [q.params.nonce]),
                  q.channelId, q.params.(skipE2EE := true, isRetry := true))
    case Dismiss(prompt) => s.(prompts := s.prompts - {prompt})
    case SetChannel(channelId, kind) =>
      s.(channels := if kind.None? then s.channels - {channelId} else s.channels[channelId := kind.value])
    case SetUser(user) => s.(user := user)
    case SetUpload(nonce, files) => s.(uploads := s.uploads[nonce := files])
  }

  function Run(s: State, es: seq<Event>): State
    decreases |es|
  {
    if es == [] then s else Run(Step(s, es[0]), es[1..])
  }

  /** Only the prompt itself sets `skipE2EE`. */
  predicate Honest(e: Event) {
    e.Begin? ==> !e.params.skipE2EE
  }

  // ---------------------------------------------------------------- the code

  /** The stores that `send` reads, and what its calls leave pending and enqueued. */
  class Client {
    var channels: map<string, ChannelType>
    var user: Option<string>
    var uploads: map<string, nat>
    var sends: map<nat, Send>
    var prompts: map<nat, Prompt>
    var next: nat
    var queue: seq<Entry>
    var raised: seq<string>
    var confirmed: seq<string>
    var begun: nat
    var lost: nat

    constructor (channels0: map<string, ChannelType>, user0: Option<string>, uploads0: map<string, nat>)
      ensures Now() == Fresh(channels0, user0, uploads0)
    {
      channels, user, uploads := channels0, user0, uploads0;
      sends, prompts, next, queue := map[], map[], 0, [];
      raised, confirmed, begun, lost := [], [], 0, 0;
    }

    function Now(): State
      reads this
    {
      State(channels, user, uploads, sends, prompts, next, queue, raised, confirmed, begun, lost)
    }

    /** `send` up to its first pause. */
    method SendMessage(channelId: string, params: Params)
      modifies this
      ensures Now() == BeginSend(old(Now()), channelId, params)
    {
      begun := begun + 1;
      var known := true;
      var kind := if channelId in channels then Some(channels[channelId]) else None;
      var e2eeEligible := kind.Some? && (kind.value == Dm || kind.value == GroupDm);
      if e2eeEligible && !params.skipE2EE {
        if params.stickers > 0 {
          PromptUnencryptedFallback(channelId, params);
          return;
        }
        if params.hasAttachments {
          if params.nonce !in uploads || uploads[params.nonce] == 0 {
            PromptUnencryptedFallback(channelId, params);
          } else {
            sends := sends[next := Send(channelId, params, kind, Files, false)];
            next := next + 1;
          }
          return;
        }
        if channelId in channels && user.Some? && user.value != "" {
          sends := sends[next := Send(channelId, params, kind, Encrypting, false)];
          next := next + 1;
          return;
        }
        known := false;
      }
      var job := Job(channelId, params.nonce, params.content, params.flags, params.isRetry, None);
      queue := queue + [Entry(job, params, kind, known, false)];
    }

    /** Raises a question about this send, under a new id, beside those that are open. */
    method PromptUnencryptedFallback(channelId: string, params: Params)
      modifies this`prompts, this`next, this`raised
      ensures next > old(next) && old(next) in prompts && prompts[old(next)] == Prompt(channelId, params)
      ensures prompts.Keys == old(prompts).Keys + {old(next)}
      ensures forall id :: id in old(prompts) && id != old(next) ==> prompts[id] == old(prompts)[id]
      ensures Now() == Ask(old(Now()), channelId, params)
    {
      prompts := prompts[next := Prompt(channelId, params)];
      next := next + 1;
      raised := raised + [params.nonce];
    }

    /** `send` once its files are encrypted, or could not be. */
    method AfterFiles(id: nat, ok: bool)
      requires id in sends && sends[id].stage == Files
      modifies this
      ensures Now() == Step(old(Now()), FilesDone(id, ok))
    {
      var Send(channelId, params, kind, _, _) := sends[id];
      sends := sends - {id};
      if !ok {
        PromptUnencryptedFallback(channelId, params);
        return;
      }
      if channelId in channels && user.Some? && user.value != "" {
        sends := sends[next := Send(channelId, params, kind, Encrypting, true)];
        next := next + 1;
        return;
      }
      var job := Job(channelId, params.nonce, params.content, params.flags, params.isRetry, None);
      queue := queue + [Entry(job, params, kind, false, true)];
    }

    /** `send` once its text is encrypted, or could not be; an exception ends it for good. */
    method AfterEncryption(id: nat, outcome: Encryption)
      requires id in sends && sends[id].stage == Encrypting
      modifies this
      ensures Now() == Step(old(Now()), EncryptDone(id, outcome))
    {
      var Send(channelId, params, kind, _, envelope) := sends[id];
      var effectiveContent := params.content;
      var effectiveFlags := params.flags;
      var encryptedPayload: Option<string> := None;
      sends := sends - {id};
      if outcome.Threw? {
        lost := lost + 1;
        return;
      }
      if outcome.Encrypted? {
        encryptedPayload := Some(outcome.payload);
        effectiveContent := "";
        effectiveFlags := Some((if effectiveFlags.Some? then effectiveFlags.value else 0) | ENCRYPTED);
      } else {
        PromptUnencryptedFallback(channelId, params);
        return;
      }
      var job := Job(channelId, params.nonce, effectiveContent, effectiveFlags, params.isRetry, encryptedPayload);
      queue := queue + [Entry(job, params, kind, true, envelope)];
    }

    /** The prompt's primary button. */
    method SendUnencrypted(prompt: nat)
      requires prompt in prompts
      modifies this
      ensures Now() == Step(old(Now()), Confirm(prompt))
    {
      var Prompt(channelId, params) := prompts[prompt];
      prompts := prompts - {prompt};
      confirmed := confirmed + [params.nonce];
      SendMessage(channelId, params.(skipE2EE := true, isRetry := true));
    }
  }

  // ---------------------------------------------------------------- all runs

  /** Encrypted: no text, the flag set, and the caller's other flags kept; no stickers, and no files
      but encrypted ones. */
  predicate Sealed(e: Entry) {
    && e.job.payload.Some? && e.job.content == ""
    && e.job.flags.Some? && e.job.flags.value & ENCRYPTED == ENCRYPTED
    && (e.params.flags.Some? ==> e.job.flags.value & e.params.flags.value == e.params.flags.value)
    && e.params.stickers == 0 && (e.params.hasAttachments ==> e.envelope)
  }

  /** In the clear, exactly as the caller gave it. */
  predicate Clear(e: Entry) {
    e.job.payload.None? && e.job.content == e.params.content && e.job.flags == e.params.flags
  }

  /** The job of a confirmed prompt is in the clear; any other is sealed exactly if its channel was
      known to be a DM or group DM when its send began, and channel and user were known when it
      was to be encrypted. */
  predicate Proper(e: Entry, confirmed: seq<string>) {
    && e.job.nonce == e.params.nonce
    && if e.params.skipE2EE then Clear(e) && e.params.nonce in confirmed
       else if Eligible(e.kind) && e.known then Sealed(e)
       else Clear(e)
  }

  predicate AllProper(queue: seq<Entry>, confirmed: seq<string>) {
    forall i :: 0 <= i < |queue| ==> Proper(queue[i], confirmed)
  }

  /** A send under way is to be encrypted, has no stickers, and its files come before its text. */
  predicate Encrypts(f: Send) {
    && !f.params.skipE2EE && f.params.stickers == 0 && Eligible(f.kind)
    && (f.params.hasAttachments ==> f.stage == Files || f.envelope)
  }

  ghost predicate SendsEncrypt(sends: map<nat, Send>, next: nat) {
    forall id :: id in sends ==> id < next && Encrypts(sends[id])
  }

  ghost predicate PromptsWereRaised(prompts: map<nat, Prompt>, next: nat, raised: seq<string>) {
    forall id :: id in prompts ==> id < next && !prompts[id].params.skipE2EE && prompts[id].params.nonce in raised
  }

  /** Only raised prompts are confirmed, and each of them once. */
  ghost predicate ConfirmedWereRaised(confirmed: seq<string>, open: nat, raised: seq<string>) {
    && (forall n :: n in confirmed ==> n in raised)
    && |confirmed| + open <= |raised|
  }

  predicate AskedWereConfirmed(queue: seq<Entry>, confirmed: seq<string>) {
    multiset(Asked(queue)) <= multiset(confirmed)
  }

  /** What holds while `owed` sends that began have not been enqueued, asked about or paused. */
  ghost predicate Owing(s: State, owed: nat) {
    && AllProper(s.queue, s.confirmed)
    && SendsEncrypt(s.sends, s.next)
    && PromptsWereRaised(s.prompts, s.next, s.raised)
    && ConfirmedWereRaised(s.confirmed, |s.prompts|, s.raised)
    && s.begun == |s.sends| + |s.queue| + |s.raised| + s.lost + owed
    && AskedWereConfirmed(s.queue, s.confirmed)
  }

  /** The nonces of the jobs that were sent in the clear because a prompt was confirmed. */
  function Asked(queue: seq<Entry>): seq<string> {
    if queue == [] then [] else Asked(queue[..|queue| - 1]) + AskedFor(queue[|queue| - 1])
  }

  function AskedFor(e: Entry): seq<string> {
    if e.params.skipE2EE then [e.params.nonce] else []
  }

  lemma AskedSnoc(queue: seq<Entry>, e: Entry)
    ensures Asked(queue + [e]) == Asked(queue) + AskedFor(e)
  {
    assert (queue + [e])[..|queue|] == queue;
  }

  lemma FlagBits(flags: bv32)
    ensures (flags | ENCRYPTED) & ENCRYPTED == ENCRYPTED
    ensures (flags | ENCRYPTED) & flags == flags
  {
  }

  lemma EnqueueSettles(s: State, e: Entry)
    requires Owing(s, 1) && Proper(e, s.confirmed) && AskedFor(e) == []
    ensures Owing(Enqueue(s, e), 0)
  {
    hide Proper, Asked, SendsEncrypt, PromptsWereRaised, ConfirmedWereRaised;
    AskedSnoc(s.queue, e);
    assert Asked(s.queue) + [] == Asked(s.queue);
  }

  lemma AskSettles(s: State, channelId: string, p: Params)
    requires Owing(s, 1) && !p.skipE2EE
    ensures Owing(Ask(s, channelId, p), 0)
  {
    hide AllProper, AskedWereConfirmed;
    SendsLast(s.sends, s.next);
    assert s.next !in s.prompts;
    assert forall n :: n in s.raised ==> n in s.raised + [p.nonce];
    assert p.nonce == (s.raised + [p.nonce])[|s.raised|];
  }

  lemma SendsLast(sends: map<nat, Send>, next: nat)
    requires SendsEncrypt(sends, next)
    ensures SendsEncrypt(sends, next + 1)
  {
  }

  lemma PauseSettles(s: State, f: Send)
    requires Owing(s, 1) && Encrypts(f)
    ensures Owing(Pause(s, f), 0)
  {
    hide AllProper, AskedWereConfirmed, ConfirmedWereRaised, Encrypts;
    assert s.next !in s.sends;
  }

  lemma ToEncryptSettles(s: State, f: Send)
    requires Owing(s, 1) && Encrypts(f.(stage := Encrypting))
    ensures Owing(ToEncrypt(s, f), 0)
  {
    hide Owing, Enqueue, Pause, Known;
    if Known(s, f.channelId) {
      PauseSettles(s, f.(stage := Encrypting));
    } else {
      EnqueueSettles(s, Entry(PlainJob(f.channelId, f.params), f.params, f.kind, false, f.envelope));
    }
  }

  lemma BeginOwes(s: State)
    requires Owing(s, 0)
    ensures Owing(s.(begun := s.begun + 1), 1)
  {
    hide AllProper, AskedWereConfirmed, ConfirmedWereRaised, SendsEncrypt, PromptsWereRaised;
  }

  lemma BeginSettles(s: State, channelId: string, p: Params)
    requires Owing(s, 0) && !p.skipE2EE
    ensures Owing(BeginSend(s, channelId, p), 0)
  {
    hide Owing, Enqueue, Pause, Ask, ToEncrypt, Eligible, Proper;
    var s', kind := s.(begun := s.begun + 1), KindOf(s.channels, channelId);
    BeginOwes(s);
    if !Eligible(kind) {
      IneligibleIsProper(channelId, p, kind, s'.confirmed);
      EnqueueSettles(s', Entry(PlainJob(channelId, p), p, kind, true, false));
    } else if p.stickers > 0 {
      AskSettles(s', channelId, p);
    } else if !p.hasAttachments {
      ToEncryptSettles(s', Send(channelId, p, kind, Encrypting, false));
    } else if p.nonce !in s'.uploads || s'.uploads[p.nonce] == 0 {
      AskSettles(s', channelId, p);
    } else {
      PauseSettles(s', Send(channelId, p, kind, Files, false));
    }
  }

  lemma IneligibleIsProper(channelId: string, p: Params, kind: Option<ChannelType>, confirmed: seq<string>)
    requires !p.skipE2EE && !Eligible(kind)
    ensures Proper(Entry(PlainJob(channelId, p), p, kind, true, false), confirmed)
  {
  }

  /** A paused send goes on: it is owed again. */
  lemma ResumeOwes(s: State, id: nat)
    requires Owing(s, 0) && id in s.sends
    ensures Owing(s.(sends := s.sends - {id}), 1)
    ensures Encrypts(s.sends[id])
  {
    hide AllProper, AskedWereConfirmed, ConfirmedWereRaised, PromptsWereRaised, Encrypts;
    assert (s.sends - {id}).Keys == s.sends.Keys - {id};
    assert |(s.sends - {id}).Keys| == |s.sends.Keys| - 1;
  }

  lemma AllProperGrows(queue: seq<Entry>, confirmed: seq<string>, n: string)
    requires AllProper(queue, confirmed)
    ensures AllProper(queue, confirmed + [n])
  {
    hide Sealed, Clear;
    assert forall m :: m in confirmed ==> m in confirmed + [n];
  }

  /** Confirming closes a raised prompt, and owes its send. */
  lemma ConfirmOwes(s: State, prompt: nat)
    requires Owing(s, 0) && prompt in s.prompts
    ensures var n := s.prompts[prompt].params.nonce;
            var s' := s.(prompts := s.prompts - {prompt}, confirmed := s.confirmed + [n], begun := s.begun + 1);
            && Owing(s', 1)
            && multiset(Asked(s'.queue)) + multiset{n} <= multiset(s'.confirmed)
  {
    hide Proper, Asked, AllProper, SendsEncrypt;
    var n := s.prompts[prompt].params.nonce;
    AllProperGrows(s.queue, s.confirmed, n);
    assert (s.prompts - {prompt}).Keys == s.prompts.Keys - {prompt};
    assert |(s.prompts - {prompt}).Keys| == |s.prompts.Keys| - 1;
  }

  /** The job of a confirmed prompt is the one that its confirmation allows. */
  lemma EnqueueConfirmed(s: State, e: Entry)
    requires Owing(s, 1) && Proper(e, s.confirmed)
    requires multiset(Asked(s.queue)) + multiset(AskedFor(e)) <= multiset(s.confirmed)
    ensures Owing(Enqueue(s, e), 0)
  {
    hide Proper, Asked, AskedFor, SendsEncrypt, PromptsWereRaised, ConfirmedWereRaised;
    AskedSnoc(s.queue, e);
  }

  lemma ConfirmSettles(s: State, prompt: nat)
    requires Owing(s, 0) && prompt in s.prompts
    ensures Owing(Step(s, Confirm(prompt)), 0)
  {
    hide Proper, Asked, Owing;
    var q := s.prompts[prompt];
    var n, p := q.params.nonce, q.params.(skipE2EE := true, isRetry := true);
    var e := Entry(PlainJob(q.channelId, p), p, KindOf(s.channels, q.channelId), true, false);
    ConfirmOwes(s, prompt);
    var s' := s.(prompts := s.prompts - {prompt}, confirmed := s.confirmed + [n], begun := s.begun + 1);
    ConfirmedIsProper(e, s.confirmed, n);
    EnqueueConfirmed(s', e);
    assert Step(s, Confirm(prompt)) == Enqueue(s', e);
  }

  lemma ConfirmedIsProper(e: Entry, confirmed: seq<string>, n: string)
    requires e.params.skipE2EE && e.params.nonce == n && e.known && e.job == PlainJob(e.job.channelId, e.params)
    ensures Proper(e, confirmed + [n])
  {
    assert (confirmed + [n])[|confirmed|] == n;
  }

  lemma StepSettles(s: State, e: Event)
    requires Owing(s, 0) && Honest(e)
    ensures Owing(Step(s, e), 0)
  {
    hide Owing, BeginSend, ToEncrypt, Ask, Enqueue, WithFlag;
    match e
    case Begin(channelId, params) =>
      BeginSettles(s, channelId, params);
    case FilesDone(id, ok) =>
      if id in s.sends {
        ResumeOwes(s, id);
        var f := s.sends[id];
        ToEncryptSettles(s.(sends := s.sends - {id}), f.(envelope := true));
        AskSettles(s.(sends := s.sends - {id}), f.channelId, f.params);
      }
    case EncryptDone(id, outcome) =>
      if id in s.sends && s.sends[id].stage == Encrypting {
        EncryptDoneSettles(s, id, outcome);
      }
    case Confirm(prompt) =>
      if prompt in s.prompts {
        ConfirmSettles(s, prompt);
      }
    case Dismiss(prompt) =>
      DismissKeeps(s, prompt);
    case SetChannel(channelId, kind) =>
      StoresDoNotOwe(s, Step(s, e));
    case SetUser(user) =>
      StoresDoNotOwe(s, Step(s, e));
    case SetUpload(nonce, files) =>
      StoresDoNotOwe(s, Step(s, e));
  }

  lemma StoresDoNotOwe(s: State, s': State)
    requires Owing(s, 0) && s' == s.(channels := s'.channels, user := s'.user, uploads := s'.uploads)
    ensures Owing(s', 0)
  {
    hide AllProper, AskedWereConfirmed, ConfirmedWereRaised, SendsEncrypt, PromptsWereRaised;
  }

  lemma DismissKeeps(s: State, prompt: nat)
    requires Owing(s, 0)
    ensures Owing(s.(prompts := s.prompts - {prompt}), 0)
  {
    hide AllProper, AskedWereConfirmed, SendsEncrypt;
    assert (s.prompts - {prompt}).Keys == s.prompts.Keys - {prompt};
    assert |(s.prompts - {prompt}).Keys| <= |s.prompts.Keys|;
  }

  lemma DropSettles(s: State)
    requires Owing(s, 1)
    ensures Owing(s.(lost := s.lost + 1), 0)
  {
    hide AllProper, AskedWereConfirmed, ConfirmedWereRaised, SendsEncrypt, PromptsWereRaised;
  }

  lemma SealedIsProper(f: Send, payload: string, confirmed: seq<string>)
    requires Encrypts(f) && f.stage == Encrypting
    ensures Proper(SealedEntry(f, payload), confirmed) && AskedFor(SealedEntry(f, payload)) == []
  {
    FlagBits(if f.params.flags.None? then 0 else f.params.flags.value);
  }

  lemma EncryptDoneSettles(s: State, id: nat, outcome: Encryption)
    requires Owing(s, 0) && id in s.sends && s.sends[id].stage == Encrypting
    ensures Owing(Step(s, EncryptDone(id, outcome)), 0)
  {
    hide Owing, Ask, Enqueue, WithFlag, Proper, AskedFor;
    ResumeOwes(s, id);
    var f := s.sends[id];
    var s' := s.(sends := s.sends - {id});
    match outcome
    case Encrypted(payload) =>
      SealedIsProper(f, payload, s'.confirmed);
      EnqueueSettles(s', SealedEntry(f, payload));
    case NotPossible =>
      AskSettles(s', f.channelId, f.params);
    case Threw =>
      DropSettles(s');
  }

  /** In every run in which no one but the prompt asks to skip encryption: each job is either that
      of a prompt that was raised and confirmed; or encrypted, with its text gone, the flag set, no
      stickers and its files encrypted; or in the clear, exactly if its channel was no DM or group
      DM, as far as was known when its send began, or channel or user were gone when it was to be
      encrypted. No confirmation sends twice, and every send that began is enqueued once, asked
      about once, still under way, or was dropped by an encryption that threw. */
  lemma {:induction false} EveryRunKeepsDmsSealed(s: State, es: seq<Event>)
    requires Owing(s, 0) && forall i :: 0 <= i < |es| ==> Honest(es[i])
    ensures Owing(Run(s, es), 0)
    decreases |es|
  {
    hide Owing, Step;
    if es != [] {
      StepSettles(s, es[0]);
      EveryRunKeepsDmsSealed(Step(s, es[0]), es[1..]);
    }
  }

  lemma FreshOwesNothing(channels: map<string, ChannelType>, user: Option<string>, uploads: map<string, nat>)
    ensures Owing(Fresh(channels, user, uploads), 0)
  {
  }

  /** A job goes out in the clear without a question exactly if its channel was not known, or not
      as a DM or group DM, when its send began, or channel or user were gone when it was to be
      encrypted. */
  lemma UnaskedIff(s: State, i: nat)
    requires Owing(s, 0) && i < |s.queue|
    ensures var e := s.queue[i];
            !e.params.skipE2EE ==> (e.job.payload.None? <==> e.kind.None? || e.kind == Some(OtherType) || !e.known)
  {
    hide AskedWereConfirmed, SendsEncrypt, PromptsWereRaised, ConfirmedWereRaised;
    var e := s.queue[i];
    assert Proper(e, s.confirmed);
    assert e.kind.Some? ==> e.kind.value.Dm? || e.kind.value.GroupDm? || e.kind.value.OtherType?;
  }

  /** A channel that a send is for is known; none goes away or changes its type; nor does the user
      go away. */
  predicate Steady(s: State, e: Event) {
    && (e.Begin? ==> e.channelId in s.channels)
    && (e.SetChannel? ==> e.kind.Some? && (e.channelId in s.channels ==> s.channels[e.channelId] == e.kind.value))
    && (e.SetUser? ==> e.user.Some? && e.user.value != "")
  }

  predicate AllSteady(s: State, es: seq<Event>)
    decreases |es|
  {
    es == [] || (Honest(es[0]) && Steady(s, es[0]) && AllSteady(Step(s, es[0]), es[1..]))
  }

  ghost predicate SendsKnown(sends: map<nat, Send>, channels: map<string, ChannelType>) {
    forall id :: id in sends ==> sends[id].kind.Some? && KindOf(channels, sends[id].channelId) == sends[id].kind
  }

  ghost predicate PromptsKnown(prompts: map<nat, Prompt>, channels: map<string, ChannelType>) {
    forall id :: id in prompts ==> prompts[id].channelId in channels
  }

  predicate JobsKnown(queue: seq<Entry>, channels: map<string, ChannelType>) {
    forall i :: 0 <= i < |queue| ==>
      queue[i].known && queue[i].kind.Some? && KindOf(channels, queue[i].job.channelId) == queue[i].kind
  }

  /** The user is known, and the channels of all sends, prompts and jobs are, with the types they
      had when the sends began. */
  ghost predicate AllKnown(s: State) {
    && s.user.Some? && s.user.value != ""
    && SendsKnown(s.sends, s.channels) && PromptsKnown(s.prompts, s.channels) && JobsKnown(s.queue, s.channels)
  }

  lemma PauseStaysKnown(s: State, f: Send)
    requires AllKnown(s) && f.kind.Some? && KindOf(s.channels, f.channelId) == f.kind
    ensures AllKnown(Pause(s, f))
  {
    hide PromptsKnown, JobsKnown, KindOf;
  }

  lemma AskStaysKnown(s: State, channelId: string, p: Params)
    requires AllKnown(s) && channelId in s.channels
    ensures AllKnown(Ask(s, channelId, p))
  {
    hide SendsKnown, JobsKnown;
  }

  lemma EnqueueStaysKnown(s: State, e: Entry)
    requires AllKnown(s) && e.known && e.kind.Some? && KindOf(s.channels, e.job.channelId) == e.kind
    ensures AllKnown(Enqueue(s, e))
  {
    hide SendsKnown, PromptsKnown, KindOf;
  }

  lemma ToEncryptStaysKnown(s: State, f: Send)
    requires AllKnown(s) && f.kind.Some? && KindOf(s.channels, f.channelId) == f.kind
    ensures AllKnown(ToEncrypt(s, f))
  {
    assert Known(s, f.channelId);
    hide SendsKnown, PromptsKnown, JobsKnown, Pause, KindOf;
    PauseStaysKnown(s, f.(stage := Encrypting));
  }

  lemma BeginStaysKnown(s: State, channelId: string, p: Params)
    requires AllKnown(s) && channelId in s.channels
    ensures AllKnown(BeginSend(s, channelId, p))
  {
    hide SendsKnown, PromptsKnown, JobsKnown, Pause, Ask, Enqueue, ToEncrypt;
    var s', kind := s.(begun := s.begun + 1), KindOf(s.channels, channelId);
    assert AllKnown(s');
    hide AllKnown;
    AskStaysKnown(s', channelId, p);
    PauseStaysKnown(s', Send(channelId, p, kind, Files, false));
    ToEncryptStaysKnown(s', Send(channelId, p, kind, Encrypting, false));
    EnqueueStaysKnown(s', Entry(PlainJob(channelId, p), p, kind, true, false));
  }

  /** A send under way goes on. */
  lemma ResumeStaysKnown(s: State, id: nat)
    requires AllKnown(s) && id in s.sends
    ensures AllKnown(s.(sends := s.sends - {id}))
    ensures s.sends[id].kind.Some? && KindOf(s.channels, s.sends[id].channelId) == s.sends[id].kind
  {
    hide PromptsKnown, JobsKnown, KindOf;
  }

  lemma ChannelStaysKnown(s: State, channelId: string, kind: ChannelType)
    requires AllKnown(s) && (channelId in s.channels ==> s.channels[channelId] == kind)
    ensures AllKnown(s.(channels := s.channels[channelId := kind]))
  {
  }

  lemma StepStaysKnown(s: State, e: Event)
    requires AllKnown(s) && Steady(s, e)
    ensures AllKnown(Step(s, e))
  {
    hide BeginSend, ToEncrypt, Ask, Enqueue, SendsKnown, JobsKnown, KindOf;
    match e
    case Begin(channelId, params) =>
      BeginStaysKnown(s, channelId, params);
    case FilesDone(id, ok) =>
      if id in s.sends {
        ResumeStaysKnown(s, id);
        var f, s' := s.sends[id], s.(sends := s.sends - {id});
        ToEncryptStaysKnown(s', f.(envelope := true));
        KindIsKnown(s', f.channelId);
        AskStaysKnown(s', f.channelId, f.params);
      }
    case EncryptDone(id, outcome) =>
      if id in s.sends {
        ResumeStaysKnown(s, id);
        var f, s' := s.sends[id], s.(sends := s.sends - {id});
        KindIsKnown(s', f.channelId);
        AskStaysKnown(s', f.channelId, f.params);
        if outcome.Encrypted? {
          EnqueueStaysKnown(s', SealedEntry(f, outcome.payload));
        }
      }
    case Confirm(prompt) =>
      if prompt in s.prompts {
        var q := s.prompts[prompt];
        BeginStaysKnown(s.(prompts := s.prompts - {prompt}, confirmed := s.confirmed + [q.params.nonce]), q.channelId,
                        q.params.(skipE2EE := true, isRetry := true));
      }
    case SetChannel(channelId, kind) =>
      ChannelStaysKnown(s, channelId, kind.value);
    case _ =>
  }

  lemma KindIsKnown(s: State, channelId: string)
    ensures KindOf(s.channels, channelId).Some? <==> channelId in s.channels
  {
  }

  /** If the channel store has the job's channel as a DM or group DM, the job is sealed, or its
      nonce's prompt was raised and confirmed. */
  predicate SealedOrAsked(s: State, e: Entry) {
    && e.job.channelId in s.channels
    && (s.channels[e.job.channelId] != OtherType ==>
          if e.job.payload.None? then e.job.nonce in s.confirmed && e.job.nonce in s.raised else Sealed(e))
  }

  lemma KnownQueueIsSealedOrAsked(s: State, i: nat)
    requires Owing(s, 0) && AllKnown(s) && i < |s.queue|
    ensures SealedOrAsked(s, s.queue[i])
  {
    hide AskedWereConfirmed, SendsEncrypt, PromptsWereRaised, Sealed;
    assert Proper(s.queue[i], s.confirmed);
    SealedHasPayload(s.queue[i]);
  }

  lemma SealedHasPayload(e: Entry)
    ensures Sealed(e) ==> e.job.payload.Some?
  {
  }

  /** With a user present and every channel known, from the sends' beginnings on, and of one type: a
      job of a DM without an encrypted payload has a nonce whose prompt was raised and confirmed,
      and any other is sealed. */
  lemma {:induction false} SteadyRunsSealOrAsk(s: State, es: seq<Event>)
    requires Owing(s, 0) && AllKnown(s) && AllSteady(s, es)
    ensures forall i :: 0 <= i < |Run(s, es).queue| ==> SealedOrAsked(Run(s, es), Run(s, es).queue[i])
    decreases |es|
  {
    hide Step, Owing, AllKnown, SealedOrAsked;
    if es == [] {
      forall i | 0 <= i < |s.queue| ensures SealedOrAsked(s, s.queue[i]) {
        KnownQueueIsSealedOrAsked(s, i);
      }
    } else {
      StepStaysKnown(s, es[0]);
      StepSettles(s, es[0]);
      SteadyRunsSealOrAsk(Step(s, es[0]), es[1..]);
    }
  }

  /** The last job is new, in the clear, and no question was raised for it. */
  predicate NewInTheClear(s: State, s': State, p: Params) {
    && |s'.queue| == |s.queue| + 1 && s'.raised == s.raised && s'.prompts == s.prompts
    && s'.queue[|s.queue|].job.payload.None? && s'.queue[|s.queue|].job.content == p.content
  }

  /** A send that is not to skip encryption begins by going out in the clear, without a question,
      exactly if its channel is not known as a DM or group DM, or it is text only and the user is
      missing. */
  lemma ClearWithoutAskingIff(s: State, channelId: string, p: Params)
    requires !p.skipE2EE
    ensures NewInTheClear(s, BeginSend(s, channelId, p), p) <==>
              || channelId !in s.channels || s.channels[channelId] == OtherType
              || (p.stickers == 0 && !p.hasAttachments && (s.user.None? || s.user.value == ""))
    ensures !NewInTheClear(s, BeginSend(s, channelId, p), p) ==> BeginSend(s, channelId, p).queue == s.queue
  {
  }

  /** So it does once its files are encrypted, exactly if its channel or the user is gone. */
  lemma ClearAfterFilesIff(s: State, id: nat)
    requires id in s.sends && s.sends[id].stage == Files
    ensures var s' := Step(s, FilesDone(id, true));
            NewInTheClear(s, s', s.sends[id].params) <==> !Known(s, s.sends[id].channelId)
    ensures Known(s, s.sends[id].channelId) ==> Step(s, FilesDone(id, true)).queue == s.queue
  {
  }

  /** A DM that the channel store learns of only after the send began: with a user present its text
      is out, and no one was asked. */
  lemma LateChannelIsClear(channelId: string, p: Params, user: string, uploads: map<string, nat>)
    requires !p.skipE2EE && user != ""
    ensures var s := Run(Fresh(map[], Some(user), uploads), [Begin(channelId, p), SetChannel(channelId, Some(Dm))]);
            && s.raised == [] && |s.queue| == 1
            && s.queue[0].job.content == p.content && s.queue[0].job.payload.None?
            && s.queue[0].job.channelId == channelId && !SealedOrAsked(s, s.queue[0])
  {
    var a, b := Begin(channelId, p), SetChannel(channelId, Some(Dm));
    var s0 := Fresh(map[], Some(user), uploads);
    assert [a, b][1..] == [b] && [b][1..] == [];
    assert Run(s0, [a, b]) == Run(Step(s0, a), [b]) == Run(Step(Step(s0, a), b), []);
  }

  /** The question stays open as long as it is not answered, and confirming it sends what was asked
      about: to the same channel, with the same text, nonce and flags, as a retry. */
  lemma {:induction false} ConfirmedIsWhatWasAsked(s: State, es: seq<Event>, prompt: nat)
    requires Owing(s, 0) && prompt in s.prompts
    requires forall i :: 0 <= i < |es| ==> Honest(es[i]) && es[i] != Confirm(prompt) && es[i] != Dismiss(prompt)
    ensures var r, q := Run(s, es), s.prompts[prompt];
            && prompt in r.prompts && r.prompts[prompt] == q
            && var r' := Step(r, Confirm(prompt));
            && r'.prompts == r.prompts - {prompt}
            && |r'.queue| == |r.queue| + 1 && r'.queue[..|r.queue|] == r.queue
            && r'.queue[|r.queue|].job == Job(q.channelId, q.params.nonce, q.params.content, q.params.flags, true, None)
    decreases |es|
  {
    if es == [] {
      hide Owing;
    } else {
      StepSettles(s, es[0]);
      StepKeepsPrompt(s, es[0], prompt);
      hide Owing, Step, Enqueue, BeginSend;
      ConfirmedIsWhatWasAsked(Step(s, es[0]), es[1..], prompt);
    }
  }

  lemma BeginKeepsPrompt(s: State, channelId: string, p: Params, prompt: nat)
    requires prompt in s.prompts && prompt < s.next
    ensures prompt in BeginSend(s, channelId, p).prompts && BeginSend(s, channelId, p).prompts[prompt] == s.prompts[prompt]
  {
  }

  lemma StepKeepsPrompt(s: State, e: Event, prompt: nat)
    requires Owing(s, 0) && prompt in s.prompts && e != Confirm(prompt) && e != Dismiss(prompt)
    ensures prompt in Step(s, e).prompts && Step(s, e).prompts[prompt] == s.prompts[prompt]
  {
    hide AllProper, AskedWereConfirmed, ConfirmedWereRaised, SendsEncrypt, BeginSend;
    assert prompt < s.next;
    match e
    case Begin(channelId, params) =>
      BeginKeepsPrompt(s, channelId, params, prompt);
    case Confirm(other) =>
      if other in s.prompts {
        var q := s.prompts[other];
        BeginKeepsPrompt(s.(prompts := s.prompts - {other}, confirmed := s.confirmed + [q.params.nonce]), q.channelId,
                         q.params.(skipE2EE := true, isRetry := true), prompt);
      }
    case _ =>
  }

  // ---------------------------------------------------------------- what each event does

  /** No more happens than that a question is raised about this send, beside those that are open. */
  ghost predicate OnlyAsked(s: State, s': State, channelId: string, p: Params) {
    && s'.queue == s.queue && s'.confirmed == s.confirmed && s'.lost == s.lost
    && |s'.raised| == |s.raised| + 1 && s'.raised[..|s.raised|] == s.raised && s'.raised[|s.raised|] == p.nonce
    && s.next !in s.prompts && s'.prompts.Keys == s.prompts.Keys + {s.next}
    && s'.prompts[s.next] == Prompt(channelId, p)
    && forall id :: id in s.prompts ==> s'.prompts[id] == s.prompts[id]
  }

  /** No more happens than that this send is under way, beside those that are. */
  ghost predicate OnlyPaused(s: State, s': State, f: Send) {
    && s'.queue == s.queue && s'.raised == s.raised && s'.confirmed == s.confirmed && s'.lost == s.lost && s'.prompts == s.prompts
    && s.next !in s.sends && s'.sends.Keys == s.sends.Keys + {s.next}
    && s'.sends[s.next] == f
    && forall id :: id in s.sends ==> s'.sends[id] == s.sends[id]
  }

  /** No more happens than that this job is enqueued, behind the others. */
  predicate OnlyEnqueued(s: State, s': State, job: Job) {
    && s'.raised == s.raised && s'.lost == s.lost && s'.prompts == s.prompts && s'.sends == s.sends
    && |s'.queue| == |s.queue| + 1 && s'.queue[..|s.queue|] == s.queue && s'.queue[|s.queue|].job == job
  }

  lemma NextIsNew(s: State)
    requires Owing(s, 0)
    ensures s.next !in s.prompts && s.next !in s.sends
  {
    hide AllProper, AskedWereConfirmed, ConfirmedWereRaised;
  }

  lemma AskOnlyAsks(s: State, channelId: string, p: Params)
    requires s.next !in s.prompts
    ensures OnlyAsked(s, Ask(s, channelId, p), channelId, p) && Ask(s, channelId, p).sends == s.sends
  {
  }

  lemma PauseOnlyPauses(s: State, f: Send)
    requires s.next !in s.sends
    ensures OnlyPaused(s, Pause(s, f), f)
  {
  }

  lemma EnqueueOnlyEnqueues(s: State, e: Entry)
    ensures OnlyEnqueued(s, Enqueue(s, e), e.job)
  {
  }

  /** Channel and user are there. */
  predicate CanEncrypt(s: State, channelId: string) {
    channelId in s.channels && s.user.Some? && s.user.value != ""
  }

  lemma ToEncryptEither(s: State, f: Send)
    requires s.next !in s.sends
    ensures if CanEncrypt(s, f.channelId) then OnlyPaused(s, ToEncrypt(s, f), f.(stage := Encrypting))
            else OnlyEnqueued(s, ToEncrypt(s, f), Job(f.channelId, f.params.nonce, f.params.content, f.params.flags, f.params.isRetry, None))
  {
    PauseOnlyPauses(s, f.(stage := Encrypting));
    EnqueueOnlyEnqueues(s, Entry(PlainJob(f.channelId, f.params), f.params, f.kind, false, f.envelope));
    hide OnlyPaused, OnlyEnqueued, Pause, Enqueue;
  }

  /** How a send that is not to skip encryption begins: it asks about stickers, and about files whose
      upload is gone; it encrypts other files first, and text without files; else it enqueues. */
  lemma BeginsOneOfFour(s: State, channelId: string, p: Params)
    requires Owing(s, 0) && !p.skipE2EE
    ensures var b, s', kind := s.(begun := s.begun + 1), BeginSend(s, channelId, p), KindOf(s.channels, channelId);
            var dm := channelId in s.channels && s.channels[channelId] != OtherType;
            var uploaded := p.nonce in s.uploads && s.uploads[p.nonce] > 0;
            && (dm && (p.stickers > 0 || (p.hasAttachments && !uploaded)) ==> OnlyAsked(b, s', channelId, p) && s'.sends == s.sends)
            && (dm && p.stickers == 0 && p.hasAttachments && uploaded ==> OnlyPaused(b, s', Send(channelId, p, kind, Files, false)))
            && (dm && p.stickers == 0 && !p.hasAttachments && CanEncrypt(s, channelId) ==>
                  OnlyPaused(b, s', Send(channelId, p, kind, Encrypting, false)))
            && (!dm || (p.stickers == 0 && !p.hasAttachments && !CanEncrypt(s, channelId)) ==>
                  OnlyEnqueued(b, s', Job(channelId, p.nonce, p.content, p.flags, p.isRetry, None)))
  {
    hide Owing, OnlyAsked, OnlyPaused, OnlyEnqueued, Ask, Pause, Enqueue, ToEncrypt, PlainJob;
    NextIsNew(s);
    var b, kind := s.(begun := s.begun + 1), KindOf(s.channels, channelId);
    assert CanEncrypt(b, channelId) == CanEncrypt(s, channelId);
    assert Eligible(kind) <==> channelId in s.channels && s.channels[channelId] != OtherType;
    hide CanEncrypt, Eligible, KindOf;
    if !Eligible(kind) {
      EnqueueOnlyEnqueues(b, Entry(PlainJob(channelId, p), p, kind, true, false));
      PlainJobIs(channelId, p);
    } else if p.stickers > 0 {
      AskOnlyAsks(b, channelId, p);
    } else if !p.hasAttachments {
      ToEncryptEither(b, Send(channelId, p, kind, Encrypting, false));
    } else if p.nonce !in s.uploads || s.uploads[p.nonce] == 0 {
      AskOnlyAsks(b, channelId, p);
    } else {
      PauseOnlyPauses(b, Send(channelId, p, kind, Files, false));
    }
  }

  lemma PlainJobIs(channelId: string, p: Params)
    ensures PlainJob(channelId, p) == Job(channelId, p.nonce, p.content, p.flags, p.isRetry, None)
  {
  }

  /** A send whose files could not be encrypted ends, and its sender is asked. */
  lemma FailedFilesAsk(s: State, id: nat)
    requires Owing(s, 0) && id in s.sends && s.sends[id].stage == Files
    ensures var f, rest, s' := s.sends[id], s.(sends := s.sends - {id}), Step(s, FilesDone(id, false));
            OnlyAsked(rest, s', f.channelId, f.params) && s'.sends == s.sends - {id}
  {
    NextIsNew(s);
    AskOnlyAsks(s.(sends := s.sends - {id}), s.sends[id].channelId, s.sends[id].params);
    hide Owing, OnlyAsked, Ask;
  }

  /** One whose files are encrypted goes on with its text, if channel and user are known; else it is
      enqueued as it is. */
  lemma EncryptedFilesGoOn(s: State, id: nat)
    requires Owing(s, 0) && id in s.sends && s.sends[id].stage == Files
    ensures var f, rest, s' := s.sends[id], s.(sends := s.sends - {id}), Step(s, FilesDone(id, true));
            if CanEncrypt(s, f.channelId) then OnlyPaused(rest, s', Send(f.channelId, f.params, f.kind, Encrypting, true))
            else OnlyEnqueued(rest, s', Job(f.channelId, f.params.nonce, f.params.content, f.params.flags, f.params.isRetry, None))
  {
    NextIsNew(s);
    ToEncryptEither(s.(sends := s.sends - {id}), s.sends[id].(envelope := true));
    hide Owing, OnlyPaused, OnlyEnqueued, ToEncrypt;
  }

  /** A text that is encrypted is enqueued as its payload alone; one that cannot be is asked about; an
      exception ends the send without either. */
  lemma EncryptionEnds(s: State, id: nat, outcome: Encryption)
    requires Owing(s, 0) && id in s.sends && s.sends[id].stage == Encrypting
    ensures var f, rest, s' := s.sends[id], s.(sends := s.sends - {id}), Step(s, EncryptDone(id, outcome));
            && s'.sends == s.sends - {id}
            && match outcome
               case Encrypted(payload) =>
                 var flags := (if f.params.flags.Some? then f.params.flags.value else 0) | 0x4_0000;
                 OnlyEnqueued(rest, s', Job(f.channelId, f.params.nonce, "", Some(flags), f.params.isRetry, Some(payload)))
               case NotPossible => OnlyAsked(rest, s', f.channelId, f.params)
               case Threw => s'.queue == s.queue && s'.prompts == s.prompts && s'.raised == s.raised
  {
    NextIsNew(s);
    var f, rest := s.sends[id], s.(sends := s.sends - {id});
    AskOnlyAsks(rest, f.channelId, f.params);
    if outcome.Encrypted? {
      EnqueueOnlyEnqueues(rest, SealedEntry(f, outcome.payload));
    }
    hide Owing, OnlyAsked, OnlyEnqueued, Ask;
  }

  /** Dismissing closes the question, leaves the others open and sends nothing. */
  lemma DismissedIsClosed(s: State, prompt: nat)
    ensures var s' := Step(s, Dismiss(prompt));
            && prompt !in s'.prompts && s'.queue == s.queue && s'.sends == s.sends
            && forall id :: id != prompt ==> (id in s'.prompts <==> id in s.prompts) && (id in s.prompts ==> s'.prompts[id] == s.prompts[id])
  {
  }

  /** A store has what was set last, and what it has of others stays; no send is touched. */
  lemma StoresAreSet(s: State, channelId: string, kind: Option<ChannelType>, user: Option<string>, nonce: string, files: nat)
    ensures var s' := Step(s, SetChannel(channelId, kind));
            && KindOf(s'.channels, channelId) == kind
            && (forall c :: c != channelId ==> KindOf(s'.channels, c) == KindOf(s.channels, c))
            && s' == s.(channels := s'.channels)
    ensures Step(s, SetUser(user)) == s.(user := user)
    ensures var s' := Step(s, SetUpload(nonce, files));
            && nonce in s'.uploads && s'.uploads[nonce] == files
            && (forall n :: n != nonce ==> (n in s'.uploads <==> n in s.uploads) && (n in s.uploads ==> s'.uploads[n] == s.uploads[n]))
            && s' == s.(uploads := s'.uploads)
  {
  }

  // ---------------------------------------------------------------- files before text

  /** Among the first `n` events the files of such a send were encrypted. */
  ghost predicate FilesWereDone(s: State, es: seq<Event>, n: nat, channelId: string, p: Params)
    requires n <= |es|
  {
    exists i: nat, id: nat :: i < n && FilesDoneAt(s, es, i, id, channelId, p)
  }

  ghost predicate FilesDoneAt(s: State, es: seq<Event>, i: nat, id: nat, channelId: string, p: Params)
    requires i < |es|
  {
    var before := Run(s, es[..i]);
    && es[i] == FilesDone(id, true) && id in before.sends && before.sends[id].stage == Files
    && before.sends[id].channelId == channelId && before.sends[id].params == p
  }

  /** So it was for each send with files whose text is being encrypted, and each such job. */
  ghost predicate AllFilesDone(s: State, es: seq<Event>, n: nat)
    requires n <= |es|
  {
    var r := Run(s, es[..n]);
    && (forall id :: id in r.sends && r.sends[id].stage == Encrypting && r.sends[id].params.hasAttachments ==>
          FilesWereDone(s, es, n, r.sends[id].channelId, r.sends[id].params))
    && (forall i :: 0 <= i < |r.queue| && r.queue[i].job.payload.Some? && r.queue[i].params.hasAttachments ==>
          FilesWereDone(s, es, n, r.queue[i].job.channelId, r.queue[i].params))
  }

  /** What was under way or enqueued before, apart from what goes out in the clear. */
  ghost predicate NothingEncrypted(s: State, s': State) {
    && (forall id :: id in s'.sends && s'.sends[id].stage == Encrypting && s'.sends[id].params.hasAttachments ==>
          id in s.sends && s.sends[id] == s'.sends[id])
    && (forall i :: 0 <= i < |s'.queue| && s'.queue[i].job.payload.Some? ==> i < |s.queue| && s.queue[i] == s'.queue[i])
  }

  lemma BeginEncryptsNoFiles(s: State, channelId: string, p: Params)
    ensures NothingEncrypted(s, BeginSend(s, channelId, p))
  {
  }

  /** What a step adds to the sends whose text is being encrypted, and to the encrypted jobs. */
  lemma StepAdds(s: State, e: Event)
    ensures var s' := Step(s, e);
            && (forall id :: id in s'.sends && s'.sends[id].stage == Encrypting && s'.sends[id].params.hasAttachments ==>
                  || (id in s.sends && s.sends[id] == s'.sends[id])
                  || (e.FilesDone? && e.ok && e.id in s.sends && s.sends[e.id].stage == Files
                      && s.sends[e.id].channelId == s'.sends[id].channelId && s.sends[e.id].params == s'.sends[id].params))
            && (forall i :: 0 <= i < |s'.queue| && s'.queue[i].job.payload.Some? ==>
                  || (i < |s.queue| && s.queue[i] == s'.queue[i])
                  || (e.EncryptDone? && e.id in s.sends && s.sends[e.id].stage == Encrypting
                      && s.sends[e.id].channelId == s'.queue[i].job.channelId && s.sends[e.id].params == s'.queue[i].params))
  {
    hide WithFlag, BeginSend;
    match e
    case Begin(channelId, params) =>
      BeginEncryptsNoFiles(s, channelId, params);
    case Confirm(prompt) =>
      if prompt in s.prompts {
        var q := s.prompts[prompt];
        BeginEncryptsNoFiles(s.(prompts := s.prompts - {prompt}, confirmed := s.confirmed + [q.params.nonce]), q.channelId,
                             q.params.(skipE2EE := true, isRetry := true));
      }
    case _ =>
  }

  lemma {:induction false} RunSnoc(s: State, es: seq<Event>, e: Event)
    ensures Run(s, es + [e]) == Step(Run(s, es), e)
    decreases |es|
  {
    if es == [] {
      assert ([] + [e])[1..] == [];
    } else {
      assert (es + [e])[1..] == es[1..] + [e] && (es + [e])[0] == es[0];
      RunSnoc(Step(s, es[0]), es[1..], e);
    }
  }

  lemma FilesStayDone(s: State, es: seq<Event>, n: nat)
    requires n < |es|
    ensures forall channelId, p :: FilesWereDone(s, es, n, channelId, p) ==> FilesWereDone(s, es, n + 1, channelId, p)
  {
    hide FilesDoneAt;
  }

  /** In every run: a job with files and an encrypted text belongs to a send whose files were
      encrypted before. */
  lemma {:induction false} FilesAreEncryptedFirst(s: State, es: seq<Event>, n: nat)
    requires n <= |es| && AllFilesDone(s, es, 0)
    ensures AllFilesDone(s, es, n)
  {
    if n > 0 {
      FilesAreEncryptedFirst(s, es, n - 1);
      FilesDoneNext(s, es, n - 1);
    }
  }

  lemma FilesDoneNext(s: State, es: seq<Event>, n: nat)
    requires n < |es| && AllFilesDone(s, es, n)
    ensures AllFilesDone(s, es, n + 1)
  {
    var r, r', e := Run(s, es[..n]), Run(s, es[..n + 1]), es[n];
    assert es[..n + 1] == es[..n] + [e];
    RunSnoc(s, es[..n], e);
    StepAdds(r, e);
    FilesStayDone(s, es, n);
    if e.FilesDone? && e.ok && e.id in r.sends && r.sends[e.id].stage == Files {
      assert FilesDoneAt(s, es, n, e.id, r.sends[e.id].channelId, r.sends[e.id].params);
      assert FilesWereDone(s, es, n + 1, r.sends[e.id].channelId, r.sends[e.id].params);
    }
    hide Step, Run, FilesWereDone, FilesDoneAt;
  }

  lemma FreshHasNoFiles(channels: map<string, ChannelType>, user: Option<string>, uploads: map<string, nat>, es: seq<Event>)
    ensures AllFilesDone(Fresh(channels, user, uploads), es, 0)
  {
  }

  /** So from the start on. */
  lemma SealedFilesWereEncrypted(channels: map<string, ChannelType>, user: Option<string>, uploads: map<string, nat>, es: seq<Event>, i: nat)
    requires i < |Run(Fresh(channels, user, uploads), es).queue|
    ensures var s := Fresh(channels, user, uploads);
            var e := Run(s, es).queue[i];
            e.job.payload.Some? && e.params.hasAttachments ==> FilesWereDone(s, es, |es|, e.job.channelId, e.params)
  {
    var s := Fresh(channels, user, uploads);
    FreshHasNoFiles(channels, user, uploads, es);
    FilesAreEncryptedFirst(s, es, |es|);
    assert es[..|es|] == es;
    hide FilesWereDone, Run;
  }
}
