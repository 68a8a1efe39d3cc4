/** The build cache of the dev server: a step's command is skipped while the files it reads are
    those of its last recorded run. */
module BuildCache {
  import opened Wrappers

  /** Modification times by path. */
  type Inputs = map<string, real>

  datatype StepKey = Wasm | Colors | Masks | CssTypes | Lingui

  type Metadata = map<StepKey, Inputs>

  /** The metadata file: not there, not readable as metadata, or what was saved. */
  datatype MetadataFile = Absent | Broken | Saved(metadata: Metadata)

  /** The cache in memory, the file, and whether a signal came; and as a record of the past, the
      inputs gathered for each step's last successful command, and how many commands were started. */
  datatype State = State(cache: Option<Metadata>, file: MetadataFile, shuttingDown: bool, last: Metadata, started: nat)

  /** How a command ends. */
  datatype Outcome = Exited(code: int) | Killed | SpawnError

  /** Writing the file works, or fails with the file as it was, or leaves it unreadable. */
  datatype Saving = SaveOk | SaveKeepsOld | SaveBreaks

  /** `Boot`: a new process loads the metadata. `Signal`: SIGINT or SIGTERM. `Run`: a step, with
      the inputs gathered, if that works; how its command ends, should it be started; whether a
      signal comes meanwhile; and how saving goes. */
  datatype Event =
    | Boot
    | Signal
    | Run(step: StepKey, inputs: Option<Inputs>, outcome: Outcome, signal: bool, saving: Saving)

  function Load(file: MetadataFile): Metadata {
    if file.Saved? then file.metadata else map[]
  }

  predicate ShouldRun(s: State, step: StepKey, inputs: Inputs) {
    s.cache.None? || step !in s.cache.value || s.cache.value[step] != inputs
  }

  /** The step's command is wanted and may be started. */
  predicate Starts(s: State, e: Event) {
    e.Run? && e.inputs.Some? && ShouldRun(s, e.step, e.inputs.value) && !s.shuttingDown
  }

  predicate Succeeds(s: State, e: Event) {
    Starts(s, e) && e.outcome == Exited(0)
  }

  /** `runCommand` resolves. */
  predicate Resolves(s: State, e: Event) {
    e.Run? && e.inputs.Some? && ShouldRun(s, e.step, e.inputs.value)
    && (s.shuttingDown || e.outcome == Exited(0) || (e.signal && !e.outcome.SpawnError?))
  }

  function Recorded(s: State, step: StepKey, inputs: Inputs): Metadata {
    (if s.cache.None? then map[] else s.cache.value)[step := inputs]
  }

  function AfterCommand(s: State, e: Event): State {
    if !Starts(s, e) then s
    else s.(started := s.started + 1, shuttingDown := e.signal,
            last := if e.outcome == Exited(0) then s.last[e.step := e.inputs.value] else s.last)
  }

  function Step(s: State, e: Event): State {
    match e
    case Boot => s.(cache := Some(Load(s.file)), shuttingDown := false)
    case Signal => s.(shuttingDown := true)
    case Run(step, inputs, _, _, saving) =>
      var t := AfterCommand(s, e);
      if !Resolves(s, e) then t else
        var m := Recorded(s, step, inputs.value);
        t.(cache := Some(m), file := match saving case SaveOk => Saved(m) case SaveKeepsOld => t.file case SaveBreaks => Broken)
  }

  function Steps(s: State, es: seq<Event>): State
    decreases |es|
  {
    if es == [] then s else Steps(Step(s, es[0]), es[1..])
  }

  // ---------------------------------------------------------------- the code

  lemma EqualMaps(a: Inputs, b: Inputs)
    requires |a| == |b| && forall k :: k in b ==> k in a && a[k] == b[k]
    ensures a == b
  {
    assert b.Keys <= a.Keys && |a.Keys - b.Keys| == |a.Keys| - |b.Keys|;
  }

  /** Answers whether the inputs differ in any path or time. */
  method HaveInputsChanged(prev: Inputs, next: Inputs) returns (changed: bool)
    ensures changed <==> prev != next
  {
    if |prev| != |next| {
      return true;
    }
    var keys := next.Keys;
    while keys != {}
      invariant keys <= next.Keys
      invariant forall k :: k in next && k !in keys ==> k in prev && prev[k] == next[k]
    {
      var key :| key in keys;
      if key !in prev || prev[key] != next[key] {
        return true;
      }
      keys := keys - {key};
    }
    EqualMaps(prev, next);
    return false;
  }

  class DevServer {
    var metadataCache: Option<Metadata>
    var metadataFile: MetadataFile
    var shuttingDown: bool
    var last: Metadata
    var started: nat

    function Now(): State
      reads this
    {
      State(metadataCache, metadataFile, shuttingDown, last, started)
    }

    /** A process that starts on the file that an earlier one left. */
    constructor (file: MetadataFile, last0: Metadata, started0: nat)
      ensures Now() == Step(State(None, file, false, last0, started0), Boot)
    {
      metadataFile, shuttingDown, last, started := file, false, last0, started0;
      metadataCache := Some(Load(file));
    }

    method HandleShutdown()
      modifies this
      ensures Now() == Step(old(Now()), Signal)
    {
      if shuttingDown {
        return;
      }
      shuttingDown := true;
    }

    method ShouldRunStep(step: StepKey, inputs: Inputs) returns (should: bool)
      ensures should <==> ShouldRun(Now(), step, inputs)
    {
      if metadataCache.None? {
        return true;
      }
      if step !in metadataCache.value {
        return true;
      }
      should := HaveInputsChanged(metadataCache.value[step], inputs);
    }

    /** `runCommand`; a command that is killed, or exits with another code than 0, is an error
        unless the server is shutting down. */
    method RunCommand(step: StepKey, inputs: Inputs, outcome: Outcome, signal: bool) returns (ok: bool)
      requires ShouldRun(Now(), step, inputs)
      modifies this
      ensures Now() == AfterCommand(old(Now()), Run(step, Some(inputs), outcome, signal, SaveOk))
      ensures ok <==> Resolves(old(Now()), Run(step, Some(inputs), outcome, signal, SaveOk))
    {
      if shuttingDown {
        return true;
      }
      started := started + 1;
      if signal {
        shuttingDown := true;
      }
      if outcome == Exited(0) {
        last := last[step := inputs];
      }
      if outcome.SpawnError? {
        return false;
      }
      if shuttingDown {
        return true;
      }
      return outcome == Exited(0);
    }

    method RunCachedStep(step: StepKey, inputs: Option<Inputs>, outcome: Outcome, signal: bool, saving: Saving)
      modifies this
      ensures Now() == Step(old(Now()), Run(step, inputs, outcome, signal, saving))
    {
      if inputs.None? {
        return;
      }
      var should := ShouldRunStep(step, inputs.value);
      if !should {
        return;
      }
      var ok := RunCommand(step, inputs.value, outcome, signal);
      if !ok {
        return;
      }
      if metadataCache.None? {
        metadataCache := Some(map[]);
      }
      metadataCache := Some(metadataCache.value[step := inputs.value]);
      match saving {
        case SaveOk => metadataFile := Saved(metadataCache.value);
        case SaveKeepsOld =>
        case SaveBreaks => metadataFile := Broken;
      }
    }
  }

  // ---------------------------------------------------------------- all runs

  /** Every entry is that of its step's last successful command. */
  predicate Truthful(m: Metadata, last: Metadata) {
    forall k :: k in m ==> k in last && m[k] == last[k]
  }

  /** So is every entry in memory and in the file. */
  predicate Sound(s: State) {
    Truthful(Load(s.file), s.last) && (s.cache.Some? ==> Truthful(s.cache.value, s.last))
  }

  /** The command was recorded though it did not succeed, as happens only when shutting down. */
  predicate RecordsUnrun(s: State, e: Event) {
    Resolves(s, e) && !Succeeds(s, e) && !(e.step in s.last && s.last[e.step] == e.inputs.value)
  }

  /** The command succeeded and the file keeps an entry from before. */
  predicate LeavesStaleFile(s: State, e: Event) {
    Succeeds(s, e) && e.saving == SaveKeepsOld && e.step in Load(s.file) && Load(s.file)[e.step] != e.inputs.value
  }

  lemma TruthfulUpdates(m: Metadata, last: Metadata, step: StepKey, inputs: Inputs)
    requires Truthful(m, last)
    ensures Truthful(m[step := inputs], last[step := inputs])
    ensures Truthful(m[step := inputs], last) <==> step in last && last[step] == inputs
    ensures Truthful(m, last[step := inputs]) <==> step !in m || m[step] == inputs
  {
    assert step in m[step := inputs];
  }

  lemma NothingIsTruthful(last: Metadata)
    ensures Truthful(map[], last)
  {
  }

  /** An event keeps the cache sound exactly if it is neither of these two. */
  lemma SoundIff(s: State, e: Event)
    requires Sound(s)
    ensures Sound(Step(s, e)) <==> !RecordsUnrun(s, e) && !LeavesStaleFile(s, e)
  {
    hide Truthful, ShouldRun;
    NothingIsTruthful(s.last);
    if Resolves(s, e) {
      NothingIsTruthful(s.last[e.step := e.inputs.value]);
      TruthfulUpdates(if s.cache.None? then map[] else s.cache.value, s.last, e.step, e.inputs.value);
      TruthfulUpdates(Load(s.file), s.last, e.step, e.inputs.value);
    }
  }

  /** The step is passed over. */
  predicate Skips(s: State, e: Event) {
    e.Run? && e.inputs.Some? && !ShouldRun(s, e.step, e.inputs.value)
  }

  /** ... though its last successful command had other inputs, or it had none. */
  predicate SkipsWrongly(s: State, e: Event) {
    Skips(s, e) && !(e.step in s.last && s.last[e.step] == e.inputs.value)
  }

  /** A state is sound exactly if no step is skipped wrongly, now or in a process started on it. */
  lemma SoundIffNoWrongSkip(s: State)
    ensures Sound(s) <==> forall e :: !SkipsWrongly(s, e) && !SkipsWrongly(Step(s, Boot), e)
  {
    var m := Load(s.file);
    if k :| k in m && !(k in s.last && m[k] == s.last[k]) {
      assert SkipsWrongly(Step(s, Boot), Run(k, Some(m[k]), Exited(0), false, SaveOk));
    } else if s.cache.Some? {
      if k :| k in s.cache.value && !(k in s.last && s.cache.value[k] == s.last[k]) {
        assert SkipsWrongly(s, Run(k, Some(s.cache.value[k]), Exited(0), false, SaveOk));
      }
    }
  }

  /** No event of the run does one of the two. */
  predicate AllKeep(s: State, es: seq<Event>)
    decreases |es|
  {
    es == [] || (!RecordsUnrun(s, es[0]) && !LeavesStaleFile(s, es[0]) && AllKeep(Step(s, es[0]), es[1..]))
  }

  /** In every run, whatever commands fail and files break, processes restart and signals come, as
      long as none records a command that did not succeed or leaves an older entry in the file: a
      step is skipped only if its last successful command had exactly the inputs gathered now. */
  lemma {:induction false} SkippedOnlyIfUnchanged(s: State, es: seq<Event>, e: Event)
    requires Sound(s) && AllKeep(s, es)
    ensures Sound(Steps(s, es)) && !SkipsWrongly(Steps(s, es), e)
    decreases |es|
  {
    if es != [] {
      hide Sound, Step, RecordsUnrun, LeavesStaleFile;
      SoundIff(s, es[0]);
      SkippedOnlyIfUnchanged(Step(s, es[0]), es[1..], e);
    }
  }

  /** No signal comes, and a save that fails leaves the file unreadable, not as it was. */
  predicate Peaceful(e: Event) {
    !e.Signal? && (e.Run? ==> !e.signal && e.saving != SaveKeepsOld)
  }

  predicate AllPeaceful(es: seq<Event>) {
    forall i :: 0 <= i < |es| ==> Peaceful(es[i])
  }

  /** Such runs are safe. */
  lemma {:induction false} PeacefulRunsKeep(s: State, es: seq<Event>)
    requires !s.shuttingDown && AllPeaceful(es)
    ensures AllKeep(s, es) && !Steps(s, es).shuttingDown
    decreases |es|
  {
    if es != [] {
      assert Peaceful(es[0]);
      PeacefulRunsKeep(Step(s, es[0]), es[1..]);
    }
  }

  /** Memory and file both hold exactly the last successful inputs. */
  predicate Exact(s: State) {
    s.cache == Some(s.last) && Load(s.file) == s.last && !s.shuttingDown
  }

  /** A run without signals in which saving works: a step is skipped exactly if its last successful command
      had the inputs gathered now; else its command is started. */
  lemma {:induction false} SkippedIffUnchanged(s: State, es: seq<Event>, e: Event)
    requires Exact(s) && AllPeaceful(es)
    requires forall i :: 0 <= i < |es| && es[i].Run? ==> es[i].saving == SaveOk
    requires e.Run? && e.inputs.Some?
    ensures var r := Steps(s, es);
            && Exact(r)
            && (Step(r, e).started == r.started <==> e.step in r.last && r.last[e.step] == e.inputs.value)
    decreases |es|
  {
    if es != [] {
      SkippedIffUnchanged(Step(s, es[0]), es[1..], e);
    }
  }

  /** A command that fails leaves entries, file and the record of successes as they were. */
  lemma FailureChangesNothing(s: State, e: Event)
    requires Starts(s, e) && !Resolves(s, e)
    ensures Step(s, e) == s.(started := s.started + 1, shuttingDown := e.signal) && !Succeeds(s, e)
  {
  }

  /** While nothing changes no command is started, over any restarts. */
  lemma {:induction false} NothingChangedNothingRuns(s: State, es: seq<Event>)
    requires Exact(s)
    requires forall i :: 0 <= i < |es| ==>
               es[i] == Boot || (es[i].Run? && es[i].step in s.last && es[i].inputs == Some(s.last[es[i].step]))
    ensures Steps(s, es) == s
    decreases |es|
  {
    if es != [] {
      assert Step(s, es[0]) == s;
      NothingChangedNothingRuns(s, es[1..]);
    }
  }

  lemma StepsCons(s: State, e: Event, es: seq<Event>)
    ensures Steps(s, [e] + es) == Steps(Step(s, e), es)
  {
  }

  /** After a signal, a step that never ran is recorded as done, and the next process skips it. */
  lemma SignalSkipsTheNextRun(step: StepKey, inputs: Inputs, outcome: Outcome)
    ensures var s := State(Some(map[]), Absent, false, map[], 0);
            var r := Steps(s, [Signal, Run(step, Some(inputs), outcome, false, SaveOk), Boot]);
            r.started == 0 && r.last == map[] && Skips(r, Run(step, Some(inputs), outcome, false, SaveOk))
  {
    var s := State(Some(map[]), Absent, false, map[], 0);
    var a, b := Signal, Run(step, Some(inputs), outcome, false, SaveOk);
    StepsCons(s, a, [b, Boot]);
    StepsCons(Step(s, a), b, [Boot]);
    StepsCons(Step(Step(s, a), b), Boot, []);
  }

  /** Without any signal, over three processes: after a save that failed and left the file as it was,
      the next process skips a step for inputs that are not those of its last command. */
  lemma FailedSaveSkipsTheNextRun(step: StepKey, before: Inputs, after: Inputs)
    requires before != after
    ensures var s := State(Some(map[]), Absent, false, map[], 0);
            var ran := (inputs: Inputs, saving: Saving) => Run(step, Some(inputs), Exited(0), false, saving);
            var r := Steps(s, [ran(before, SaveOk), Boot, ran(after, SaveKeepsOld), Boot]);
            r.last == map[step := after] && SkipsWrongly(r, ran(before, SaveOk))
  {
    var s := State(Some(map[]), Absent, false, map[], 0);
    var a := Run(step, Some(before), Exited(0), false, SaveOk);
    var b := Run(step, Some(after), Exited(0), false, SaveKeepsOld);
    StepsCons(s, a, [Boot, b, Boot]);
    var s1 := Step(s, a);
    StepsCons(s1, Boot, [b, Boot]);
    var s2 := Step(s1, Boot);
    StepsCons(s2, b, [Boot]);
    StepsCons(Step(s2, b), Boot, []);
  }

  /** A step that is due is recorded, in memory and, if saving works, in the file, exactly if its command
      succeeded, or a signal came before it or while it ran and it could be started. No other step's
      entry changes. */
  lemma RecordedIff(s: State, e: Event)
    requires e.Run? && e.inputs.Some? && ShouldRun(s, e.step, e.inputs.value)
    ensures var s' := Step(s, e);
            var records := s.shuttingDown || e.outcome == Exited(0) || (e.signal && e.outcome != SpawnError);
            && (s'.cache.Some? && e.step in s'.cache.value && s'.cache.value[e.step] == e.inputs.value <==> records)
            && (records && e.saving == SaveOk ==> s'.file == Saved(s'.cache.value))
            && (!records ==> s'.cache == s.cache && s'.file == s.file)
            && (s.cache.Some? ==> s'.cache.Some? && forall k :: k != e.step ==>
                  (k in s'.cache.value <==> k in s.cache.value) && (k in s.cache.value ==> s'.cache.value[k] == s.cache.value[k]))
  {
  }

  /** The command is started exactly if the step is due and no signal has come; its inputs are those of
      the last success exactly if it then exits with 0. */
  lemma StartedIff(s: State, e: Event)
    requires e.Run?
    ensures var s' := Step(s, e);
            var due := e.inputs.Some? && (s.cache.None? || e.step !in s.cache.value || s.cache.value[e.step] != e.inputs.value);
            && s'.started == s.started + (if due && !s.shuttingDown then 1 else 0)
            && s'.last == (if due && !s.shuttingDown && e.outcome == Exited(0) then s.last[e.step := e.inputs.value] else s.last)
            && (s'.shuttingDown <==> s.shuttingDown || (due && e.signal))
  {
  }

  /** A new process has what the file holds, if it is readable, and no signal yet; a signal changes
      nothing but that one came. Neither touches the file or what was run. */
  lemma BootLoadsTheFile(s: State)
    ensures var b := Step(s, Boot);
            && b.cache.Some? && !b.shuttingDown
            && (s.file.Saved? ==> b.cache.value == s.file.metadata)
            && (!s.file.Saved? ==> b.cache.value == map[])
            && b.file == s.file && b.last == s.last && b.started == s.started
    ensures var t := Step(s, Signal);
            t.shuttingDown && t.cache == s.cache && t.file == s.file && t.last == s.last && t.started == s.started
  {
  }
}
