/** The forward-only runner of the Cassandra migration tool (`up` and `ack`), with a failure
    possible before or after the effect of any call to the database. */
module MigrationRunner {
  import opened Text
  import opened MigrationText
  import opened Wrappers

  datatype File = File(name: string, content: string)

  /** The names listed by the migrations directory are distinct. */
  ghost predicate Distinct(files: seq<File>) {
    forall i, j :: 0 <= i < j < |files| ==> files[i].name != files[j].name
  }

  predicate IsSkipLine(line: string) {
    var lower := Lower(Trim(line));
    Includes(lower, "-- skip ci") || Includes(lower, "--skip ci")
  }

  /** One of the first ten lines carries the annotation. */
  predicate SkipWithin(lines: seq<string>) {
    exists i :: 0 <= i < |lines| && i < 10 && IsSkipLine(lines[i])
  }

  predicate SkipCi(content: string) {
    SkipWithin(Lines(content))
  }

  method HasSkipCi(content: string) returns (found: bool)
    ensures found == SkipCi(content)
    ensures found <==> exists i :: 0 <= i < |Lines(content)| && i < 10 && IsSkipLine(Lines(content)[i])
  {
    hide IsSkipLine;
    TenLines(content);
    var all := Lines(content);
    var lines := if |all| <= 10 then all else all[..10];
    for i := 0 to |lines|
      invariant forall j :: 0 <= j < i ==> !IsSkipLine(all[j])
    {
      if IsSkipLine(lines[i]) {
        return true;
      }
    }
    return false;
  }

  lemma TenLines(content: string)
    ensures SkipCi(content) <==> exists i :: 0 <= i < |Lines(content)| && i < 10 && IsSkipLine(Lines(content)[i])
  {
    hide IsSkipLine, Lines, SkipCi;
    SkipCiIs(content);
    SkipWithinIs(Lines(content));
  }

  lemma SkipCiIs(content: string)
    ensures SkipCi(content) <==> SkipWithin(Lines(content))
  {
    hide SkipWithin;
  }

  lemma SkipWithinIs(lines: seq<string>)
    ensures SkipWithin(lines) <==> exists i :: 0 <= i < |lines| && i < 10 && IsSkipLine(lines[i])
  {
    hide IsSkipLine;
  }

  /** Why a row of the migration table was written. */
  datatype Reason = Ran | Skipped | Acknowledged

  /** What a run does to the database, in order. `Abort` is the runner's own error on a file
      without statements; it has no effect and ends the run. */
  datatype Op =
    | Exec(file: string, index: nat, statement: string)
    | Record(file: string, reason: Reason)
    | Abort(file: string)

  /** What becomes of one call: done, or failed with or without its effect. */
  datatype Outcome = Done | FailedBefore | FailedAfter

  function Execs(f: File): seq<Op> {
    var ss := Statements(f.content);
    seq(|ss|, i requires 0 <= i < |ss| => Exec(f.name, i, ss[i]))
  }

  /** `applyMigration` */
  function Apply(f: File): seq<Op> {
    if Statements(f.content) == [] then [Abort(f.name)] else Execs(f) + [Record(f.name, Ran)]
  }

  function ApplyAll(files: seq<File>): seq<Op> {
    if files == [] then [] else Apply(files[0]) + ApplyAll(files[1..])
  }

  /** `autoAcknowledgeMigration`, over the skipped files */
  function Acks(files: seq<File>): (r: seq<Op>)
    ensures |r| == |files| && forall i :: 0 <= i < |r| ==> r[i] == Record(files[i].name, Skipped)
  {
    seq(|files|, i requires 0 <= i < |files| => Record(files[i].name, Skipped))
  }

  /** The files not in the table, with (or without) the skip annotation, in listing order. */
  function Select(files: seq<File>, applied: set<string>, skip: bool): seq<File> {
    if files == [] then [] else
      (if files[0].name !in applied && SkipCi(files[0].content) == skip then [files[0]] else [])
      + Select(files[1..], applied, skip)
  }

  /** One more file, after those that were selected before. */
  lemma SelectStep(files: seq<File>, i: nat, applied: set<string>, skip: bool, chosen: seq<File>)
    requires i < |files|
    ensures chosen + Select(files[i..], applied, skip) ==
            (if files[i].name !in applied && SkipCi(files[i].content) == skip then chosen + [files[i]] else chosen)
            + Select(files[i + 1..], applied, skip)
  {
    hide SkipCi;
    assert files[i..][1..] == files[i + 1..];
    var first := if files[i].name !in applied && SkipCi(files[i].content) == skip then [files[i]] else [];
    assert chosen + (first + Select(files[i + 1..], applied, skip)) == (chosen + first) + Select(files[i + 1..], applied, skip);
  }

  lemma SelectEnds(files: seq<File>, applied: set<string>, skip: bool, chosen: seq<File>)
    ensures chosen + Select(files[|files|..], applied, skip) == chosen
  {
    assert files[|files|..] == [];
  }

  /** All that a run without failures does. */
  function Plan(files: seq<File>, applied: set<string>): seq<Op> {
    Acks(Select(files, applied, true)) + ApplyAll(Select(files, applied, false))
  }

  /** How far a plan gets, and whether it gets through. `oracle(k)` is the fate of call `k`. */
  function Perform(plan: seq<Op>, oracle: nat -> Outcome, k: nat): (r: (nat, bool))
    ensures r.0 <= |plan| && (r.1 ==> r.0 == |plan|)
    ensures forall i :: 0 <= i < r.0 ==> !plan[i].Abort?
    decreases |plan|
  {
    if plan == [] then (0, true)
    else if plan[0].Abort? then (0, false)
    else match oracle(k)
      case FailedBefore => (0, false)
      case FailedAfter => (1, false)
      case Done =>
        var r := Perform(plan[1..], oracle, k + 1);
        (r.0 + 1, r.1)
  }

  lemma TailOfAppend(a: seq<Op>, b: seq<Op>)
    requires a != []
    ensures a + b != [] && (a + b)[0] == a[0] && (a + b)[1..] == a[1..] + b
  {
  }

  /** `Perform` of what is not empty. */
  lemma PerformFirst(plan: seq<Op>, oracle: nat -> Outcome, k: nat)
    requires plan != []
    ensures var r := Perform(plan[1..], oracle, k + 1);
            Perform(plan, oracle, k) ==
              if plan[0].Abort? || oracle(k) == FailedBefore then (0, false)
              else if oracle(k) == FailedAfter then (1, false)
              else (r.0 + 1, r.1)
  {
  }

  lemma {:induction false} PerformAppend(a: seq<Op>, b: seq<Op>, oracle: nat -> Outcome, k: nat)
    ensures var ra := Perform(a, oracle, k);
            Perform(a + b, oracle, k) ==
              if ra.1 then var rb := Perform(b, oracle, k + |a|); (|a| + rb.0, rb.1) else ra
    decreases |a|
  {
    if a == [] {
      assert a + b == b;
    } else {
      hide Perform;
      PerformAppend(a[1..], b, oracle, k + 1);
      TailOfAppend(a, b);
      PerformFirst(a, oracle, k);
      PerformFirst(a + b, oracle, k);
    }
  }

  /** Operation `i` of the plan does not end the run. */
  predicate GoesWell(plan: seq<Op>, oracle: nat -> Outcome, k: nat, i: nat)
    requires i < |plan|
  {
    !plan[i].Abort? && oracle(k + i) == Done
  }

  /** A plan gets through exactly when every call is done and no file is empty. */
  lemma {:induction false} PerformSucceeds(plan: seq<Op>, oracle: nat -> Outcome, k: nat)
    ensures Perform(plan, oracle, k).1 <==> forall i: nat :: i < |plan| ==> GoesWell(plan, oracle, k, i)
    decreases |plan|
  {
    if plan != [] {
      var rest := plan[1..];
      PerformSucceeds(rest, oracle, k + 1);
      assert forall i: nat {:trigger GoesWell(rest, oracle, k + 1, i)} ::
          i < |rest| ==> GoesWell(rest, oracle, k + 1, i) == GoesWell(plan, oracle, k, i + 1);
      assert GoesWell(plan, oracle, k, 0) <==> !plan[0].Abort? && oracle(k) == Done;
      assert forall i: nat :: 0 < i < |plan| ==> GoesWell(plan, oracle, k, i) == GoesWell(rest, oracle, k + 1, i - 1);
    }
  }

  lemma ApplyShape(f: File)
    ensures var n := |Statements(f.content)|;
            if n == 0 then Apply(f) == [Abort(f.name)]
            else
              && |Apply(f)| == n + 1
              && (forall i :: 0 <= i < n ==> Apply(f)[i] == Exec(f.name, i, Statements(f.content)[i]))
              && Apply(f)[n] == Record(f.name, Ran)
  {
    hide Statements;
  }

  /** A plan whose rest from `p` on is `ops` and then `tail`. */
  lemma Stretch(plan: seq<Op>, p: nat, ops: seq<Op>, tail: seq<Op>, d: nat)
    requires p <= |plan| && plan[p..] == ops + tail && d <= |ops|
    ensures p + |ops| <= |plan| && plan[p + |ops|..] == tail
    ensures plan[..p + d] == plan[..p] + ops[..d]
  {
    var rest := plan[p..];
    assert rest[|ops|..] == tail && rest[..d] == ops[..d];
    assert plan == plan[..p] + rest;
  }

  /** What becomes of a plan from the operations of the next file on. */
  lemma NextResumes(plan: seq<Op>, files: seq<File>, oracle: nat -> Outcome, k: nat)
    requires files != [] && 1 <= k <= |plan| + 1 && plan[k - 1..] == ApplyAll(files)
    ensures var p, ops := k - 1, Apply(files[0]);
            var r := Perform(ops, oracle, k);
            && p + |ops| <= |plan| && plan[p + |ops|..] == ApplyAll(files[1..])
            && plan[..p + r.0] == plan[..p] + ops[..r.0]
            && Recorded(plan[..p + r.0]) == Recorded(plan[..p]) + Recorded(ops[..r.0])
            && Resumed(plan, oracle, 1, p) == if r.1 then Resumed(plan, oracle, 1, p + |ops|) else (p + r.0, false)
  {
    hide Apply, Perform, Recorded;
    var p, ops, tail := k - 1, Apply(files[0]), ApplyAll(files[1..]);
    PerformAppend(ops, tail, oracle, k);
    var d := Perform(ops, oracle, k).0;
    Stretch(plan, p, ops, tail, d);
    RecordedAppend(plan[..p], ops[..d]);
  }

  // ---------------------------------------------------------------- the program

  /** A run's view of the database: the migration table and, as a log, all effects in order. */
  class Migrator {
    var applied: set<string>
    var trace: seq<Op>

    constructor (table: set<string>)
      ensures applied == table && trace == []
    {
      applied, trace := table, [];
    }

    /** `session.execute` of a statement or an insert. */
    method Execute(op: Op, outcome: Outcome) returns (ok: bool)
      requires !op.Abort?
      modifies this
      ensures ok == outcome.Done?
      ensures trace == old(trace) + if outcome.FailedBefore? then [] else [op]
      ensures applied == old(applied) + if outcome.FailedBefore? then {} else Recorded([op])
    {
      if !outcome.FailedBefore? {
        trace := trace + [op];
        if op.Record? {
          applied := applied + {op.file};
        }
      }
      ok := outcome.Done?;
    }

    method ApplyMigration(f: File, oracle: nat -> Outcome, k: nat) returns (ok: bool)
      modifies this
      ensures var r := Perform(Apply(f), oracle, k);
              ok == r.1 && Extended(old(trace), old(applied), Apply(f)[..r.0])
    {
      hide Statements, Apply, Perform, Resumed, Extended;
      var statements := ParseStatements(f.content);
      ghost var plan := Apply(f);
      ghost var (t, a) := (trace, applied);
      ApplyShape(f);
      ExtendedByNothing();
      assert plan[..0] == [];
      PerformFrom(plan, oracle, k, 0);
      if |statements| == 0 {
        return false;
      }
      for i := 0 to |statements|
        invariant Extended(t, a, plan[..i])
        invariant Perform(plan, oracle, k) == Resumed(plan, oracle, k, i)
      {
        PerformFrom(plan, oracle, k, i);
        ok := ExecuteNext(t, a, plan, i, Exec(f.name, i, statements[i]), oracle(k + i));
        if !ok {
          return;
        }
      }
      var n := |statements|;
      PerformFrom(plan, oracle, k, n);
      PerformFrom(plan, oracle, k, n + 1);
      ok := ExecuteNext(t, a, plan, n, Record(f.name, Ran), oracle(k + n));
    }

    /** `Execute` of operation `i` of a plan whose first `i` operations are done. */
    method ExecuteNext(ghost t: seq<Op>, ghost a: set<string>, ghost plan: seq<Op>, ghost i: nat, op: Op, outcome: Outcome)
      returns (ok: bool)
      requires i < |plan| && plan[i] == op && !op.Abort?
      requires Extended(t, a, plan[..i])
      modifies this
      ensures ok == outcome.Done?
      ensures Extended(t, a, plan[..if outcome.FailedBefore? then i else i + 1])
    {
      assert plan[..i + 1] == plan[..i] + [op];
      ok := Execute(op, outcome);
    }

    /** `runMigrations`; call 0 reads the migration table. */
    method RunMigrations(files: seq<File>, oracle: nat -> Outcome) returns (ok: bool)
      modifies this
      ensures var r := UpStep(files, Db(old(applied), old(trace)), oracle);
              Db(applied, trace) == r.0 && ok == r.1
    {
      if oracle(0) != Done {
        return false;
      }
      hide Statements, Apply, Perform, Resumed, Plan, SkipCi, Select;
      ghost var plan := Plan(files, applied);
      ghost var (t, a) := (trace, applied);
      var pending, skipped := Classify(files);
      PlanSplit(files, applied);
      ok := AcknowledgeAll(t, a, plan, skipped, oracle);
      if ok {
        ok := ApplyAllPending(t, a, plan, pending, oracle, 1 + |skipped|);
      }
    }

    /** The second loop of `runMigrations`. */
    method AcknowledgeAll(ghost t: seq<Op>, ghost a: set<string>, ghost plan: seq<Op>, skipped: seq<File>, oracle: nat -> Outcome)
      returns (ok: bool)
      requires trace == t && applied == a && |skipped| <= |plan|
      requires forall i :: 0 <= i < |skipped| ==> plan[i] == Record(skipped[i].name, Skipped)
      modifies this
      ensures ok ==> Extended(t, a, plan[..|skipped|]) && Perform(plan, oracle, 1) == Resumed(plan, oracle, 1, |skipped|)
      ensures !ok ==> !Perform(plan, oracle, 1).1 && Extended(t, a, plan[..Perform(plan, oracle, 1).0])
    {
      hide Perform, Resumed;
      ExtendedByNothing();
      assert plan[..0] == [];
      PerformFrom(plan, oracle, 1, 0);
      ok := true;
      for i := 0 to |skipped|
        invariant ok && Extended(t, a, plan[..i])
        invariant Perform(plan, oracle, 1) == Resumed(plan, oracle, 1, i)
      {
        PerformFrom(plan, oracle, 1, i);
        ok := ExecuteNext(t, a, plan, i, Record(skipped[i].name, Skipped), oracle(1 + i));
        if !ok {
          return;
        }
      }
    }

    /** The last loop of `runMigrations`. */
    method ApplyAllPending(ghost t: seq<Op>, ghost a: set<string>, ghost plan: seq<Op>, pending: seq<File>,
                           oracle: nat -> Outcome, first: nat)
      returns (ok: bool)
      requires 1 <= first <= |plan| + 1 && plan[first - 1..] == ApplyAll(pending)
      requires Extended(t, a, plan[..first - 1])
      requires Perform(plan, oracle, 1) == Resumed(plan, oracle, 1, first - 1)
      modifies this
      ensures var r := Perform(plan, oracle, 1); ok == r.1 && Extended(t, a, plan[..r.0])
    {
      hide Perform, Resumed, Apply;
      var k := first;
      ok := true;
      assert pending[0..] == pending;
      for j := 0 to |pending|
        invariant ok && 1 <= k <= |plan| + 1
        invariant plan[k - 1..] == ApplyAll(pending[j..])
        invariant Extended(t, a, plan[..k - 1])
        invariant Perform(plan, oracle, 1) == Resumed(plan, oracle, 1, k - 1)
      {
        assert pending[j..][1..] == pending[j + 1..];
        ok := ApplyNext(t, a, plan, pending[j], pending[j + 1..], oracle, k, pending[j..]);
        if !ok {
          return;
        }
        k := k + |Apply(pending[j])|;
      }
      assert |plan[k - 1..]| == 0;
      PerformFrom(plan, oracle, 1, k - 1);
    }

    /** `ApplyMigration` of the next file of a plan. */
    method ApplyNext(ghost t: seq<Op>, ghost a: set<string>, ghost plan: seq<Op>, f: File, ghost rest: seq<File>,
                     oracle: nat -> Outcome, k: nat, ghost files: seq<File>)
      returns (ok: bool)
      requires files != [] && files[0] == f && files[1..] == rest
      requires 1 <= k <= |plan| + 1 && plan[k - 1..] == ApplyAll(files)
      requires Extended(t, a, plan[..k - 1])
      modifies this
      ensures ok ==>
                && k + |Apply(f)| <= |plan| + 1
                && plan[k + |Apply(f)| - 1..] == ApplyAll(rest)
                && Extended(t, a, plan[..k + |Apply(f)| - 1])
                && Resumed(plan, oracle, 1, k - 1) == Resumed(plan, oracle, 1, k + |Apply(f)| - 1)
      ensures !ok ==>
                && !Resumed(plan, oracle, 1, k - 1).1
                && Resumed(plan, oracle, 1, k - 1).0 <= |plan|
                && Extended(t, a, plan[..Resumed(plan, oracle, 1, k - 1).0])
    {
      hide Apply, ApplyAll, Perform, Resumed, Statements, Recorded;
      NextResumes(plan, files, oracle, k);
      ok := ApplyMigration(f, oracle, k);
    }

    /** The first loop of `runMigrations`. */
    method Classify(files: seq<File>) returns (pending: seq<File>, skipped: seq<File>)
      ensures pending == Select(files, applied, false) && skipped == Select(files, applied, true)
    {
      hide SkipCi, Select;
      pending, skipped := [], [];
      assert files[0..] == files;
      for i := 0 to |files|
        invariant pending + Select(files[i..], applied, false) == Select(files, applied, false)
        invariant skipped + Select(files[i..], applied, true) == Select(files, applied, true)
      {
        SelectStep(files, i, applied, false, pending);
        SelectStep(files, i, applied, true, skipped);
        if files[i].name !in applied {
          var skip := HasSkipCi(files[i].content);
          if skip {
            skipped := skipped + [files[i]];
          } else {
            pending := pending + [files[i]];
          }
        }
      }
      SelectEnds(files, applied, false, pending);
      SelectEnds(files, applied, true, skipped);
    }

    /** `acknowledgeMigration`: records one file without running it. */
    method AcknowledgeMigration(files: seq<File>, name: string, oracle: nat -> Outcome) returns (ok: bool)
      modifies this
      ensures var r := AckStep(files, Db(old(applied), old(trace)), name, oracle);
              Db(applied, trace) == r.0 && ok == r.1
    {
      if oracle(0) != Done || name in applied || !Listed(files, name) {
        return false;
      }
      ok := Execute(Record(name, Acknowledged), oracle(1));
    }

    /** The log and the table grew by exactly these operations. */
    ghost predicate Extended(trace0: seq<Op>, applied0: set<string>, ops: seq<Op>)
      reads this
    {
      trace == trace0 + ops && applied == applied0 + Recorded(ops)
    }

    lemma ExtendedByNothing()
      ensures Extended(trace, applied, [])
    {
    }
  }

  function Recorded(ops: seq<Op>): set<string> {
    set op | op in ops && op.Record? :: op.file
  }

  /** `Perform`, after the first `i` operations went well. */
  ghost function Resumed(plan: seq<Op>, oracle: nat -> Outcome, k: nat, i: nat): (nat, bool)
    requires i <= |plan|
  {
    var r := Perform(plan[i..], oracle, k + i);
    (i + r.0, r.1)
  }

  lemma PerformFrom(plan: seq<Op>, oracle: nat -> Outcome, k: nat, i: nat)
    requires i <= |plan|
    ensures i == 0 ==> Resumed(plan, oracle, k, i) == Perform(plan, oracle, k)
    ensures i == |plan| ==> Resumed(plan, oracle, k, i) == (i, true)
    ensures i < |plan| && plan[i].Abort? ==> Resumed(plan, oracle, k, i) == (i, false)
    ensures i < |plan| && !plan[i].Abort? ==>
              Resumed(plan, oracle, k, i) ==
                match oracle(k + i)
                case FailedBefore => (i, false)
                case FailedAfter => (i + 1, false)
                case Done => Resumed(plan, oracle, k, i + 1)
  {
    if i == 0 {
      assert plan[0..] == plan;
    }
    if i < |plan| {
      assert plan[i..][1..] == plan[i + 1..];
    }
  }

  lemma RecordedAppend(a: seq<Op>, b: seq<Op>)
    ensures Recorded(a + b) == Recorded(a) + Recorded(b)
  {
  }

  lemma PlanSplit(files: seq<File>, applied: set<string>)
    ensures var (s, p) := (Select(files, applied, true), Select(files, applied, false));
            var plan := Plan(files, applied);
            && |s| <= |plan| && plan[|s|..] == ApplyAll(p) && p[0..] == p
            && forall i :: 0 <= i < |s| ==> plan[i] == Record(s[i].name, Skipped)
  {
    hide SkipCi, ApplyAll;
    var s := Select(files, applied, true);
    assert Plan(files, applied)[..|s|] == Acks(s);
  }

  // ---------------------------------------------------------------- runs of the program

  /** The database: the migration table, and what was ever done to it. */
  datatype Db = Db(applied: set<string>, trace: seq<Op>)

  predicate Listed(files: seq<File>, name: string) {
    exists i :: 0 <= i < |files| && files[i].name == name
  }

  /** One `up`, and whether it returns normally. */
  function UpStep(files: seq<File>, db: Db, oracle: nat -> Outcome): (Db, bool) {
    if oracle(0) != Done then (db, false)
    else
      var plan := Plan(files, db.applied);
      var r := Perform(plan, oracle, 1);
      (After(db, plan[..r.0]), r.1)
  }

  function After(db: Db, ops: seq<Op>): Db {
    Db(db.applied + Recorded(ops), db.trace + ops)
  }

  /** One `ack`. */
  function AckStep(files: seq<File>, db: Db, name: string, oracle: nat -> Outcome): (Db, bool) {
    if oracle(0) != Done || name in db.applied || !Listed(files, name) then (db, false)
    else (After(db, if oracle(1).FailedBefore? then [] else [Record(name, Acknowledged)]), oracle(1).Done?)
  }

  datatype Command = Up(oracle: nat -> Outcome) | Ack(name: string, oracle: nat -> Outcome)

  function Step(files: seq<File>, db: Db, c: Command): Db {
    match c
    case Up(oracle) => UpStep(files, db, oracle).0
    case Ack(name, oracle) => AckStep(files, db, name, oracle).0
  }

  function Run(files: seq<File>, db: Db, cs: seq<Command>): Db
    decreases |cs|
  {
    if cs == [] then db else Run(files, Step(files, db, cs[0]), cs[1..])
  }

  /** The row written at `p` is accounted for: a file that ran was executed from its first to its
      last statement just before; a file recorded without that is annotated or was acknowledged. */
  ghost predicate Explained(files: seq<File>, trace: seq<Op>, p: nat)
    requires p < |trace|
  {
    trace[p].Record? ==>
      match trace[p].reason
      case Ran => exists f :: f in files && RanJustBefore(f, trace, p)
      case Skipped => exists f :: f in files && f.name == trace[p].file && SkipCi(f.content)
      case Acknowledged => true
  }

  ghost predicate RanJustBefore(f: File, trace: seq<Op>, p: nat)
    requires p < |trace|
  {
    var n := |Execs(f)|;
    f.name == trace[p].file && !SkipCi(f.content) && 0 < n <= p && trace[p - n..p] == Execs(f)
  }

  /** Then each of the file's statements was executed once, in order, right before the record. */
  lemma RanInOrder(f: File, trace: seq<Op>, p: nat)
    requires p < |trace| && RanJustBefore(f, trace, p)
    ensures var ss := Statements(f.content);
            0 < |ss| <= p && forall i :: 0 <= i < |ss| ==> trace[p - |ss| + i] == Exec(f.name, i, ss[i])
  {
    hide Statements, SkipCi;
    var n := |Statements(f.content)|;
    forall i | 0 <= i < n ensures trace[p - n + i] == Execs(f)[i] {
      assert trace[p - n..p][i] == trace[p - n + i];
    }
  }

  /** Nothing is done for a file after it is recorded. */
  ghost predicate OnceRecorded(trace: seq<Op>) {
    forall p, q :: 0 <= p < q < |trace| && trace[p].Record? ==> trace[q].file != trace[p].file
  }

  ghost predicate Sound(files: seq<File>, table: set<string>, db: Db) {
    && db.applied == table + Recorded(db.trace)
    && (forall p :: 0 <= p < |db.trace| ==> db.trace[p].file !in table)
    && OnceRecorded(db.trace)
    && (forall p :: 0 <= p < |db.trace| ==> Explained(files, db.trace, p))
  }

  // ---------------------------------------------------------------- what a plan is like

  function FileNames(files: seq<File>): (r: set<string>)
    ensures forall n :: n in r <==> exists f :: f in files && f.name == n
  {
    set f | f in files :: f.name
  }

  /** Every operation is about one of the names. */
  ghost predicate Mentions(ops: seq<Op>, names: set<string>) {
    forall i :: 0 <= i < |ops| ==> ops[i].file in names
  }

  lemma {:induction false} SelectFacts(files: seq<File>, applied: set<string>, skip: bool)
    requires Distinct(files)
    ensures var r := Select(files, applied, skip);
            && Distinct(r)
            && forall f :: f in r <==> f in files && f.name !in applied && SkipCi(f.content) == skip
  {
    hide SkipCi;
    if files != [] {
      SelectFacts(files[1..], applied, skip);
      assert Distinct(files[1..]);
      assert forall f :: f in files <==> f == files[0] || f in files[1..];
      assert forall f :: f in files[1..] ==> f.name != files[0].name;
    }
  }

  lemma OnceAppend(a: seq<Op>, b: seq<Op>)
    requires OnceRecorded(a) && OnceRecorded(b)
    requires forall p, q :: 0 <= p < |a| && 0 <= q < |b| && a[p].Record? ==> b[q].file != a[p].file
    ensures OnceRecorded(a + b)
  {
  }

  lemma ExplainedShift(files: seq<File>, a: seq<Op>, b: seq<Op>)
    requires forall p :: 0 <= p < |b| ==> Explained(files, b, p)
    ensures forall p :: |a| <= p < |a + b| ==> Explained(files, a + b, p)
  {
    hide SkipCi, Execs;
    forall p | |a| <= p < |a + b| ensures Explained(files, a + b, p) {
      var q := p - |a|;
      assert Explained(files, b, q);
      if b[q].Record? && b[q].reason == Ran {
        var f :| f in files && RanJustBefore(f, b, q);
        var n := |Execs(f)|;
        assert (a + b)[p - n..p] == b[q - n..q];
        assert RanJustBefore(f, a + b, p);
      }
    }
  }

  lemma ExplainedExtend(files: seq<File>, a: seq<Op>, b: seq<Op>, p: nat)
    requires p < |a| && Explained(files, a, p)
    ensures Explained(files, a + b, p)
  {
    hide SkipCi, Execs;
    if a[p].Record? && a[p].reason == Ran {
      var f :| f in files && RanJustBefore(f, a, p);
      var n := |Execs(f)|;
      assert (a + b)[p - n..p] == a[p - n..p];
      assert RanJustBefore(f, a + b, p);
    }
  }

  lemma ExplainedPrefix(files: seq<File>, a: seq<Op>, d: nat)
    requires d <= |a| && forall p :: 0 <= p < |a| ==> Explained(files, a, p)
    ensures forall p :: 0 <= p < d ==> Explained(files, a[..d], p)
  {
    hide SkipCi, Execs;
    forall p | 0 <= p < d ensures Explained(files, a[..d], p) {
      assert Explained(files, a, p);
      if a[p].Record? && a[p].reason == Ran {
        var f :| f in files && RanJustBefore(f, a, p);
        var n := |Execs(f)|;
        assert a[..d][p - n..p] == a[p - n..p];
        assert RanJustBefore(f, a[..d], p);
      }
    }
  }

  /** Applying one file: its statements in order, then its record. */
  lemma ApplyExplained(files: seq<File>, f: File)
    requires f in files && !SkipCi(f.content)
    ensures forall p :: 0 <= p < |Apply(f)| ==> Explained(files, Apply(f), p)
  {
    hide SkipCi, Statements;
    var ops := Apply(f);
    ApplyShape(f);
    var n := |Statements(f.content)|;
    if n > 0 {
      assert ops[n - n..n] == Execs(f);
      assert RanJustBefore(f, ops, n);
    }
  }

  lemma ApplyMentions(f: File)
    ensures OnceRecorded(Apply(f))
    ensures forall i :: 0 <= i < |Apply(f)| ==> Apply(f)[i].file == f.name
  {
    hide Statements;
    ApplyShape(f);
  }

  lemma {:induction false} ApplyAllMentions(pending: seq<File>)
    ensures Mentions(ApplyAll(pending), FileNames(pending))
  {
    hide Apply, FileNames, Mentions, ApplyAll;
    if pending == [] {
      ApplyAllNil();
      MentionsNothing(FileNames(pending));
    } else {
      ApplyMentions(pending[0]);
      ApplyAllMentions(pending[1..]);
      FileNamesCons(pending);
      ApplyAllCons(pending);
      MentionsAppend(Apply(pending[0]), pending[0].name, ApplyAll(pending[1..]), FileNames(pending[1..]));
    }
  }

  lemma MentionsNothing(names: set<string>)
    ensures Mentions([], names)
  {
  }

  lemma MentionsAppend(a: seq<Op>, name: string, b: seq<Op>, names: set<string>)
    requires forall i :: 0 <= i < |a| ==> a[i].file == name
    requires Mentions(b, names)
    ensures Mentions(a + b, {name} + names)
  {
  }

  lemma FileNamesCons(files: seq<File>)
    requires files != []
    ensures FileNames(files) == {files[0].name} + FileNames(files[1..])
  {
    assert forall f :: f in files <==> f == files[0] || f in files[1..];
  }

  lemma DistinctTail(pending: seq<File>)
    requires Distinct(pending) && pending != []
    ensures Distinct(pending[1..]) && pending[0].name !in FileNames(pending[1..])
  {
    var rest := pending[1..];
    assert forall i :: 0 <= i < |rest| ==> rest[i] == pending[i + 1];
  }

  lemma {:induction false} ApplyAllOnce(pending: seq<File>)
    requires Distinct(pending)
    ensures OnceRecorded(ApplyAll(pending))
  {
    if pending != [] {
      hide Apply, FileNames, OnceRecorded, ApplyAll;
      var rest := pending[1..];
      DistinctTail(pending);
      ApplyMentions(pending[0]);
      ApplyAllOnce(rest);
      ApplyAllMentions(rest);
      OnceAppend(Apply(pending[0]), ApplyAll(rest));
      ApplyAllCons(pending);
    } else {
      ApplyAllNil();
    }
  }

  lemma ApplyAllCons(pending: seq<File>)
    requires pending != []
    ensures ApplyAll(pending) == Apply(pending[0]) + ApplyAll(pending[1..])
  {
  }

  lemma ApplyAllNil()
    ensures ApplyAll([]) == []
  {
  }

  lemma {:induction false} ApplyAllExplained(files: seq<File>, pending: seq<File>)
    requires forall f :: f in pending ==> f in files && !SkipCi(f.content)
    ensures forall p :: 0 <= p < |ApplyAll(pending)| ==> Explained(files, ApplyAll(pending), p)
  {
    if pending != [] {
      hide SkipCi, Apply, Explained;
      var a, b := Apply(pending[0]), ApplyAll(pending[1..]);
      ApplyExplained(files, pending[0]);
      ApplyAllExplained(files, pending[1..]);
      ExplainedShift(files, a, b);
      forall p | 0 <= p < |a| ensures Explained(files, a + b, p) {
        ExplainedExtend(files, a, b, p);
      }
    }
  }

  /** The order of a plan is sound on its own. */
  lemma PlanFacts(files: seq<File>, applied: set<string>)
    requires Distinct(files)
    ensures var plan := Plan(files, applied);
            && OnceRecorded(plan)
            && (forall p :: 0 <= p < |plan| ==> plan[p].file !in applied)
            && (forall p :: 0 <= p < |plan| ==> Explained(files, plan, p))
  {
    hide SkipCi, Explained, ApplyAll, Select;
    var s, p := Select(files, applied, true), Select(files, applied, false);
    var a, b := Acks(s), ApplyAll(p);
    SelectFacts(files, applied, true);
    SelectFacts(files, applied, false);
    ApplyAllMentions(p);
    ApplyAllOnce(p);
    ApplyAllExplained(files, p);
    AcksFacts(files, s);
    forall i, j | 0 <= i < |a| && 0 <= j < |b| ensures b[j].file != a[i].file {
      assert b[j].file in FileNames(p);
      assert s[i] in s;
      SameNameSameFile(files);
    }
    OnceAppend(a, b);
    ExplainedShift(files, a, b);
    forall i | 0 <= i < |a| ensures Explained(files, a + b, i) {
      ExplainedExtend(files, a, b, i);
    }
    forall j | 0 <= j < |b| ensures b[j].file !in applied {
      assert b[j].file in FileNames(p);
    }
    forall i | 0 <= i < |a| ensures a[i].file !in applied {
      assert s[i] in s;
    }
  }

  lemma AcksFacts(files: seq<File>, s: seq<File>)
    requires Distinct(s) && forall f :: f in s ==> f in files && SkipCi(f.content)
    ensures OnceRecorded(Acks(s))
    ensures forall p :: 0 <= p < |s| ==> Explained(files, Acks(s), p)
  {
    hide SkipCi;
    forall p | 0 <= p < |s| ensures Explained(files, Acks(s), p) {
      assert s[p] in s;
    }
  }

  lemma SameNameSameFile(files: seq<File>)
    requires Distinct(files)
    ensures forall f, g :: f in files && g in files && f.name == g.name ==> f == g
  {
  }

  // ---------------------------------------------------------------- all runs

  /** Any sound continuation of a sound log is sound. */
  lemma SoundAfter(files: seq<File>, table: set<string>, db: Db, ops: seq<Op>)
    requires Sound(files, table, db) && OnceRecorded(ops)
    requires forall p :: 0 <= p < |ops| ==> ops[p].file !in db.applied
    requires forall p :: 0 <= p < |ops| ==> Explained(files, ops, p)
    ensures Sound(files, table, After(db, ops))
  {
    hide Explained;
    RecordedAppend(db.trace, ops);
    OnceAppend(db.trace, ops);
    ExplainedShift(files, db.trace, ops);
    forall p | 0 <= p < |db.trace| ensures Explained(files, db.trace + ops, p) {
      ExplainedExtend(files, db.trace, ops, p);
    }
  }

  lemma StepSound(files: seq<File>, table: set<string>, db: Db, c: Command)
    requires Distinct(files) && Sound(files, table, db)
    ensures Sound(files, table, Step(files, db, c))
  {
    hide Sound, Plan, Explained;
    match c
    case Up(oracle) =>
      var plan := Plan(files, db.applied);
      var d := Perform(plan, oracle, 1).0;
      PlanFacts(files, db.applied);
      ExplainedPrefix(files, plan, d);
      SoundAfter(files, table, db, plan[..d]);
    case Ack(name, oracle) =>
      AckExplained(files, name);
      if oracle(0) == Done && name !in db.applied {
        SoundAfter(files, table, db, [Record(name, Acknowledged)]);
        SoundAfter(files, table, db, []);
      }
  }

  lemma AckExplained(files: seq<File>, name: string)
    ensures Explained(files, [Record(name, Acknowledged)], 0)
  {
  }

  /** An empty log is sound, whatever the table holds. */
  lemma EmptyLogIsSound(files: seq<File>, table: set<string>)
    ensures Sound(files, table, Db(table, []))
  {
  }

  /** In every run of `up` and `ack`, with failures anywhere: the table is what was recorded; a
      file recorded as run had all its statements executed, in order, just before; nothing is
      done for a file once it is recorded. */
  lemma {:induction false} EveryRunIsSound(files: seq<File>, table: set<string>, db: Db, cs: seq<Command>)
    requires Distinct(files) && Sound(files, table, db)
    ensures Sound(files, table, Run(files, db, cs))
    decreases |cs|
  {
    if cs != [] {
      StepSound(files, table, db, cs[0]);
      EveryRunIsSound(files, table, Step(files, db, cs[0]), cs[1..]);
    }
  }

  /** From any table on: a file that is recorded and was not to begin with has one record in the log,
      and that says how it came about: its statements ran just before, or it has the annotation, or
      it was acknowledged by name. */
  lemma RecordsAreExplained(files: seq<File>, table: set<string>, cs: seq<Command>, name: string)
    requires Distinct(files)
    requires name !in table && name in Run(files, Db(table, []), cs).applied
    ensures var trace := Run(files, Db(table, []), cs).trace;
            exists p :: 0 <= p < |trace| && trace[p].Record? && trace[p].file == name && Explained(files, trace, p)
  {
    EmptyLogIsSound(files, table);
    EveryRunIsSound(files, table, Db(table, []), cs);
    hide Run, Explained;
    RecordedHas(Run(files, Db(table, []), cs).trace, name);
  }

  lemma {:induction false} RecordedHas(ops: seq<Op>, name: string)
    requires name in Recorded(ops)
    ensures exists p :: 0 <= p < |ops| && ops[p].Record? && ops[p].file == name
  {
  }

  ghost predicate AllRecorded(files: seq<File>, db: Db) {
    forall f :: f in files ==> f.name in db.applied
  }

  /** `up` returns normally exactly when no call fails and no pending file is empty. */
  lemma UpReturnsNormally(files: seq<File>, db: Db, oracle: nat -> Outcome)
    requires Distinct(files)
    ensures UpStep(files, db, oracle).1 <==>
            && (forall k: nat :: k <= |Plan(files, db.applied)| ==> oracle(k) == Done)
            && forall f :: f in files && f.name !in db.applied && !SkipCi(f.content) ==> Statements(f.content) != []
  {
    hide SkipCi, Statements, Select;
    var plan := Plan(files, db.applied);
    PerformSucceeds(plan, oracle, 1);
    SelectFacts(files, db.applied, false);
    PlanAborts(files, db.applied);
    if UpStep(files, db, oracle).1 {
      forall k: nat | 0 < k <= |plan| ensures oracle(k) == Done {
        assert GoesWell(plan, oracle, 1, k - 1);
      }
      forall i | 0 <= i < |plan| ensures !plan[i].Abort? {
        assert GoesWell(plan, oracle, 1, i);
      }
    }
  }

  ghost predicate HasAbort(ops: seq<Op>) {
    exists i :: 0 <= i < |ops| && ops[i].Abort?
  }

  lemma PlanAborts(files: seq<File>, applied: set<string>)
    ensures HasAbort(Plan(files, applied)) <==>
            exists f :: f in Select(files, applied, false) && Statements(f.content) == []
  {
    hide SkipCi, Statements, Select;
    var p := Select(files, applied, false);
    var s := Acks(Select(files, applied, true));
    ApplyAllAborts(p);
    var plan := Plan(files, applied);
    assert forall i :: 0 <= i < |ApplyAll(p)| ==> plan[|s| + i] == ApplyAll(p)[i];
  }

  lemma {:induction false} ApplyAllAborts(pending: seq<File>)
    ensures HasAbort(ApplyAll(pending)) <==> exists f :: f in pending && Statements(f.content) == []
  {
    hide Statements;
    if pending != [] {
      ApplyAllAborts(pending[1..]);
      var a, b := Apply(pending[0]), ApplyAll(pending[1..]);
      ApplyShape(pending[0]);
      assert HasAbort(a) <==> Statements(pending[0].content) == [] by {
        if Statements(pending[0].content) == [] { assert a[0].Abort?; }
      }
      assert forall i :: 0 <= i < |a| ==> (a + b)[i] == a[i];
      assert forall i :: 0 <= i < |b| ==> (a + b)[|a| + i] == b[i];
      assert forall f :: f in pending <==> f == pending[0] || f in pending[1..];
    }
  }

  // ---------------------------------------------------------------- what one run leaves behind

  /** A normal return of `up` leaves every file recorded. */
  lemma NormalReturnRecordsAll(files: seq<File>, db: Db, oracle: nat -> Outcome)
    requires Distinct(files) && UpStep(files, db, oracle).1
    ensures AllRecorded(files, UpStep(files, db, oracle).0)
  {
    hide SkipCi, Statements, Select, ApplyAll;
    var plan := Plan(files, db.applied);
    assert plan[..|plan|] == plan;
    var s, p := Select(files, db.applied, true), Select(files, db.applied, false);
    SelectFacts(files, db.applied, true);
    SelectFacts(files, db.applied, false);
    RecordedAppend(Acks(s), ApplyAll(p));
    UpReturnsNormally(files, db, oracle);
    ApplyAllRecords(p);
    forall f | f in files ensures f.name in db.applied + Recorded(plan) {
      if f in s {
        var i :| 0 <= i < |s| && s[i] == f;
        assert Acks(s)[i] == Record(f.name, Skipped);
      }
    }
  }

  lemma {:induction false} ApplyAllRecords(pending: seq<File>)
    requires forall f :: f in pending ==> Statements(f.content) != []
    ensures forall f :: f in pending ==> f.name in Recorded(ApplyAll(pending))
  {
    hide Statements, Apply;
    if pending != [] {
      var f := pending[0];
      ApplyAllRecords(pending[1..]);
      RecordedAppend(Apply(f), ApplyAll(pending[1..]));
      ApplyShape(f);
      assert Apply(f)[|Statements(f.content)|] in Apply(f);
    }
  }

  /** Once every file is recorded, no command does anything to the database any more. */
  lemma {:induction false} NothingMoreToDo(files: seq<File>, db: Db, cs: seq<Command>)
    requires AllRecorded(files, db)
    ensures Run(files, db, cs) == db
    decreases |cs|
  {
    if cs != [] {
      SelectNone(files, db.applied, true);
      SelectNone(files, db.applied, false);
      assert Plan(files, db.applied) == [];
      assert After(db, []) == db;
      assert Step(files, db, cs[0]) == db;
      NothingMoreToDo(files, db, cs[1..]);
    }
  }

  lemma {:induction false} SelectNone(files: seq<File>, applied: set<string>, skip: bool)
    requires forall f :: f in files ==> f.name in applied
    ensures Select(files, applied, skip) == []
  {
    if files != [] {
      assert files[0] in files;
      SelectNone(files[1..], applied, skip);
    }
  }

  /** The names recorded by some operations, in order. */
  function RecordNames(ops: seq<Op>): seq<string> {
    if ops == [] then [] else
      (if ops[0].Record? then [ops[0].file] else []) + RecordNames(ops[1..])
  }

  function Names(files: seq<File>): (r: seq<string>)
    ensures |r| == |files| && forall i :: 0 <= i < |r| ==> r[i] == files[i].name
  {
    seq(|files|, i requires 0 <= i < |files| => files[i].name)
  }

  /** However `up` ends, it has recorded a prefix of the annotated files followed by the pending
      ones, both in the order of the listing. */
  lemma UpRecordsAPrefix(files: seq<File>, db: Db, oracle: nat -> Outcome)
    requires oracle(0) == Done
    ensures var ops := UpStep(files, db, oracle).0.trace[|db.trace|..];
            RecordNames(ops) <= Names(Select(files, db.applied, true)) + Names(Select(files, db.applied, false))
  {
    hide Statements, Select, Plan, Perform;
    var plan := Plan(files, db.applied);
    var d := Perform(plan, oracle, 1).0;
    assert (db.trace + plan[..d])[|db.trace|..] == plan[..d];
    PlanRecordNames(files, db.applied, d);
  }

  lemma PlanRecordNames(files: seq<File>, applied: set<string>, d: nat)
    requires d <= |Plan(files, applied)| && !HasAbort(Plan(files, applied)[..d])
    ensures RecordNames(Plan(files, applied)[..d]) <= Names(Select(files, applied, true)) + Names(Select(files, applied, false))
  {
    hide Statements, Select, ApplyAll;
    var s, p := Select(files, applied, true), Select(files, applied, false);
    var a, b := Acks(s), ApplyAll(p);
    if d <= |s| {
      assert (a + b)[..d] == a[..d];
      assert a[..d] == Acks(s[..d]);
      AcksRecordNames(s[..d]);
      assert Names(s[..d]) == Names(s)[..d];
    } else {
      var e := d - |s|;
      assert (a + b)[..d] == a + b[..e];
      assert !HasAbort(b[..e]) by {
        assert forall i :: 0 <= i < e ==> (a + b)[..d][|s| + i] == b[..e][i];
      }
      RecordNamesAppend(a, b[..e]);
      AcksRecordNames(s);
      ApplyAllRecordNames(p, e);
    }
  }

  lemma RecordNamesFirst(ops: seq<Op>)
    requires ops != []
    ensures RecordNames(ops) == (if ops[0].Record? then [ops[0].file] else []) + RecordNames(ops[1..])
  {
  }

  lemma {:induction false} RecordNamesAppend(a: seq<Op>, b: seq<Op>)
    ensures RecordNames(a + b) == RecordNames(a) + RecordNames(b)
    decreases |a|
  {
    if a == [] {
      assert a + b == b;
    } else {
      hide RecordNames;
      RecordNamesAppend(a[1..], b);
      RecordNamesFirst(a);
      RecordNamesFirst(a + b);
      FirstOfBoth(a, b);
      Regroup(if a[0].Record? then [a[0].file] else [], RecordNames(a[1..]), RecordNames(b));
    }
  }

  lemma {:induction false} AcksRecordNames(s: seq<File>)
    ensures RecordNames(Acks(s)) == Names(s)
  {
    if s != [] {
      assert Acks(s)[1..] == Acks(s[1..]);
      AcksRecordNames(s[1..]);
    }
  }

  lemma {:induction false} ApplyAllRecordNames(p: seq<File>, d: nat)
    requires d <= |ApplyAll(p)| && !HasAbort(ApplyAll(p)[..d])
    ensures RecordNames(ApplyAll(p)[..d]) <= Names(p)
  {
    hide Statements, Apply;
    if p != [] {
      var a, b := Apply(p[0]), ApplyAll(p[1..]);
      if d < |a| {
        assert (a + b)[..d] == a[..d];
        ApplyRecordNames(p[0], d);
      } else if d == 0 {
        assert ApplyAll(p)[..d] == [];
      } else {
        assert (a + b)[..d] == a + b[..d - |a|];
        assert !HasAbort(a) && !HasAbort(b[..d - |a|]) by {
          assert forall i :: 0 <= i < |a| ==> (a + b)[..d][i] == a[i];
          assert forall i {:trigger b[..d - |a|][i]} :: 0 <= i < d - |a| ==> (a + b)[..d][|a| + i] == b[..d - |a|][i];
        }
        RecordNamesAppend(a, b[..d - |a|]);
        ApplyRecordNames(p[0], |a|);
        ApplyAllRecordNames(p[1..], d - |a|);
        assert a[..|a|] == a;
        assert Names(p) == [p[0].name] + Names(p[1..]);
      }
    }
  }

  lemma ApplyRecordNames(f: File, d: nat)
    requires d <= |Apply(f)| && !HasAbort(Apply(f)[..d])
    ensures RecordNames(Apply(f)[..d]) == if d == |Apply(f)| then [f.name] else []
  {
    hide Statements, Apply;
    ApplyShape(f);
    var ops := Apply(f);
    var n := |ops| - 1;
    if d <= n {
      NoRecordNames(ops[..d]);
    } else {
      assert ops[..d] == ops[..n] + [ops[n]];
      NoRecordNames(ops[..n]);
      RecordNamesAppend(ops[..n], [ops[n]]);
      assert ops[..d][n] == ops[n];
      assert RecordNames([ops[n]]) == [f.name] + RecordNames([]);
    }
  }

  lemma {:induction false} NoRecordNames(ops: seq<Op>)
    requires forall i :: 0 <= i < |ops| ==> !ops[i].Record?
    ensures RecordNames(ops) == []
  {
    if ops != [] {
      NoRecordNames(ops[1..]);
    }
  }

  // ---------------------------------------------------------------- exactly what a run does

  /** `ack` returns normally exactly if both calls are done and the file is listed and not recorded. */
  lemma AckReturnsNormallyIff(files: seq<File>, db: Db, name: string, oracle: nat -> Outcome)
    ensures AckStep(files, db, name, oracle).1 <==>
              oracle(0) == Done && oracle(1) == Done && name !in db.applied && exists f :: f in files && f.name == name
  {
    if f :| f in files && f.name == name {
      var i :| 0 <= i < |files| && files[i] == f;
      assert files[i].name == name;
    }
  }

  /** Then the file is recorded, as acknowledged, and nothing else is done. If the insert fails, it is
      recorded exactly if the insert had its effect. In every other case nothing is done. */
  lemma AckRecordsIff(files: seq<File>, db: Db, name: string, oracle: nat -> Outcome)
    requires name !in db.applied
    ensures var r := AckStep(files, db, name, oracle).0;
            && (name in r.applied <==> oracle(0) == Done && oracle(1) != FailedBefore && exists f :: f in files && f.name == name)
            && (name in r.applied ==>
                  && (forall n :: n in r.applied <==> n in db.applied || n == name)
                  && |r.trace| == |db.trace| + 1 && r.trace[..|db.trace|] == db.trace
                  && r.trace[|db.trace|] == Record(name, Acknowledged))
            && (name !in r.applied ==> r == db)
  {
    if f :| f in files && f.name == name {
      var i :| 0 <= i < |files| && files[i] == f;
      assert files[i].name == name;
    }
    var op := Record(name, Acknowledged);
    assert op in [op];
  }

  lemma AckAgainDoesNothing(files: seq<File>, db: Db, name: string, oracle: nat -> Outcome)
    requires name in db.applied
    ensures AckStep(files, db, name, oracle) == (db, false)
  {
  }

  /** A plan is followed just up to the first operation that does not go well: those before it are done,
      and it itself exactly if its call failed after its effect. */
  lemma {:induction false} PerformStopsAtFirstFailure(plan: seq<Op>, oracle: nat -> Outcome, k: nat)
    ensures var d := Perform(plan, oracle, k).0;
            if d > 0 && d <= |plan| && !plan[d - 1].Abort? && oracle(k + d - 1) == FailedAfter
            then forall i: nat :: i < d - 1 ==> GoesWell(plan, oracle, k, i)
            else (forall i: nat :: i < d ==> GoesWell(plan, oracle, k, i)) && (d < |plan| ==> plan[d].Abort? || oracle(k + d) == FailedBefore)
    decreases |plan|
  {
    if plan != [] {
      var rest := plan[1..];
      PerformStopsAtFirstFailure(rest, oracle, k + 1);
      assert forall i: nat {:trigger GoesWell(rest, oracle, k + 1, i)} ::
          i < |rest| ==> GoesWell(rest, oracle, k + 1, i) == GoesWell(plan, oracle, k, i + 1);
      assert forall i: nat {:trigger GoesWell(plan, oracle, k, i)} ::
          0 < i < |plan| ==> GoesWell(plan, oracle, k, i) == GoesWell(rest, oracle, k + 1, i - 1);
    }
  }

  /** What `up` does to the database is the part of its plan that its calls get to; nothing, if the
      table cannot be read. */
  lemma UpDoesItsPlan(files: seq<File>, db: Db, oracle: nat -> Outcome)
    ensures var r := UpStep(files, db, oracle).0;
            if oracle(0) != Done then r == db
            else
              var d := Perform(Plan(files, db.applied), oracle, 1).0;
              r.trace == db.trace + Plan(files, db.applied)[..d]
              && forall n :: n in r.applied <==> n in db.applied || Record(n, Ran) in Plan(files, db.applied)[..d]
                                                 || Record(n, Skipped) in Plan(files, db.applied)[..d]
  {
    hide Perform, SkipCi;
    if oracle(0) == Done {
      var d := Perform(Plan(files, db.applied), oracle, 1).0;
      PlanReasons(files, db.applied);
      hide Plan;
      var ops := Plan(files, db.applied)[..d];
      forall n ensures n in Recorded(ops) <==> Record(n, Ran) in ops || Record(n, Skipped) in ops {
        if n in Recorded(ops) {
          var op :| op in ops && op.Record? && op.file == n;
          assert op in Plan(files, db.applied);
        }
      }
    }
  }

  /** `up` records files as run or skipped only. */
  lemma PlanReasons(files: seq<File>, applied: set<string>)
    ensures forall op :: op in Plan(files, applied) && op.Record? ==> op.reason == Ran || op.reason == Skipped
  {
    hide SkipCi, Select;
    AllReasons(Select(files, applied, false));
  }

  lemma ApplyReasons(f: File)
    ensures forall op :: op in Apply(f) && op.Record? ==> op.reason == Ran
  {
    ApplyShape(f);
    hide Statements, Execs;
    forall op | op in Apply(f) && op.Record? ensures op.reason == Ran {
      var i :| 0 <= i < |Apply(f)| && Apply(f)[i] == op;
    }
  }

  lemma {:induction false} AllReasons(pending: seq<File>)
    ensures forall op :: op in ApplyAll(pending) && op.Record? ==> op.reason == Ran
  {
    if pending != [] {
      ApplyReasons(pending[0]);
      AllReasons(pending[1..]);
      hide Apply;
      assert forall op :: op in ApplyAll(pending) ==> op in Apply(pending[0]) || op in ApplyAll(pending[1..]);
    }
  }

  /** A file is skipped only for a comment in its first ten lines, ... */
  lemma SkippedForComment(content: string)
    requires SkipCi(content)
    ensures exists i :: 0 <= i < |Lines(content)| && i < 10 && !NoDashes(Lines(content)[i])
  {
    hide IsSkipLine, Lines;
    var i :| 0 <= i < |Lines(content)| && i < 10 && IsSkipLine(Lines(content)[i]);
    SkipLineHasDashes(Lines(content)[i]);
  }

  lemma SkipLineHasDashes(line: string)
    requires IsSkipLine(line)
    ensures !NoDashes(line)
  {
    hide NoDashes, Trim, Includes, Lower, Trimmed;
    var t := Trim(line);
    AnnotationsHaveDashes();
    DashesWithin(Lower(t), "-- skip ci");
    DashesWithin(Lower(t), "--skip ci");
    LowerKeepsDashes(t);
    TrimKeepsDashes(line);
  }

  predicate BeginsWithDashes(pat: string) {
    |pat| > 1 && pat[0] == '-' && pat[1] == '-'
  }

  lemma AnnotationsHaveDashes()
    ensures BeginsWithDashes("-- skip ci") && BeginsWithDashes("--skip ci")
  {
  }

  lemma DashesWithin(s: string, pat: string)
    requires BeginsWithDashes(pat)
    ensures Includes(s, pat) ==> !NoDashes(s)
  {
    if i :| 0 <= i <= |s| && At(s, pat, i) {
      assert s[i + 0] == '-' && s[i + 1] == '-';
    }
  }

  lemma TrimKeepsDashes(line: string)
    ensures NoDashes(line) ==> NoDashes(Trim(line))
  {
    hide NoDashes, TrimStart, TrimEnd, Blank, Trimmed, IsSpace;
    var t := TrimStart(line);
    PartKeepsDashes(line, |line| - |t|, |line|);
    PartKeepsDashes(t, 0, |TrimEnd(t)|);
    assert line[|line| - |t|..|line|] == line[|line| - |t|..] == t;
    assert t[0..|TrimEnd(t)|] == t[..|TrimEnd(t)|];
  }

  lemma PartKeepsDashes(s: string, i: nat, j: nat)
    requires i <= j <= |s|
    ensures NoDashes(s) ==> NoDashes(s[i..j])
  {
    var t := s[i..j];
    forall k | NoDashes(s) && 0 <= k < |t| - 1 ensures t[k] != '-' || t[k + 1] != '-' {
      assert t[k] == s[i + k] && t[k + 1] == s[i + (k + 1)];
    }
  }

  lemma {:induction false} LowerKeepsDashes(s: string)
    ensures NoDashes(s) ==> NoDashes(Lower(s))
    ensures Lower(s) != "" && Lower(s)[0] == '-' ==> s != "" && s[0] == '-'
  {
    if s != "" {
      var rest := s[1..];
      LowerKeepsDashes(rest);
      LowerOfDash(s[0]);
      assert forall i :: 0 <= i < |rest| ==> rest[i] == s[i + 1];
      assert NoDashes(s) ==> NoDashes(rest);
      hide Lower, LowerChar;
      DashesOfConcat(LowerChar(s[0]), Lower(rest));
    }
  }

  /** Two texts without two dashes in a row, of which not both have one where they meet. */
  lemma DashesOfConcat(a: string, b: string)
    requires a != ""
    ensures NoDashes(a) && NoDashes(b) && (b == "" || a[|a| - 1] != '-' || b[0] != '-') ==> NoDashes(a + b)
  {
    assert forall i :: 0 <= i < |a| ==> (a + b)[i] == a[i];
    assert forall i :: |a| <= i < |a + b| ==> (a + b)[i] == b[i - |a|];
  }

  lemma LowerOfDash(c: char)
    ensures LowerChar(c) != "" && (c == '-' ==> LowerChar(c) == "-")
    ensures c != '-' ==> forall i :: 0 <= i < |LowerChar(c)| ==> LowerChar(c)[i] != '-'
  {
  }

  /** ... and is, if one of these lines is the annotation, with or without a space and in any case. */
  lemma AnnotationSkips(content: string, i: nat)
    requires i < |Lines(content)| && i < 10
    requires Trimmed(Lines(content)[i]) && (Lower(Lines(content)[i]) == "--skip ci" || Lower(Lines(content)[i]) == "-- skip ci")
    ensures SkipCi(content)
  {
    AnnotationIsLine(Lines(content)[i]);
    hide IsSkipLine, Lower;
  }

  lemma AnnotationIsLine(line: string)
    requires Trimmed(line) && (Lower(line) == "--skip ci" || Lower(line) == "-- skip ci")
    ensures IsSkipLine(line)
  {
    hide Trim, Trimmed, Lower, Includes;
    TrimOfTrimmed(line);
    IncludesItself(Lower(line));
  }

  lemma IncludesItself(s: string)
    ensures Includes(s, s)
  {
    assert At(s, s, 0);
  }
}
