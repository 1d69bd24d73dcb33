/**
 * The MQTT 'message' handler: parse, classify, insert on save, then record
 * the reading as the new baseline. Any exception (a payload that does not
 * parse, a failing database call) lands in the handler's catch, which only
 * logs, so the statements after the failing one do not run.
 */
module Ingestion {
  import opened Wrappers
  import opened Telemetry
  import opened Classifier

  /** How the three awaited database calls of one insert end. */
  datatype DbOutcome =
    | ConnectFailed   // createConnection rejects: nothing written
    | ExecuteFailed   // execute rejects: nothing written
    | CloseFailed     // end rejects: the row is already written
    | Done            // all three succeed

  /** Whether the insert statement itself went through. */
  predicate RowWritten(db: DbOutcome) {
    db == CloseFailed || db == Done
  }

  /** One delivered message: its parsed payload (None when `JSON.parse`
      throws) and how the database would answer an insert for it. */
  datatype Message = Message(payload: Option<Reading>, db: DbOutcome)

  datatype Outcome =
    | Dropped                                  // parse error, caught and logged
    | Skipped
    | Saved(reason: Reason)
    | SaveFailed(reason: Reason, db: DbOutcome) // database error, caught and logged

  /** The listener's state: the baseline record and the rows of the table. */
  datatype State = State(baseline: Baseline, table: seq<seq<Scalar>>)

  const START: State := State(INITIAL, [])

  datatype StepResult = StepResult(state: State, outcome: Outcome)

  /** The handler gets as far as `lastReceivedData = newData`. */
  predicate Commits(s: State, m: Message) {
    m.payload.Some? && (Classify(m.payload.value, s.baseline).Skip? || m.db == Done)
  }

  /** The handler runs the insert statement and it succeeds. */
  predicate Inserts(s: State, m: Message) {
    m.payload.Some? && Classify(m.payload.value, s.baseline).Save? && RowWritten(m.db)
  }

  /** One run of the handler on one message. */
  function Step(s: State, m: Message): (r: StepResult)
    ensures m.payload.None? ==> r.state == s && r.outcome == Dropped
    ensures r.state.baseline == if Commits(s, m) then Of(m.payload.value) else s.baseline
    ensures r.state.table == if Inserts(s, m) then s.table + [Values(m.payload.value)] else s.table
    ensures r.outcome.Skipped? <==> m.payload.Some? && Classify(m.payload.value, s.baseline).Skip?
    ensures r.outcome.Dropped? <==> m.payload.None?
    ensures r.outcome.Saved? <==> Commits(s, m) && Classify(m.payload.value, s.baseline).Save?
    ensures r.outcome.SaveFailed? <==>
      m.payload.Some? && Classify(m.payload.value, s.baseline).Save? && m.db != Done
    ensures (r.outcome.Saved? || r.outcome.SaveFailed?) ==>
      r.outcome.reason == Classify(m.payload.value, s.baseline).reason
    ensures r.outcome.SaveFailed? ==> r.outcome.db == m.db && r.state.baseline == s.baseline
  {
    match m.payload
    case None => StepResult(s, Dropped)
    case Some(reading) =>
      match Classify(reading, s.baseline)
      case Skip => StepResult(State(Of(reading), s.table), Skipped)
      case Save(reason) =>
        var table := if RowWritten(m.db) then s.table + [Values(reading)] else s.table;
        if m.db == Done then StepResult(State(Of(reading), table), Saved(reason))
        else StepResult(State(s.baseline, table), SaveFailed(reason, m.db))
  }

  /** The handler applied to messages one at a time, in delivery order. */
  function Run(s: State, ms: seq<Message>): (t: State)
    ensures s.table <= t.table
    ensures |t.table| <= |s.table| + |ms|
    decreases |ms|
  {
    if ms == [] then s else Step(Run(s, ms[..|ms| - 1]), ms[|ms| - 1]).state
  }

  /** The baseline is either the initial all-null record or a recorded reading. */
  ghost predicate WellFormed(b: Baseline) {
    b == INITIAL || exists r :: b == Of(r)
  }

  /** In a well-formed record, a recorded temperature comes with recorded gas
      and smoke values, so the jump test never subtracts a `null`. */
  lemma RecordedHasNoNulls(b: Baseline)
    requires WellFormed(b) && b.suhu.Some?
    ensures b.gas.Some? && b.asap.Some?
    ensures ToNumber(b.gas) == b.gas.value && ToNumber(b.asap) == b.asap.value
  {
  }

  lemma StepKeepsWellFormed(s: State, m: Message)
    requires WellFormed(s.baseline)
    ensures WellFormed(Step(s, m).state.baseline)
  {
    if Commits(s, m) {
      assert Step(s, m).state.baseline == Of(m.payload.value);
    }
  }

  /** No message after position `i` got through to the baseline update. */
  ghost predicate NoCommitAfter(s: State, ms: seq<Message>, i: int) {
    forall j :: 0 <= j && i < j < |ms| ==> !Commits(Run(s, ms[..j]), ms[j])
  }

  /** Message `i` is the last one that got through to the baseline update. */
  ghost predicate IsLastCommit(s: State, ms: seq<Message>, i: int) {
    0 <= i < |ms| && Commits(Run(s, ms[..i]), ms[i]) && NoCommitAfter(s, ms, i)
  }

  /**
   * After any sequence of messages, the baseline is the reading of the last
   * message that got through to the baseline update (it parsed, and it was
   * skipped or its insert fully succeeded); when none did, it is unchanged.
   */
  lemma {:induction false} BaselineIsLastCommitted(s: State, ms: seq<Message>)
    ensures || (Run(s, ms).baseline == s.baseline && NoCommitAfter(s, ms, -1))
            || (exists i :: IsLastCommit(s, ms, i) && Run(s, ms).baseline == Of(ms[i].payload.value))
    decreases |ms|
  {
    if ms != [] {
      var n := |ms| - 1;
      var p := ms[..n];
      var t := Run(s, p);
      BaselineIsLastCommitted(s, p);
      if Commits(t, ms[n]) {
        assert IsLastCommit(s, ms, n);
      } else {
        assert Run(s, ms).baseline == t.baseline;
        if t.baseline == s.baseline && NoCommitAfter(s, p, -1) {
          PrefixCommits(s, ms, -1);
        } else {
          var i :| IsLastCommit(s, p, i) && t.baseline == Of(p[i].payload.value);
          PrefixCommits(s, ms, i);
          assert ms[i] == p[i];
        }
      }
    }
  }

  /** Extending a sequence by a message that does not commit keeps the last commit. */
  lemma PrefixCommits(s: State, ms: seq<Message>, i: int)
    requires ms != [] && -1 <= i < |ms| - 1
    requires !Commits(Run(s, ms[..|ms| - 1]), ms[|ms| - 1])
    requires NoCommitAfter(s, ms[..|ms| - 1], i)
    ensures NoCommitAfter(s, ms, i)
    ensures 0 <= i ==> ms[..i] == ms[..|ms| - 1][..i]
  {
    var p := ms[..|ms| - 1];
    forall j | 0 <= j && i < j < |ms|
      ensures !Commits(Run(s, ms[..j]), ms[j])
    {
      if j < |p| {
        assert ms[..j] == p[..j] && ms[j] == p[j];
      }
    }
  }

  /** Every row in the table is the insert of some delivered reading. */
  lemma {:induction false} RowsComeFromMessages(s: State, ms: seq<Message>, k: nat)
    requires |s.table| <= k < |Run(s, ms).table|
    ensures exists i ::
      0 <= i < |ms| && ms[i].payload.Some? && Run(s, ms).table[k] == Values(ms[i].payload.value)
    decreases |ms|
  {
    var n := |ms| - 1;
    var p := ms[..n];
    var t := Run(s, p);
    if k < |t.table| {
      RowsComeFromMessages(s, p, k);
      var i :| 0 <= i < |p| && p[i].payload.Some? && t.table[k] == Values(p[i].payload.value);
      assert ms[i] == p[i];
    } else {
      assert ms[n].payload.Some?;
    }
  }

  /** A parse failure changes nothing: a following repeat of the baseline's
      reading is still skipped. */
  lemma DecodeFailureIsIsolated(s: State, bad: DbOutcome, r: Reading, db: DbOutcome)
    requires s.baseline == Of(r)
    ensures Step(s, Message(None, bad)).state == s
    ensures Step(Step(s, Message(None, bad)).state, Message(Some(r), db)).outcome == Skipped
  {
    RepeatIsSkipped(r);
  }

  /**
   * A reading whose insert fails does not become the baseline, so the next
   * message is classified against the older record; delivered again, the
   * same reading is classified Save again.
   */
  lemma FailedSaveKeepsOldBaseline(s: State, m: Message, next: Message)
    requires m.payload.Some? && Classify(m.payload.value, s.baseline).Save? && m.db != Done
    ensures Step(s, m).state.baseline == s.baseline
    ensures Step(s, m).outcome.SaveFailed?
    ensures Step(Step(s, m).state, Message(m.payload, next.db)).outcome != Skipped
    ensures next.payload.Some? ==>
      Classify(next.payload.value, Step(s, m).state.baseline) == Classify(next.payload.value, s.baseline)
  {
  }

  /**
   * When closing the connection fails after the row was written, the
   * reading does not become the baseline; delivered again, it is classified
   * against the same record and written a second time.
   */
  lemma CloseFailureDuplicatesRow(s: State, r: Reading)
    requires Classify(r, s.baseline).Save?
    ensures var s1 := Step(s, Message(Some(r), CloseFailed)).state;
      var s2 := Step(s1, Message(Some(r), Done)).state;
      s1.baseline == s.baseline && s2.table == s.table + [Values(r), Values(r)]
  {
  }

  /** A skipped reading still becomes the baseline: the baseline is the last
      observed reading, not the last saved one. */
  lemma SkipAdvancesBaseline(s: State, r: Reading, db: DbOutcome)
    requires Classify(r, s.baseline).Skip?
    ensures Step(s, Message(Some(r), db)).state == State(Of(r), s.table)
  {
  }

  /**
   * Slow drift goes unrecorded: from a recorded temperature of 25.0, readings
   * of 26.5 and then 28.0 are both skipped, though 28.0 is 3.0 above the
   * last saved reading.
   */
  lemma DriftIsNotRecorded(db1: DbOutcome, db2: DbOutcome)
    ensures var p := Reading(25.0, 50.0, 10.0, Str("OK"), Num(0.0), Num(0.0), Num(0.0));
      var s := State(Of(p), [Values(p)]);
      var ms := [Message(Some(p.(suhu := 26.5)), db1), Message(Some(p.(suhu := 28.0)), db2)];
      Run(s, ms) == State(Of(p.(suhu := 28.0)), s.table) &&
      Abs(28.0 - p.suhu) >= SUHU_JUMP_THRESHOLD
  {
    var p := Reading(25.0, 50.0, 10.0, Str("OK"), Num(0.0), Num(0.0), Num(0.0));
    var s := State(Of(p), [Values(p)]);
    var ms := [Message(Some(p.(suhu := 26.5)), db1), Message(Some(p.(suhu := 28.0)), db2)];
    assert ms[..1][..0] == [];
    assert Run(s, ms[..1]) == State(Of(p.(suhu := 26.5)), s.table);
  }

  /** The reading the baseline holds before message `i`, when every message
      parsed and got through to the baseline update: `p` before the first. */
  function Before(p: Reading, ms: seq<Message>, i: nat): Reading
    requires i <= |ms|
  {
    if i == 0 || ms[i - 1].payload.None? then p else ms[i - 1].payload.value
  }

  /** Every message parses, keeps the discrete state of `p`, and moves each
      sensor by strictly less than its threshold from the reading before it. */
  ghost predicate SmallSteps(p: Reading, ms: seq<Message>) {
    forall i :: 0 <= i < |ms| ==>
      && ms[i].payload.Some?
      && SameState(ms[i].payload.value, p)
      && Abs(ms[i].payload.value.suhu - Before(p, ms, i).suhu) < SUHU_JUMP_THRESHOLD
      && Abs(ms[i].payload.value.gas - Before(p, ms, i).gas) < GAS_JUMP_THRESHOLD
      && Abs(ms[i].payload.value.asap - Before(p, ms, i).asap) < ASAP_JUMP_THRESHOLD
  }

  /**
   * Slow drift goes unrecorded, in general: from a recorded reading `p`, a
   * run of messages each below the thresholds relative to the one before
   * writes no row, whatever the database would answer, and leaves the last
   * reading as the baseline, however far it has moved from `p`.
   */
  lemma {:induction false} SmallStepsAreNotRecorded(p: Reading, t: seq<seq<Scalar>>, ms: seq<Message>)
    requires SmallSteps(p, ms)
    ensures Run(State(Of(p), t), ms) == State(Of(Before(p, ms, |ms|)), t)
    decreases |ms|
  {
    if ms != [] {
      var n := |ms| - 1;
      var q := ms[..n];
      SmallStepsPrefix(p, ms);
      SmallStepsAreNotRecorded(p, t, q);
      var prev := Before(p, ms, n);
      assert Run(State(Of(p), t), ms) == Step(State(Of(prev), t), ms[n]).state;
      SmallStepIsSkipped(p, ms, n);
    }
  }

  /** A prefix of small steps is small steps, with the same readings before each message. */
  lemma SmallStepsPrefix(p: Reading, ms: seq<Message>)
    requires SmallSteps(p, ms) && ms != []
    ensures SmallSteps(p, ms[..|ms| - 1])
    ensures Before(p, ms[..|ms| - 1], |ms| - 1) == Before(p, ms, |ms| - 1)
  {
    var q := ms[..|ms| - 1];
    assert forall i :: 0 <= i <= |q| ==> Before(p, q, i) == Before(p, ms, i);
  }

  /** Message `n` of small steps is skipped against the reading before it. */
  lemma SmallStepIsSkipped(p: Reading, ms: seq<Message>, n: nat)
    requires SmallSteps(p, ms) && n < |ms|
    ensures ms[n].payload.Some?
    ensures Classify(ms[n].payload.value, Of(Before(p, ms, n))) == Skip
    ensures Before(p, ms, n + 1) == ms[n].payload.value
  {
    var prev := Before(p, ms, n);
    assert SameState(prev, p) by {
      if n > 0 { assert SameState(ms[n - 1].payload.value, p); }
    }
    BelowThresholdsIsSkipped(ms[n].payload.value, prev);
  }

  /** The listener process: the baseline record and the table it writes to. */
  class Listener {
    var baseline: Baseline
    ghost var table: seq<seq<Scalar>>

    ghost function Snapshot(): State
      reads this
    {
      State(baseline, table)
    }

    ghost predicate Valid()
      reads this
    {
      WellFormed(baseline)
    }

    /** Process start: `lastReceivedData` holds seven nulls; the table is empty. */
    constructor ()
      ensures Valid() && Snapshot() == START
    {
      baseline := INITIAL;
      table := [];
    }

    /** Handles one message; never fails, whatever the payload or the database do. */
    method Handle(m: Message) returns (outcome: Outcome)
      requires Valid()
      modifies this
      ensures Valid()
      ensures Snapshot() == Step(old(Snapshot()), m).state
      ensures outcome == Step(old(Snapshot()), m).outcome
    {
      StepKeepsWellFormed(Snapshot(), m);
      if m.payload.None? {
        return Dropped;
      }
      var newData := m.payload.value;
      var decision := Classify(newData, baseline);
      if decision.Save? {
        if m.db == ConnectFailed || m.db == ExecuteFailed {
          return SaveFailed(decision.reason, m.db);
        }
        table := table + [Values(newData)];
        if m.db == CloseFailed {
          return SaveFailed(decision.reason, m.db);
        }
      }
      baseline := Of(newData);
      outcome := if decision.Save? then Saved(decision.reason) else Skipped;
    }
  }
}
