/** Any number of dispatch runs over one outbox table, step by step: every update, every
    return of a publish call and every crash is one atomic step, and they interleave freely. */
module OutboxProtocol {
  import opened Base
  import opened Backoff
  import opened OutboxRepository
  import opened OutboxDispatcher

  /** Runs are told apart here; the table is not: one process writes one owner for all its runs. */
  type RunId = nat

  datatype Phase =
    | Leasing                                       // the acquiring transaction is under way
    | Sending                                       // a publish call is under way
    | Recording(error: Option<string>, ended: int)  // it returned; its result is being recorded

  datatype Run = Run(
    startedAt: int,       // the clock as `DispatchOnce` read it
    parent: Option<int>,  // deadline of the context the run was given
    batch: seq<Record>,   // the rows as they were read back, attempts included
    next: nat,
    phase: Phase,
    begun: int,           // when the operation under way began
    deadline: int)        // when that operation times out

  datatype Call = Call(message: Message, error: Option<string>, begun: int, ended: int)

  datatype State = State(
    now: int,
    rows: Table,
    runs: map<RunId, Run>,
    started: seq<EventId>,  // events of the publish calls that began, in order
    log: seq<Call>,         // publish calls that returned
    cut: seq<EventId>,      // events of the calls a crash cut off
    lost: seq<EventId>)     // events whose result was not recorded

  datatype Step =
    | Tick(d: nat)
    | Commit(id: EventId, topic: string, payload: string, stamp: int)
    | Begin(r: RunId, parent: Option<int>)
    | Acquire(r: RunId, skipped: set<EventId>, ids: seq<EventId>, owner: string)
    | AcquireFails(r: RunId)
    | PublishReturns(r: RunId, error: Option<string>)
    | Mark(r: RunId, clock: int)
    | MarkFails(r: RunId)
    | Crash(r: RunId)

  predicate InPhase(s: State, r: RunId, leasing: bool, sending: bool, recording: bool) {
    && r in s.runs
    && (s.runs[r].phase.Leasing? ==> leasing)
    && (s.runs[r].phase.Sending? ==> sending)
    && (s.runs[r].phase.Recording? ==> recording)
    && (s.runs[r].phase.Leasing? || s.runs[r].next < |s.runs[r].batch|)
  }

  ghost predicate Enabled(c: Config, s: State, e: Step) {
    match e
    case Tick(_) => true
    case Commit(id, _, _, stamp) => id !in s.rows && stamp <= s.now
    case Begin(r, _) => r !in s.runs
    case Acquire(r, skipped, ids, _) =>
      && InPhase(s, r, true, false, false)
      && var started := s.runs[r].startedAt;
         Selects(s.rows, skipped, c.batchSize, started, started - LockTimeout(c), ids)
    case AcquireFails(r) => InPhase(s, r, true, false, false)
    case PublishReturns(r, _) => InPhase(s, r, false, true, false)
    case Mark(r, clock) => InPhase(s, r, false, false, true) && s.runs[r].phase.ended <= clock <= s.now
    case MarkFails(r) => InPhase(s, r, false, false, true)
    case Crash(r) => r in s.runs
  }

  function Current(run: Run): Record
    requires run.next < |run.batch|
  {
    run.batch[run.next]
  }

  /** The run moves on to the next event of its batch, or ends. */
  function Advance(c: Config, s: State, r: RunId): map<RunId, Run>
    requires r in s.runs
  {
    var run := s.runs[r];
    if run.next + 1 < |run.batch| then
      s.runs[r := run.(next := run.next + 1, phase := Sending, begun := s.now, deadline := s.now + PublishTimeout(c))]
    else s.runs - {r}
  }

  /** The calls begun once the run has moved on. */
  function StartedNext(s: State, r: RunId): seq<EventId>
    requires r in s.runs
  {
    var run := s.runs[r];
    if run.next + 1 < |run.batch| then s.started + [run.batch[run.next + 1].id] else s.started
  }

  function AfterAcquire(c: Config, s: State, r: RunId, ids: seq<EventId>, owner: string): State
    requires r in s.runs && forall id | id in ids :: id in s.rows
  {
    var run := s.runs[r];
    var leased := LeaseRows(s.rows, ids, run.startedAt, owner);
    if ids == [] then s.(runs := s.runs - {r})
    else s.(rows := leased, started := s.started + [ids[0]],
            runs := s.runs[r := run.(batch := RecordsOf(leased, ids), next := 0, phase := Sending,
                                     begun := s.now, deadline := s.now + PublishTimeout(c))])
  }

  function AfterPublish(c: Config, s: State, r: RunId, error: Option<string>): State
    requires r in s.runs && s.runs[r].next < |s.runs[r].batch|
  {
    var run := s.runs[r];
    s.(log := s.log + [Call(MessageOf(Current(run)), error, run.begun, s.now)],
       runs := s.runs[r := run.(phase := Recording(error, s.now), begun := s.now,
           deadline := s.now + OperationTimeout(c))])
  }

  function AfterMark(c: Config, s: State, r: RunId, clock: int): State
    requires r in s.runs && s.runs[r].next < |s.runs[r].batch| && s.runs[r].phase.Recording?
  {
    var run := s.runs[r];
    var record := Current(run);
    s.(rows := AfterEvent(c, s.rows, record, Outcome(run.phase.error, clock, s.now, None)),
       started := StartedNext(s, r), runs := Advance(c, s, r))
  }

  function Apply(c: Config, s: State, e: Step): State
    requires Enabled(c, s, e)
  {
    match e
    case Tick(d) => s.(now := s.now + d)
    case Commit(id, topic, payload, stamp) => s.(rows := s.rows[id := NewRow(topic, payload, stamp)])
    case Begin(r, parent) =>
      s.(runs := s.runs[r := Run(s.now, parent, [], 0, Leasing, s.now, s.now + OperationTimeout(c))])
    case Acquire(r, _, ids, owner) => AfterAcquire(c, s, r, ids, owner)
    case AcquireFails(r) => s.(runs := s.runs - {r})
    case PublishReturns(r, error) => AfterPublish(c, s, r, error)
    case Mark(r, clock) => AfterMark(c, s, r, clock)
    case MarkFails(r) =>
      s.(lost := s.lost + [Current(s.runs[r]).id], started := StartedNext(s, r), runs := Advance(c, s, r))
    case Crash(r) =>
      s.(cut := if InPhase(s, r, false, true, false) then s.cut + [Current(s.runs[r]).id] else s.cut,
         lost := if InPhase(s, r, false, false, true) then s.lost + [Current(s.runs[r]).id] else s.lost,
         runs := s.runs - {r})
  }

  ghost predicate Init(s: State) {
    s.rows == map[] && s.runs == map[] && s.started == [] && s.log == [] && s.cut == [] && s.lost == []
  }

  /** A run of the whole system: states joined by enabled steps. */
  ghost predicate IsRun(c: Config, states: seq<State>, steps: seq<Step>) {
    && |states| == |steps| + 1
    && Init(states[0])
    && forall i | 0 <= i < |steps| :: Enabled(c, states[i], steps[i]) && states[i + 1] == Apply(c, states[i], steps[i])
  }

  // ------------------------------------------------------------ what the log says

  function FailedCalls(log: seq<Call>, id: EventId): nat {
    if log == [] then 0
    else
      var last := log[|log| - 1];
      FailedCalls(log[..|log| - 1], id) + if last.message.id == id && last.error.Some? then 1 else 0
  }

  ghost predicate Delivered(log: seq<Call>, id: EventId) {
    exists k | 0 <= k < |log| :: log[k].message.id == id && log[k].error.None?
  }

  lemma {:induction false} FailedCallsGrow(log: seq<Call>, longer: seq<Call>, id: EventId)
    requires log <= longer
    ensures FailedCalls(log, id) <= FailedCalls(longer, id)
    decreases |longer|
  {
    if log == longer {
    } else {
      assert log <= longer[..|longer| - 1];
      FailedCallsGrow(log, longer[..|longer| - 1], id);
    }
  }

  // --------------------------------------- what every interleaving preserves

  predicate SameEvent(a: Row, b: Row) { a.topic == b.topic && a.payload == b.payload && a.createdAt == b.createdAt }

  ghost predicate RowOk(c: Config, s: State, id: EventId)
    requires id in s.rows
  {
    var row := s.rows[id];
    && 0 <= row.attempts <= c.maxAttempts
    && (!Terminal(row) ==> row.attempts < c.maxAttempts)
    && (row.status == Dead ==> row.attempts == c.maxAttempts)
    && row.attempts <= FailedCalls(s.log, id)
    && (row.status == Published ==> Delivered(s.log, id))
    && (row.status == Publishing <==> row.lockedAt.Some?)
    && (row.lockedAt.Some? ==> row.lockedAt.value <= s.now)
    && row.nextAttemptAt <= s.now + MAX_BACKOFF
  }

  /** What a run still knows about an event it read, however stale its lease. */
  ghost predicate SnapshotOk(c: Config, s: State, record: Record) {
    && record.id in s.rows
    && SameEvent(record.row, s.rows[record.id])
    && 0 <= record.row.attempts < c.maxAttempts
    && record.row.attempts <= FailedCalls(s.log, record.id)
  }

  ghost predicate RunOk(c: Config, s: State, run: Run) {
    && run.startedAt <= run.begun <= s.now
    && |run.batch| <= c.batchSize
    && (forall i, j | 0 <= i < j < |run.batch| :: run.batch[i].id != run.batch[j].id)
    && (forall record | record in run.batch :: SnapshotOk(c, s, record))
    && (if run.phase.Leasing? then run.batch == [] && run.next == 0 else run.next < |run.batch|)
    && (run.phase.Recording? ==>
          && run.phase.ended == run.begun
          && if run.phase.error.Some? then Current(run).row.attempts + 1 <= FailedCalls(s.log, Current(run).id)
             else Delivered(s.log, Current(run).id))
  }

  ghost predicate CallOk(s: State, call: Call) {
    && call.message.id in s.rows
    && call.message == MessageOf(Record(call.message.id, s.rows[call.message.id]))
    && call.begun <= call.ended <= s.now
  }

  ghost predicate Inv(c: Config, s: State) {
    && (forall id | id in s.rows :: RowOk(c, s, id))
    && (forall r | r in s.runs :: RunOk(c, s, s.runs[r]))
    && (forall call | call in s.log :: CallOk(s, call))
  }

  /** Time and the log only grow, and no event is lost or rewritten. */
  ghost predicate Extends(s: State, t: State) {
    && s.now <= t.now
    && s.log <= t.log
    && forall id | id in s.rows :: id in t.rows && SameEvent(s.rows[id], t.rows[id])
  }

  lemma RunKept(c: Config, s: State, t: State, run: Run)
    requires Extends(s, t) && RunOk(c, s, run)
    ensures RunOk(c, t, run)
  {
    forall record | record in run.batch ensures SnapshotOk(c, t, record) {
      FailedCallsGrow(s.log, t.log, record.id);
    }
    if run.phase.Recording? {
      FailedCallsGrow(s.log, t.log, Current(run).id);
      assert Current(run) in run.batch;
    }
  }

  lemma RowKept(c: Config, s: State, t: State, id: EventId)
    requires Extends(s, t) && id in s.rows && RowOk(c, s, id) && t.rows[id] == s.rows[id]
    ensures RowOk(c, t, id)
  {
    FailedCallsGrow(s.log, t.log, id);
  }

  predicate ActsFor(e: Step, r: RunId) { !e.Tick? && !e.Commit? && e.r == r }

  /** A step leaves alone every run but its own, and every row but those it names. */
  lemma StepFrame(c: Config, s: State, e: Step)
    requires Enabled(c, s, e)
    ensures var t := Apply(c, s, e);
            && (forall q | !ActsFor(e, q) :: q in t.runs <==> q in s.runs)
            && (forall q | q in s.runs && !ActsFor(e, q) :: t.runs[q] == s.runs[q])
  {
  }

  /** The rows a step writes. */
  predicate Writes(s: State, e: Step, id: EventId) {
    || (e.Commit? && e.id == id)
    || (e.Acquire? && id in e.ids)
    || (e.Mark? && e.r in s.runs && s.runs[e.r].next < |s.runs[e.r].batch| && Current(s.runs[e.r]).id == id)
  }

  lemma StepRowFrame(c: Config, s: State, e: Step)
    requires Enabled(c, s, e)
    ensures var t := Apply(c, s, e);
            && s.now <= t.now && s.log <= t.log
            && (forall id | !Writes(s, e, id) :: id in t.rows <==> id in s.rows)
            && (forall id | id in s.rows && !Writes(s, e, id) :: t.rows[id] == s.rows[id])
  {
  }

  lemma StepExtends(c: Config, s: State, e: Step)
    requires Enabled(c, s, e)
    ensures Extends(s, Apply(c, s, e))
  {
    StepRowFrame(c, s, e);
    var t := Apply(c, s, e);
    forall id | id in s.rows ensures id in t.rows && SameEvent(s.rows[id], t.rows[id]) {
      if Writes(s, e, id) {
        if e.Acquire? { assert t.rows[id] == LeasedRow(s.rows[id], s.runs[e.r].startedAt, e.owner); }
      }
    }
  }

  lemma AcquireKeepsRun(c: Config, s: State, e: Step)
    requires Inv(c, s) && Enabled(c, s, e) && e.Acquire? && e.r in Apply(c, s, e).runs
    ensures RunOk(c, Apply(c, s, e), Apply(c, s, e).runs[e.r])
  {
    var t := Apply(c, s, e);
    forall record | record in t.runs[e.r].batch ensures SnapshotOk(c, t, record) {
      assert record.id in e.ids && RowOk(c, s, record.id);
    }
  }

  lemma PublishKeepsRun(c: Config, s: State, e: Step)
    requires Inv(c, s) && Enabled(c, s, e) && e.PublishReturns?
    ensures RunOk(c, Apply(c, s, e), Apply(c, s, e).runs[e.r])
  {
    var t := Apply(c, s, e);
    var record := Current(s.runs[e.r]);
    StepExtends(c, s, e);
    RunKept(c, s, t, s.runs[e.r]);
    assert record in s.runs[e.r].batch;
    assert t.log[..|s.log|] == s.log && t.log[|s.log|].message.id == record.id;
  }

  lemma StepKeepsRuns(c: Config, s: State, e: Step, r: RunId)
    requires Inv(c, s) && Enabled(c, s, e) && r in Apply(c, s, e).runs
    ensures RunOk(c, Apply(c, s, e), Apply(c, s, e).runs[r])
  {
    var t := Apply(c, s, e);
    StepFrame(c, s, e);
    if r in s.runs {
      StepExtends(c, s, e);
      RunKept(c, s, t, s.runs[r]);
    }
    if ActsFor(e, r) {
      if e.Acquire? { AcquireKeepsRun(c, s, e); }
      else if e.PublishReturns? { PublishKeepsRun(c, s, e); }
    }
  }

  lemma MarkKeepsRow(c: Config, s: State, e: Step)
    requires Inv(c, s) && Enabled(c, s, e) && e.Mark?
    ensures Current(s.runs[e.r]).id in Apply(c, s, e).rows
    ensures RowOk(c, Apply(c, s, e), Current(s.runs[e.r]).id)
  {
    var run := s.runs[e.r];
    assert RunOk(c, s, run) && Current(run) in run.batch;
    BackoffIsDoubling(Current(run).row.attempts + 1);
  }

  lemma StepKeepsRows(c: Config, s: State, e: Step, id: EventId)
    requires ValidConfig(c) && Inv(c, s) && Enabled(c, s, e) && id in Apply(c, s, e).rows
    ensures RowOk(c, Apply(c, s, e), id)
  {
    var t := Apply(c, s, e);
    StepRowFrame(c, s, e);
    if Writes(s, e, id) {
      if e.Mark? { MarkKeepsRow(c, s, e); }
      else if e.Acquire? { assert RowOk(c, s, id) && RunOk(c, s, s.runs[e.r]); }
    } else {
      StepExtends(c, s, e);
      RowKept(c, s, t, id);
    }
  }

  lemma StepKeepsInv(c: Config, s: State, e: Step)
    requires ValidConfig(c) && Inv(c, s) && Enabled(c, s, e)
    ensures Inv(c, Apply(c, s, e))
  {
    var t := Apply(c, s, e);
    StepExtends(c, s, e);
    forall id | id in t.rows ensures RowOk(c, t, id) { StepKeepsRows(c, s, e, id); }
    forall r | r in t.runs ensures RunOk(c, t, t.runs[r]) { StepKeepsRuns(c, s, e, r); }
    forall call | call in t.log ensures CallOk(t, call) {
      if call !in s.log {
        assert Current(s.runs[e.r]) in s.runs[e.r].batch;
      }
    }
  }

  // ------------------------------------------------------- theorems about runs

  lemma {:induction false} InvHolds(c: Config, states: seq<State>, steps: seq<Step>, i: nat)
    requires ValidConfig(c) && IsRun(c, states, steps) && i < |states|
    ensures Inv(c, states[i])
  {
    if i > 0 {
      InvHolds(c, states, steps, i - 1);
      StepKeepsInv(c, states[i - 1], steps[i - 1]);
    }
  }

  lemma ExtendsTransitively(s: State, t: State, u: State)
    requires Extends(s, t) && Extends(t, u)
    ensures Extends(s, u)
  {
  }

  lemma {:induction false} RunExtends(c: Config, states: seq<State>, steps: seq<Step>, i: nat, j: nat)
    requires IsRun(c, states, steps) && i <= j < |states|
    ensures Extends(states[i], states[j])
  {
    if i < j {
      RunExtends(c, states, steps, i, j - 1);
      StepExtends(c, states[j - 1], steps[j - 1]);
      ExtendsTransitively(states[i], states[j - 1], states[j]);
    }
  }

  /** Stale lease holders included: a dead event failed at least `maxAttempts` times, a
      published one was delivered, and the recorded attempts never exceed the real failures. */
  lemma NoFalseVerdict(c: Config, states: seq<State>, steps: seq<Step>, i: nat, id: EventId)
    requires ValidConfig(c) && IsRun(c, states, steps) && i < |states| && id in states[i].rows
    ensures var row := states[i].rows[id];
            var failures := FailedCalls(states[i].log, id);
            && row.attempts <= failures
            && (row.status == Dead ==> row.attempts == c.maxAttempts <= failures)
            && (row.status == Published ==> Delivered(states[i].log, id))
            && (!Terminal(row) ==> row.attempts < c.maxAttempts)
  {
    InvHolds(c, states, steps, i);
  }

  /** No committed event disappears or changes, every publish call carries exactly the
      committed topic and payload, and a row that is not terminal can be acquired again
      no later than the longer of five minutes and the lease timeout from now. */
  lemma NoEventLost(c: Config, states: seq<State>, steps: seq<Step>, i: nat, j: nat, id: EventId, later: nat)
    requires ValidConfig(c) && IsRun(c, states, steps) && i <= j < |states| && id in states[i].rows
    ensures id in states[j].rows && SameEvent(states[i].rows[id], states[j].rows[id])
    ensures forall call | call in states[j].log && call.message.id == id ::
              call.message == MessageOf(Record(id, states[i].rows[id]))
    ensures var row := states[j].rows[id];
            var now := states[j].now + Max(MAX_BACKOFF, LockTimeout(c)) + later;
            && (row.status == Publishing <==> row.lockedAt.Some?)
            && (Terminal(row) || Eligible(row, now, now - LockTimeout(c)))
  {
    RunExtends(c, states, steps, i, j);
    InvHolds(c, states, steps, j);
  }

  /** Once an event is committed, every later publish call of it carries exactly the topic,
      payload and time it was committed with. */
  lemma CommittedIsSent(
    c: Config, states: seq<State>, steps: seq<Step>, i: nat, j: nat,
    id: EventId, topic: string, payload: string, stamp: int)
    requires ValidConfig(c) && IsRun(c, states, steps) && i < j < |states|
    requires steps[i] == Commit(id, topic, payload, stamp)
    ensures forall call | call in states[j].log && call.message.id == id ::
              call.message == Message(id, topic, payload, stamp)
    ensures var row := states[i + 1].rows[id];
            && row.status == Pending && row.attempts == 0 && row.lockedAt.None? && row.publishedAt.None?
            && row.nextAttemptAt == stamp
  {
    NoEventLost(c, states, steps, i + 1, j, id, 0);
  }
}
