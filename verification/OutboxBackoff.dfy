/** When leases exclude one another, a recorded failure delays the next publish call. */
module OutboxBackoff {
  import opened Backoff
  import opened OutboxRepository
  import opened OutboxDispatcher
  import opened OutboxProtocol
  import opened OutboxLease
  import opened OutboxCalls

  /** A run whose context has not expired is in the publish call of the event. */
  predicate Publishes(s: State, r: RunId, id: EventId) {
    Live(s, r) && Caller(s, r, id) && s.runs[r].phase.Sending?
  }

  /** Such a call returns. */
  predicate PublishReturnsFor(s: State, e: Step, id: EventId) {
    e.PublishReturns? && Publishes(s, e.r, id)
  }

  /** The run has a result of the event to record. */
  predicate Recorder(s: State, r: RunId, id: EventId) {
    Caller(s, r, id) && s.runs[r].phase.Recording?
  }

  /** Step `e` records the failure of attempt `n` of event `id`, whose publish call ended at `ended`. */
  predicate RecordsFailure(s: State, e: Step, id: EventId, n: int, ended: int) {
    && e.Mark? && Recorder(s, e.r, id)
    && s.runs[e.r].phase.error.Some? && s.runs[e.r].phase.ended == ended
    && n == Current(s.runs[e.r]).row.attempts + 1
  }

  ghost predicate NothingToRecord(s: State, id: EventId) {
    forall r | r in s.runs && Live(s, r) :: !Recorder(s, r, id)
  }

  /** Neither the row nor its holder lets a publish call of the event begin before `due`. */
  ghost predicate NotBefore(s: State, id: EventId, due: int) {
    && id in s.rows
    && (s.rows[id].status == Pending ==> due <= s.rows[id].nextAttemptAt)
    && (s.rows[id].status == Publishing ==> s.rows[id].lockedAt.Some? && due <= s.rows[id].lockedAt.value)
    && NothingToRecord(s, id)
  }

  /** One live run holds the event, so no other has a result of it to record. */
  lemma RecorderIsAlone(s: State, q: RunId, r: RunId, id: EventId)
    requires LeaseInv(s) && Live(s, q) && Live(s, r) && Caller(s, q, id) && Caller(s, r, id)
    ensures q == r
  {
    CurrentIsHeld(s.runs[q]);
    CurrentIsHeld(s.runs[r]);
    assert id in Held(s.runs[q]) && id in Held(s.runs[r]);
  }

  /** A run that can record a result after the step could do so before, unless its call returned just now. */
  lemma RecorderBefore(c: Config, s: State, e: Step, r: RunId, id: EventId)
    requires Enabled(c, s, e) && Live(Apply(c, s, e), r) && Recorder(Apply(c, s, e), r, id)
    ensures PublishReturnsFor(s, e, id) || (Live(s, r) && Recorder(s, r, id) && !ActsFor(e, r))
  {
    StepFrame(c, s, e);
    StepRowFrame(c, s, e);
  }

  lemma FailureDelays(c: Config, s: State, e: Step, id: EventId, n: int, ended: int)
    requires Inv(c, s) && LeaseInv(s) && Enabled(c, s, e) && Exclusive(s, e)
    requires RecordsFailure(s, e, id, n, ended) && BackoffExact(n)
    ensures NotBefore(Apply(c, s, e), id, ended + DoublingBackoff(n))
  {
    LiveCaller(s, e.r, id);
    BackoffIsDoubling(n);
    var t := Apply(c, s, e);
    forall r | r in t.runs && Live(t, r) ensures !Recorder(t, r, id) {
      if Recorder(t, r, id) {
        RecorderBefore(c, s, e, r, id);
        RecorderIsAlone(s, e.r, r, id);
      }
    }
  }

  /** No live run has a result of the event to record, so none is recorded. */
  lemma NoneMarks(c: Config, s: State, e: Step, id: EventId)
    requires Enabled(c, s, e) && Exclusive(s, e) && e.Mark? && NothingToRecord(s, id)
    ensures !Writes(s, e, id)
  {
    assert !Recorder(s, e.r, id);
  }

  lemma StepKeepsDelay(c: Config, s: State, e: Step, id: EventId, due: int)
    requires Inv(c, s) && Enabled(c, s, e) && Exclusive(s, e)
    requires !PublishReturnsFor(s, e, id) && NotBefore(s, id, due)
    ensures NotBefore(Apply(c, s, e), id, due)
  {
    var t := Apply(c, s, e);
    StepRowFrame(c, s, e);
    if e.Mark? { NoneMarks(c, s, e, id); }
    forall r | r in t.runs && Live(t, r) ensures !Recorder(t, r, id) {
      if Recorder(t, r, id) { RecorderBefore(c, s, e, r, id); }
    }
  }

  /** The delay lasts until the next publish call of the event returns. */
  lemma {:induction false} DelayLasts(
    c: Config, states: seq<State>, steps: seq<Step>, i: nat, j: nat, id: EventId, n: int, ended: int)
    requires ValidConfig(c) && IsExclusiveRun(c, states, steps) && i < j < |states|
    requires RecordsFailure(states[i], steps[i], id, n, ended) && BackoffExact(n)
    requires forall k | i < k < j :: !PublishReturnsFor(states[k], steps[k], id)
    ensures NotBefore(states[j], id, ended + DoublingBackoff(n))
  {
    ExclusiveHolds(c, states, steps, j - 1);
    if i + 1 < j {
      DelayLasts(c, states, steps, i, j - 1, id, n, ended);
      StepKeepsDelay(c, states[j - 1], steps[j - 1], id, ended + DoublingBackoff(n));
    } else {
      FailureDelays(c, states[i], steps[i], id, n, ended);
    }
  }

  /** Over every exclusive run: after the recorded failure of attempt `n`, for every `n` the
      64-bit backoff is exact for, each publish call of the event, up to the next one that
      returns and whether or not it ever does, begins at least the doubled delay after the
      end of the failed one, whichever run makes it. */
  lemma BackoffRespected(
    c: Config, states: seq<State>, steps: seq<Step>, i: nat, j: nat, id: EventId, n: int, ended: int, r: RunId)
    requires ValidConfig(c) && IsExclusiveRun(c, states, steps) && i < j < |states|
    requires RecordsFailure(states[i], steps[i], id, n, ended) && BackoffExact(n)
    requires forall k | i < k < j :: !PublishReturnsFor(states[k], steps[k], id)
    requires Publishes(states[j], r, id)
    ensures states[j].runs[r].begun >= ended + DoublingBackoff(n)
  {
    DelayLasts(c, states, steps, i, j, id, n, ended);
    ExclusiveHolds(c, states, steps, j);
    RecordedRow(states[j], r);
    assert RunOk(c, states[j], states[j].runs[r]);
  }
}
