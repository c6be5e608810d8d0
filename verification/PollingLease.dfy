/** Polling mode: no lock above the runs, only the row leases and the operation timeouts
    (`Start` and `run` in internal/event/outbox_dispatcher.go). */
module PollingLease {
  import opened Backoff
  import opened OutboxRepository
  import opened OutboxDispatcher
  import opened OutboxProtocol
  import opened OutboxLease
  import opened OutboxCalls
  import opened OutboxBackoff
  import opened OutboxTiming

  /** Runs get a context without deadline, and no operation outlasts its own timeout. */
  ghost predicate Polling(s: State, e: Step) {
    (e.Begin? ==> e.parent.None?) && Timed(s, e)
  }

  ghost predicate IsPollingRun(c: Config, states: seq<State>, steps: seq<Step>) {
    && IsRun(c, states, steps)
    && forall i | 0 <= i < |steps| :: Polling(states[i], steps[i])
  }

  ghost predicate NoDeadlines(s: State) {
    forall r | r in s.runs :: s.runs[r].parent.None?
  }

  lemma StepKeepsNoDeadlines(c: Config, s: State, e: Step)
    requires NoDeadlines(s) && Enabled(c, s, e) && Polling(s, e)
    ensures NoDeadlines(Apply(c, s, e))
  {
  }

  lemma {:induction false} PollingHolds(c: Config, states: seq<State>, steps: seq<Step>, i: nat)
    requires ValidConfig(c) && LeaseOutlivesRun(c) && IsPollingRun(c, states, steps) && i < |states|
    ensures Inv(c, states[i]) && OnTime(c, states[i]) && LeaseInv(states[i]) && NoDeadlines(states[i])
    ensures i < |steps| ==> Exclusive(states[i], steps[i])
  {
    InvHolds(c, states, steps, i);
    if i > 0 {
      PollingHolds(c, states, steps, i - 1);
      StepKeepsTime(c, states[i - 1], steps[i - 1]);
      StepKeepsLease(c, states[i - 1], steps[i - 1]);
      StepKeepsNoDeadlines(c, states[i - 1], steps[i - 1]);
    }
    if i < |steps| { AcquireStealsNothing(c, states[i], steps[i]); }
  }

  /** For any number of concurrent dispatchers: if a full batch is recorded before its
      lease goes stale, no event is ever held by two runs between acquire and mark. */
  lemma OneHolderPerEvent(c: Config, states: seq<State>, steps: seq<Step>, i: nat, q: RunId, r: RunId)
    requires ValidConfig(c) && LeaseOutlivesRun(c) && IsPollingRun(c, states, steps) && i < |states|
    requires q in states[i].runs && r in states[i].runs && q != r
    ensures Held(states[i].runs[q]) !! Held(states[i].runs[r])
  {
    PollingHolds(c, states, steps, i);
  }

  lemma PollingIsExclusive(c: Config, states: seq<State>, steps: seq<Step>)
    requires ValidConfig(c) && LeaseOutlivesRun(c) && IsPollingRun(c, states, steps)
    ensures IsExclusiveRun(c, states, steps)
  {
    forall i: nat | i < |steps| ensures Exclusive(states[i], steps[i]) {
      PollingHolds(c, states, steps, i);
    }
  }

  /** Then published and dead are final, and recorded attempts only grow. */
  lemma PollingSettles(c: Config, states: seq<State>, steps: seq<Step>, i: nat, j: nat)
    requires ValidConfig(c) && LeaseOutlivesRun(c) && IsPollingRun(c, states, steps) && i <= j < |states|
    ensures Settled(states[i], states[j])
  {
    PollingIsExclusive(c, states, steps);
    ExclusiveRunsSettle(c, states, steps, i, j);
  }

  /** Then no more publish calls of an event begin than it is tried, but for those that were
      cut off or whose result was lost. */
  lemma PollingCallsBounded(c: Config, states: seq<State>, steps: seq<Step>, i: nat, id: EventId)
    requires ValidConfig(c) && LeaseOutlivesRun(c) && IsPollingRun(c, states, steps)
    requires i < |states| && id in states[i].rows
    ensures var s := states[i]; Count(s.started, id) <= c.maxAttempts + Count(s.cut, id) + Count(s.lost, id)
  {
    PollingIsExclusive(c, states, steps);
    CallsBounded(c, states, steps, i, id);
    PollingHolds(c, states, steps, i);
    assert Expired(states[i], id) == {};
  }

  /** Then every publish call that follows a recorded failure waits for the backoff. */
  lemma PollingBackoffRespected(
    c: Config, states: seq<State>, steps: seq<Step>, i: nat, j: nat, id: EventId, n: int, ended: int, r: RunId)
    requires ValidConfig(c) && LeaseOutlivesRun(c) && IsPollingRun(c, states, steps) && i < j < |states|
    requires RecordsFailure(states[i], steps[i], id, n, ended) && BackoffExact(n)
    requires forall k | i < k < j :: !PublishReturnsFor(states[k], steps[k], id)
    requires Publishes(states[j], r, id)
    ensures states[j].runs[r].begun >= ended + DoublingBackoff(n)
  {
    PollingIsExclusive(c, states, steps);
    BackoffRespected(c, states, steps, i, j, id, n, ended, r);
  }
}
