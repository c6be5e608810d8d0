/** The steps of one run are those of `DispatchOnce`: whatever a dispatcher does, the protocol
    can do step by step, with the same table, messages and times. */
module OutboxSolo {
  import opened Base
  import opened OutboxRepository
  import opened OutboxDispatcher
  import opened OutboxProtocol

  ghost predicate ArePossible(c: Config, states: seq<State>, steps: seq<Step>) {
    && |states| == |steps| + 1
    && forall i | 0 <= i < |steps| :: Enabled(c, states[i], steps[i]) && states[i + 1] == Apply(c, states[i], steps[i])
  }

  ghost predicate CanBecome(c: Config, s: State, t: State) {
    exists states, steps :: ArePossible(c, states, steps) && states[0] == s && states[|steps|] == t
  }

  lemma StayAsIs(c: Config, s: State)
    ensures CanBecome(c, s, s)
  {
    assert ArePossible(c, [s], []) && [s][0] == s;
  }

  lemma Then(c: Config, origin: State, s: State, e: Step) returns (t: State)
    requires CanBecome(c, origin, s) && Enabled(c, s, e)
    ensures t == Apply(c, s, e) && CanBecome(c, origin, t)
  {
    t := Apply(c, s, e);
    var states, steps :| ArePossible(c, states, steps) && states[0] == origin && states[|steps|] == s;
    var longer, more := states + [t], steps + [e];
    forall i | 0 <= i < |more| ensures Enabled(c, longer[i], more[i]) && longer[i + 1] == Apply(c, longer[i], more[i]) {
      if i < |steps| { assert longer[i] == states[i] && longer[i + 1] == states[i + 1]; }
    }
    assert ArePossible(c, longer, more) && longer[0] == origin && longer[|more|] == t;
  }

  /** The clock when event number `k` is begun. */
  function ClockAt(now: int, outcomes: seq<Outcome>, k: nat): int
    requires k <= |outcomes|
  {
    if k == 0 then now else outcomes[k - 1].updateClock
  }

  /** The clocks of the outcomes are read one after the other from `now` on. */
  predicate InOrder(now: int, outcomes: seq<Outcome>) {
    forall k | 0 <= k < |outcomes| :: ClockAt(now, outcomes, k) <= outcomes[k].clock <= outcomes[k].updateClock
  }

  /** The run when it has begun to publish event number `k`. */
  function AtEvent(c: Config, run: Run, batch: seq<Record>, k: nat, now: int): Run {
    run.(batch := batch, next := k, phase := Sending, begun := now, deadline := now + PublishTimeout(c))
  }

  function RunsAt(c: Config, s: State, r: RunId, run: Run, batch: seq<Record>, k: nat, now: int): map<RunId, Run> {
    if k < |batch| then s.runs[r := AtEvent(c, run, batch, k, now)] else s.runs - {r}
  }

  /** The log has grown by the messages of the first `k` events, with what came of each. */
  ghost predicate Logged(log: seq<Call>, longer: seq<Call>, batch: seq<Record>, outcomes: seq<Outcome>, k: nat)
    requires k <= |batch| == |outcomes|
  {
    && |longer| == |log| + k && longer[..|log|] == log
    && forall i | 0 <= i < k ::
         && longer[|log| + i].message == MessageOf(batch[i])
         && longer[|log| + i].error == outcomes[i].publishError
         && longer[|log| + i].ended == outcomes[i].clock
  }

  /** One event takes the steps that `DispatchEvent` stands for. */
  lemma EventTakesItsSteps(c: Config, origin: State, s: State, r: RunId, o: Outcome) returns (t: State)
    requires CanBecome(c, origin, s) && r in s.runs && s.runs[r].phase.Sending? && s.runs[r].next < |s.runs[r].batch|
    requires s.now <= o.clock <= o.updateClock
    ensures CanBecome(c, origin, t) && t.now == o.updateClock
    ensures var run := s.runs[r];
            && t.rows == AfterEvent(c, s.rows, Current(run), o)
            && t.runs == RunsAt(c, s, r, run, run.batch, run.next + 1, t.now)
            && t.log == s.log + [Call(MessageOf(Current(run)), o.publishError, run.begun, o.clock)]
  {
    var s1 := Then(c, origin, s, Tick(o.clock - s.now));
    var s2 := Then(c, origin, s1, PublishReturns(r, o.publishError));
    var s3 := Then(c, origin, s2, Tick(o.updateClock - s2.now));
    t := ResultIsRecorded(c, origin, s3, r, o);
  }

  lemma ResultIsRecorded(c: Config, origin: State, s: State, r: RunId, o: Outcome) returns (t: State)
    requires CanBecome(c, origin, s) && r in s.runs && s.runs[r].next < |s.runs[r].batch|
    requires s.runs[r].phase == Recording(o.publishError, o.clock) && o.clock <= o.updateClock == s.now
    ensures CanBecome(c, origin, t) && t.now == s.now && t.log == s.log
    ensures t.rows == AfterEvent(c, s.rows, Current(s.runs[r]), o)
    ensures t.runs == RunsAt(c, s, r, s.runs[r], s.runs[r].batch, s.runs[r].next + 1, t.now)
  {
    if o.markError.Some? {
      t := Then(c, origin, s, MarkFails(r));
    } else {
      t := Then(c, origin, s, Mark(r, o.clock));
    }
  }

  /** Where the run is after its first `k` events. */
  ghost predicate Reached(c: Config, s0: State, t: State, r: RunId, batch: seq<Record>, outcomes: seq<Outcome>, k: nat)
    requires r in s0.runs && k <= |batch| == |outcomes|
  {
    && t.now == ClockAt(s0.now, outcomes, k)
    && t.rows == AfterBatch(c, s0.rows, batch[..k], outcomes[..k])
    && t.runs == RunsAt(c, s0, r, s0.runs[r], batch, k, t.now)
    && Logged(s0.log, t.log, batch, outcomes, k)
  }

  lemma OneCallMore(
    log: seq<Call>, longer: seq<Call>, last: seq<Call>, batch: seq<Record>, outcomes: seq<Outcome>, k: nat)
    requires k < |batch| == |outcomes| && Logged(log, longer, batch, outcomes, k)
    requires |last| == |longer| + 1 && last[..|longer|] == longer
    requires last[|longer|].message == MessageOf(batch[k]) && last[|longer|].error == outcomes[k].publishError
    requires last[|longer|].ended == outcomes[k].clock
    ensures Logged(log, last, batch, outcomes, k + 1)
  {
    assert last[..|log|] == last[..|longer|][..|log|];
    forall i | 0 <= i < |longer| ensures last[i] == longer[i] {
      assert last[i] == last[..|longer|][i];
    }
  }

  lemma OneEventMore(
    c: Config, s0: State, s: State, t: State, r: RunId, batch: seq<Record>, outcomes: seq<Outcome>, k: nat)
    requires r in s0.runs && k < |batch| == |outcomes| && Reached(c, s0, s, r, batch, outcomes, k)
    requires t.now == outcomes[k].updateClock && t.rows == AfterEvent(c, s.rows, batch[k], outcomes[k])
    requires t.runs == RunsAt(c, s, r, s.runs[r], batch, k + 1, t.now)
    requires |t.log| == |s.log| + 1 && t.log[..|s.log|] == s.log
    requires t.log[|s.log|] == Call(MessageOf(batch[k]), outcomes[k].publishError, s.now, outcomes[k].clock)
    ensures Reached(c, s0, t, r, batch, outcomes, k + 1)
  {
    BatchStep(c, s0.rows, batch, outcomes, k);
    assert s.runs - {r} == s0.runs - {r};
    OneCallMore(s0.log, s.log, t.log, batch, outcomes, k);
  }

  lemma NextEventTakesItsSteps(
    c: Config, origin: State, s0: State, s: State, r: RunId, batch: seq<Record>, outcomes: seq<Outcome>, k: nat)
    returns (t: State)
    requires CanBecome(c, origin, s) && r in s0.runs && k < |batch| == |outcomes| && InOrder(s0.now, outcomes)
    requires Reached(c, s0, s, r, batch, outcomes, k)
    ensures CanBecome(c, origin, t) && Reached(c, s0, t, r, batch, outcomes, k + 1)
  {
    assert s.runs[r] == AtEvent(c, s0.runs[r], batch, k, s.now);
    t := EventTakesItsSteps(c, origin, s, r, outcomes[k]);
    OneEventMore(c, s0, s, t, r, batch, outcomes, k);
  }

  lemma NoEventYet(c: Config, s0: State, r: RunId, batch: seq<Record>, outcomes: seq<Outcome>)
    requires r in s0.runs && 0 < |batch| == |outcomes| && s0.runs[r] == AtEvent(c, s0.runs[r], batch, 0, s0.now)
    ensures Reached(c, s0, s0, r, batch, outcomes, 0)
  {
    assert s0.runs[r := s0.runs[r]] == s0.runs;
  }

  lemma {:induction false} BatchTakesItsSteps(
    c: Config, origin: State, s0: State, r: RunId, batch: seq<Record>, outcomes: seq<Outcome>, k: nat)
    returns (t: State)
    requires CanBecome(c, origin, s0) && r in s0.runs && 0 < |batch| == |outcomes| && k <= |batch|
    requires InOrder(s0.now, outcomes) && s0.runs[r] == AtEvent(c, s0.runs[r], batch, 0, s0.now)
    ensures CanBecome(c, origin, t) && Reached(c, s0, t, r, batch, outcomes, k)
  {
    if k == 0 {
      NoEventYet(c, s0, r, batch, outcomes);
      t := s0;
    } else {
      var s := BatchTakesItsSteps(c, origin, s0, r, batch, outcomes, k - 1);
      t := NextEventTakesItsSteps(c, origin, s0, s, r, batch, outcomes, k - 1);
    }
  }

  lemma RunAcquires(
    c: Config, s: State, r: RunId, parent: Option<int>, skipped: set<EventId>, ids: seq<EventId>, owner: string)
    returns (t: State)
    requires r !in s.runs && Selects(s.rows, skipped, c.batchSize, s.now, s.now - LockTimeout(c), ids)
    ensures CanBecome(c, s, t) && t.now == s.now && t.log == s.log && t.rows == LeaseRows(s.rows, ids, s.now, owner)
    ensures ids == [] ==> t.runs == s.runs
    ensures ids != [] ==> r in t.runs && t.runs - {r} == s.runs
                          && t.runs[r] == AtEvent(c, t.runs[r], RecordsOf(t.rows, ids), 0, s.now)
  {
    StayAsIs(c, s);
    var s1 := Then(c, s, s, Begin(r, parent));
    t := Then(c, s, s1, Acquire(r, skipped, ids, owner));
    if ids == [] {
      assert LeaseRows(s.rows, ids, s.now, owner) == s.rows;
      assert t.runs == s.runs;
    }
  }

  /** A run begins, acquires what the query selected, publishes every event once and records
      every result: the table, the log and the end of the run are those of `DispatchOnce`. */
  lemma RunsAreDispatches(
    c: Config, s: State, r: RunId, parent: Option<int>, skipped: set<EventId>, ids: seq<EventId>, owner: string,
    outcomes: seq<Outcome>) returns (t: State)
    requires r !in s.runs && Selects(s.rows, skipped, c.batchSize, s.now, s.now - LockTimeout(c), ids)
    requires |ids| == |outcomes| && InOrder(s.now, outcomes)
    ensures CanBecome(c, s, t) && t.runs == s.runs && t.now == ClockAt(s.now, outcomes, |outcomes|)
    ensures t.rows == AfterDispatch(c, s.rows, s.now, ids, owner, outcomes)
    ensures Logged(s.log, t.log, RecordsOf(LeaseRows(s.rows, ids, s.now, owner), ids), outcomes, |ids|)
  {
    var acquired := RunAcquires(c, s, r, parent, skipped, ids, owner);
    t := acquired;
    if ids != [] {
      var batch := RecordsOf(acquired.rows, ids);
      t := BatchTakesItsSteps(c, s, acquired, r, batch, outcomes, |ids|);
      assert batch[..|ids|] == batch && outcomes[..|ids|] == outcomes;
    }
  }
}
