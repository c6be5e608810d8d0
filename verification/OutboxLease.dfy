/** When leases exclude one another: what makes "published" and "dead" final. */
module OutboxLease {
  import opened Base
  import opened OutboxRepository
  import opened OutboxDispatcher
  import opened OutboxProtocol

  /** The run's context has not expired, so its updates can still land. */
  predicate Live(s: State, r: RunId) {
    r in s.runs && (s.runs[r].parent.Some? ==> s.now < s.runs[r].parent.value)
  }

  /** Events the run has acquired and not yet recorded. */
  function Held(run: Run): set<EventId> {
    set k | run.next <= k < |run.batch| :: run.batch[k].id
  }

  /** The live runs hold different events, and hold them as they read them. */
  ghost predicate LeaseInv(s: State) {
    && (forall r, k | Live(s, r) && s.runs[r].next <= k < |s.runs[r].batch| ::
            HeldAsRead(s, s.runs[r], s.runs[r].batch[k]))
    && (forall q, r | Live(s, q) && Live(s, r) && q != r :: Held(s.runs[q]) !! Held(s.runs[r]))
  }

  ghost predicate HeldAsRead(s: State, run: Run, record: Record) {
    && record.id in s.rows
    && s.rows[record.id].status == Publishing
    && s.rows[record.id].lockedAt == Some(run.startedAt)
    && s.rows[record.id].attempts == record.row.attempts
  }

  /** Updates are made by live runs, and no acquire takes an event from another live run. */
  ghost predicate Exclusive(s: State, e: Step) {
    && (e.Acquire? ==>
          Live(s, e.r) && forall q | Live(s, q) && q != e.r :: forall id | id in e.ids :: id !in Held(s.runs[q]))
    && (e.Mark? ==> Live(s, e.r))
  }

  lemma CurrentIsHeld(run: Run)
    requires run.next < |run.batch|
    ensures Current(run).id in Held(run)
  {
    assert run.batch[run.next].id in Held(run);
  }

  lemma AdvancedHolds(c: Config, s: State, r: RunId)
    requires r in s.runs && RunOk(c, s, s.runs[r]) && s.runs[r].next < |s.runs[r].batch| && r in Advance(c, s, r)
    ensures Held(Advance(c, s, r)[r]) == Held(s.runs[r]) - {Current(s.runs[r]).id}
  {
  }

  /** What a step leaves of the events a run holds; only an acquire adds to them. */
  lemma HeldShrinks(c: Config, s: State, e: Step, r: RunId)
    requires Inv(c, s) && Enabled(c, s, e) && r in Apply(c, s, e).runs && r in s.runs && !(e.Acquire? && e.r == r)
    ensures var t := Apply(c, s, e);
            && t.runs[r].batch == s.runs[r].batch && t.runs[r].startedAt == s.runs[r].startedAt
            && t.runs[r].parent == s.runs[r].parent && t.runs[r].next >= s.runs[r].next
            && Held(t.runs[r]) <= Held(s.runs[r])
            && (e.Mark? && e.r == r ==> Current(s.runs[r]).id !in Held(t.runs[r]))
  {
    StepFrame(c, s, e);
    if ActsFor(e, r) && (e.Mark? || e.MarkFails?) { AdvancedHolds(c, s, r); }
  }

  lemma AcquiredHolds(c: Config, s: State, e: Step)
    requires Enabled(c, s, e) && e.Acquire? && e.r in Apply(c, s, e).runs
    ensures forall id | id in Held(Apply(c, s, e).runs[e.r]) :: id in e.ids
  {
  }

  /** The row of an event that another run, or nobody, writes to stays as it was read. */
  lemma HeldRowStays(c: Config, s: State, e: Step, r: RunId, id: EventId)
    requires Inv(c, s) && LeaseInv(s) && Enabled(c, s, e) && Exclusive(s, e)
    requires Live(s, r) && r in Apply(c, s, e).runs && !(e.Acquire? && e.r == r)
    requires id in Held(Apply(c, s, e).runs[r])
    ensures !Writes(s, e, id) || (e.Commit? && id !in s.rows)
  {
    HeldShrinks(c, s, e, r);
    if e.Mark? { CurrentIsHeld(s.runs[e.r]); }
  }

  lemma AcquiredAsRead(c: Config, s: State, e: Step, k: nat)
    requires Enabled(c, s, e) && e.Acquire? && e.r in Apply(c, s, e).runs
    requires var run := Apply(c, s, e).runs[e.r]; run.next <= k < |run.batch|
    ensures var t := Apply(c, s, e); HeldAsRead(t, t.runs[e.r], t.runs[e.r].batch[k])
  {
  }

  lemma KeptAsRead(c: Config, s: State, e: Step, r: RunId, k: nat)
    requires Inv(c, s) && LeaseInv(s) && Enabled(c, s, e) && Exclusive(s, e)
    requires Live(s, r) && r in Apply(c, s, e).runs && !(e.Acquire? && e.r == r)
    requires var run := Apply(c, s, e).runs[r]; run.next <= k < |run.batch|
    ensures var t := Apply(c, s, e); HeldAsRead(t, t.runs[r], t.runs[r].batch[k])
  {
    var t := Apply(c, s, e);
    HeldShrinks(c, s, e, r);
    StepRowFrame(c, s, e);
    assert t.runs[r].batch[k].id in Held(t.runs[r]);
    assert HeldAsRead(s, s.runs[r], s.runs[r].batch[k]);
    HeldRowStays(c, s, e, r, t.runs[r].batch[k].id);
  }

  lemma LiveBefore(c: Config, s: State, e: Step, r: RunId)
    requires Enabled(c, s, e) && Live(Apply(c, s, e), r)
    ensures r in s.runs ==> Live(s, r)
    ensures r !in s.runs ==> Apply(c, s, e).runs[r].batch == []
  {
    StepFrame(c, s, e);
    StepRowFrame(c, s, e);
  }

  lemma StepKeepsHeldAsRead(c: Config, s: State, e: Step, r: RunId, k: nat)
    requires Inv(c, s) && LeaseInv(s) && Enabled(c, s, e) && Exclusive(s, e)
    requires var t := Apply(c, s, e); Live(t, r) && t.runs[r].next <= k < |t.runs[r].batch|
    ensures var t := Apply(c, s, e); HeldAsRead(t, t.runs[r], t.runs[r].batch[k])
  {
    LiveBefore(c, s, e, r);
    if e.Acquire? && e.r == r { AcquiredAsRead(c, s, e, k); } else { KeptAsRead(c, s, e, r, k); }
  }

  lemma StepKeepsDisjoint(c: Config, s: State, e: Step, q: RunId, r: RunId)
    requires Inv(c, s) && LeaseInv(s) && Enabled(c, s, e) && Exclusive(s, e)
    requires var t := Apply(c, s, e); Live(t, q) && Live(t, r) && q != r && !(e.Acquire? && e.r == q)
    ensures var t := Apply(c, s, e); Held(t.runs[q]) !! Held(t.runs[r])
  {
    var t := Apply(c, s, e);
    if q in s.runs && r in s.runs {
      HeldShrinks(c, s, e, q);
      if e.Acquire? && e.r == r { AcquiredHolds(c, s, e); } else { HeldShrinks(c, s, e, r); }
    } else {
      assert Held(t.runs[if q in s.runs then r else q]) == {};
    }
  }

  lemma StepKeepsLease(c: Config, s: State, e: Step)
    requires Inv(c, s) && LeaseInv(s) && Enabled(c, s, e) && Exclusive(s, e)
    ensures LeaseInv(Apply(c, s, e))
  {
    var t := Apply(c, s, e);
    forall r, k | Live(t, r) && t.runs[r].next <= k < |t.runs[r].batch|
      ensures HeldAsRead(t, t.runs[r], t.runs[r].batch[k])
    {
      StepKeepsHeldAsRead(c, s, e, r, k);
    }
    forall q, r | Live(t, q) && Live(t, r) && q != r ensures Held(t.runs[q]) !! Held(t.runs[r]) {
      if e.Acquire? && e.r == q { StepKeepsDisjoint(c, s, e, r, q); } else { StepKeepsDisjoint(c, s, e, q, r); }
    }
  }

  /** Published and dead rows stay as they are; recorded attempts only grow. */
  ghost predicate Settled(s: State, t: State) {
    forall id | id in s.rows ::
      && id in t.rows
      && (Terminal(s.rows[id]) ==> t.rows[id] == s.rows[id])
      && s.rows[id].attempts <= t.rows[id].attempts
  }

  lemma StepSettled(c: Config, s: State, e: Step)
    requires Inv(c, s) && LeaseInv(s) && Enabled(c, s, e) && Exclusive(s, e)
    ensures Settled(s, Apply(c, s, e))
  {
    var t := Apply(c, s, e);
    StepRowFrame(c, s, e);
    if e.Mark? {
      assert HeldAsRead(s, s.runs[e.r], s.runs[e.r].batch[s.runs[e.r].next]);
    }
  }

  // ------------------------------------------------------- theorems about runs

  ghost predicate IsExclusiveRun(c: Config, states: seq<State>, steps: seq<Step>) {
    && IsRun(c, states, steps)
    && forall i | 0 <= i < |steps| :: Exclusive(states[i], steps[i])
  }

  lemma {:induction false} ExclusiveHolds(c: Config, states: seq<State>, steps: seq<Step>, i: nat)
    requires ValidConfig(c) && IsExclusiveRun(c, states, steps) && i < |states|
    ensures Inv(c, states[i]) && LeaseInv(states[i])
  {
    InvHolds(c, states, steps, i);
    if i > 0 {
      ExclusiveHolds(c, states, steps, i - 1);
      StepKeepsLease(c, states[i - 1], steps[i - 1]);
    }
  }

  /** Whatever makes the runs exclusive: published and dead are final, and recorded
      attempts only grow. */
  lemma {:induction false} ExclusiveRunsSettle(c: Config, states: seq<State>, steps: seq<Step>, i: nat, j: nat)
    requires ValidConfig(c) && IsExclusiveRun(c, states, steps) && i <= j < |states|
    ensures Settled(states[i], states[j])
  {
    if i < j {
      ExclusiveRunsSettle(c, states, steps, i, j - 1);
      ExclusiveHolds(c, states, steps, j - 1);
      StepSettled(c, states[j - 1], steps[j - 1]);
    }
  }
}
