/** When leases exclude one another, every publish call that began is accounted for. */
module OutboxCalls {
  import opened OutboxRepository
  import opened OutboxDispatcher
  import opened OutboxProtocol
  import opened OutboxLease

  function Count(ids: seq<EventId>, id: EventId): nat {
    if ids == [] then 0 else Count(ids[..|ids| - 1], id) + if ids[|ids| - 1] == id then 1 else 0
  }

  lemma CountOneMore(ids: seq<EventId>, last: EventId, id: EventId)
    ensures Count(ids + [last], id) == Count(ids, id) + if last == id then 1 else 0
  {
    assert (ids + [last])[..|ids|] == ids;
  }

  /** The run began a publish call of the event and has not recorded its result. */
  predicate Caller(s: State, r: RunId, id: EventId) {
    r in s.runs && !s.runs[r].phase.Leasing? && s.runs[r].next < |s.runs[r].batch| && Current(s.runs[r]).id == id
  }

  function Callers(s: State, id: EventId): set<RunId> {
    set r | r in s.runs && Caller(s, r, id)
  }

  /** Those whose context has expired: they cannot record anything any more. */
  function Expired(s: State, id: EventId): set<RunId> {
    set r | r in Callers(s, id) && !Live(s, r)
  }

  /** Calls begun = recorded failures + recorded success + calls without a result yet + calls
      cut off or whose result was lost. */
  ghost predicate Accounted(c: Config, s: State, id: EventId) {
    if id in s.rows then
      && Count(s.started, id) == s.rows[id].attempts + (if s.rows[id].status == Published then 1 else 0)
                                 + |Callers(s, id)| + Count(s.cut, id) + Count(s.lost, id)
      && (s.rows[id].status != Dead ==> s.rows[id].attempts < c.maxAttempts)
    else Count(s.started, id) == 0 && Count(s.cut, id) == 0 && Count(s.lost, id) == 0 && Callers(s, id) == {}
  }

  lemma OthersKeepCalling(c: Config, s: State, e: Step, id: EventId, q: RunId)
    requires Enabled(c, s, e) && !ActsFor(e, q)
    ensures Caller(s, q, id) <==> Caller(Apply(c, s, e), q, id)
  {
    StepFrame(c, s, e);
  }

  /** What a step does to the callers of an event, from what it does to its own run. */
  lemma CallersMove(c: Config, s: State, e: Step, id: EventId)
    requires Enabled(c, s, e)
    ensures e.Tick? || e.Commit? ==> Callers(Apply(c, s, e), id) == Callers(s, id)
    ensures !e.Tick? && !e.Commit? ==>
              Callers(Apply(c, s, e), id)
              == Callers(s, id) - {e.r} + if Caller(Apply(c, s, e), e.r, id) then {e.r} else {}
  {
    forall q | !ActsFor(e, q) ensures q in Callers(s, id) <==> q in Callers(Apply(c, s, e), id) {
      OthersKeepCalling(c, s, e, id, q);
    }
  }

  lemma CallersCount(c: Config, s: State, e: Step, id: EventId)
    requires Enabled(c, s, e) && !e.Tick? && !e.Commit?
    ensures |Callers(Apply(c, s, e), id)|
            == |Callers(s, id)| - (if Caller(s, e.r, id) then 1 else 0)
                + if Caller(Apply(c, s, e), e.r, id) then 1 else 0
  {
    CallersMove(c, s, e, id);
  }

  lemma AdvanceStarts(c: Config, s: State, e: Step, id: EventId)
    requires Enabled(c, s, e) && (e.Mark? || e.MarkFails?)
    ensures var run := s.runs[e.r];
            Count(Apply(c, s, e).started, id)
            == Count(s.started, id) + if run.next + 1 < |run.batch| && run.batch[run.next + 1].id == id then 1 else 0
  {
    var run := s.runs[e.r];
    if run.next + 1 < |run.batch| { CountOneMore(s.started, run.batch[run.next + 1].id, id); }
  }

  lemma QuietStepAccounts(c: Config, s: State, e: Step, id: EventId)
    requires ValidConfig(c) && Enabled(c, s, e) && Accounted(c, s, id)
    requires e.Tick? || e.Commit? || e.Begin? || e.AcquireFails?
    ensures Accounted(c, Apply(c, s, e), id)
  {
    CallersMove(c, s, e, id);
  }

  /** A call that returns leaves its run with a result to record. */
  lemma ReturnAccounts(c: Config, s: State, e: Step, id: EventId)
    requires Enabled(c, s, e) && e.PublishReturns? && Accounted(c, s, id)
    ensures Accounted(c, Apply(c, s, e), id)
  {
    CallersMove(c, s, e, id);
    assert Callers(Apply(c, s, e), id) == Callers(s, id);
  }

  lemma AcquireLeavesAttempts(c: Config, s: State, e: Step, id: EventId)
    requires Enabled(c, s, e) && e.Acquire?
    ensures var t := Apply(c, s, e);
            && (id in t.rows <==> id in s.rows)
            && (id in s.rows ==> t.rows[id].attempts == s.rows[id].attempts)
            && (id in s.rows ==> (t.rows[id].status == Published <==> s.rows[id].status == Published))
            && (id in s.rows ==> (t.rows[id].status == Dead <==> s.rows[id].status == Dead))
  {
  }

  lemma AcquireBegins(c: Config, s: State, e: Step, id: EventId)
    requires Enabled(c, s, e) && e.Acquire?
    ensures var t := Apply(c, s, e);
            && !Caller(s, e.r, id)
            && (Caller(t, e.r, id) <==> e.ids != [] && e.ids[0] == id)
            && Count(t.started, id) == Count(s.started, id) + (if Caller(t, e.r, id) then 1 else 0)
            && t.cut == s.cut && t.lost == s.lost
  {
    if e.ids != [] { CountOneMore(s.started, e.ids[0], id); }
  }

  lemma AcquireAccounts(c: Config, s: State, e: Step, id: EventId)
    requires ValidConfig(c) && Enabled(c, s, e) && e.Acquire? && Accounted(c, s, id)
    ensures Accounted(c, Apply(c, s, e), id)
  {
    AcquireLeavesAttempts(c, s, e, id);
    AcquireBegins(c, s, e, id);
    CallersCount(c, s, e, id);
    if id !in s.rows {
      assert e.ids != [] ==> e.ids[0] in e.ids;
      CallersMove(c, s, e, id);
    }
  }

  /** The row of an event whose result a live run has to record is the row the run read. */
  lemma RecordedRow(s: State, r: RunId)
    requires LeaseInv(s) && Live(s, r) && s.runs[r].next < |s.runs[r].batch|
    ensures HeldAsRead(s, s.runs[r], Current(s.runs[r]))
  {
    assert HeldAsRead(s, s.runs[r], s.runs[r].batch[s.runs[r].next]);
  }

  lemma AdvanceMoves(c: Config, s: State, e: Step, id: EventId)
    requires Inv(c, s) && Enabled(c, s, e) && (e.Mark? || e.MarkFails?)
    ensures var run := s.runs[e.r];
            && (Caller(s, e.r, id) <==> Current(run).id == id)
            && (Caller(Apply(c, s, e), e.r, id) <==> run.next + 1 < |run.batch| && run.batch[run.next + 1].id == id)
            && (Caller(Apply(c, s, e), e.r, id) ==> Current(run).id != id)
  {
    assert RunOk(c, s, s.runs[e.r]);
  }

  /** Moving on ends the call of the current event, and begins that of the next one. */
  lemma AdvanceAccounts(c: Config, s: State, e: Step, id: EventId)
    requires Inv(c, s) && Enabled(c, s, e) && (e.Mark? || e.MarkFails?)
    ensures var t := Apply(c, s, e);
            Count(t.started, id) + |Callers(s, id)|
            == Count(s.started, id) + |Callers(t, id)| + if Current(s.runs[e.r]).id == id then 1 else 0
  {
    AdvanceMoves(c, s, e, id);
    AdvanceStarts(c, s, e, id);
    CallersCount(c, s, e, id);
  }

  /** Recording a result takes one attempt, or publishes the row. */
  lemma MarkedRow(c: Config, s: State, e: Step)
    requires ValidConfig(c) && Inv(c, s) && LeaseInv(s) && Enabled(c, s, e) && e.Mark? && Live(s, e.r)
    ensures var t := Apply(c, s, e);
            var id := Current(s.runs[e.r]).id;
            && id in s.rows && id in t.rows && s.rows[id].status == Publishing
            && t.rows[id].attempts + (if t.rows[id].status == Published then 1 else 0) == s.rows[id].attempts + 1
            && (t.rows[id].status != Dead ==> t.rows[id].attempts < c.maxAttempts)
  {
    RecordedRow(s, e.r);
    assert Current(s.runs[e.r]) in s.runs[e.r].batch;
  }

  /** Only the row of the current event changes. */
  lemma UnmarkedRow(c: Config, s: State, e: Step, id: EventId)
    requires Enabled(c, s, e) && (e.Mark? ==> Current(s.runs[e.r]).id != id) && (e.Mark? || e.MarkFails? || e.Crash?)
    ensures id in Apply(c, s, e).rows <==> id in s.rows
    ensures id in s.rows ==> Apply(c, s, e).rows[id] == s.rows[id]
  {
    StepRowFrame(c, s, e);
  }

  lemma BatchIsCommitted(c: Config, s: State, run: Run, k: nat)
    requires RunOk(c, s, run) && k < |run.batch|
    ensures run.batch[k].id in s.rows
  {
    assert run.batch[k] in run.batch;
  }

  lemma NextIsCommitted(c: Config, s: State, e: Step, id: EventId)
    requires Inv(c, s) && Enabled(c, s, e) && (e.Mark? || e.MarkFails?) && id !in s.rows
    ensures !Caller(Apply(c, s, e), e.r, id) && Current(s.runs[e.r]).id != id
  {
    var run := s.runs[e.r];
    AdvanceMoves(c, s, e, id);
    BatchIsCommitted(c, s, run, run.next);
    if run.next + 1 < |run.batch| { BatchIsCommitted(c, s, run, run.next + 1); }
  }

  lemma MarkAccounts(c: Config, s: State, e: Step, id: EventId)
    requires ValidConfig(c) && Inv(c, s) && LeaseInv(s) && Enabled(c, s, e) && e.Mark? && Live(s, e.r)
    requires Accounted(c, s, id)
    ensures Accounted(c, Apply(c, s, e), id)
  {
    AdvanceAccounts(c, s, e, id);
    if Current(s.runs[e.r]).id == id {
      MarkedRow(c, s, e);
    } else {
      UnmarkedRow(c, s, e, id);
      if id !in s.rows {
        NextIsCommitted(c, s, e, id);
        CallersMove(c, s, e, id);
      }
    }
  }

  lemma LossAccounts(c: Config, s: State, e: Step, id: EventId)
    requires Inv(c, s) && Enabled(c, s, e) && e.MarkFails? && Accounted(c, s, id)
    ensures Accounted(c, Apply(c, s, e), id)
  {
    AdvanceAccounts(c, s, e, id);
    UnmarkedRow(c, s, e, id);
    CountOneMore(s.lost, Current(s.runs[e.r]).id, id);
    if id !in s.rows {
      NextIsCommitted(c, s, e, id);
      CallersMove(c, s, e, id);
    }
  }

  lemma CrashAccounts(c: Config, s: State, e: Step, id: EventId)
    requires Enabled(c, s, e) && e.Crash? && Accounted(c, s, id)
    ensures Accounted(c, Apply(c, s, e), id)
  {
    CallersMove(c, s, e, id);
    UnmarkedRow(c, s, e, id);
    if !s.runs[e.r].phase.Leasing? && s.runs[e.r].next < |s.runs[e.r].batch| {
      CountOneMore(s.cut, Current(s.runs[e.r]).id, id);
      CountOneMore(s.lost, Current(s.runs[e.r]).id, id);
    }
  }

  lemma StepAccounts(c: Config, s: State, e: Step, id: EventId)
    requires ValidConfig(c) && Inv(c, s) && LeaseInv(s) && Enabled(c, s, e) && Exclusive(s, e)
    requires Accounted(c, s, id)
    ensures Accounted(c, Apply(c, s, e), id)
  {
    if e.Mark? { MarkAccounts(c, s, e, id); }
    else if e.MarkFails? { LossAccounts(c, s, e, id); }
    else if e.Crash? { CrashAccounts(c, s, e, id); }
    else if e.PublishReturns? { ReturnAccounts(c, s, e, id); }
    else if e.Acquire? { AcquireAccounts(c, s, e, id); }
    else { QuietStepAccounts(c, s, e, id); }
  }

  /** Over every exclusive run, each publish call of an event that began is a recorded failure,
      its recorded success, a call that has no recorded result yet, a call that a crash cut
      off, or a call whose result was lost. */
  lemma {:induction false} CallsAccounted(c: Config, states: seq<State>, steps: seq<Step>, i: nat, id: EventId)
    requires ValidConfig(c) && IsExclusiveRun(c, states, steps) && i < |states|
    ensures Accounted(c, states[i], id)
  {
    if i > 0 {
      CallsAccounted(c, states, steps, i - 1, id);
      ExclusiveHolds(c, states, steps, i - 1);
      StepAccounts(c, states[i - 1], steps[i - 1], id);
    }
  }

  /** A live caller holds the only live lease on an open row. */
  lemma LiveCaller(s: State, r: RunId, id: EventId)
    requires LeaseInv(s) && r in Callers(s, id) && Live(s, r)
    ensures id in s.rows && s.rows[id].status == Publishing
    ensures Callers(s, id) == Expired(s, id) + {r}
  {
    RecordedRow(s, r);
    CurrentIsHeld(s.runs[r]);
    forall q | q in Callers(s, id) && q != r ensures !Live(s, q) {
      CurrentIsHeld(s.runs[q]);
      assert id in Held(s.runs[q]) && id in Held(s.runs[r]);
    }
  }

  /** So at most `maxAttempts` publish calls of an event ever begin, but for those that were
      cut off or lost and those whose run has expired. */
  lemma CallsBounded(c: Config, states: seq<State>, steps: seq<Step>, i: nat, id: EventId)
    requires ValidConfig(c) && IsExclusiveRun(c, states, steps) && i < |states| && id in states[i].rows
    ensures var s := states[i];
            Count(s.started, id) <= c.maxAttempts + Count(s.cut, id) + Count(s.lost, id) + |Expired(s, id)|
  {
    var s := states[i];
    CallsAccounted(c, states, steps, i, id);
    ExclusiveHolds(c, states, steps, i);
    if r :| r in Callers(s, id) && Live(s, r) {
      LiveCaller(s, r, id);
    } else {
      assert Callers(s, id) == Expired(s, id);
    }
  }

  // ------------------------------------------------ the calls that returned

  function Returned(log: seq<Call>, id: EventId): nat {
    if log == [] then 0
    else Returned(log[..|log| - 1], id) + if log[|log| - 1].message.id == id then 1 else 0
  }

  lemma ReturnedOneMore(log: seq<Call>, call: Call, id: EventId)
    ensures Returned(log + [call], id) == Returned(log, id) + if call.message.id == id then 1 else 0
  {
    assert (log + [call])[..|log|] == log;
  }

  predicate Sender(s: State, r: RunId, id: EventId) {
    Caller(s, r, id) && s.runs[r].phase.Sending?
  }

  /** The runs whose publish call of the event is under way. */
  function Senders(s: State, id: EventId): set<RunId> {
    set r | r in s.runs && Sender(s, r, id)
  }

  ghost predicate StartedOk(s: State, id: EventId) {
    Count(s.started, id) == Returned(s.log, id) + |Senders(s, id)| + Count(s.cut, id)
  }

  lemma OthersKeepSending(c: Config, s: State, e: Step, id: EventId, q: RunId)
    requires Enabled(c, s, e) && !ActsFor(e, q)
    ensures Sender(s, q, id) <==> Sender(Apply(c, s, e), q, id)
  {
    StepFrame(c, s, e);
  }

  lemma SendersMove(c: Config, s: State, e: Step, id: EventId)
    requires Enabled(c, s, e)
    ensures e.Tick? || e.Commit? ==> Senders(Apply(c, s, e), id) == Senders(s, id)
    ensures !e.Tick? && !e.Commit? ==>
              Senders(Apply(c, s, e), id)
              == Senders(s, id) - {e.r} + if Sender(Apply(c, s, e), e.r, id) then {e.r} else {}
  {
    forall q | !ActsFor(e, q) ensures q in Senders(s, id) <==> q in Senders(Apply(c, s, e), id) {
      OthersKeepSending(c, s, e, id, q);
    }
  }

  lemma SendersCount(c: Config, s: State, e: Step, id: EventId)
    requires Enabled(c, s, e) && !e.Tick? && !e.Commit?
    ensures |Senders(Apply(c, s, e), id)|
            == |Senders(s, id)| - (if Sender(s, e.r, id) then 1 else 0)
                + if Sender(Apply(c, s, e), e.r, id) then 1 else 0
  {
    SendersMove(c, s, e, id);
  }

  lemma AcquireKeepsStarted(c: Config, s: State, e: Step, id: EventId)
    requires Enabled(c, s, e) && e.Acquire? && StartedOk(s, id)
    ensures StartedOk(Apply(c, s, e), id)
  {
    SendersCount(c, s, e, id);
    if e.ids != [] { CountOneMore(s.started, e.ids[0], id); }
  }

  lemma AdvanceSends(c: Config, s: State, e: Step, id: EventId)
    requires Enabled(c, s, e) && (e.Mark? || e.MarkFails?)
    ensures var run := s.runs[e.r];
            && !Sender(s, e.r, id)
            && (Sender(Apply(c, s, e), e.r, id) <==> run.next + 1 < |run.batch| && run.batch[run.next + 1].id == id)
  {
  }

  lemma AdvanceKeepsStarted(c: Config, s: State, e: Step, id: EventId)
    requires Enabled(c, s, e) && (e.Mark? || e.MarkFails?) && StartedOk(s, id)
    ensures StartedOk(Apply(c, s, e), id)
  {
    AdvanceSends(c, s, e, id);
    AdvanceStarts(c, s, e, id);
    SendersCount(c, s, e, id);
  }

  lemma OtherStepKeepsStarted(c: Config, s: State, e: Step, id: EventId)
    requires Enabled(c, s, e) && !(e.Acquire? || e.Mark? || e.MarkFails?) && StartedOk(s, id)
    ensures StartedOk(Apply(c, s, e), id)
  {
    if !e.Tick? && !e.Commit? { SendersCount(c, s, e, id); } else { SendersMove(c, s, e, id); }
    if e.PublishReturns? {
      ReturnedOneMore(s.log, Apply(c, s, e).log[|s.log|], id);
    } else if e.Crash? && InPhase(s, e.r, false, true, false) {
      CountOneMore(s.cut, Current(s.runs[e.r]).id, id);
    }
  }

  /** Under every interleaving, each call that began has returned, is under way or was cut off. */
  lemma {:induction false} StartedCallsAccounted(c: Config, states: seq<State>, steps: seq<Step>, i: nat, id: EventId)
    requires IsRun(c, states, steps) && i < |states|
    ensures StartedOk(states[i], id)
  {
    if i > 0 {
      var s, e := states[i - 1], steps[i - 1];
      StartedCallsAccounted(c, states, steps, i - 1, id);
      if e.Acquire? { AcquireKeepsStarted(c, s, e, id); }
      else if e.Mark? || e.MarkFails? { AdvanceKeepsStarted(c, s, e, id); }
      else { OtherStepKeepsStarted(c, s, e, id); }
    }
  }
}
