/** Scheduler mode: every dispatch run sits inside a Redis lock with a fixed ttl and under
    the deadline of its task (internal/scheduler/scheduler.go, `WithLock` in
    pkg/cache/distributed_lock.go). */
module SchedulerLock {
  import opened Base
  import opened Backoff
  import opened DistributedLock
  import opened OutboxRepository
  import opened OutboxDispatcher
  import P = OutboxProtocol
  import opened OutboxLease
  import opened OutboxCalls
  import opened OutboxBackoff
  import opened OutboxTiming

  datatype Params = Params(
    mq: Config,
    taskTimeoutSec: nat,
    lockTTLSec: nat,
    latency: nat)  // longest time from the effect of a lock command to the start of the run

  predicate ValidParams(p: Params) {
    ValidConfig(p.mq) && p.taskTimeoutSec > 0 && p.lockTTLSec > 0
  }

  /** `taken` is when the task took the lock, if it did. */
  datatype Task = Task(deadline: int, taken: Option<int>, dispatched: bool)

  datatype State = State(outbox: P.State, key: Option<Lease>, tasks: map<P.RunId, Task>, used: set<P.RunId>)

  datatype Step =
    | StartTask(r: P.RunId)
    | TakeLock(r: P.RunId)
    | TakeLockErrs(r: P.RunId)
    | Dispatch(r: P.RunId)
    | Outbox(e: P.Step)
    | Release(r: P.RunId)
    | ReleaseErrs(r: P.RunId)
    | LateRelease(r: P.RunId)
    | CrashTask(r: P.RunId)

  predicate Waiting(s: State, r: P.RunId) { r in s.tasks && s.tasks[r].taken.None? }

  predicate Returned(s: State, r: P.RunId) {
    r in s.tasks && s.tasks[r].taken.Some? && s.tasks[r].dispatched && r !in s.outbox.runs
  }

  ghost predicate Enabled(p: Params, s: State, e: Step) {
    match e
    case StartTask(r) => r !in s.used
    case TakeLock(r) => Waiting(s, r)
    case TakeLockErrs(r) => Waiting(s, r)
    case Dispatch(r) => r in s.tasks && s.tasks[r].taken.Some? && !s.tasks[r].dispatched && r !in s.outbox.runs
    case Outbox(b) => !b.Begin? && !b.Crash? && P.Enabled(p.mq, s.outbox, b)
    case Release(r) => Returned(s, r)
    case ReleaseErrs(r) => Returned(s, r)
    case LateRelease(r) => r in s.used && r !in s.tasks
    case CrashTask(r) => r in s.tasks
  }

  function Taken(p: Params, s: State, r: P.RunId): Option<Lease> {
    AfterSetNX(s.key, s.outbox.now, r, Seconds(p.lockTTLSec))
  }

  function Apply(p: Params, s: State, e: Step): State
    requires Enabled(p, s, e)
  {
    match e
    case StartTask(r) =>
      s.(tasks := s.tasks[r := Task(s.outbox.now + Seconds(p.taskTimeoutSec), None, false)], used := s.used + {r})
    case TakeLock(r) =>
      if Free(s.key, s.outbox.now) then
        s.(key := Taken(p, s, r), tasks := s.tasks[r := s.tasks[r].(taken := Some(s.outbox.now))])
      else s.(tasks := s.tasks - {r})
    case TakeLockErrs(r) => s.(key := Taken(p, s, r), tasks := s.tasks - {r})
    case Dispatch(r) =>
      s.(outbox := P.Apply(p.mq, s.outbox, P.Begin(r, Some(s.tasks[r].deadline))),
          tasks := s.tasks[r := s.tasks[r].(dispatched := true)])
    case Outbox(b) => s.(outbox := P.Apply(p.mq, s.outbox, b))
    case Release(r) => s.(key := AfterRelease(s.key, s.outbox.now, r), tasks := s.tasks - {r})
    case ReleaseErrs(r) => s.(tasks := s.tasks - {r})
    case LateRelease(r) => s.(key := AfterRelease(s.key, s.outbox.now, r))
    case CrashTask(r) =>
      s.(tasks := s.tasks - {r},
         outbox := if r in s.outbox.runs then P.Apply(p.mq, s.outbox, P.Crash(r)) else s.outbox)
  }

  predicate Init(s: State) {
    s.outbox == P.State(s.outbox.now, map[], map[], [], [], [], []) && s.key == None && s.tasks == map[] && s.used == {}
  }

  /** Updates of a run land only before the deadline of its context. */
  predicate EffectsInTime(s: State, e: Step) {
    e.Outbox? && (e.e.Acquire? || e.e.Mark?) ==> Live(s.outbox, e.e.r)
  }

  ghost predicate IsScheduledRun(p: Params, states: seq<State>, steps: seq<Step>) {
    && |states| == |steps| + 1
    && Init(states[0])
    && forall i | 0 <= i < |steps| ::
         && Enabled(p, states[i], steps[i]) && EffectsInTime(states[i], steps[i])
         && states[i + 1] == Apply(p, states[i], steps[i])
  }

  /** The task has the lock and has not begun its run. */
  predicate AwaitsReply(s: State, r: P.RunId) {
    r in s.tasks && s.tasks[r].taken.Some? && !s.tasks[r].dispatched
  }

  /** No operation of a run outlasts its own timeout, and no reply to a lock command the latency. */
  ghost predicate Timely(p: Params, s: State, e: Step) {
    e.Outbox? && e.e.Tick? ==>
      && Timed(s.outbox, e.e)
      && forall r | AwaitsReply(s, r) :: s.outbox.now + e.e.d <= s.tasks[r].taken.value + p.latency
  }

  ghost predicate IsTimelyRun(p: Params, states: seq<State>, steps: seq<Step>) {
    && IsScheduledRun(p, states, steps)
    && forall i | 0 <= i < |steps| :: Timely(p, states[i], steps[i])
  }

  /** No two runs can both still change the table. */
  ghost predicate NoOverlap(s: State) {
    forall q, r | Live(s.outbox, q) && Live(s.outbox, r) :: q == r
  }

  // ------------------------------------------- what a scheduled run does to the outbox

  /** The step of the outbox behind a step of the system; the others leave it alone. */
  function OutboxStep(s: State, e: Step): P.Step {
    match e
    case Outbox(b) => b
    case Dispatch(r) => if r in s.tasks then P.Begin(r, Some(s.tasks[r].deadline)) else P.Tick(0)
    case CrashTask(r) => if r in s.outbox.runs then P.Crash(r) else P.Tick(0)
    case _ => P.Tick(0)
  }

  lemma StepProjects(p: Params, s: State, e: Step)
    requires Enabled(p, s, e)
    ensures P.Enabled(p.mq, s.outbox, OutboxStep(s, e))
    ensures Apply(p, s, e).outbox == P.Apply(p.mq, s.outbox, OutboxStep(s, e))
  {
  }

  function OutboxStates(states: seq<State>): (o: seq<P.State>)
    ensures |o| == |states| && forall k | 0 <= k < |states| :: o[k] == states[k].outbox
  {
    seq(|states|, k requires 0 <= k < |states| => states[k].outbox)
  }

  function OutboxSteps(states: seq<State>, steps: seq<Step>): (o: seq<P.Step>)
    requires |steps| < |states|
    ensures |o| == |steps| && forall k | 0 <= k < |steps| :: o[k] == OutboxStep(states[k], steps[k])
  {
    seq(|steps|, k requires 0 <= k < |steps| => OutboxStep(states[k], steps[k]))
  }

  lemma RunProjects(p: Params, states: seq<State>, steps: seq<Step>)
    requires IsScheduledRun(p, states, steps)
    ensures P.IsRun(p.mq, OutboxStates(states), OutboxSteps(states, steps))
  {
    var os, oe := OutboxStates(states), OutboxSteps(states, steps);
    forall i | 0 <= i < |oe| ensures P.Enabled(p.mq, os[i], oe[i]) && os[i + 1] == P.Apply(p.mq, os[i], oe[i]) {
      StepProjects(p, states[i], steps[i]);
    }
  }

  // --------------------------------------------------------- the lock

  /** Every run belongs to a task that took the lock, and shares its deadline. */
  ghost predicate TaskInv(p: Params, s: State) {
    && s.tasks.Keys <= s.used
    && (forall r | r in s.outbox.runs ::
          && r in s.tasks && s.tasks[r].taken.Some? && s.tasks[r].dispatched
          && s.outbox.runs[r].parent == Some(s.tasks[r].deadline)
          && s.tasks[r].taken.value <= s.outbox.runs[r].startedAt)
    && (forall r | r in s.tasks :: TaskOk(p, s, s.tasks[r]))
  }

  predicate TaskOk(p: Params, s: State, task: Task) {
    && task.deadline <= s.outbox.now + Seconds(p.taskTimeoutSec)
    && (task.taken.Some? ==>
          task.taken.value <= s.outbox.now && task.deadline <= task.taken.value + Seconds(p.taskTimeoutSec))
  }

  /** Whoever took the lock has it for the whole ttl. */
  predicate Covered(p: Params, s: State, r: P.RunId)
    requires r in s.tasks
  {
    var taken := s.tasks[r].taken;
    taken.Some? && s.outbox.now < taken.value + Seconds(p.lockTTLSec) ==>
      s.key == Some(Lease(r, taken.value + Seconds(p.lockTTLSec)))
  }

  ghost predicate LockInv(p: Params, s: State) {
    TaskInv(p, s) && forall r | r in s.tasks :: Covered(p, s, r)
  }

  lemma RunKeepsStart(p: Params, s: State, e: Step, r: P.RunId)
    requires Enabled(p, s, e) && r in Apply(p, s, e).outbox.runs && r in s.outbox.runs
    ensures Apply(p, s, e).outbox.runs[r].startedAt == s.outbox.runs[r].startedAt
    ensures Apply(p, s, e).outbox.runs[r].parent == s.outbox.runs[r].parent
  {
    if e.Outbox? { P.StepFrame(p.mq, s.outbox, e.e); }
  }

  lemma StepKeepsTasks(p: Params, s: State, e: Step)
    requires TaskInv(p, s) && Enabled(p, s, e)
    ensures TaskInv(p, Apply(p, s, e))
  {
    var t := Apply(p, s, e);
    if e.Outbox? {
      P.StepFrame(p.mq, s.outbox, e.e);
      P.StepRowFrame(p.mq, s.outbox, e.e);
    }
    forall r | r in t.outbox.runs && r in s.outbox.runs
      ensures t.outbox.runs[r].startedAt == s.outbox.runs[r].startedAt
      ensures t.outbox.runs[r].parent == s.outbox.runs[r].parent
    {
      RunKeepsStart(p, s, e, r);
    }
  }

  lemma StepKeepsCovered(p: Params, s: State, e: Step, r: P.RunId)
    requires LockInv(p, s) && Enabled(p, s, e) && r in Apply(p, s, e).tasks
    ensures Covered(p, Apply(p, s, e), r)
  {
    WholeSeconds(p.lockTTLSec);
    if e.Outbox? { P.StepRowFrame(p.mq, s.outbox, e.e); }
    if r in s.tasks { assert Covered(p, s, r); }
  }

  lemma StepKeepsLock(p: Params, s: State, e: Step)
    requires LockInv(p, s) && Enabled(p, s, e)
    ensures LockInv(p, Apply(p, s, e))
  {
    StepKeepsTasks(p, s, e);
    forall r | r in Apply(p, s, e).tasks ensures Covered(p, Apply(p, s, e), r) { StepKeepsCovered(p, s, e, r); }
  }

  lemma {:induction false} LockHolds(p: Params, states: seq<State>, steps: seq<Step>, i: nat)
    requires IsScheduledRun(p, states, steps) && i < |states|
    ensures LockInv(p, states[i])
  {
    if i > 0 {
      LockHolds(p, states, steps, i - 1);
      StepKeepsLock(p, states[i - 1], steps[i - 1]);
    }
  }

  // --------------------------------------------------------- the timeouts

  /** A run begins within the latency of its lock command, and keeps its operations' timeouts. */
  ghost predicate TimelyInv(p: Params, s: State) {
    && OnTime(p.mq, s.outbox)
    && (forall r | AwaitsReply(s, r) :: s.outbox.now <= s.tasks[r].taken.value + p.latency)
    && (forall r | r in s.outbox.runs && r in s.tasks && s.tasks[r].taken.Some? ::
          s.outbox.runs[r].startedAt <= s.tasks[r].taken.value + p.latency)
  }

  lemma StepIsTimed(p: Params, s: State, e: Step)
    requires OnTime(p.mq, s.outbox) && Timely(p, s, e)
    ensures Timed(s.outbox, OutboxStep(s, e))
  {
    assert forall r | r in s.outbox.runs :: InTime(p.mq, s.outbox, s.outbox.runs[r]);
  }

  lemma StepKeepsTimely(p: Params, s: State, e: Step)
    requires LockInv(p, s) && P.Inv(p.mq, s.outbox) && TimelyInv(p, s) && Enabled(p, s, e) && Timely(p, s, e)
    ensures TimelyInv(p, Apply(p, s, e))
  {
    var t := Apply(p, s, e);
    StepProjects(p, s, e);
    StepIsTimed(p, s, e);
    StepKeepsTime(p.mq, s.outbox, OutboxStep(s, e));
    StepKeepsReplies(p, s, e);
  }

  lemma StepKeepsReplies(p: Params, s: State, e: Step)
    requires LockInv(p, s) && TimelyInv(p, s) && Enabled(p, s, e) && Timely(p, s, e)
    ensures var t := Apply(p, s, e);
            && (forall r | AwaitsReply(t, r) :: t.outbox.now <= t.tasks[r].taken.value + p.latency)
            && (forall r | r in t.outbox.runs && r in t.tasks && t.tasks[r].taken.Some? ::
                  t.outbox.runs[r].startedAt <= t.tasks[r].taken.value + p.latency)
  {
    var t := Apply(p, s, e);
    if e.Outbox? { P.StepFrame(p.mq, s.outbox, e.e); }
    forall r | r in t.outbox.runs && r in t.tasks && t.tasks[r].taken.Some?
      ensures t.outbox.runs[r].startedAt <= t.tasks[r].taken.value + p.latency
    {
      if r in s.outbox.runs { RunKeepsStart(p, s, e, r); }
    }
  }

  lemma {:induction false} TimelyHolds(p: Params, states: seq<State>, steps: seq<Step>, i: nat)
    requires ValidParams(p) && IsTimelyRun(p, states, steps) && i < |states|
    ensures TimelyInv(p, states[i])
  {
    if i > 0 {
      TimelyHolds(p, states, steps, i - 1);
      LockHolds(p, states, steps, i - 1);
      OutboxHolds(p, states, steps, i - 1);
      StepKeepsTimely(p, states[i - 1], steps[i - 1]);
    }
  }

  lemma OutboxHolds(p: Params, states: seq<State>, steps: seq<Step>, i: nat)
    requires ValidParams(p) && IsScheduledRun(p, states, steps) && i < |states|
    ensures P.Inv(p.mq, states[i].outbox)
  {
    RunProjects(p, states, steps);
    P.InvHolds(p.mq, OutboxStates(states), OutboxSteps(states, steps), i);
  }

  // --------------------------------------------------------- what excludes runs

  /** The lock outlives every run, from the command that took it to the last record. */
  predicate LockOutlivesRun(p: Params) {
    p.latency + Millis(BudgetMs(p.mq, p.mq.batchSize)) < Seconds(p.lockTTLSec)
  }

  /** No task outlives the lock, or none outlives the row lease. */
  predicate TasksFit(p: Params) {
    p.taskTimeoutSec <= p.lockTTLSec || p.taskTimeoutSec <= p.mq.lockTimeoutSec
  }

  /** No batch outlives the row lease, or none outlives the lock. */
  predicate BatchesFit(p: Params) {
    LeaseOutlivesRun(p.mq) || LockOutlivesRun(p)
  }

  lemma LockMeansNoOverlap(p: Params, s: State)
    requires LockInv(p, s)
    requires p.taskTimeoutSec <= p.lockTTLSec || (LockOutlivesRun(p) && TimelyInv(p, s) && P.Inv(p.mq, s.outbox))
    ensures NoOverlap(s)
  {
    forall q, r | Live(s.outbox, q) && Live(s.outbox, r) ensures q == r {
      LiveRunHasLock(p, s, q);
      LiveRunHasLock(p, s, r);
    }
  }

  lemma LiveRunHasLock(p: Params, s: State, r: P.RunId)
    requires LockInv(p, s) && Live(s.outbox, r)
    requires p.taskTimeoutSec <= p.lockTTLSec || (LockOutlivesRun(p) && TimelyInv(p, s) && P.Inv(p.mq, s.outbox))
    ensures s.key.Some? && s.key.value.token == r
  {
    assert Covered(p, s, r) && TaskOk(p, s, s.tasks[r]);
    if p.taskTimeoutSec > p.lockTTLSec {
      assert InTime(p.mq, s.outbox, s.outbox.runs[r]);
      AllowanceInBudget(p.mq, s.outbox, s.outbox.runs[r]);
    }
  }

  /** With a row lease that no task outlives, a row a live run holds is never stale. */
  lemma HeldIsNotStale(p: Params, s: State, r: P.RunId, id: EventId, started: int)
    requires p.taskTimeoutSec <= p.mq.lockTimeoutSec && TaskInv(p, s) && LeaseInv(s.outbox)
    requires Live(s.outbox, r) && id in Held(s.outbox.runs[r]) && started <= s.outbox.now
    ensures id in s.outbox.rows && !Eligible(s.outbox.rows[id], started, started - LockTimeout(p.mq))
  {
    var run := s.outbox.runs[r];
    var k :| run.next <= k < |run.batch| && run.batch[k].id == id;
    assert HeldAsRead(s.outbox, run, run.batch[k]) && TaskOk(p, s, s.tasks[r]);
  }

  lemma StepIsExclusive(p: Params, s: State, e: Step)
    requires TasksFit(p) || (BatchesFit(p) && TimelyInv(p, s))
    requires LockInv(p, s) && P.Inv(p.mq, s.outbox) && LeaseInv(s.outbox) && Enabled(p, s, e) && EffectsInTime(s, e)
    ensures Exclusive(s.outbox, OutboxStep(s, e))
  {
    if p.taskTimeoutSec <= p.lockTTLSec || (LockOutlivesRun(p) && TimelyInv(p, s)) {
      LockMeansNoOverlap(p, s);
    } else if LeaseOutlivesRun(p.mq) && TimelyInv(p, s) {
      StepProjects(p, s, e);
      AcquireStealsNothing(p.mq, s.outbox, OutboxStep(s, e));
    } else if e.Outbox? && e.e.Acquire? {
      assert P.RunOk(p.mq, s.outbox, s.outbox.runs[e.e.r]);
      forall q, id | Live(s.outbox, q) && q != e.e.r && id in Held(s.outbox.runs[q]) ensures id !in e.e.ids {
        HeldIsNotStale(p, s, q, id, s.outbox.runs[e.e.r].startedAt);
      }
    }
  }

  /** Either the tasks fit a lease, whatever their operations do, or their operations keep
      their timeouts and the batches fit one. */
  ghost predicate Protected(p: Params, states: seq<State>, steps: seq<Step>) {
    && IsScheduledRun(p, states, steps)
    && (TasksFit(p) || (BatchesFit(p) && IsTimelyRun(p, states, steps)))
  }

  lemma {:induction false} ProtectedHolds(p: Params, states: seq<State>, steps: seq<Step>, i: nat)
    requires ValidParams(p) && Protected(p, states, steps) && i < |states|
    ensures LeaseInv(states[i].outbox)
    ensures i < |steps| ==> Exclusive(states[i].outbox, OutboxStep(states[i], steps[i]))
  {
    if i > 0 {
      ProtectedHolds(p, states, steps, i - 1);
      LeaseOneMore(p, states, steps, i - 1);
    }
    if i < |steps| { ProtectedStep(p, states, steps, i); }
  }

  lemma LeaseOneMore(p: Params, states: seq<State>, steps: seq<Step>, i: nat)
    requires ValidParams(p) && IsScheduledRun(p, states, steps) && i < |steps| && LeaseInv(states[i].outbox)
    requires Exclusive(states[i].outbox, OutboxStep(states[i], steps[i]))
    ensures LeaseInv(states[i + 1].outbox)
  {
    OutboxHolds(p, states, steps, i);
    StepProjects(p, states[i], steps[i]);
    StepKeepsLease(p.mq, states[i].outbox, OutboxStep(states[i], steps[i]));
  }

  lemma ProtectedStep(p: Params, states: seq<State>, steps: seq<Step>, i: nat)
    requires ValidParams(p) && Protected(p, states, steps) && i < |steps| && LeaseInv(states[i].outbox)
    ensures Exclusive(states[i].outbox, OutboxStep(states[i], steps[i]))
  {
    LockHolds(p, states, steps, i);
    OutboxHolds(p, states, steps, i);
    if !TasksFit(p) { TimelyHolds(p, states, steps, i); }
    StepIsExclusive(p, states[i], steps[i]);
  }

  lemma ScheduledIsExclusive(p: Params, states: seq<State>, steps: seq<Step>)
    requires ValidParams(p) && Protected(p, states, steps)
    ensures IsExclusiveRun(p.mq, OutboxStates(states), OutboxSteps(states, steps))
  {
    RunProjects(p, states, steps);
    forall i: nat | i < |steps| ensures Exclusive(states[i].outbox, OutboxStep(states[i], steps[i])) {
      ProtectedHolds(p, states, steps, i);
    }
  }

  // ------------------------------------------------- the lock is given back

  /** The last moment the key can expire is a ttl away: a task that crashed, or could not
      release, keeps the others out no longer than that. */
  lemma {:induction false} LockExpires(p: Params, states: seq<State>, steps: seq<Step>, i: nat)
    requires IsScheduledRun(p, states, steps) && i < |states|
    ensures Free(states[i].key, states[i].outbox.now + Seconds(p.lockTTLSec))
  {
    if i > 0 {
      LockExpires(p, states, steps, i - 1);
      StepKeepsExpiry(p, states[i - 1], steps[i - 1]);
    }
  }

  lemma StepKeepsExpiry(p: Params, s: State, e: Step)
    requires Enabled(p, s, e) && Free(s.key, s.outbox.now + Seconds(p.lockTTLSec))
    ensures Free(Apply(p, s, e).key, Apply(p, s, e).outbox.now + Seconds(p.lockTTLSec))
  {
    if e.Outbox? { P.StepRowFrame(p.mq, s.outbox, e.e); }
  }

  /** A task that returns while its lease lasts frees the lock: the next one gets it at once. */
  lemma ReleaseLetsNextIn(p: Params, s: State, r: P.RunId, next: P.RunId)
    requires LockInv(p, s) && Enabled(p, s, Release(r)) && HeldBy(s.key, s.outbox.now, r) && next !in s.used
    ensures var freed := Apply(p, s, Release(r));
            && freed.key.None? && freed.tasks == s.tasks - {r} && freed.outbox == s.outbox
            && Enabled(p, freed, StartTask(next))
            && var started := Apply(p, freed, StartTask(next));
            && Enabled(p, started, TakeLock(next))
            && var locked := Apply(p, started, TakeLock(next));
            && locked.tasks[next] == Task(s.outbox.now + Seconds(p.taskTimeoutSec), Some(s.outbox.now), false)
            && locked.key == Some(Lease(next, s.outbox.now + Seconds(p.lockTTLSec)))
            && Enabled(p, locked, Dispatch(next))
  {
    WholeSeconds(p.lockTTLSec);
    assert next !in s.outbox.runs && next !in s.tasks;
  }

  /** A task that meets a live lease is over, and changes nothing. */
  lemma BusyLockSkips(p: Params, s: State, r: P.RunId)
    requires Enabled(p, s, TakeLock(r)) && !Free(s.key, s.outbox.now)
    ensures Apply(p, s, TakeLock(r)) == s.(tasks := s.tasks - {r})
  {
  }

  // ------------------------------------------------- what scheduled runs promise

  /** If a task times out no later than its lock expires, no two runs on any nodes can both
      still change the table: whatever the row lease timeout is, and however long any
      operation takes. */
  lemma ScheduledRunsDoNotOverlap(p: Params, states: seq<State>, steps: seq<Step>, i: nat)
    requires ValidParams(p) && p.taskTimeoutSec <= p.lockTTLSec && IsScheduledRun(p, states, steps) && i < |states|
    ensures NoOverlap(states[i])
  {
    LockHolds(p, states, steps, i);
    LockMeansNoOverlap(p, states[i]);
  }

  /** Nor can they if operations keep their timeouts and the lock outlives every run, whatever
      the task timeout is. */
  lemma TimelyRunsDoNotOverlap(p: Params, states: seq<State>, steps: seq<Step>, i: nat)
    requires ValidParams(p) && LockOutlivesRun(p) && IsTimelyRun(p, states, steps) && i < |states|
    ensures NoOverlap(states[i])
  {
    LockHolds(p, states, steps, i);
    OutboxHolds(p, states, steps, i);
    TimelyHolds(p, states, steps, i);
    LockMeansNoOverlap(p, states[i]);
  }

  /** In every protected run, published and dead are final, and recorded attempts only grow. */
  lemma ScheduledRunsSettle(p: Params, states: seq<State>, steps: seq<Step>, i: nat, j: nat)
    requires ValidParams(p) && Protected(p, states, steps) && i <= j < |states|
    ensures Settled(states[i].outbox, states[j].outbox)
  {
    ScheduledIsExclusive(p, states, steps);
    ExclusiveRunsSettle(p.mq, OutboxStates(states), OutboxSteps(states, steps), i, j);
  }

  /** In every protected run, no more publish calls of an event begin than it is tried, but for
      those that were cut off, lost or left to an expired run. */
  lemma ScheduledCallsBounded(p: Params, states: seq<State>, steps: seq<Step>, i: nat, id: EventId)
    requires ValidParams(p) && Protected(p, states, steps)
    requires i < |states| && id in states[i].outbox.rows
    ensures var o := states[i].outbox;
            Count(o.started, id) <= p.mq.maxAttempts + Count(o.cut, id) + Count(o.lost, id) + |Expired(o, id)|
  {
    ScheduledIsExclusive(p, states, steps);
    CallsBounded(p.mq, OutboxStates(states), OutboxSteps(states, steps), i, id);
  }

  /** In every protected run, every publish call under a live context that follows a recorded
      failure waits for the backoff. */
  lemma ScheduledBackoffRespected(
    p: Params, states: seq<State>, steps: seq<Step>, i: nat, j: nat, id: EventId, n: int, ended: int, r: P.RunId)
    requires ValidParams(p) && Protected(p, states, steps) && i < j < |states|
    requires RecordsFailure(states[i].outbox, OutboxStep(states[i], steps[i]), id, n, ended) && BackoffExact(n)
    requires forall k | i < k < j :: !PublishReturnsFor(states[k].outbox, OutboxStep(states[k], steps[k]), id)
    requires Publishes(states[j].outbox, r, id)
    ensures states[j].outbox.runs[r].begun >= ended + DoublingBackoff(n)
  {
    ScheduledIsExclusive(p, states, steps);
    var os, oe := OutboxStates(states), OutboxSteps(states, steps);
    forall k | i < k < j ensures !PublishReturnsFor(os[k], oe[k], id) {
      assert os[k] == states[k].outbox && oe[k] == OutboxStep(states[k], steps[k]);
    }
    BackoffRespected(p.mq, os, oe, i, j, id, n, ended, r);
  }
}
