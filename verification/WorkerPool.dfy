/** The bounded worker pool: submitters under the read lock, one closing shutdown under the
    write lock, workers ranging over the channel (internal/worker/pool.go). */
module WorkerPool {
  import opened Base

  type Id = nat

  /** A submitter's task is known by the submitter: one call submits one task. */
  type Task = Id

  datatype SubmitResult = Accepted | ShuttingDown | TimedOut

  datatype Submitter =
    | Arriving
    | ReadLocked                        // holds the read lock, has not looked at `closed`
    | Selecting                         // found the pool open, waits to send or to time out
    | Unlocking(result: SubmitResult)
    | Answered(result: SubmitResult)

  datatype Closer =
    | Knocking
    | WriteLocked                       // holds the write lock, has not looked at `closed`
    | Closing                           // set `closed`, about to close the channel
    | Leaving(first: bool)              // about to give the write lock back
    | Waiting                           // the call that closed the pool waits for the workers
    | Drained                           // returned nil after waiting
    | GaveUp                            // its context ended first
    | AlreadyClosed                     // returned nil without waiting

  datatype Worker = Idle | Busy(task: Task) | Exited

  datatype Pool = Pool(
    capacity: nat,
    queue: seq<Task>,
    channelClosed: bool,
    closed: bool,
    readers: set<Id>,
    writer: Option<Id>,
    submitters: map<Id, Submitter>,
    closers: map<Id, Closer>,
    workers: seq<Worker>,
    accepted: seq<Task>,   // in the order of the sends
    taken: seq<Task>,      // in the order of the receives
    finished: seq<Task>,
    panicked: bool)        // a send on, or a second close of, the closed channel

  datatype Step =
    | NewSubmit(i: Id)
    | ReadLock(i: Id)
    | LookAtClosed(i: Id)
    | Send(i: Id)
    | SendTimesOut(i: Id)
    | ReadUnlock(i: Id)
    | NewShutdown(j: Id)
    | WriteLock(j: Id)
    | CheckClosed(j: Id)
    | CloseChannel(j: Id)
    | WriteUnlock(j: Id)
    | SeeDrained(j: Id)
    | ContextEnds(j: Id)
    | Receive(w: nat)
    | Finish(w: nat)
    | Exit(w: nat)

  predicate SubmitterAt(p: Pool, i: Id, at: Submitter) { i in p.submitters && p.submitters[i] == at }

  predicate CloserAt(p: Pool, j: Id, at: Closer) { j in p.closers && p.closers[j] == at }

  predicate AllExited(p: Pool) { forall w | 0 <= w < |p.workers| :: p.workers[w].Exited? }

  predicate Enabled(p: Pool, e: Step) {
    match e
    case NewSubmit(i) => i !in p.submitters
    case ReadLock(i) => SubmitterAt(p, i, Arriving) && p.writer.None?
    case LookAtClosed(i) => SubmitterAt(p, i, ReadLocked)
    case Send(i) => SubmitterAt(p, i, Selecting) && (p.channelClosed || |p.queue| < p.capacity)
    case SendTimesOut(i) => SubmitterAt(p, i, Selecting)
    case ReadUnlock(i) => i in p.submitters && p.submitters[i].Unlocking?
    case NewShutdown(j) => j !in p.closers
    case WriteLock(j) => CloserAt(p, j, Knocking) && p.writer.None? && p.readers == {}
    case CheckClosed(j) => CloserAt(p, j, WriteLocked)
    case CloseChannel(j) => CloserAt(p, j, Closing)
    case WriteUnlock(j) => j in p.closers && p.closers[j].Leaving?
    case SeeDrained(j) => CloserAt(p, j, Waiting) && AllExited(p)
    case ContextEnds(j) => CloserAt(p, j, Waiting)
    case Receive(w) => w < |p.workers| && p.workers[w].Idle? && p.queue != []
    case Finish(w) => w < |p.workers| && p.workers[w].Busy?
    case Exit(w) => w < |p.workers| && p.workers[w].Idle? && p.queue == [] && p.channelClosed
  }

  function AtSubmitter(p: Pool, i: Id, at: Submitter): Pool { p.(submitters := p.submitters[i := at]) }

  function AtCloser(p: Pool, j: Id, at: Closer): Pool { p.(closers := p.closers[j := at]) }

  function Apply(p: Pool, e: Step): Pool
    requires Enabled(p, e)
  {
    match e
    case NewSubmit(i) => AtSubmitter(p, i, Arriving)
    case ReadLock(i) => AtSubmitter(p, i, ReadLocked).(readers := p.readers + {i})
    case LookAtClosed(i) => AtSubmitter(p, i, if p.closed then Unlocking(ShuttingDown) else Selecting)
    case Send(i) =>
      if p.channelClosed then p.(panicked := true)
      else AtSubmitter(p, i, Unlocking(Accepted)).(queue := p.queue + [i], accepted := p.accepted + [i])
    case SendTimesOut(i) => AtSubmitter(p, i, Unlocking(TimedOut))
    case ReadUnlock(i) => AtSubmitter(p, i, Answered(p.submitters[i].result)).(readers := p.readers - {i})
    case NewShutdown(j) => AtCloser(p, j, Knocking)
    case WriteLock(j) => AtCloser(p, j, WriteLocked).(writer := Some(j))
    case CheckClosed(j) => if p.closed then AtCloser(p, j, Leaving(false)) else AtCloser(p, j, Closing).(closed := true)
    case CloseChannel(j) =>
      if p.channelClosed then p.(panicked := true) else AtCloser(p, j, Leaving(true)).(channelClosed := true)
    case WriteUnlock(j) => AtCloser(p, j, if p.closers[j].first then Waiting else AlreadyClosed).(writer := None)
    case SeeDrained(j) => AtCloser(p, j, Drained)
    case ContextEnds(j) => AtCloser(p, j, GaveUp)
    case Receive(w) =>
      p.(queue := p.queue[1..], taken := p.taken + [p.queue[0]], workers := p.workers[w := Busy(p.queue[0])])
    case Finish(w) => p.(finished := p.finished + [p.workers[w].task], workers := p.workers[w := Idle])
    case Exit(w) => p.(workers := p.workers[w := Exited])
  }

  predicate Init(p: Pool) {
    && p.capacity > 0 && |p.workers| > 0 && p.queue == [] && !p.channelClosed && !p.closed && p.readers == {}
    && p.writer.None?
    && p.submitters == map[] && p.closers == map[] && (forall w | 0 <= w < |p.workers| :: p.workers[w].Idle?)
    && p.accepted == [] && p.taken == [] && p.finished == [] && !p.panicked
  }

  ghost predicate IsRun(pools: seq<Pool>, steps: seq<Step>) {
    && |pools| == |steps| + 1
    && Init(pools[0])
    && forall i | 0 <= i < |steps| :: Enabled(pools[i], steps[i]) && pools[i + 1] == Apply(pools[i], steps[i])
  }

  // ------------------------------------------------------------- the locks

  predicate HoldsRead(at: Submitter) { at.ReadLocked? || at.Selecting? || at.Unlocking? }

  predicate HoldsWrite(at: Closer) { at.WriteLocked? || at.Closing? || at.Leaving? }

  ghost predicate LockInv(p: Pool) {
    && (forall i | i in p.submitters :: i in p.readers <==> HoldsRead(p.submitters[i]))
    && (forall j | j in p.closers :: p.writer == Some(j) <==> HoldsWrite(p.closers[j]))
    && p.readers <= p.submitters.Keys
    && (p.writer.Some? ==> p.writer.value in p.closers && p.readers == {})
    && (forall i | i in p.submitters && p.submitters[i].Selecting? :: !p.closed)
    && (forall j | j in p.closers && p.closers[j].Closing? :: p.closed && !p.channelClosed)
    && (p.channelClosed ==> p.closed)
    && !p.panicked
  }

  /** Whoever holds the write lock is alone. */
  lemma WriterIsAlone(p: Pool, j: Id)
    requires LockInv(p) && j in p.closers && HoldsWrite(p.closers[j])
    ensures p.writer == Some(j) && p.readers == {}
    ensures forall i | i in p.submitters :: !HoldsRead(p.submitters[i])
    ensures forall k | k in p.closers && k != j :: !HoldsWrite(p.closers[k])
  {
    forall i | i in p.submitters ensures !HoldsRead(p.submitters[i]) { assert i !in p.readers; }
  }

  predicate ClosersStep(e: Step) {
    e.NewShutdown? || e.WriteLock? || e.CheckClosed? || e.CloseChannel? || e.WriteUnlock? || e.SeeDrained?
    || e.ContextEnds?
  }

  lemma CloserKeepsLocks(p: Pool, e: Step)
    requires LockInv(p) && Enabled(p, e) && ClosersStep(e)
    ensures LockInv(Apply(p, e))
  {
    if e.CheckClosed? || e.CloseChannel? || e.WriteUnlock? { WriterIsAlone(p, e.j); }
  }

  lemma SubmitterKeepsLocks(p: Pool, e: Step)
    requires LockInv(p) && Enabled(p, e) && !ClosersStep(e)
    ensures LockInv(Apply(p, e))
  {
    if e.Send? { assert !p.closed; }
  }

  lemma StepKeepsLocks(p: Pool, e: Step)
    requires LockInv(p) && Enabled(p, e)
    ensures LockInv(Apply(p, e))
  {
    if ClosersStep(e) { CloserKeepsLocks(p, e); } else { SubmitterKeepsLocks(p, e); }
  }

  // ------------------------------------------------------------- the tasks

  function Occurs(tasks: seq<Task>, k: Task): nat {
    if tasks == [] then 0
    else Occurs(tasks[..|tasks| - 1], k) + if tasks[|tasks| - 1] == k then 1 else 0
  }

  function Runs(w: Worker, k: Task): nat { if w.Busy? && w.task == k then 1 else 0 }

  /** How many workers run task `k`. */
  function Running(workers: seq<Worker>, k: Task): nat {
    if workers == [] then 0 else Running(workers[..|workers| - 1], k) + Runs(workers[|workers| - 1], k)
  }

  lemma {:induction false} RunningUpdate(workers: seq<Worker>, w: nat, worker: Worker, k: Task)
    requires w < |workers|
    ensures Running(workers[w := worker], k) == Running(workers, k) - Runs(workers[w], k) + Runs(worker, k)
  {
    var n := |workers| - 1;
    if w == n {
      assert workers[w := worker][..n] == workers[..n];
    } else {
      RunningUpdate(workers[..n], w, worker, k);
      assert workers[w := worker][..n] == workers[..n][w := worker];
    }
  }

  lemma {:induction false} NoneRunning(workers: seq<Worker>, k: Task)
    requires forall w | 0 <= w < |workers| :: !workers[w].Busy?
    ensures Running(workers, k) == 0
  {
    if workers != [] { NoneRunning(workers[..|workers| - 1], k); }
  }

  lemma {:induction false} OccursJoin(a: seq<Task>, b: seq<Task>, k: Task)
    ensures Occurs(a + b, k) == Occurs(a, k) + Occurs(b, k)
  {
    if b == [] {
      assert a + b == a;
    } else {
      OccursJoin(a, b[..|b| - 1], k);
      assert (a + b)[..|a + b| - 1] == a + b[..|b| - 1];
    }
  }

  lemma {:induction false} OccursOnce(tasks: seq<Task>, k: Task)
    requires Distinct(tasks)
    ensures Occurs(tasks, k) == if k in tasks then 1 else 0
  {
    if tasks != [] {
      var n := |tasks| - 1;
      OccursOnce(tasks[..n], k);
      assert tasks == tasks[..n] + [tasks[n]];
    }
  }

  predicate WasAccepted(at: Submitter) { (at.Unlocking? || at.Answered?) && at.result == Accepted }

  /** The channel is bounded and first in, first out. */
  ghost predicate QueueInv(p: Pool) {
    |p.queue| <= p.capacity && p.accepted == p.taken + p.queue
  }

  /** Whatever was taken is running or has run. */
  ghost predicate FlowInv(p: Pool) {
    forall k :: Occurs(p.taken, k) == Occurs(p.finished, k) + Running(p.workers, k)
  }

  /** Who was told that the task is accepted. */
  ghost predicate AnswerInv(p: Pool) {
    && Distinct(p.accepted)
    && (forall i :: i in p.accepted <==> i in p.submitters && WasAccepted(p.submitters[i]))
  }

  /** Workers leave a closed, empty channel, and a drained shutdown call saw them all leave. */
  ghost predicate ExitInv(p: Pool) {
    && |p.workers| > 0
    && (forall w | 0 <= w < |p.workers| && p.workers[w].Exited? :: p.channelClosed && p.queue == [])
    && (forall j | j in p.closers && p.closers[j].Drained? :: AllExited(p))
  }

  lemma StepKeepsQueue(p: Pool, e: Step)
    requires LockInv(p) && QueueInv(p) && Enabled(p, e)
    ensures QueueInv(Apply(p, e))
  {
    var t := Apply(p, e);
    if e.Receive? { assert p.queue == [p.queue[0]] + t.queue; }
    else if e.Send? { assert t.accepted == t.taken + t.queue; }
  }

  lemma StepKeepsTask(p: Pool, e: Step, k: Task)
    requires Enabled(p, e) && Occurs(p.taken, k) == Occurs(p.finished, k) + Running(p.workers, k)
    ensures var t := Apply(p, e); Occurs(t.taken, k) == Occurs(t.finished, k) + Running(t.workers, k)
  {
    var t := Apply(p, e);
    if e.Receive? || e.Finish? || e.Exit? {
      RunningUpdate(p.workers, e.w, t.workers[e.w], k);
      if e.Receive? { OccursJoin(p.taken, [p.queue[0]], k); }
      if e.Finish? { OccursJoin(p.finished, [p.workers[e.w].task], k); }
    }
  }

  lemma StepKeepsFlow(p: Pool, e: Step)
    requires FlowInv(p) && Enabled(p, e)
    ensures FlowInv(Apply(p, e))
  {
    var t := Apply(p, e);
    forall k ensures Occurs(t.taken, k) == Occurs(t.finished, k) + Running(t.workers, k) {
      StepKeepsTask(p, e, k);
    }
  }

  lemma StepKeepsAnswers(p: Pool, e: Step)
    requires LockInv(p) && AnswerInv(p) && Enabled(p, e)
    ensures AnswerInv(Apply(p, e))
  {
    var t := Apply(p, e);
    if e.Send? {
      forall i ensures i in t.accepted <==> i in t.submitters && WasAccepted(t.submitters[i]) {
        assert i in t.accepted <==> i in p.accepted || i == e.i;
      }
    }
  }

  predicate WorkerStep(e: Step) { e.Receive? || e.Finish? || e.Exit? }

  lemma WorkerKeepsExits(p: Pool, e: Step)
    requires ExitInv(p) && Enabled(p, e) && WorkerStep(e)
    ensures ExitInv(Apply(p, e))
  {
    assert !p.workers[e.w].Exited? && !AllExited(p);
  }

  lemma StepKeepsExits(p: Pool, e: Step)
    requires LockInv(p) && ExitInv(p) && Enabled(p, e)
    ensures ExitInv(Apply(p, e))
  {
    if WorkerStep(e) {
      WorkerKeepsExits(p, e);
    } else {
      var t := Apply(p, e);
      assert t.workers == p.workers && AllExited(t) == AllExited(p);
      if e.Send? { assert !p.channelClosed; }
    }
  }

  ghost predicate TaskInv(p: Pool) { QueueInv(p) && FlowInv(p) && AnswerInv(p) && ExitInv(p) }

  lemma {:induction false} InvHolds(pools: seq<Pool>, steps: seq<Step>, i: nat)
    requires IsRun(pools, steps) && i < |pools|
    ensures LockInv(pools[i]) && TaskInv(pools[i])
  {
    if i == 0 {
      forall k ensures Running(pools[0].workers, k) == 0 { NoneRunning(pools[0].workers, k); }
    } else {
      InvHolds(pools, steps, i - 1);
      StepKeepsLocks(pools[i - 1], steps[i - 1]);
      StepKeepsQueue(pools[i - 1], steps[i - 1]);
      StepKeepsFlow(pools[i - 1], steps[i - 1]);
      StepKeepsAnswers(pools[i - 1], steps[i - 1]);
      StepKeepsExits(pools[i - 1], steps[i - 1]);
    }
  }

  /** In every interleaving: no send on the closed channel and no second close, a bounded
      queue, tasks taken in the order they were accepted, none lost, repeated or invented. */
  lemma PoolIsSafe(pools: seq<Pool>, steps: seq<Step>, i: nat, k: Task)
    requires IsRun(pools, steps) && i < |pools|
    ensures !pools[i].panicked
    ensures |pools[i].queue| <= pools[i].capacity
    ensures pools[i].accepted == pools[i].taken + pools[i].queue
    ensures var p := pools[i];
            Occurs(p.queue, k) + Running(p.workers, k) + Occurs(p.finished, k) == if k in p.accepted then 1 else 0
    ensures k in pools[i].submitters && pools[i].submitters[k].Answered? ==>
              (pools[i].submitters[k].result == Accepted <==> k in pools[i].accepted)
  {
    InvHolds(pools, steps, i);
    OccursJoin(pools[i].taken, pools[i].queue, k);
    OccursOnce(pools[i].accepted, k);
  }

  /** When the shutdown call that closed the pool returns nil, every accepted task has run
      exactly once, and nothing else has run. */
  lemma DrainedMeansDone(pools: seq<Pool>, steps: seq<Step>, i: nat, j: Id, k: Task)
    requires IsRun(pools, steps) && i < |pools| && CloserAt(pools[i], j, Drained)
    ensures pools[i].queue == [] && Occurs(pools[i].finished, k) == if k in pools[i].accepted then 1 else 0
  {
    PoolIsSafe(pools, steps, i, k);
    InvHolds(pools, steps, i);
    assert AllExited(pools[i]) && pools[i].workers[0].Exited?;
    NoneRunning(pools[i].workers, k);
  }

  // ------------------------------------------------------------- the drain ends

  function WorkerWeight(w: Worker): nat { if w.Exited? then 0 else if w.Idle? then 1 else 2 }

  function Weights(workers: seq<Worker>): nat {
    if workers == [] then 0 else Weights(workers[..|workers| - 1]) + WorkerWeight(workers[|workers| - 1])
  }

  /** Worker steps a closed pool still has to take. */
  function Remaining(p: Pool): nat { 2 * |p.queue| + Weights(p.workers) }

  lemma {:induction false} WeightsUpdate(workers: seq<Worker>, w: nat, worker: Worker)
    requires w < |workers|
    ensures Weights(workers[w := worker]) == Weights(workers) - WorkerWeight(workers[w]) + WorkerWeight(worker)
  {
    var n := |workers| - 1;
    if w == n {
      assert workers[w := worker][..n] == workers[..n];
    } else {
      WeightsUpdate(workers[..n], w, worker);
      assert workers[w := worker][..n] == workers[..n][w := worker];
    }
  }

  lemma {:induction false} NoWeight(workers: seq<Worker>)
    ensures Weights(workers) == 0 <==> forall w | 0 <= w < |workers| :: workers[w].Exited?
  {
    if workers != [] {
      NoWeight(workers[..|workers| - 1]);
      assert forall w | 0 <= w < |workers| - 1 :: workers[w] == workers[..|workers| - 1][w];
    }
  }

  lemma ClosedPoolStep(p: Pool, e: Step)
    requires LockInv(p) && Enabled(p, e) && p.channelClosed
    ensures Remaining(Apply(p, e)) == Remaining(p) - if WorkerStep(e) then 1 else 0
  {
    if WorkerStep(e) { WeightsUpdate(p.workers, e.w, Apply(p, e).workers[e.w]); }
  }

  lemma ClosedRunStep(pools: seq<Pool>, steps: seq<Step>, i: nat)
    requires IsRun(pools, steps) && i < |steps| && pools[i].channelClosed
    ensures Remaining(pools[i + 1]) == Remaining(pools[i]) - if WorkerStep(steps[i]) then 1 else 0
  {
    InvHolds(pools, steps, i);
    ClosedPoolStep(pools[i], steps[i]);
  }

  /** Worker steps among those numbered from `i` up to, not including, `j`. */
  function CountWorkerSteps(steps: seq<Step>, i: nat, j: nat): nat
    requires i <= j <= |steps|
  {
    if i == j then 0 else CountWorkerSteps(steps, i, j - 1) + if WorkerStep(steps[j - 1]) then 1 else 0
  }

  ghost predicate Joined(p: Pool, e: Step, q: Pool) {
    Enabled(p, e) && q == Apply(p, e)
  }

  lemma StepKeepsClosed(p: Pool, e: Step, q: Pool)
    requires Joined(p, e, q) && p.channelClosed
    ensures q.channelClosed
  {
  }

  /** The steps of a run, from any state on. */
  ghost predicate AreJoined(pools: seq<Pool>, steps: seq<Step>) {
    |pools| == |steps| + 1 && forall i | 0 <= i < |steps| :: Joined(pools[i], steps[i], pools[i + 1])
  }

  lemma {:induction false} ClosedStays(pools: seq<Pool>, steps: seq<Step>, i: nat, j: nat)
    requires AreJoined(pools, steps) && i <= j < |pools| && pools[i].channelClosed
    ensures pools[j].channelClosed
  {
    if i < j {
      ClosedStays(pools, steps, i, j - 1);
      StepKeepsClosed(pools[j - 1], steps[j - 1], pools[j]);
    }
  }

  lemma {:induction false} DrainCounts(pools: seq<Pool>, steps: seq<Step>, i: nat, j: nat)
    requires i <= j <= |steps| < |pools|
    requires forall k | i <= k < j ::
            Remaining(pools[k + 1]) == Remaining(pools[k]) - if WorkerStep(steps[k]) then 1 else 0
    ensures CountWorkerSteps(steps, i, j) + Remaining(pools[j]) == Remaining(pools[i])
  {
    if i < j { DrainCounts(pools, steps, i, j - 1); }
  }

  /** Once the channel is closed the workers take exactly `Remaining` further steps in all,
      whatever submitters and other shutdown calls do; until those are taken some worker can
      move, and when they are taken the waiting shutdown call can return. */
  lemma DrainEnds(pools: seq<Pool>, steps: seq<Step>, i: nat, j: nat)
    requires IsRun(pools, steps) && i <= j < |pools| && pools[i].channelClosed
    ensures CountWorkerSteps(steps, i, j) + Remaining(pools[j]) == Remaining(pools[i])
    ensures Remaining(pools[j]) == 0 ==> AllExited(pools[j])
    ensures Remaining(pools[j]) > 0 ==> exists e :: WorkerStep(e) && Enabled(pools[j], e)
  {
    forall k | i <= k < j
      ensures Remaining(pools[k + 1]) == Remaining(pools[k]) - if WorkerStep(steps[k]) then 1 else 0
    {
      ClosedStays(pools, steps, i, k);
      ClosedRunStep(pools, steps, k);
    }
    DrainCounts(pools, steps, i, j);
    ClosedStays(pools, steps, i, j);
    InvHolds(pools, steps, j);
    WorkerCanMove(pools[j]);
  }

  lemma WorkerCanMove(p: Pool)
    requires p.channelClosed && ExitInv(p)
    ensures Remaining(p) == 0 ==> AllExited(p)
    ensures Remaining(p) > 0 ==> exists e :: WorkerStep(e) && Enabled(p, e)
  {
    NoWeight(p.workers);
    if w :| 0 <= w < |p.workers| && !p.workers[w].Exited? {
      var e := if p.workers[w].Busy? then Finish(w) else if p.queue == [] then Exit(w) else Receive(w);
      assert WorkerStep(e) && Enabled(p, e);
    } else {
      assert p.workers[0].Exited?;
    }
  }

  // ------------------------------------------------- what submitters are told

  /** The answer a step gives a submitter: the pool was found closed, the send went through,
      or the time was up. */
  function Verdict(p: Pool, e: Step, i: Id): Option<SubmitResult> {
    if e == LookAtClosed(i) && p.closed then Some(ShuttingDown)
    else if e == Send(i) && !p.channelClosed then Some(Accepted)
    else if e == SendTimesOut(i) then Some(TimedOut)
    else None
  }

  ghost predicate WasGiven(pools: seq<Pool>, steps: seq<Step>, n: nat, i: Id, result: SubmitResult)
    requires n < |pools| == |steps| + 1
  {
    exists k | 0 <= k < n :: Verdict(pools[k], steps[k], i) == Some(result)
  }

  /** The submitter has its answer. */
  predicate Has(p: Pool, i: Id, result: SubmitResult) {
    i in p.submitters && p.submitters[i] in {Unlocking(result), Answered(result)}
  }

  lemma StepAnswers(p: Pool, e: Step, i: Id, result: SubmitResult)
    requires Enabled(p, e)
    ensures Has(Apply(p, e), i, result) <==> Has(p, i, result) || Verdict(p, e, i) == Some(result)
  {
  }

  /** In every run, a submitter is told exactly what happened to it: that the pool was shutting
      down if it looked at a closed one, that it was too late if it gave up waiting for room, and
      that its task was accepted if it was sent. */
  lemma {:induction false} SubmittersAreTold(pools: seq<Pool>, steps: seq<Step>, n: nat, i: Id, result: SubmitResult)
    requires IsRun(pools, steps) && n < |pools|
    ensures Has(pools[n], i, result) <==> WasGiven(pools, steps, n, i, result)
  {
    if n > 0 {
      SubmittersAreTold(pools, steps, n - 1, i, result);
      StepAnswers(pools[n - 1], steps[n - 1], i, result);
    }
  }

  // --------------------------------- only the call that closed the pool waits

  ghost predicate Reaches(p: Pool) {
    exists pools, steps :: IsRun(pools, steps) && pools[|pools| - 1] == p
  }

  lemma Go(p: Pool, e: Step) returns (t: Pool)
    requires Reaches(p) && Enabled(p, e)
    ensures t == Apply(p, e) && Reaches(t)
  {
    t := Apply(p, e);
    var pools, steps :| IsRun(pools, steps) && pools[|pools| - 1] == p;
    var longer, more := pools + [t], steps + [e];
    forall i | 0 <= i < |more| ensures Enabled(longer[i], more[i]) && longer[i + 1] == Apply(longer[i], more[i]) {
      if i < |steps| { assert longer[i] == pools[i] && longer[i + 1] == pools[i + 1]; }
    }
    assert IsRun(longer, more);
  }

  lemma SubmitOne() returns (p: Pool)
    ensures Reaches(p) && p.accepted == [0] && p.finished == [] && p.writer == None && p.readers == {}
    ensures p.closers == map[] && !p.closed && !p.channelClosed
  {
    p := Pool(1, [], false, false, {}, None, map[], map[], [Idle], [], [], [], false);
    assert IsRun([p], []);
    p := Go(p, NewSubmit(0));
    p := Go(p, ReadLock(0));
    p := Go(p, LookAtClosed(0));
    p := Go(p, Send(0));
    p := Go(p, ReadUnlock(0));
  }

  lemma BeginClosing() returns (p: Pool)
    ensures Reaches(p) && p.accepted == [0] && p.finished == [] && p.writer == Some(0) && p.readers == {}
    ensures p.closers == map[0 := Closing] && p.closed && !p.channelClosed
  {
    p := SubmitOne();
    p := Go(p, NewShutdown(0));
    p := Go(p, WriteLock(0));
    p := Go(p, CheckClosed(0));
  }

  lemma CloseFirst() returns (p: Pool)
    ensures Reaches(p) && p.accepted == [0] && p.finished == [] && p.writer == None && p.readers == {}
    ensures p.closers == map[0 := Waiting] && p.closed
  {
    p := BeginClosing();
    p := Go(p, CloseChannel(0));
    p := Go(p, WriteUnlock(0));
  }

  /** A second shutdown call returns nil at once, with an accepted task still to run. */
  lemma SecondShutdownDoesNotWait() returns (p: Pool)
    ensures Reaches(p) && CloserAt(p, 1, AlreadyClosed) && p.accepted == [0] && p.finished == []
  {
    p := CloseFirst();
    p := Go(p, NewShutdown(1));
    p := Go(p, WriteLock(1));
    p := Go(p, CheckClosed(1));
    p := Go(p, WriteUnlock(1));
  }

  /** Shutdown call `j` looked at `closed` under the write lock, and saw it unset (`open`) or set. */
  ghost predicate Saw(pools: seq<Pool>, steps: seq<Step>, i: nat, j: Id, open: bool)
    requires i < |pools| == |steps| + 1
  {
    exists k | 0 <= k < i :: steps[k] == CheckClosed(j) && pools[k].closed != open
  }

  /** Where a call that saw that can be from then on. */
  predicate WentOn(p: Pool, j: Id, open: bool) {
    && j in p.closers
    && var at := p.closers[j];
       if open then at.Closing? || at == Leaving(true) || at.Waiting? || at.Drained? || at.GaveUp?
       else at == Leaving(false) || at.AlreadyClosed?
  }

  lemma StepGoesOn(p: Pool, e: Step, j: Id, open: bool)
    requires Enabled(p, e)
    ensures WentOn(Apply(p, e), j, open) <==> WentOn(p, j, open) || (e == CheckClosed(j) && p.closed != open)
  {
  }

  lemma {:induction false} SawIsRemembered(pools: seq<Pool>, steps: seq<Step>, i: nat, j: Id, open: bool)
    requires IsRun(pools, steps) && i < |pools|
    ensures Saw(pools, steps, i, j, open) <==> WentOn(pools[i], j, open)
  {
    if i > 0 {
      SawIsRemembered(pools, steps, i - 1, j, open);
      StepGoesOn(pools[i - 1], steps[i - 1], j, open);
    }
  }

  predicate ReturnedNil(p: Pool, j: Id) { CloserAt(p, j, Drained) || CloserAt(p, j, AlreadyClosed) }

  /** Whenever a call that saw `closed` unset, or set, returns nil, every accepted task has
      run exactly once. */
  ghost predicate NilMeansDone(open: bool) {
    forall pools: seq<Pool>, steps, i, j, k |
      IsRun(pools, steps) && 0 <= i < |pools| && Saw(pools, steps, i, j, open) && ReturnedNil(pools[i], j)
      && k in pools[i].accepted ::
      Occurs(pools[i].finished, k) == 1
  }

  /** The promise of a shutdown call holds in every run if and only if it found the pool open. */
  lemma OnlyTheClosingCallWaits(open: bool)
    ensures NilMeansDone(open) <==> open
  {
    if open {
      forall pools: seq<Pool>, steps, i: nat, j, k |
        IsRun(pools, steps) && i < |pools| && Saw(pools, steps, i, j, open) && ReturnedNil(pools[i], j)
        && k in pools[i].accepted
        ensures Occurs(pools[i].finished, k) == 1
      {
        SawIsRemembered(pools, steps, i, j, open);
        DrainedMeansDone(pools, steps, i, j, k);
      }
    } else {
      var p := SecondShutdownDoesNotWait();
      var pools, steps :| IsRun(pools, steps) && pools[|pools| - 1] == p;
      SawIsRemembered(pools, steps, |steps|, 1, open);
      assert pools[|steps|] == p && ReturnedNil(p, 1) && 0 in p.accepted && Occurs(p.finished, 0) == 0;
    }
  }
}
