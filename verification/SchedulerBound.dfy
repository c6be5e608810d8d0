/** The conditions under which scheduled runs exclude one another are exact, even if every
    operation keeps its timeout and every lock command is answered within the latency. */
module SchedulerBound {
  import opened Base
  import opened DistributedLock
  import opened OutboxRepository
  import opened OutboxDispatcher
  import P = OutboxProtocol
  import opened OutboxLease
  import opened OutboxTiming
  import opened SlowBatch
  import opened SchedulerLock

  ghost predicate NeverOverlap(p: Params) {
    forall states, steps, i | IsTimelyRun(p, states, steps) && 0 <= i < |states| :: NoOverlap(states[i])
  }

  ghost predicate VerdictsFinal(p: Params) {
    forall states: seq<State>, steps, i, j | IsTimelyRun(p, states, steps) && 0 <= i <= j < |states| ::
      Settled(states[i].outbox, states[j].outbox)
  }

  ghost predicate Reaches(p: Params, s: State) {
    exists states, steps :: IsTimelyRun(p, states, steps) && states[|states| - 1] == s
  }

  ghost predicate May(p: Params, s: State, e: Step) {
    Enabled(p, s, e) && EffectsInTime(s, e) && Timely(p, s, e)
  }

  lemma Go(p: Params, s: State, e: Step) returns (t: State)
    requires Reaches(p, s) && May(p, s, e)
    ensures t == Apply(p, s, e) && Reaches(p, t)
    ensures VerdictsFinal(p) ==> Settled(s.outbox, t.outbox)
  {
    t := Apply(p, s, e);
    var states, steps :| IsTimelyRun(p, states, steps) && states[|states| - 1] == s;
    var longer, more := states + [t], steps + [e];
    forall i | 0 <= i < |more| ensures May(p, longer[i], more[i]) && longer[i + 1] == Apply(p, longer[i], more[i]) {
      if i < |steps| { assert longer[i] == states[i] && longer[i + 1] == states[i + 1]; }
    }
    assert IsScheduledRun(p, longer, more) && IsTimelyRun(p, longer, more);
    assert longer[|states| - 1] == s && longer[|states|] == t;
  }

  /** No task waits for the reply to its lock command. */
  ghost predicate NoneAwaits(s: State) {
    forall r :: !AwaitsReply(s, r)
  }

  lemma {:induction false} FollowPath(p: Params, s: State, os: seq<P.State>, oe: seq<P.Step>, k: nat)
    requires IsPath(p.mq, os, oe) && os[0] == s.outbox && Reaches(p, s) && NoneAwaits(s) && k <= |oe|
    ensures Reaches(p, s.(outbox := os[k]))
  {
    if k == 0 {
      assert s.(outbox := os[0]) == s;
    } else {
      FollowPath(p, s, os, oe, k - 1);
      var before := s.(outbox := os[k - 1]);
      assert forall r :: AwaitsReply(before, r) <==> AwaitsReply(s, r);
      var t := Go(p, before, Outbox(oe[k - 1]));
    }
  }

  /** What the outbox can do by itself, it can do in the scheduled system. */
  lemma Follow(p: Params, s: State, o: P.State)
    requires Reaches(p, s) && NoneAwaits(s) && Leads(p.mq, s.outbox, o)
    ensures Reaches(p, s.(outbox := o)) && NoneAwaits(s.(outbox := o))
  {
    var os, oe :| IsPath(p.mq, os, oe) && os[0] == s.outbox && os[|oe|] == o;
    FollowPath(p, s, os, oe, |oe|);
    assert forall r :: AwaitsReply(s.(outbox := o), r) <==> AwaitsReply(s, r);
  }

  function LockedTask(p: Params, now: int): Task { Task(now + Seconds(p.taskTimeoutSec), Some(now), false) }

  lemma StartAndLock(p: Params, s0: State, r: P.RunId) returns (s: State)
    requires Reaches(p, s0) && r !in s0.used && r !in s0.tasks && Free(s0.key, s0.outbox.now)
    ensures Reaches(p, s)
    ensures s == State(s0.outbox, Taken(p, s0, r), s0.tasks[r := LockedTask(p, s0.outbox.now)], s0.used + {r})
  {
    var s1 := Go(p, s0, StartTask(r));
    s := Go(p, s1, TakeLock(r));
    assert s.tasks == s0.tasks[r := LockedTask(p, s0.outbox.now)];
  }

  /** Time passes while no run is under way and one task waits for its reply. */
  lemma AwaitReply(p: Params, s0: State, r: P.RunId, d: nat) returns (s: State)
    requires Reaches(p, s0) && (d > 0 ==> s0.outbox.runs == map[]) && d <= p.latency
    requires forall q | AwaitsReply(s0, q) :: q == r
    requires r in s0.tasks && s0.tasks[r].taken == Some(s0.outbox.now)
    ensures Reaches(p, s) && s == s0.(outbox := s0.outbox.(now := s0.outbox.now + d))
  {
    s := s0;
    if d > 0 { s := Go(p, s0, Outbox(P.Tick(d))); }
  }

  function BegunRun(p: Params, now: int, deadline: int): P.Run {
    P.Run(now, Some(deadline), [], 0, P.Leasing, now, now + OperationTimeout(p.mq))
  }

  lemma DispatchNow(p: Params, s0: State, r: P.RunId) returns (s: State)
    requires Reaches(p, s0) && Enabled(p, s0, Dispatch(r)) && forall q | AwaitsReply(s0, q) :: q == r
    ensures Reaches(p, s) && s.key == s0.key && s.used == s0.used && s.tasks.Keys == s0.tasks.Keys && NoneAwaits(s)
    ensures s.outbox == s0.outbox.(runs := s0.outbox.runs[r := BegunRun(p, s0.outbox.now, s0.tasks[r].deadline)])
  {
    s := Go(p, s0, Dispatch(r));
    forall q ensures !AwaitsReply(s, q) { assert q != r ==> (AwaitsReply(s, q) <==> AwaitsReply(s0, q)); }
  }

  /** A task takes the lock, and its run begins when the reply is there, `late` afterwards. */
  lemma LateDispatch(p: Params, s0: State, r: P.RunId, late: nat) returns (s: State)
    requires Reaches(p, s0) && r !in s0.used && r !in s0.tasks && r !in s0.outbox.runs && Free(s0.key, s0.outbox.now)
    requires NoneAwaits(s0) && late <= p.latency && (late > 0 ==> s0.outbox.runs == map[])
    ensures Reaches(p, s) && NoneAwaits(s)
    ensures s.key == Taken(p, s0, r) && s.used == s0.used + {r} && s.tasks.Keys == s0.tasks.Keys + {r}
    ensures var begun, deadline := s0.outbox.now + late, s0.outbox.now + Seconds(p.taskTimeoutSec);
            s.outbox == s0.outbox.(now := begun, runs := s0.outbox.runs[r := BegunRun(p, begun, deadline)])
  {
    var s1 := StartAndLock(p, s0, r);
    forall q | AwaitsReply(s1, q) ensures q == r { assert !AwaitsReply(s0, q); }
    var s2 := AwaitReply(p, s1, r, late);
    forall q | AwaitsReply(s2, q) ensures q == r { assert AwaitsReply(s1, q); }
    s := DispatchNow(p, s2, r);
  }

  const BEFORE: State := State(EMPTY, None, map[], {})

  lemma EventsCommitted(p: Params) returns (s: State)
    ensures Reaches(p, s) && NoneAwaits(s) && s == BEFORE.(outbox := s.outbox)
    ensures Committed(s.outbox, p.mq.batchSize) && s.outbox.now == 0 && s.outbox.runs == map[]
  {
    assert IsTimelyRun(p, [BEFORE], []) && [BEFORE][0] == BEFORE;
    var o := CommitAll(p.mq, p.mq.batchSize);
    Follow(p, BEFORE, o);
    s := BEFORE.(outbox := o);
  }

  /** How late the reply must be for a full batch to last until the lock expires. */
  function Lateness(p: Params): nat {
    Max(0, Seconds(p.lockTTLSec) - Millis(BudgetMs(p.mq, p.mq.batchSize)))
  }

  /** The first task takes the lock at time 0, and its run is slow up to the moment `until`. */
  function SlowTask(p: Params, until: nat): Start
    requires Lateness(p) <= until
  {
    Start(Lateness(p), Some(Seconds(p.taskTimeoutSec)), until - Lateness(p))
  }

  /** That task still has a failure to record when its lock has expired. */
  ghost predicate SlowTaskAt(p: Params, s: State, until: nat)
    requires ValidParams(p) && Lateness(p) <= until
  {
    && NoneAwaits(s) && s.used == {0} && s.tasks.Keys == {0} && Free(s.key, until)
    && SlowFailed(p.mq, s.outbox, SlowTask(p, until))
  }

  lemma SlowTaskRuns(p: Params, until: nat) returns (s: State)
    requires ValidParams(p) && Lateness(p) <= p.latency
    requires Seconds(p.lockTTLSec) <= until < Seconds(p.taskTimeoutSec)
    requires until <= Lateness(p) + Millis(BudgetMs(p.mq, p.mq.batchSize))
    ensures Lateness(p) <= until && Reaches(p, s) && SlowTaskAt(p, s, until)
  {
    WholeSeconds(p.lockTTLSec);
    BudgetGrows(p.mq, 0, p.mq.batchSize);
    var s0 := EventsCommitted(p);
    var s1 := LateDispatch(p, s0, 0, Lateness(p));
    var slow := SlowFailure(p.mq, s1.outbox, SlowTask(p, until));
    Follow(p, s1, slow);
    s := s1.(outbox := slow);
  }

  /** Then the next task begins while the first may still act. */
  lemma NextTaskBegins(p: Params, s0: State, until: nat) returns (s: State)
    requires ValidParams(p) && Lateness(p) <= until < Seconds(p.taskTimeoutSec)
    requires Reaches(p, s0) && SlowTaskAt(p, s0, until)
    ensures Reaches(p, s) && NoneAwaits(s) && FastBegins(p.mq, s.outbox, s0.outbox)
    ensures Live(s.outbox, 0) && Live(s.outbox, 1)
  {
    s := LateDispatch(p, s0, 1, 0);
    assert s.outbox.runs - {1} == s0.outbox.runs;
    assert 0 in s0.outbox.runs && s.outbox.runs[0] == s0.outbox.runs[0];
  }

  /** Two runs that may both act are reachable. */
  lemma TwoRunsOverlap(p: Params) returns (s: State)
    requires ValidParams(p) && p.lockTTLSec < p.taskTimeoutSec && !LockOutlivesRun(p)
    ensures Reaches(p, s) && !NoOverlap(s)
  {
    var until := Seconds(p.lockTTLSec);
    var slow := SlowTaskRuns(p, until);
    s := NextTaskBegins(p, slow, until);
  }

  /** Runs that keep their timeouts never overlap if and only if no task outlives the lock, or
      no batch does. */
  lemma LockBoundIsExact(p: Params)
    requires ValidParams(p)
    ensures NeverOverlap(p) <==> p.taskTimeoutSec <= p.lockTTLSec || LockOutlivesRun(p)
  {
    if p.taskTimeoutSec <= p.lockTTLSec || LockOutlivesRun(p) {
      forall states, steps, i: nat | IsTimelyRun(p, states, steps) && i < |states| ensures NoOverlap(states[i]) {
        if LockOutlivesRun(p) {
          TimelyRunsDoNotOverlap(p, states, steps, i);
        } else {
          ScheduledRunsDoNotOverlap(p, states, steps, i);
        }
      }
    } else {
      var s := TwoRunsOverlap(p);
      var states, steps :| IsTimelyRun(p, states, steps) && states[|states| - 1] == s;
      assert !NoOverlap(states[|states| - 1]);
    }
  }

  lemma LatencyIsFree(p: Params, latency: nat, states: seq<State>, steps: seq<Step>)
    requires IsScheduledRun(p.(latency := latency), states, steps)
    ensures IsScheduledRun(p, states, steps)
  {
    var q := p.(latency := latency);
    forall i | 0 <= i < |steps|
      ensures Enabled(p, states[i], steps[i]) && states[i + 1] == Apply(p, states[i], steps[i])
    {
      assert Enabled(q, states[i], steps[i]) && states[i + 1] == Apply(q, states[i], steps[i]);
    }
  }

  ghost predicate NeverOverlapAtAll(p: Params) {
    forall states, steps, i | IsScheduledRun(p, states, steps) && 0 <= i < |states| :: NoOverlap(states[i])
  }

  /** Whatever operations and replies take, runs never overlap if and only if no task outlives
      the lock. */
  lemma UntimedLockBoundIsExact(p: Params)
    requires ValidParams(p)
    ensures NeverOverlapAtAll(p) <==> p.taskTimeoutSec <= p.lockTTLSec
  {
    if p.taskTimeoutSec <= p.lockTTLSec {
      forall states, steps, i: nat | IsScheduledRun(p, states, steps) && i < |states| ensures NoOverlap(states[i]) {
        ScheduledRunsDoNotOverlap(p, states, steps, i);
      }
    } else {
      var q := p.(latency := Seconds(p.lockTTLSec));
      BudgetGrows(p.mq, 0, p.mq.batchSize);
      var s := TwoRunsOverlap(q);
      var states, steps :| IsTimelyRun(q, states, steps) && states[|states| - 1] == s;
      LatencyIsFree(p, q.latency, states, steps);
      assert !NoOverlap(states[|states| - 1]);
    }
  }

  /** The moment both leases of the first task are over. */
  function LeasesEnd(p: Params): nat { Max(Seconds(p.lockTTLSec), Lateness(p) + LockTimeout(p.mq)) }

  /** A task and its batch that outlive both leases undo what the next task recorded. */
  lemma VerdictUndone(p: Params)
    requires ValidParams(p) && !TasksFit(p) && !BatchesFit(p)
    ensures !VerdictsFinal(p)
  {
    BudgetIsProduct(p.mq, p.mq.batchSize);
    UndoneBetween(p, LeasesEnd(p));
  }

  lemma UndoneBetween(p: Params, until: nat)
    requires ValidParams(p) && Lateness(p) <= p.latency && Lateness(p) + LockTimeout(p.mq) <= until
    requires Seconds(p.lockTTLSec) <= until < Seconds(p.taskTimeoutSec)
    requires until <= Lateness(p) + Millis(BudgetMs(p.mq, p.mq.batchSize))
    ensures !VerdictsFinal(p)
  {
    var b := SlowTask(p, until);
    var slow := SlowTaskRuns(p, until);
    var second := NextTaskBegins(p, slow, until);
    var published := FastPublish(p.mq, second.outbox, slow.outbox, b);
    Follow(p, second, published);
    SlowMarkUndoes(p.mq, published, slow.outbox, b);
    var undone := Go(p, second.(outbox := published), Outbox(P.Mark(0, published.now)));
  }

  /** In runs that keep their timeouts, verdicts are final if and only if no task outlives the
      lock, none outlives the row lease, no batch outlives the row lease, or none outlives
      the lock. */
  lemma FinalityBoundIsExact(p: Params)
    requires ValidParams(p)
    ensures VerdictsFinal(p) <==> TasksFit(p) || BatchesFit(p)
  {
    if TasksFit(p) || BatchesFit(p) {
      forall states: seq<State>, steps, i: nat, j: nat | IsTimelyRun(p, states, steps) && i <= j < |states|
        ensures Settled(states[i].outbox, states[j].outbox)
      {
        ScheduledRunsSettle(p, states, steps, i, j);
      }
    } else {
      VerdictUndone(p);
    }
  }
}
