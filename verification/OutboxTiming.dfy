/** The operation timeouts: how long a run can take (`DispatchOnce` and `dispatchEvent` in
    internal/event/outbox_dispatcher.go). */
module OutboxTiming {
  import opened Base
  import opened OutboxRepository
  import opened OutboxDispatcher
  import opened OutboxProtocol
  import opened OutboxLease

  /** No operation outlasts its own timeout. */
  ghost predicate Timed(s: State, e: Step) {
    e.Tick? ==> forall r | r in s.runs :: s.now + e.d <= s.runs[r].deadline
  }

  /** Time a run may take to have recorded its first `k` events. */
  function BudgetMs(c: Config, k: nat): int {
    if k == 0 then c.operationTimeoutMs else BudgetMs(c, k - 1) + c.publishTimeoutMs + c.operationTimeoutMs
  }

  /** A full batch is recorded before its lease goes stale. */
  predicate LeaseOutlivesRun(c: Config) {
    c.operationTimeoutMs + c.batchSize * (c.publishTimeoutMs + c.operationTimeoutMs) < c.lockTimeoutSec * 1000
  }

  lemma {:induction false} BudgetIsProduct(c: Config, k: nat)
    ensures BudgetMs(c, k) == c.operationTimeoutMs + k * (c.publishTimeoutMs + c.operationTimeoutMs)
  {
    if k > 0 { BudgetIsProduct(c, k - 1); }
  }

  lemma BudgetStep(c: Config, k: nat)
    ensures Millis(BudgetMs(c, k + 1)) == Millis(BudgetMs(c, k)) + PublishTimeout(c) + OperationTimeout(c)
  {
  }

  /** A run never outlives the budget of a full batch. */
  lemma AllowanceInBudget(c: Config, s: State, run: Run)
    requires RunOk(c, s, run)
    ensures Allowance(c, run) <= Millis(BudgetMs(c, c.batchSize))
  {
    BudgetGrows(c, 0, c.batchSize);
    if !run.phase.Leasing? { BudgetGrows(c, run.next + 1, c.batchSize); }
  }

  lemma {:induction false} BudgetGrows(c: Config, k: nat, n: nat)
    requires k <= n
    ensures BudgetMs(c, k) <= BudgetMs(c, n)
  {
    if k < n { BudgetGrows(c, k, n - 1); }
  }

  /** When the operation under way must be over, counted from the start of the run. */
  function Allowance(c: Config, run: Run): int {
    match run.phase
    case Leasing => Millis(c.operationTimeoutMs)
    case Sending => Millis(BudgetMs(c, run.next) + c.publishTimeoutMs)
    case Recording(_, _) => Millis(BudgetMs(c, run.next) + c.publishTimeoutMs + c.operationTimeoutMs)
  }

  ghost predicate OnTime(c: Config, s: State) {
    forall r | r in s.runs :: InTime(c, s, s.runs[r])
  }

  predicate InTime(c: Config, s: State, run: Run) {
    s.now <= run.deadline <= run.startedAt + Allowance(c, run)
  }

  lemma AdvanceInTime(c: Config, s: State, r: RunId)
    requires r in s.runs && InTime(c, s, s.runs[r]) && s.runs[r].phase.Recording? && s.runs[r].next < |s.runs[r].batch|
    requires r in Advance(c, s, r)
    ensures InTime(c, s, Advance(c, s, r)[r])
  {
    var next := s.runs[r].next;
    assert BudgetMs(c, next + 1) == BudgetMs(c, next) + c.publishTimeoutMs + c.operationTimeoutMs;
  }

  lemma StepKeepsTime(c: Config, s: State, e: Step)
    requires Inv(c, s) && OnTime(c, s) && Enabled(c, s, e) && Timed(s, e)
    ensures OnTime(c, Apply(c, s, e))
  {
    var t := Apply(c, s, e);
    StepFrame(c, s, e);
    forall r | r in t.runs ensures InTime(c, t, t.runs[r]) {
      if r in s.runs { assert InTime(c, s, s.runs[r]); }
      if ActsFor(e, r) {
        if e.Mark? || e.MarkFails? { AdvanceInTime(c, s, r); }
        else if e.Acquire? { assert BudgetMs(c, 0) == c.operationTimeoutMs; }
      }
    }
  }

  lemma AllowanceFits(c: Config, s: State, run: Run)
    requires LeaseOutlivesRun(c) && RunOk(c, s, run)
    ensures Allowance(c, run) < LockTimeout(c)
  {
    BudgetIsProduct(c, c.batchSize);
    AllowanceInBudget(c, s, run);
  }

  lemma HeldIsNotEligible(c: Config, s: State, r: RunId, id: EventId, started: int)
    requires LeaseOutlivesRun(c) && Inv(c, s) && OnTime(c, s) && LeaseInv(s)
    requires Live(s, r) && id in Held(s.runs[r]) && started <= s.now
    ensures id in s.rows && !Eligible(s.rows[id], started, started - LockTimeout(c))
  {
    var run := s.runs[r];
    var k :| run.next <= k < |run.batch| && run.batch[k].id == id;
    assert HeldAsRead(s, run, run.batch[k]) && InTime(c, s, run);
    AllowanceFits(c, s, run);
  }

  /** A row another run still holds is neither pending nor stale. */
  lemma AcquireStealsNothing(c: Config, s: State, e: Step)
    requires LeaseOutlivesRun(c) && Inv(c, s) && OnTime(c, s) && LeaseInv(s) && Enabled(c, s, e)
    requires (e.Acquire? || e.Mark?) ==> Live(s, e.r)
    ensures Exclusive(s, e)
  {
    if e.Acquire? {
      assert RunOk(c, s, s.runs[e.r]);
      forall q, id | Live(s, q) && q != e.r && id in Held(s.runs[q]) ensures id !in e.ids {
        HeldIsNotEligible(c, s, q, id, s.runs[e.r].startedAt);
      }
    }
  }
}
