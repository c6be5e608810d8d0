/** A run that takes its batch as slowly as the operation timeouts allow, and the faster run
    that comes after it: what undoes a verdict when a lease ends too early. */
module SlowBatch {
  import opened Base
  import opened OutboxRepository
  import opened OutboxDispatcher
  import opened OutboxProtocol
  import opened OutboxLease
  import opened OutboxTiming

  // ------------------------------------------------ steps between begin and end

  /** Steps every mode allows: no run begins or ends by them other than by its own work. */
  ghost predicate Allowed(c: Config, s: State, e: Step) {
    && Enabled(c, s, e) && Timed(s, e)
    && (e.Tick? || e.Commit? || e.PublishReturns? || ((e.Acquire? || e.Mark?) && Live(s, e.r)))
  }

  ghost predicate IsPath(c: Config, states: seq<State>, steps: seq<Step>) {
    && |states| == |steps| + 1
    && forall i | 0 <= i < |steps| :: Allowed(c, states[i], steps[i]) && states[i + 1] == Apply(c, states[i], steps[i])
  }

  ghost predicate Leads(c: Config, s: State, t: State) {
    exists states, steps :: IsPath(c, states, steps) && states[0] == s && states[|steps|] == t
  }

  lemma Stay(c: Config, s: State)
    ensures Leads(c, s, s)
  {
    assert IsPath(c, [s], []) && [s][0] == s;
  }

  lemma GoOn(c: Config, origin: State, s: State, e: Step) returns (t: State)
    requires Leads(c, origin, s) && Allowed(c, s, e)
    ensures t == Apply(c, s, e) && Leads(c, origin, t)
  {
    t := Apply(c, s, e);
    var states, steps :| IsPath(c, states, steps) && states[0] == origin && states[|steps|] == s;
    var longer, more := states + [t], steps + [e];
    forall i | 0 <= i < |more| ensures Allowed(c, longer[i], more[i]) && longer[i + 1] == Apply(c, longer[i], more[i]) {
      if i < |steps| { assert longer[i] == states[i] && longer[i + 1] == states[i + 1]; }
    }
    assert IsPath(c, longer, more) && longer[0] == origin && longer[|more|] == t;
  }

  // ------------------------------------------------ a full batch of events

  function Id(k: nat): EventId { seq(k, _ => 'e') }

  lemma IdsDiffer(i: nat, j: nat)
    ensures Id(i) == Id(j) <==> i == j
  {
    assert |Id(i)| == i && |Id(j)| == j;
  }

  function Ids(n: nat): (ids: seq<EventId>)
    ensures |ids| == n && forall k | 0 <= k < n :: ids[k] == Id(k)
  {
    seq(n, k requires 0 <= k < n => Id(k))
  }

  const EMPTY: State := State(0, map[], map[], [], [], [], [])

  /** `n` events were committed at time 0 and nothing has happened to them. */
  ghost predicate Committed(s: State, n: nat) {
    && (forall id | id in s.rows :: s.rows[id] == NewRow("", "", 0))
    && (forall id :: id in s.rows <==> id in Ids(n))
  }

  lemma {:induction false} CommitAll(c: Config, n: nat) returns (s: State)
    ensures Leads(c, EMPTY, s) && Committed(s, n) && s.now == 0 && s.runs == map[]
  {
    if n == 0 {
      Stay(c, EMPTY);
      s := EMPTY;
    } else {
      var before := CommitAll(c, n - 1);
      forall k | 0 <= k < n - 1 ensures Ids(n)[k] == Ids(n - 1)[k] && Id(k) != Id(n - 1) { IdsDiffer(k, n - 1); }
      assert Ids(n) == Ids(n - 1) + [Id(n - 1)];
      s := GoOn(c, EMPTY, before, Commit(Id(n - 1), "", "", 0));
    }
  }

  // ------------------------------------------------ the slow run

  /** The slow run begins at `at`, and is slow for `spell`. */
  datatype Start = Start(at: nat, parent: Option<int>, spell: nat)

  /** Its context does not expire meanwhile. */
  predicate Lasts(b: Start) {
    b.parent.Some? ==> b.at + b.spell < b.parent.value
  }

  /** When it has spent that much of its budget, unless its spell is over first. */
  function Capped(b: Start, spent: int): int { b.at + Min(spent, b.spell) }

  /** Spending more takes more time, but no more than that. */
  lemma CappedMoves(b: Start, spent: int, more: int)
    requires spent <= more
    ensures Capped(b, spent) <= Capped(b, more) <= Capped(b, spent) + more - spent
    ensures Capped(b, more) <= b.at + b.spell
  {
  }

  ghost predicate SlowBegins(c: Config, s: State, b: Start) {
    && s.now == b.at && Committed(s, c.batchSize)
    && s.runs == map[0 := Run(b.at, b.parent, [], 0, Leasing, b.at, b.at + OperationTimeout(c))]
  }

  /** Run 0 acquired a full batch and takes as long as it may: `k` events are published, the
      publish call of event `k` has begun. */
  ghost predicate SlowAt(c: Config, s: State, b: Start, k: nat) {
    && 0 in s.runs && s.runs.Keys == {0}
    && var run := s.runs[0];
    && s.now == Capped(b, Millis(BudgetMs(c, k)))
    && run.startedAt == b.at && run.parent == b.parent && run.next == k < |run.batch| == c.batchSize
    && run.phase.Sending? && run.deadline == s.now + PublishTimeout(c)
    && (forall i | 0 <= i < c.batchSize :: run.batch[i].id == Id(i) && run.batch[i].row.attempts == 0)
    && (forall id :: id in s.rows <==> id in Ids(c.batchSize))
    && (forall i | 0 <= i < k :: Id(i) in s.rows && s.rows[Id(i)].status == Published)
    && (forall i | k <= i < c.batchSize :: Id(i) in s.rows && Leased(s.rows[Id(i)], b))
  }

  predicate Leased(row: Row, b: Start) { row.status == Publishing && row.lockedAt == Some(b.at) }

  lemma AllSelected(s: State, n: nat, now: nat, staleBefore: int)
    requires Committed(s, n)
    ensures Selects(s.rows, {}, n, now, staleBefore, Ids(n))
  {
    forall i, j | 0 <= i < j < n ensures Ids(n)[i] != Ids(n)[j] { IdsDiffer(i, j); }
  }

  lemma SlowStart(c: Config, s0: State, b: Start) returns (s: State)
    requires ValidConfig(c) && SlowBegins(c, s0, b) && Lasts(b)
    ensures Leads(c, s0, s) && SlowAt(c, s, b, 0)
  {
    AllSelected(s0, c.batchSize, b.at, b.at - LockTimeout(c));
    Stay(c, s0);
    var s1 := GoOn(c, s0, s0, Tick(Min(OperationTimeout(c), b.spell)));
    s := SlowAcquire(c, s0, s1, b);
  }

  lemma AcquireBatch(c: Config, s0: State, s1: State, b: Start) returns (s: State)
    requires ValidConfig(c) && Lasts(b) && SlowBegins(c, s0, b)
    requires Leads(c, s0, s1) && s1 == s0.(now := Capped(b, OperationTimeout(c)))
    requires Selects(s0.rows, {}, c.batchSize, b.at, b.at - LockTimeout(c), Ids(c.batchSize))
    ensures Leads(c, s0, s) && s == AfterAcquire(c, s1, 0, Ids(c.batchSize), "")
  {
    s := GoOn(c, s0, s1, Acquire(0, {}, Ids(c.batchSize), ""));
  }

  lemma SlowAcquire(c: Config, s0: State, s1: State, b: Start) returns (s: State)
    requires ValidConfig(c) && Lasts(b) && SlowBegins(c, s0, b)
    requires Leads(c, s0, s1) && s1 == s0.(now := Capped(b, OperationTimeout(c)))
    requires Selects(s0.rows, {}, c.batchSize, b.at, b.at - LockTimeout(c), Ids(c.batchSize))
    ensures Leads(c, s0, s) && SlowAt(c, s, b, 0)
  {
    s := AcquireBatch(c, s0, s1, b);
    forall i | 0 <= i < c.batchSize ensures Id(i) in Ids(c.batchSize) { assert Ids(c.batchSize)[i] == Id(i); }
    assert BudgetMs(c, 0) == c.operationTimeoutMs;
  }

  /** The only run's publish call returns after `d`. */
  lemma CallTakes(c: Config, o: State, s0: State, d: nat, error: Option<string>) returns (s: State)
    requires Leads(c, o, s0) && s0.runs.Keys == {0}
    requires var run := s0.runs[0]; run.phase.Sending? && run.next < |run.batch| && s0.now + d <= run.deadline
    ensures Leads(c, o, s) && s.now == s0.now + d && s.rows == s0.rows
    ensures s.runs == map[0 := s0.runs[0].(phase := Recording(error, s.now), begun := s.now,
                deadline := s.now + OperationTimeout(c))]
  {
    var s1 := GoOn(c, o, s0, Tick(d));
    s := GoOn(c, o, s1, PublishReturns(0, error));
  }

  /** The publish call of event `k` takes as long as it may. */
  lemma SlowCall(c: Config, o: State, s0: State, b: Start, k: nat, error: Option<string>) returns (s: State)
    requires ValidConfig(c) && Leads(c, o, s0) && SlowAt(c, s0, b, k)
    ensures Leads(c, o, s)
    ensures var now := Capped(b, Millis(BudgetMs(c, k)) + PublishTimeout(c));
            && s.now == now && s.rows == s0.rows
            && s.runs == map[0 := s0.runs[0].(phase := Recording(error, now), begun := now,
                deadline := now + OperationTimeout(c))]
  {
    CappedMoves(b, Millis(BudgetMs(c, k)), Millis(BudgetMs(c, k)) + PublishTimeout(c));
    s := CallTakes(c, o, s0, Capped(b, Millis(BudgetMs(c, k)) + PublishTimeout(c)) - s0.now, error);
  }

  /** The run published event number `k`, not its last, and is to record that. */
  predicate HasPublished(run: Run, k: nat) {
    run.next == k && k + 1 < |run.batch| && run.phase.Recording? && run.phase.error.None?
  }

  /** The only run does so at time `at`. */
  lemma RecordTakes(c: Config, o: State, s1: State, at: int, k: nat) returns (s: State)
    requires Leads(c, o, s1) && s1.runs.Keys == {0} && HasPublished(s1.runs[0], k)
    requires var run := s1.runs[0];
             && run.phase.ended <= s1.now <= at <= run.deadline && (run.parent.Some? ==> at < run.parent.value)
    requires s1.runs[0].batch[k].id in s1.rows
    ensures Leads(c, o, s) && s.now == at
    ensures var id := s1.runs[0].batch[k].id; s.rows == s1.rows[id := PublishedRow(s1.rows[id], at)]
    ensures s.runs == map[0 :=
              s1.runs[0].(next := k + 1, phase := Sending, begun := at, deadline := at + PublishTimeout(c))]
  {
    var s2 := GoOn(c, o, s1, Tick(at - s1.now));
    s := RecordNow(c, o, s2, k);
  }

  lemma RecordNow(c: Config, o: State, s2: State, k: nat) returns (s: State)
    requires Leads(c, o, s2) && s2.runs.Keys == {0} && HasPublished(s2.runs[0], k) && Live(s2, 0)
    requires s2.runs[0].phase.ended <= s2.now && s2.runs[0].batch[k].id in s2.rows
    ensures Leads(c, o, s) && s.now == s2.now
    ensures var id := s2.runs[0].batch[k].id; s.rows == s2.rows[id := PublishedRow(s2.rows[id], s2.now)]
    ensures s.runs == map[0 :=
              s2.runs[0].(next := k + 1, phase := Sending, begun := s2.now, deadline := s2.now + PublishTimeout(c))]
  {
    s := GoOn(c, o, s2, Mark(0, s2.now));
  }

  /** What recording event `k` leaves is what publishing event `next` begins with. */
  lemma SlowMoves(c: Config, s0: State, s: State, b: Start, k: nat, next: nat)
    requires SlowAt(c, s0, b, k) && k + 1 == next < c.batchSize
    requires s.now == Capped(b, Millis(BudgetMs(c, next))) && s.runs.Keys == {0}
    requires var run := s.runs[0];
             && run.startedAt == b.at && run.parent == b.parent && run.batch == s0.runs[0].batch && run.next == next
             && run.phase.Sending? && run.deadline == s.now + PublishTimeout(c)
    requires s.rows == s0.rows[Id(k) := PublishedRow(s0.rows[Id(k)], s.now)]
    ensures SlowAt(c, s, b, next)
  {
    forall i | 0 <= i < c.batchSize ensures Id(i) == Id(k) <==> i == k { IdsDiffer(i, k); }
  }

  /** The publish call of event `k` succeeds, with enough time left to record that. */
  lemma SlowSuccess(c: Config, o: State, s0: State, b: Start, k: nat, at: int) returns (s: State)
    requires ValidConfig(c) && Lasts(b) && Leads(c, o, s0) && SlowAt(c, s0, b, k) && k + 1 < c.batchSize
    requires at == Capped(b, Millis(BudgetMs(c, k + 1)))
    ensures Leads(c, o, s) && s.rows == s0.rows && s.runs.Keys == {0} && HasPublished(s.runs[0], k)
    ensures var run := s.runs[0];
            && run.phase.ended <= s.now <= at <= run.deadline && (run.parent.Some? ==> at < run.parent.value)
            && run.startedAt == b.at && run.parent == b.parent && run.batch == s0.runs[0].batch
    ensures s.runs[0].batch[k].id == Id(k) && Id(k) in s.rows
  {
    BudgetStep(c, k);
    CappedMoves(b, Millis(BudgetMs(c, k)) + PublishTimeout(c), Millis(BudgetMs(c, k + 1)));
    s := SlowCall(c, o, s0, b, k, None);
  }

  lemma SlowEvent(c: Config, o: State, s0: State, b: Start, k: nat, next: nat) returns (s: State)
    requires ValidConfig(c) && Lasts(b) && Leads(c, o, s0) && SlowAt(c, s0, b, k) && k + 1 == next < c.batchSize
    ensures Leads(c, o, s) && SlowAt(c, s, b, next)
  {
    var at := Capped(b, Millis(BudgetMs(c, next)));
    var s1 := SlowSuccess(c, o, s0, b, k, at);
    s := RecordTakes(c, o, s1, at, k);
    SlowMoves(c, s0, s, b, k, next);
  }

  lemma {:induction false} SlowUntil(c: Config, s0: State, b: Start, k: nat) returns (s: State)
    requires ValidConfig(c) && SlowBegins(c, s0, b) && Lasts(b) && k < c.batchSize
    ensures Leads(c, s0, s) && SlowAt(c, s, b, k)
  {
    if k == 0 {
      s := SlowStart(c, s0, b);
    } else {
      var before := SlowUntil(c, s0, b, k - 1);
      s := SlowEvent(c, s0, before, b, k - 1, k);
    }
  }

  function LastId(c: Config): EventId
    requires c.batchSize > 0
  {
    Id(c.batchSize - 1)
  }

  /** Run 0's last publish call failed, its spell is over, and it has yet to record that. */
  ghost predicate SlowFailed(c: Config, s: State, b: Start)
    requires c.batchSize > 0
  {
    && s.now == b.at + b.spell && s.runs.Keys == {0}
    && StillRecords(c, s.runs[0], b) && s.now <= s.runs[0].deadline
    && (forall id :: id in s.rows <==> id in Ids(c.batchSize))
    && (forall i | 0 <= i < c.batchSize - 1 :: Id(i) in s.rows && s.rows[Id(i)].status == Published)
    && LastId(c) in s.rows && Leased(s.rows[LastId(c)], b)
  }

  predicate StillRecords(c: Config, run: Run, b: Start)
    requires c.batchSize > 0
  {
    && run.parent == b.parent && run.next < |run.batch|
    && run.batch[run.next].id == LastId(c) && run.batch[run.next].row.attempts == 0
    && run.phase.Recording? && run.phase.error.Some? && run.phase.ended <= b.at + b.spell
  }

  lemma SlowFailure(c: Config, s0: State, b: Start) returns (s: State)
    requires ValidConfig(c) && SlowBegins(c, s0, b) && Lasts(b) && b.spell <= Millis(BudgetMs(c, c.batchSize))
    ensures Leads(c, s0, s) && SlowFailed(c, s, b)
  {
    var k := c.batchSize - 1;
    var s1 := SlowUntil(c, s0, b, k);
    s := LastFailure(c, s0, s1, b, k);
  }

  lemma LastFailure(c: Config, o: State, s1: State, b: Start, k: nat) returns (s: State)
    requires ValidConfig(c) && Leads(c, o, s1) && SlowAt(c, s1, b, k) && k + 1 == c.batchSize
    requires b.spell <= Millis(BudgetMs(c, c.batchSize))
    ensures Leads(c, o, s) && SlowFailed(c, s, b)
  {
    BudgetStep(c, k);
    CappedMoves(b, Millis(BudgetMs(c, k)) + PublishTimeout(c), Millis(BudgetMs(c, c.batchSize)));
    var s2 := SlowCall(c, o, s1, b, k, Some(""));
    s := GoOn(c, o, s2, Tick(b.at + b.spell - s2.now));
  }

  // ------------------------------------------------ the run that comes after it

  lemma OnlyStaleSelected(c: Config, s: State, b: Start)
    requires ValidConfig(c) && SlowFailed(c, s, b) && LockTimeout(c) <= b.spell
    ensures Selects(s.rows, {}, c.batchSize, s.now, s.now - LockTimeout(c), [LastId(c)])
  {
    forall other | other in s.rows && other != LastId(c) ensures s.rows[other].status == Published {
      var i :| 0 <= i < c.batchSize && Ids(c.batchSize)[i] == other;
    }
  }

  /** The row lease is over, and a second run has begun. */
  ghost predicate FastBegins(c: Config, s: State, slow: State) {
    && s.now == slow.now && s.rows == slow.rows && 1 in s.runs && s.runs - {1} == slow.runs && Live(s, 1)
    && s.runs[1].phase.Leasing? && s.runs[1].startedAt == s.now && s.runs[1].batch == []
  }

  lemma FastAcquire(c: Config, s0: State, slow: State, b: Start) returns (s: State)
    requires ValidConfig(c) && SlowFailed(c, slow, b) && LockTimeout(c) <= b.spell && FastBegins(c, s0, slow)
    ensures Leads(c, s0, s) && s.now == s0.now && LastId(c) in s.rows && 1 in s.runs && s.runs - {1} == slow.runs
    ensures var run := s.runs[1];
            run.phase.Sending? && run.next == 0 && |run.batch| == 1 && run.batch[0].id == LastId(c) && Live(s, 1)
  {
    OnlyStaleSelected(c, slow, b);
    Stay(c, s0);
    s := GoOn(c, s0, s0, Acquire(1, {}, [LastId(c)], ""));
  }

  /** It acquires the stale row and publishes it. */
  lemma FastPublish(c: Config, s0: State, slow: State, b: Start) returns (s: State)
    requires ValidConfig(c) && SlowFailed(c, slow, b) && LockTimeout(c) <= b.spell && FastBegins(c, s0, slow)
    ensures Leads(c, s0, s) && s.now == slow.now && s.runs == slow.runs
    ensures LastId(c) in s.rows && s.rows[LastId(c)].status == Published
  {
    var s1 := FastAcquire(c, s0, slow, b);
    var s2 := GoOn(c, s0, s1, PublishReturns(1, None));
    s := GoOn(c, s0, s2, Mark(1, s2.now));
  }

  /** Then the slow run may record its failure, and so undoes the verdict. */
  lemma SlowMarkUndoes(c: Config, s: State, slow: State, b: Start)
    requires ValidConfig(c) && SlowFailed(c, slow, b) && Lasts(b)
    requires s.now == slow.now && s.runs == slow.runs && LastId(c) in s.rows && s.rows[LastId(c)].status == Published
    ensures Allowed(c, s, Mark(0, s.now)) && !Settled(s, Apply(c, s, Mark(0, s.now)))
  {
    assert 0 in s.runs;
    assert LastId(c) in Apply(c, s, Mark(0, s.now)).rows;
    assert Apply(c, s, Mark(0, s.now)).rows[LastId(c)].status != Published;
  }
}
