/** Dispatch runs that exclude one another use up the outbox: every publish call costs
    one of the attempts its event has left. */
module OutboxDrain {
  import opened Base
  import opened OutboxRepository
  import opened OutboxDispatcher

  /** Attempts a row still has before it is dead or published. */
  function Work(c: Config, row: Row): nat {
    if Terminal(row) then 0 else Max(0, c.maxAttempts - row.attempts)
  }

  ghost function TotalWork(c: Config, t: Table): nat {
    if t == map[] then 0
    else
      var id :| id in t;
      Work(c, t[id]) + TotalWork(c, t - {id})
  }

  lemma {:induction false} TotalWorkSplit(c: Config, t: Table, id: EventId)
    requires id in t
    ensures TotalWork(c, t) == Work(c, t[id]) + TotalWork(c, t - {id})
    decreases |t|
  {
    var first :| first in t && TotalWork(c, t) == Work(c, t[first]) + TotalWork(c, t - {first});
    if first != id {
      TotalWorkSplit(c, t - {first}, id);
      TotalWorkSplit(c, t - {id}, first);
      assert t - {first} - {id} == t - {id} - {first};
    }
  }

  lemma TotalWorkUpdate(c: Config, t: Table, id: EventId, row: Row)
    requires id in t
    ensures TotalWork(c, t[id := row]) == TotalWork(c, t) - Work(c, t[id]) + Work(c, row)
  {
    TotalWorkSplit(c, t, id);
    TotalWorkSplit(c, t[id := row], id);
    assert t[id := row] - {id} == t - {id};
  }

  lemma {:induction false} TotalWorkPointwise(c: Config, t: Table, u: Table)
    requires t.Keys == u.Keys && forall id | id in t :: Work(c, t[id]) == Work(c, u[id])
    ensures TotalWork(c, t) == TotalWork(c, u)
    decreases |t|
  {
    if t == map[] {
      assert u == map[];
    } else {
      var id :| id in t;
      TotalWorkSplit(c, t, id);
      TotalWorkSplit(c, u, id);
      TotalWorkPointwise(c, t - {id}, u - {id});
    }
  }

  // ------------------------------------------------------------ one run

  /** One run as it met its surroundings: the clock, the rows other transactions
      locked, the answer of the query, and what happened to each event. */
  datatype Plan = Plan(now: int, skipped: set<EventId>, ids: seq<EventId>, outcomes: seq<Outcome>)

  /** The answer is the query's, and every result is recorded. */
  ghost predicate Fits(c: Config, t: Table, p: Plan) {
    && Selects(t, p.skipped, c.batchSize, p.now, p.now - LockTimeout(c), p.ids)
    && |p.outcomes| == |p.ids|
    && forall o | o in p.outcomes :: o.markError.None?
  }

  /** The table after `OutboxDispatcher.DispatchOnce`. */
  ghost function AfterRun(c: Config, owner: string, t: Table, p: Plan): Table
    requires Fits(c, t, p)
  {
    AfterDispatch(c, t, p.now, p.ids, owner, p.outcomes)
  }

  /** Events that can still be tried have attempts left. */
  ghost predicate AttemptsLeft(c: Config, t: Table) {
    forall id | id in t && !Terminal(t[id]) :: 0 <= t[id].attempts < c.maxAttempts
  }

  /** Each record is the current, leased row of its own event. */
  ghost predicate UpToDate(c: Config, t: Table, batch: seq<Record>) {
    && (forall i, j | 0 <= i < j < |batch| :: batch[i].id != batch[j].id)
    && (forall r | r in batch ::
            r.id in t && t[r.id] == r.row && !Terminal(r.row) && 0 <= r.row.attempts < c.maxAttempts)
  }

  lemma {:induction false} BatchFrame(c: Config, t: Table, batch: seq<Record>, outcomes: seq<Outcome>)
    requires |batch| == |outcomes|
    ensures AfterBatch(c, t, batch, outcomes).Keys == t.Keys
    ensures forall id | id in t && (forall r | r in batch :: r.id != id) ::
            AfterBatch(c, t, batch, outcomes)[id] == t[id]
  {
    if batch != [] {
      var n := |batch| - 1;
      BatchFrame(c, t, batch[..n], outcomes[..n]);
      assert forall r | r in batch[..n] :: r in batch;
      assert batch[n] in batch;
    }
  }

  lemma EventWork(c: Config, t: Table, record: Record, o: Outcome)
    requires record.id in t && t[record.id] == record.row && AttemptsLeft(c, t) && !Terminal(record.row)
    requires o.markError.None?
    ensures TotalWork(c, AfterEvent(c, t, record, o)) + 1 <= TotalWork(c, t)
    ensures AttemptsLeft(c, AfterEvent(c, t, record, o))
  {
    TotalWorkUpdate(c, t, record.id, AfterEvent(c, t, record, o)[record.id]);
  }

  /** The prefix of a batch is as current as the batch, and leaves the next event alone. */
  lemma PrefixIsUpToDate(c: Config, t: Table, batch: seq<Record>, outcomes: seq<Outcome>, n: nat)
    requires n < |batch| == |outcomes| && UpToDate(c, t, batch)
    ensures UpToDate(c, t, batch[..n])
    ensures var before := AfterBatch(c, t, batch[..n], outcomes[..n]);
            batch[n].id in before && before[batch[n].id] == batch[n].row && !Terminal(batch[n].row)
  {
    BatchFrame(c, t, batch[..n], outcomes[..n]);
    assert batch[n] in batch;
    forall r | r in batch[..n] ensures r in batch && r.id != batch[n].id { }
  }

  lemma {:induction false} BatchWork(c: Config, t: Table, batch: seq<Record>, outcomes: seq<Outcome>, n: nat)
    requires n <= |batch| == |outcomes| && UpToDate(c, t, batch) && AttemptsLeft(c, t)
    requires forall k | 0 <= k < |outcomes| :: outcomes[k].markError.None?
    ensures TotalWork(c, AfterBatch(c, t, batch[..n], outcomes[..n])) + n <= TotalWork(c, t)
    ensures AttemptsLeft(c, AfterBatch(c, t, batch[..n], outcomes[..n]))
  {
    if n > 0 {
      BatchWork(c, t, batch, outcomes, n - 1);
      PrefixIsUpToDate(c, t, batch, outcomes, n - 1);
      BatchStep(c, t, batch, outcomes, n - 1);
      EventWork(c, AfterBatch(c, t, batch[..n - 1], outcomes[..n - 1]), batch[n - 1], outcomes[n - 1]);
    }
  }

  /** Leasing takes no attempts, and the batch it reads back is current. */
  lemma LeasingKeepsWork(c: Config, owner: string, t: Table, p: Plan)
    requires Fits(c, t, p) && AttemptsLeft(c, t)
    ensures var leased := LeaseRows(t, p.ids, p.now, owner);
            && TotalWork(c, leased) == TotalWork(c, t) && AttemptsLeft(c, leased)
            && UpToDate(c, leased, RecordsOf(leased, p.ids))
  {
    TotalWorkPointwise(c, t, LeaseRows(t, p.ids, p.now, owner));
  }

  /** A run whose results are all recorded takes at least one attempt per event of its batch. */
  lemma RunDropsWork(c: Config, owner: string, t: Table, p: Plan)
    requires Fits(c, t, p) && AttemptsLeft(c, t)
    ensures TotalWork(c, AfterRun(c, owner, t, p)) + |p.ids| <= TotalWork(c, t)
    ensures AttemptsLeft(c, AfterRun(c, owner, t, p))
  {
    LeasingKeepsWork(c, owner, t, p);
    var leased := LeaseRows(t, p.ids, p.now, owner);
    var batch := RecordsOf(leased, p.ids);
    BatchWork(c, leased, batch, p.outcomes, |batch|);
    assert batch[..|batch|] == batch && p.outcomes[..|batch|] == p.outcomes;
  }

  // ------------------------------------------------------------ many runs

  ghost predicate AllFit(c: Config, owner: string, t: Table, plans: seq<Plan>)
    decreases |plans|
  {
    plans != [] ==> Fits(c, t, plans[0]) && AllFit(c, owner, AfterRun(c, owner, t, plans[0]), plans[1..])
  }

  ghost function AfterRuns(c: Config, owner: string, t: Table, plans: seq<Plan>): Table
    requires AllFit(c, owner, t, plans)
    decreases |plans|
  {
    if plans == [] then t else AfterRuns(c, owner, AfterRun(c, owner, t, plans[0]), plans[1..])
  }

  function PublishCalls(plans: seq<Plan>): nat {
    if plans == [] then 0 else |plans[0].ids| + PublishCalls(plans[1..])
  }

  function NonEmptyRuns(plans: seq<Plan>): nat {
    if plans == [] then 0 else (if plans[0].ids == [] then 0 else 1) + NonEmptyRuns(plans[1..])
  }

  lemma {:induction false} WorkIsBounded(c: Config, t: Table)
    requires AttemptsLeft(c, t)
    ensures TotalWork(c, t) <= |t| * c.maxAttempts
    decreases |t|
  {
    if t != map[] {
      var id :| id in t;
      TotalWorkSplit(c, t, id);
      WorkIsBounded(c, t - {id});
      assert |t - {id}| == |t| - 1;
      assert (|t| - 1) * c.maxAttempts + c.maxAttempts == |t| * c.maxAttempts;
    }
  }

  /** However many exclusive runs there are, the non-empty ones are no more than the
      publish calls, and those no more than the attempts the table had left. */
  lemma {:induction false} OutboxDrains(c: Config, owner: string, t: Table, plans: seq<Plan>)
    requires AttemptsLeft(c, t) && AllFit(c, owner, t, plans)
    ensures NonEmptyRuns(plans) <= PublishCalls(plans)
    ensures PublishCalls(plans) <= |t| * c.maxAttempts
    ensures PublishCalls(plans) + TotalWork(c, AfterRuns(c, owner, t, plans)) <= TotalWork(c, t)
    decreases |plans|
  {
    WorkIsBounded(c, t);
    if plans != [] {
      RunDropsWork(c, owner, t, plans[0]);
      OutboxDrains(c, owner, AfterRun(c, owner, t, plans[0]), plans[1..]);
    }
  }

  /** How many of the batches contain the event. */
  function BatchesWith(plans: seq<Plan>, id: EventId): nat {
    if plans == [] then 0 else (if id in plans[0].ids then 1 else 0) + BatchesWith(plans[1..], id)
  }

  /** What a batch leaves of its event number `k`. */
  lemma {:induction false} EventOfBatch(c: Config, t: Table, batch: seq<Record>, outcomes: seq<Outcome>, k: nat)
    requires k < |batch| == |outcomes| && UpToDate(c, t, batch)
    requires forall i | 0 <= i < |outcomes| :: outcomes[i].markError.None?
    ensures var after := AfterBatch(c, t, batch, outcomes);
            batch[k].id in after && Work(c, after[batch[k].id]) < Work(c, batch[k].row)
  {
    var n := |batch| - 1;
    PrefixIsUpToDate(c, t, batch, outcomes, n);
    assert batch[k] in batch;
    if k < n { EventOfBatch(c, t, batch[..n], outcomes[..n], k); }
  }

  lemma RunTriesEvent(c: Config, owner: string, t: Table, p: Plan, k: nat)
    requires Fits(c, t, p) && AttemptsLeft(c, t) && k < |p.ids|
    ensures p.ids[k] in AfterRun(c, owner, t, p)
    ensures Work(c, AfterRun(c, owner, t, p)[p.ids[k]]) < Work(c, t[p.ids[k]])
  {
    LeasingKeepsWork(c, owner, t, p);
    var leased := LeaseRows(t, p.ids, p.now, owner);
    EventOfBatch(c, leased, RecordsOf(leased, p.ids), p.outcomes, k);
  }

  lemma RunLeavesEvent(c: Config, owner: string, t: Table, p: Plan, id: EventId)
    requires Fits(c, t, p) && id in t && id !in p.ids
    ensures id in AfterRun(c, owner, t, p) && AfterRun(c, owner, t, p)[id] == t[id]
  {
    var leased := LeaseRows(t, p.ids, p.now, owner);
    BatchFrame(c, leased, RecordsOf(leased, p.ids), p.outcomes);
  }

  /** A run takes an attempt from each event of its batch, or ends it, and leaves the others. */
  lemma RunDropsEvent(c: Config, owner: string, t: Table, p: Plan, id: EventId)
    requires Fits(c, t, p) && AttemptsLeft(c, t) && id in t
    ensures id in AfterRun(c, owner, t, p)
    ensures Work(c, AfterRun(c, owner, t, p)[id]) + (if id in p.ids then 1 else 0) <= Work(c, t[id])
  {
    if k :| 0 <= k < |p.ids| && p.ids[k] == id {
      RunTriesEvent(c, owner, t, p, k);
    } else {
      RunLeavesEvent(c, owner, t, p, id);
    }
  }

  /** However many exclusive runs there are, each event is in no more of their batches than
      it had attempts left, so it gets at most `maxAttempts` publish calls. */
  lemma {:induction false} EventDrains(c: Config, owner: string, t: Table, plans: seq<Plan>, id: EventId)
    requires AttemptsLeft(c, t) && AllFit(c, owner, t, plans) && id in t
    ensures BatchesWith(plans, id) <= Work(c, t[id])
    ensures BatchesWith(plans, id) <= if Terminal(t[id]) then 0 else c.maxAttempts - t[id].attempts
    decreases |plans|
  {
    if plans != [] {
      RunDropsWork(c, owner, t, plans[0]);
      RunDropsEvent(c, owner, t, plans[0], id);
      EventDrains(c, owner, AfterRun(c, owner, t, plans[0]), plans[1..], id);
    }
  }

  /** From some moment on, nothing but a finished outbox answers the query with no rows. */
  lemma {:induction false} EmptyRunMeansDrained(c: Config, t: Table, p: Plan)
    requires ValidConfig(c) && Fits(c, t, p) && p.ids == [] && MeetsAll(c, t, p)
    ensures Finished(t) && TotalWork(c, t) == 0
  {
    forall id | id in t ensures Terminal(t[id]) {
      assert id !in p.ids;
    }
    NoWorkLeft(c, t);
  }

  lemma {:induction false} NoWorkLeft(c: Config, t: Table)
    requires Finished(t)
    ensures TotalWork(c, t) == 0
    decreases |t|
  {
    if t != map[] {
      var id :| id in t;
      TotalWorkSplit(c, t, id);
      NoWorkLeft(c, t - {id});
    }
  }

  /** The run begins when every row is due and every lease stale, and no row is locked. */
  ghost predicate MeetsAll(c: Config, t: Table, p: Plan) {
    && p.skipped == {}
    && (forall id | id in t :: t[id].nextAttemptAt <= p.now)
    && (forall id | id in t && t[id].status == Publishing ::
          t[id].lockedAt.Some? && t[id].lockedAt.value + LockTimeout(c) <= p.now)
  }

  ghost predicate Finished(t: Table) {
    forall id | id in t :: Terminal(t[id])
  }

  /** Runs one after another, with the tables between them. */
  ghost predicate AreRuns(c: Config, owner: string, tables: seq<Table>, plans: seq<Plan>) {
    && |tables| == |plans| + 1
    && forall k | 0 <= k < |plans| :: IsOneRun(c, owner, tables[k], plans[k], tables[k + 1])
  }

  /** A run that begins when everything is due. */
  ghost predicate IsOneRun(c: Config, owner: string, t: Table, p: Plan, after: Table) {
    Fits(c, t, p) && MeetsAll(c, t, p) && after == AfterRun(c, owner, t, p)
  }

  lemma OneRunWorks(c: Config, owner: string, t: Table, p: Plan, after: Table)
    requires ValidConfig(c) && AttemptsLeft(c, t) && IsOneRun(c, owner, t, p, after) && !Finished(t)
    ensures AttemptsLeft(c, after) && TotalWork(c, after) + 1 <= TotalWork(c, t)
  {
    if p.ids == [] { EmptyRunMeansDrained(c, t, p); } else { RunDropsWork(c, owner, t, p); }
  }

  lemma {:induction false} UnfinishedWork(c: Config, owner: string, tables: seq<Table>, plans: seq<Plan>, k: nat)
    requires ValidConfig(c) && AreRuns(c, owner, tables, plans) && AttemptsLeft(c, tables[0]) && k <= |plans|
    requires forall i | 0 <= i < k :: !Finished(tables[i])
    ensures AttemptsLeft(c, tables[k]) && TotalWork(c, tables[k]) + k <= TotalWork(c, tables[0])
  {
    if k > 0 {
      UnfinishedWork(c, owner, tables, plans, k - 1);
      OneRunWorks(c, owner, tables[k - 1], plans[k - 1], tables[k]);
    }
  }

  /** Among more exclusive runs than the table has attempts left, each begun when everything
      is due, some run meets a table where every event is published or dead. */
  lemma OutboxIsDrained(c: Config, owner: string, tables: seq<Table>, plans: seq<Plan>)
    requires ValidConfig(c) && AreRuns(c, owner, tables, plans) && AttemptsLeft(c, tables[0])
    requires |plans| > TotalWork(c, tables[0])
    ensures exists k :: 0 <= k < |plans| && Finished(tables[k])
  {
    if forall k | 0 <= k < |plans| :: !Finished(tables[k]) {
      UnfinishedWork(c, owner, tables, plans, |plans|);
    }
  }
}
