/** The outbox table and the four statements that change it
    (internal/repository/outbox_repository.go, internal/model/outbox_event.go). */
module OutboxRepository {
  import opened Base

  type EventId = string

  datatype Status = Pending | Publishing | Published | Dead

  datatype Row = Row(
    topic: string,
    payload: string,
    status: Status,
    attempts: int,
    nextAttemptAt: int,
    publishedAt: Option<int>,
    lastError: string,
    lockedBy: Option<string>,
    lockedAt: Option<int>,
    createdAt: int,
    updatedAt: int)

  datatype Record = Record(id: EventId, row: Row)

  type Table = map<EventId, Row>

  predicate Terminal(row: Row) { row.status == Published || row.status == Dead }

  /** The WHERE clause of the acquiring query. */
  predicate Eligible(row: Row, now: int, staleBefore: int) {
    || (row.status == Pending && row.nextAttemptAt <= now)
    || (row.status == Publishing && row.lockedAt.Some? && row.lockedAt.value <= staleBefore)
  }

  /** `ids` answers the acquiring query over the rows no other transaction has
      locked: eligible, oldest first, and no more than `limit` of them. */
  ghost predicate Selects(t: Table, skipped: set<EventId>, limit: nat, now: int, staleBefore: int, ids: seq<EventId>) {
    && |ids| <= limit
    && Distinct(ids)
    && (forall id | id in ids :: id in t && id !in skipped && Eligible(t[id], now, staleBefore))
    && (forall i, j | 0 <= i < j < |ids| :: t[ids[i]].createdAt <= t[ids[j]].createdAt)
    && (forall id | id in t && id !in skipped && Eligible(t[id], now, staleBefore) && id !in ids ::
          |ids| == limit && forall k | k in ids :: t[k].createdAt <= t[id].createdAt)
  }

  function LeasedRow(row: Row, now: int, owner: string): Row {
    row.(status := Publishing, lockedBy := Some(owner), lockedAt := Some(now), updatedAt := now)
  }

  function LeaseRows(t: Table, ids: seq<EventId>, now: int, owner: string): Table {
    map id | id in t :: if id in ids then LeasedRow(t[id], now, owner) else t[id]
  }

  function RecordsOf(t: Table, ids: seq<EventId>): (records: seq<Record>)
    requires forall id | id in ids :: id in t
    ensures |records| == |ids|
    ensures forall k | 0 <= k < |ids| :: records[k] == Record(ids[k], t[ids[k]])
  {
    seq(|ids|, k requires 0 <= k < |ids| => Record(ids[k], t[ids[k]]))
  }

  function PublishedRow(row: Row, at: int): Row {
    row.(status := Published, publishedAt := Some(at), lastError := "", lockedBy := None, lockedAt := None,
        updatedAt := at)
  }

  function FailedRow(row: Row, attempts: int, lastError: string, nextAttemptAt: int, dead: bool, now: int): Row {
    row.(status := if dead then Dead else Pending, attempts := attempts, lastError := lastError,
         nextAttemptAt := nextAttemptAt, lockedBy := None, lockedAt := None, updatedAt := now)
  }

  /** Both updates are guarded by the id alone: neither owner nor status is compared. */
  function WithPublished(t: Table, id: EventId, at: int): Table {
    if id in t then t[id := PublishedRow(t[id], at)] else t
  }

  function WithFailed(
    t: Table, id: EventId, attempts: int, lastError: string, nextAttemptAt: int, dead: bool, now: int): Table
  {
    if id in t then t[id := FailedRow(t[id], attempts, lastError, nextAttemptAt, dead, now)] else t
  }

  /** A new event as the profile service writes it: pending, never tried, due at once. */
  function NewRow(topic: string, payload: string, now: int): (row: Row)
    ensures row.topic == topic && row.payload == payload && row.createdAt == row.updatedAt == row.nextAttemptAt == now
    ensures row.status == Pending && row.attempts == 0 && row.lastError == ""
    ensures row.publishedAt.None? && row.lockedBy.None? && row.lockedAt.None?
  {
    Row(topic, payload, Pending, 0, now, None, "", None, None, now, now)
  }

  /** The acquiring query always has an answer. */
  lemma {:induction false} SelectionExists(t: Table, skipped: set<EventId>, limit: nat, now: int, staleBefore: int)
    ensures exists ids :: Selects(t, skipped, limit, now, staleBefore, ids)
  {
    if limit == 0 {
      assert Selects(t, skipped, 0, now, staleBefore, []);
    } else {
      SelectionExists(t, skipped, limit - 1, now, staleBefore);
      var ids :| Selects(t, skipped, limit - 1, now, staleBefore, ids);
      var rest := set id | id in t && id !in skipped && Eligible(t[id], now, staleBefore) && id !in ids;
      if rest == {} {
        assert forall id | id in t && id !in skipped && Eligible(t[id], now, staleBefore) && id !in ids :: id in rest;
        assert Selects(t, skipped, limit, now, staleBefore, ids);
      } else {
        var next := Oldest(t, rest);
        assert Selects(t, skipped, limit, now, staleBefore, ids + [next]);
      }
    }
  }

  lemma {:induction false} Oldest(t: Table, ids: set<EventId>) returns (oldest: EventId)
    requires ids != {} && ids <= t.Keys
    ensures oldest in ids && forall id | id in ids :: t[oldest].createdAt <= t[id].createdAt
  {
    oldest :| oldest in ids;
    if ids != {oldest} {
      assert ids == {oldest} + (ids - {oldest});
      var other := Oldest(t, ids - {oldest});
      if t[other].createdAt < t[oldest].createdAt { oldest := other; }
    }
  }

  /** The repository, as an object over the table it updates. */
  class OutboxRepository {
    var rows: Table

    constructor ()
      ensures rows == map[]
    {
      rows := map[];
    }

    /** INSERT; a duplicate primary key is the error. */
    method Create(id: EventId, row: Row) returns (ok: bool)
      modifies this
      ensures ok <==> id !in old(rows)
      ensures rows == if ok then old(rows)[id := row] else old(rows)
    {
      ok := id !in rows;
      if ok { rows := rows[id := row]; }
    }

    /** One transaction: `selected` is the query's answer, the rows are leased and read back. */
    method AcquirePending(ghost skipped: set<EventId>, ghost limit: nat, now: int, ghost staleBefore: int,
                          owner: string, selected: seq<EventId>) returns (records: seq<Record>)
      requires Selects(rows, skipped, limit, now, staleBefore, selected)
      modifies this
      ensures rows == LeaseRows(old(rows), selected, now, owner)
      ensures records == RecordsOf(rows, selected)
      ensures |records| == |selected| <= limit
      ensures forall k | 0 <= k < |records| ::
                && records[k].id == selected[k] && records[k].row == rows[selected[k]]
                && records[k].row.status == Publishing && records[k].row.lockedAt == Some(now)
      // the lease says who has it and since when, and nothing else about the row changes
      ensures rows.Keys == old(rows.Keys)
      ensures forall id | id in selected ::
                rows[id] == old(rows)[id].(status := Publishing, lockedBy := Some(owner), lockedAt := Some(now),
                                           updatedAt := now)
      ensures forall id | id in rows && id !in selected :: rows[id] == old(rows)[id]
    {
      if |selected| == 0 {
        assert LeaseRows(rows, selected, now, owner) == rows;
        return [];
      }
      rows := LeaseRows(rows, selected, now, owner);
      records := RecordsOf(rows, selected);
    }

    method MarkPublished(id: EventId, publishedAt: int)
      modifies this
      ensures rows == WithPublished(old(rows), id, publishedAt)
      ensures id !in old(rows) ==> rows == old(rows)
      ensures id in old(rows) ==> rows == old(rows)[id :=
                old(rows)[id].(status := Published, publishedAt := Some(publishedAt), lastError := "",
                               lockedBy := None, lockedAt := None, updatedAt := publishedAt)]
    {
      if id in rows { rows := rows[id := PublishedRow(rows[id], publishedAt)]; }
    }

    method MarkFailed(id: EventId, attempts: int, lastError: string, nextAttemptAt: int, dead: bool, now: int)
      modifies this
      ensures rows == WithFailed(old(rows), id, attempts, lastError, nextAttemptAt, dead, now)
      ensures id !in old(rows) ==> rows == old(rows)
      ensures id in old(rows) ==> rows == old(rows)[id :=
                old(rows)[id].(status := if dead then Dead else Pending, attempts := attempts, lastError := lastError,
                               nextAttemptAt := nextAttemptAt, lockedBy := None, lockedAt := None, updatedAt := now)]
    {
      if id in rows { rows := rows[id := FailedRow(rows[id], attempts, lastError, nextAttemptAt, dead, now)]; }
    }
  }
}
