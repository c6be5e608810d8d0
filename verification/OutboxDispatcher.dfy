/** One dispatch run: lease a batch, publish every event, record every result
    (internal/event/outbox_dispatcher.go). */
module OutboxDispatcher {
  import opened Base
  import opened Backoff
  import opened OutboxRepository

  datatype Config = Config(
    batchSize: nat,
    maxAttempts: nat,
    lockTimeoutSec: nat,
    operationTimeoutMs: nat,
    publishTimeoutMs: nat)

  /** What config validation guarantees about an enabled queue. */
  predicate ValidConfig(c: Config) {
    c.batchSize > 0 && c.maxAttempts > 0 && c.lockTimeoutSec > 0 && c.operationTimeoutMs > 0 && c.publishTimeoutMs > 0
  }

  function LockTimeout(c: Config): int { Seconds(c.lockTimeoutSec) }
  function OperationTimeout(c: Config): int { Millis(c.operationTimeoutMs) }
  function PublishTimeout(c: Config): int { Millis(c.publishTimeoutMs) }

  // ------------------------------------------------------------ one event

  datatype Message = Message(id: EventId, topic: string, payload: string, timestamp: int)

  function MessageOf(record: Record): Message {
    Message(record.id, record.row.topic, record.row.payload, record.row.createdAt)
  }

  /** What the surroundings answer while one event is dispatched: the publisher's
      error, the clock read before the result is recorded, the clock read inside the
      update, and the error of that update (a failed update changes nothing). */
  datatype Outcome = Outcome(publishError: Option<string>, clock: int, updateClock: int, markError: Option<string>)

  function AfterEvent(c: Config, t: Table, record: Record, o: Outcome): Table {
    if o.markError.Some? then t
    else match o.publishError
      case None => WithPublished(t, record.id, o.clock)
      case Some(error) =>
        var attempts := record.row.attempts + 1;
        WithFailed(t, record.id, attempts, error, o.clock + RetryBackoff(attempts),
                   attempts >= c.maxAttempts, o.updateClock)
  }

  function EventError(o: Outcome): Option<string> {
    match (o.publishError, o.markError)
    case (None, _) => o.markError
    case (Some(error), None) => Some(error)
    case (Some(error), Some(update)) => Some("publish outbox event: " + error + "; mark failed: " + update)
  }

  // ------------------------------------------------------------ one batch

  function AfterBatch(c: Config, t: Table, batch: seq<Record>, outcomes: seq<Outcome>): Table
    requires |batch| == |outcomes|
  {
    if batch == [] then t
    else
      var n := |batch| - 1;
      AfterEvent(c, AfterBatch(c, t, batch[..n], outcomes[..n]), batch[n], outcomes[n])
  }

  function MessagesOf(batch: seq<Record>): (messages: seq<Message>)
    ensures |messages| == |batch|
    ensures forall k | 0 <= k < |batch| :: messages[k] == MessageOf(batch[k])
  {
    seq(|batch|, k requires 0 <= k < |batch| => MessageOf(batch[k]))
  }

  /** The messages of a run: one for each event the query selected and for no other, oldest
      first, and each with the topic, payload and time the event was committed with. */
  lemma RunSendsWhatWasCommitted(
    t: Table, skipped: set<EventId>, limit: nat, now: int, staleBefore: int, ids: seq<EventId>, owner: string)
    requires Selects(t, skipped, limit, now, staleBefore, ids)
    ensures var messages := MessagesOf(RecordsOf(LeaseRows(t, ids, now, owner), ids));
            && (forall id :: id in ids <==> exists m :: m in messages && m.id == id)
            && (forall m | m in messages :: m.id in t && m == MessageOf(Record(m.id, t[m.id])))
            && (forall i, j | 0 <= i < j < |messages| ::
                    messages[i].id != messages[j].id && messages[i].timestamp <= messages[j].timestamp)
  {
    var messages := MessagesOf(RecordsOf(LeaseRows(t, ids, now, owner), ids));
    forall id ensures id in ids <==> exists m :: m in messages && m.id == id {
      if k :| 0 <= k < |ids| && ids[k] == id { assert messages[k] in messages && messages[k].id == id; }
    }
  }

  /** The table after one dispatch run: the batch leased, then every result recorded. */
  function AfterDispatch(c: Config, t: Table, now: int, ids: seq<EventId>, owner: string, outcomes: seq<Outcome>): Table
    requires |ids| == |outcomes| && forall id | id in ids :: id in t
  {
    var leased := LeaseRows(t, ids, now, owner);
    AfterBatch(c, leased, RecordsOf(leased, ids), outcomes)
  }

  /** What a failed publish call leaves, for every attempt the backoff is exact for: the event
      is tried again after one second, doubled per failure and capped at five minutes. */
  lemma FailureIsRetriedInTime(c: Config, t: Table, record: Record, o: Outcome)
    requires record.id in t && o.publishError.Some? && o.markError.None?
    requires BackoffExact(record.row.attempts + 1)
    ensures var attempts := record.row.attempts + 1;
            AfterEvent(c, t, record, o) == t[record.id :=
              t[record.id].(status := if attempts >= c.maxAttempts then Dead else Pending, attempts := attempts,
                            lastError := o.publishError.value, nextAttemptAt := o.clock + DoublingBackoff(attempts),
                            lockedBy := None, lockedAt := None, updatedAt := o.updateClock)]
  {
    BackoffIsDoubling(record.row.attempts + 1);
  }

  function FirstError(outcomes: seq<Outcome>): Option<string> {
    if outcomes == [] then None
    else
      var earlier := FirstError(outcomes[..|outcomes| - 1]);
      if earlier.Some? then earlier else EventError(outcomes[|outcomes| - 1])
  }

  lemma BatchStep(c: Config, t: Table, batch: seq<Record>, outcomes: seq<Outcome>, i: nat)
    requires i < |batch| == |outcomes|
    ensures AfterBatch(c, t, batch[..i + 1], outcomes[..i + 1])
         == AfterEvent(c, AfterBatch(c, t, batch[..i], outcomes[..i]), batch[i], outcomes[i])
    ensures FirstError(outcomes[..i + 1])
         == if FirstError(outcomes[..i]).Some? then FirstError(outcomes[..i]) else EventError(outcomes[i])
    ensures MessagesOf(batch[..i + 1]) == MessagesOf(batch[..i]) + [MessageOf(batch[i])]
  {
    assert batch[..i + 1][..i] == batch[..i];
    assert outcomes[..i + 1][..i] == outcomes[..i];
  }

  /** A run reports an error exactly when some event had one, and then the earliest. */
  lemma {:induction false} FirstErrorIsEarliest(outcomes: seq<Outcome>)
    ensures FirstError(outcomes).None? <==> forall o | o in outcomes :: EventError(o).None?
    ensures FirstError(outcomes).Some? ==>
              exists k | 0 <= k < |outcomes| ::
                && EventError(outcomes[k]) == FirstError(outcomes)
                && forall i | 0 <= i < k :: EventError(outcomes[i]).None?
  {
    if outcomes != [] {
      var n := |outcomes| - 1;
      var earlier := outcomes[..n];
      FirstErrorIsEarliest(earlier);
      assert forall o | o in outcomes :: o in earlier || o == outcomes[n];
      assert forall i | 0 <= i < n :: outcomes[i] == earlier[i];
      if FirstError(earlier).Some? {
        var k :| 0 <= k < n && EventError(earlier[k]) == FirstError(earlier)
                 && forall i | 0 <= i < k :: EventError(earlier[i]).None?;
        assert EventError(outcomes[k]) == FirstError(outcomes);
      } else {
        assert forall i | 0 <= i < n :: earlier[i] in earlier;
      }
    }
  }

  /** The dispatcher, as an object over the repository and the messages it sends. */
  class OutboxDispatcher {
    const cfg: Config
    const outbox: OutboxRepository
    const owner: string
    var sent: seq<Message>

    constructor (cfg: Config, outbox: OutboxRepository, owner: string)
      ensures this.cfg == cfg && this.outbox == outbox && this.owner == owner && sent == []
    {
      this.cfg, this.outbox, this.owner, this.sent := cfg, outbox, owner, [];
    }

    method DispatchEvent(record: Record, o: Outcome) returns (error: Option<string>)
      modifies this, outbox
      ensures sent == old(sent) + [MessageOf(record)]
      ensures outbox.rows == AfterEvent(cfg, old(outbox.rows), record, o)
      ensures error == EventError(o)
      // the message is the row's, and one is sent whatever happens
      ensures |sent| == |old(sent)| + 1
      ensures sent[|old(sent)|] == Message(record.id, record.row.topic, record.row.payload, record.row.createdAt)
      // a result that cannot be recorded changes nothing
      ensures o.markError.Some? || record.id !in old(outbox.rows) ==> outbox.rows == old(outbox.rows)
      // a success is published at the clock read after the call
      ensures o.markError.None? && o.publishError.None? && record.id in old(outbox.rows) ==>
                outbox.rows == old(outbox.rows)[record.id :=
                  old(outbox.rows)[record.id].(status := Published, publishedAt := Some(o.clock), lastError := "",
                                               lockedBy := None, lockedAt := None, updatedAt := o.clock)]
      // a failure costs an attempt, is due after the backoff, and is the last one from the maximum on
      ensures o.markError.None? && o.publishError.Some? && record.id in old(outbox.rows) ==>
                && record.id in outbox.rows
                && var attempts, row := record.row.attempts + 1, outbox.rows[record.id];
                && (BackoffExact(attempts) ==> row.nextAttemptAt == o.clock + DoublingBackoff(attempts))
                && outbox.rows == old(outbox.rows)[record.id :=
                     old(outbox.rows)[record.id].(status := if attempts >= cfg.maxAttempts then Dead else Pending,
                                                  attempts := attempts, lastError := o.publishError.value,
                                                  nextAttemptAt := row.nextAttemptAt,
                                                  lockedBy := None, lockedAt := None, updatedAt := o.updateClock)]
      // it is an error of the run if either step failed, and the publish error is part of it
      ensures error.None? <==> o.publishError.None? && o.markError.None?
      ensures o.markError.None? ==> error == o.publishError
      ensures o.publishError.None? ==> error == o.markError
      ensures o.publishError.Some? && o.markError.Some? ==>
                error == Some("publish outbox event: " + o.publishError.value + "; mark failed: " + o.markError.value)
    {
      sent := sent + [MessageOf(record)];
      if o.publishError.Some? {
        var attempts := record.row.attempts + 1;
        BackoffIsDoubling(attempts);
        var dead := attempts >= cfg.maxAttempts;
        if o.markError.Some? {
          return Some("publish outbox event: " + o.publishError.value + "; mark failed: " + o.markError.value);
        }
        var nextAttemptAt := o.clock + RetryBackoff(attempts);
        outbox.MarkFailed(record.id, attempts, o.publishError.value, nextAttemptAt, dead, o.updateClock);
        return o.publishError;
      }
      if o.markError.Some? {
        return o.markError;
      }
      outbox.MarkPublished(record.id, o.clock);
      return None;
    }

    /** The loop of a run over its batch. */
    method DispatchAll(events: seq<Record>, outcomes: seq<Outcome>) returns (error: Option<string>)
      requires |events| == |outcomes|
      modifies this, outbox
      ensures outbox.rows == AfterBatch(cfg, old(outbox.rows), events, outcomes)
      ensures sent == old(sent) + MessagesOf(events)
      ensures error == FirstError(outcomes)
    {
      error := None;
      for i := 0 to |events|
        invariant outbox.rows == AfterBatch(cfg, old(outbox.rows), events[..i], outcomes[..i])
        invariant sent == old(sent) + MessagesOf(events[..i])
        invariant error == FirstError(outcomes[..i])
      {
        var e := DispatchEvent(events[i], outcomes[i]);
        if e.Some? && error.None? {
          error := e;
        }
        BatchStep(cfg, old(outbox.rows), events, outcomes, i);
      }
      assert events[..|events|] == events && outcomes[..|events|] == outcomes;
    }

    /** `acquired` is the query's answer, or the error of the acquiring transaction. */
    method DispatchOnce(
      now: int, ghost skipped: set<EventId>, acquired: Result<seq<EventId>, string>, outcomes: seq<Outcome>)
      returns (error: Option<string>)
      requires acquired.Ok? ==>
                 && Selects(outbox.rows, skipped, cfg.batchSize, now, now - LockTimeout(cfg), acquired.value)
                 && |outcomes| == |acquired.value|
      modifies this, outbox
      ensures acquired.Err? ==> error == Some(acquired.error) && outbox.rows == old(outbox.rows) && sent == old(sent)
      ensures acquired.Ok? ==>
                var leased := LeaseRows(old(outbox.rows), acquired.value, now, owner);
                && outbox.rows == AfterDispatch(cfg, old(outbox.rows), now, acquired.value, owner, outcomes)
                && sent == old(sent) + MessagesOf(RecordsOf(leased, acquired.value))
                && error == FirstError(outcomes)
    {
      if acquired.Err? {
        return Some(acquired.error);
      }
      var events := outbox.AcquirePending(skipped, cfg.batchSize, now, now - LockTimeout(cfg), owner, acquired.value);
      if |events| == 0 {
        return None;
      }
      error := DispatchAll(events, outcomes);
    }
  }
}
