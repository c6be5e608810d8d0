/** One scheduled task: take the lock, dispatch once, give the lock back
    (`handleOutboxDispatch` in internal/scheduler/scheduler.go). */
module Scheduler {
  import opened Base
  import opened DistributedLock
  import opened OutboxRepository
  import D = OutboxDispatcher

  datatype TaskResult = Success | Noop | Skipped | Failed

  /** errors.Join: the task's error carries both. */
  function Joined(first: Option<string>, second: Option<string>): (joined: Option<string>)
    ensures joined.None? <==> first.None? && second.None?
    ensures second.None? ==> joined == first
    ensures first.None? ==> joined == second
  {
    match (first, second)
    case (None, _) => second
    case (_, None) => first
    case (Some(a), Some(b)) => Some(a + "\n" + b)
  }

  class Scheduler {
    const lockTTLSec: nat
    const locker: LockKey
    const dispatcher: D.OutboxDispatcher?

    constructor (lockTTLSec: nat, locker: LockKey, dispatcher: D.OutboxDispatcher?)
      ensures this.lockTTLSec == lockTTLSec && this.locker == locker && this.dispatcher == dispatcher
    {
      this.lockTTLSec, this.locker, this.dispatcher := lockTTLSec, locker, dispatcher;
    }

    ghost function Frame(): set<object> {
      if dispatcher == null then {locker} else {locker, dispatcher, dispatcher.outbox}
    }

    /** `lockError` and `releaseError` are Redis failures; a failed command changes nothing.
        The rest is what `DispatchOnce` is given. */
    method HandleOutboxDispatch(
      token: Token, lockedAt: int, lockError: Option<string>, releasedAt: int, releaseError: Option<string>,
      now: int, ghost skipped: set<EventId>, acquired: Result<seq<EventId>, string>, outcomes: seq<D.Outcome>)
      returns (result: TaskResult, error: Option<string>)
      requires dispatcher != null && acquired.Ok? ==>
                 && Selects(dispatcher.outbox.rows, skipped, dispatcher.cfg.batchSize, now,
                            now - D.LockTimeout(dispatcher.cfg), acquired.value)
                 && |outcomes| == |acquired.value|
      modifies Frame()
      ensures dispatcher == null ==> result == Noop && error == None && locker.key == old(locker.key)
      ensures dispatcher != null && lockError.Some? ==>
                && result == Failed && error == lockError && locker.key == old(locker.key)
                && dispatcher.outbox.rows == old(dispatcher.outbox.rows) && dispatcher.sent == old(dispatcher.sent)
      ensures dispatcher != null && lockError.None? && !Free(old(locker.key), lockedAt) ==>
                && result == Skipped && error == None && locker.key == old(locker.key)
                && dispatcher.outbox.rows == old(dispatcher.outbox.rows) && dispatcher.sent == old(dispatcher.sent)
      ensures dispatcher != null && lockError.None? && Free(old(locker.key), lockedAt) ==>
                var taken := Some(Lease(token, lockedAt + LeaseTime(Seconds(lockTTLSec))));
                && locker.key == (if releaseError.Some? then taken else AfterRelease(taken, releasedAt, token))
                && (releaseError.None? ==> Free(locker.key, releasedAt))
                && (releaseError.Some? ==> error.Some?)
                && (result == Success <==> error.None?) && (result == Failed <==> error.Some?)
                && (acquired.Err? ==>
                      && error == Joined(Some(acquired.error), releaseError)
                      && dispatcher.outbox.rows == old(dispatcher.outbox.rows)
                      && dispatcher.sent == old(dispatcher.sent))
                && (acquired.Ok? ==>
                      var leased := LeaseRows(old(dispatcher.outbox.rows), acquired.value, now, dispatcher.owner);
                      && dispatcher.outbox.rows
                         == D.AfterDispatch(dispatcher.cfg, old(dispatcher.outbox.rows), now, acquired.value,
                                            dispatcher.owner, outcomes)
                      && dispatcher.sent == old(dispatcher.sent) + D.MessagesOf(RecordsOf(leased, acquired.value))
                      && error == Joined(D.FirstError(outcomes), releaseError))
    {
      if dispatcher == null {
        return Noop, None;
      }
      if lockError.Some? {
        return Failed, lockError;
      }
      var got := locker.Acquire(lockedAt, token, Seconds(lockTTLSec));
      if !got {
        return Skipped, None;
      }
      error := dispatcher.DispatchOnce(now, skipped, acquired, outcomes);
      if releaseError.None? {
        locker.Release(releasedAt, token);
      }
      error := Joined(error, releaseError);
      result := if error.Some? then Failed else Success;
    }
  }
}
