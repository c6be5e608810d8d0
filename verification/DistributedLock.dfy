/** The Redis lock: set-if-absent with an expiry, and two scripts that compare the token
    before they touch the key (pkg/cache/distributed_lock.go). */
module DistributedLock {
  import opened Base

  /** One token per acquisition: a fresh UUID. */
  type Token = nat

  datatype Lease = Lease(token: Token, expiresAt: int)

  predicate HeldBy(key: Option<Lease>, now: int, token: Token) {
    key.Some? && key.value.token == token && now < key.value.expiresAt
  }

  predicate Free(key: Option<Lease>, now: int) {
    key.None? || key.value.expiresAt <= now
  }

  /** Redis counts an expiry in whole milliseconds. */
  function LeaseTime(ttl: int): (time: int)
    ensures ttl - 1_000_000 < time <= ttl && time % 1_000_000 == 0
  {
    ttl / 1_000_000 * 1_000_000
  }

  lemma WholeSeconds(n: int)
    ensures LeaseTime(Seconds(n)) == Seconds(n)
  {
  }

  function AfterSetNX(key: Option<Lease>, now: int, token: Token, ttl: int): Option<Lease> {
    if Free(key, now) then Some(Lease(token, now + LeaseTime(ttl))) else key
  }

  function AfterRenew(key: Option<Lease>, now: int, token: Token, ttl: int): Option<Lease> {
    if HeldBy(key, now, token) then Some(Lease(token, now + LeaseTime(ttl))) else key
  }

  function AfterRelease(key: Option<Lease>, now: int, token: Token): Option<Lease> {
    if HeldBy(key, now, token) then None else key
  }

  /** A release gives the lock to whoever asks next, however long the lease would have lasted. */
  lemma ReleaseFrees(key: Option<Lease>, now: int, token: Token, next: Token, ttl: int)
    requires HeldBy(key, now, token)
    ensures AfterSetNX(AfterRelease(key, now, token), now, next, ttl) == Some(Lease(next, now + LeaseTime(ttl)))
  {
  }

  /** The key of one resource, as an object. */
  class LockKey {
    var key: Option<Lease>

    constructor ()
      ensures key == None
    {
      key := None;
    }

    method Acquire(now: int, token: Token, ttl: int) returns (acquired: bool)
      modifies this
      ensures key == AfterSetNX(old(key), now, token, ttl)
      ensures acquired <==> Free(old(key), now)
      // whoever acquires it has it for the ttl, everybody else leaves it alone
      ensures acquired ==> key == Some(Lease(token, now + LeaseTime(ttl)))
      ensures !acquired ==> key == old(key)
    {
      acquired := key.None? || key.value.expiresAt <= now;
      if acquired { key := Some(Lease(token, now + LeaseTime(ttl))); }
    }

    method Renew(now: int, token: Token, ttl: int) returns (renewed: bool)
      modifies this
      ensures key == AfterRenew(old(key), now, token, ttl)
      ensures renewed <==> HeldBy(old(key), now, token)
      // the lease begins again
      ensures renewed ==> key == Some(Lease(token, now + LeaseTime(ttl)))
      ensures !renewed ==> key == old(key)
    {
      renewed := key.Some? && key.value.token == token && now < key.value.expiresAt;
      if renewed { key := Some(Lease(token, now + LeaseTime(ttl))); }
    }

    method Release(now: int, token: Token)
      modifies this
      ensures key == AfterRelease(old(key), now, token)
      // the holder frees it, everybody else leaves it alone
      ensures HeldBy(old(key), now, token) ==> key.None?
      ensures !HeldBy(old(key), now, token) ==> key == old(key)
    {
      if key.Some? && key.value.token == token && now < key.value.expiresAt { key := None; }
    }
  }
}
