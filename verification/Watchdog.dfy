/** Any number of clients of one lock, each renewing its lease in the background
    (`WithLockAndWatchdog`, `StartWatchdog`, `StopWatchdog` in pkg/cache/distributed_lock.go). */
module Watchdog {
  import opened Base
  import opened DistributedLock

  datatype Params = Params(
    ttl: int,
    latency: int)  // longest time from the effect of an acquire to the start of the watchdog

  predicate ValidParams(p: Params) { p.ttl >= Seconds(3) && p.latency >= 0 }

  function Interval(p: Params): int {
    if p.ttl / 3 <= 0 then Seconds(1) else p.ttl / 3
  }

  /** The last moment before the first renewal is over comes before the first expiry. */
  predicate RenewsInTime(p: Params) {
    p.latency + Interval(p) + Seconds(1) < LeaseTime(p.ttl)
  }

  datatype Renewal =
    | Quiet
    | Sent(at: int)                    // the script is on its way
    | Applied(at: int, renewed: bool)  // it ran; its reply is on its way

  datatype Client =
    | Asking(setAt: int)  // the key is set; the reply is on its way
    | Running(inFn: bool, cancelled: bool, watching: bool, nextTick: int, renewal: Renewal)

  datatype State = State(
    now: int,
    key: Option<Lease>,
    clients: map<Token, Client>,
    used: set<Token>,
    parting: set<Token>)  // clients whose release was sent and never answered

  datatype Step =
    | Tick(d: nat)
    | TryAcquire(c: Token)
    | Enter(c: Token)
    | AcquireErrs(c: Token)
    | SendRenewal(c: Token)
    | ApplyRenewal(c: Token)
    | RenewalReturns(c: Token)
    | RenewalErrs(c: Token)
    | ParentCancels(c: Token)
    | FnReturns(c: Token)
    | WatchdogStops(c: Token)
    | Release(c: Token)
    | ReleaseErrs(c: Token)
    | LateRenewal(c: Token)
    | LateRelease(c: Token)
    | Crash(c: Token)

  predicate IsRunning(s: State, c: Token) { c in s.clients && s.clients[c].Running? }

  predicate Watching(s: State, c: Token) { IsRunning(s, c) && s.clients[c].watching }

  predicate Enabled(s: State, e: Step) {
    match e
    case Tick(_) => true
    case TryAcquire(c) => c !in s.used
    case Enter(c) => c in s.clients && s.clients[c].Asking?
    case AcquireErrs(c) => c in s.clients && s.clients[c].Asking?
    case SendRenewal(c) => Watching(s, c) && s.clients[c].renewal.Quiet? && s.clients[c].nextTick <= s.now
    case ApplyRenewal(c) => Watching(s, c) && s.clients[c].renewal.Sent?
    case RenewalReturns(c) => Watching(s, c) && s.clients[c].renewal.Applied?
    case RenewalErrs(c) => Watching(s, c) && !s.clients[c].renewal.Quiet?
    case ParentCancels(c) => IsRunning(s, c)
    case FnReturns(c) => IsRunning(s, c) && s.clients[c].inFn
    case WatchdogStops(c) => Watching(s, c) && !s.clients[c].inFn && s.clients[c].renewal.Quiet?
    case Release(c) => IsRunning(s, c) && !s.clients[c].inFn && !s.clients[c].watching
    case ReleaseErrs(c) => IsRunning(s, c) && !s.clients[c].inFn && !s.clients[c].watching
    case LateRenewal(c) => c in s.used
    case LateRelease(c) => c in s.parting
    case Crash(c) => c in s.clients
  }

  function With(s: State, c: Token, client: Client): State { s.(clients := s.clients[c := client]) }

  function Apply(p: Params, s: State, e: Step): State
    requires Enabled(s, e)
  {
    match e
    case Tick(d) => s.(now := s.now + d)
    case TryAcquire(c) =>
      var t := s.(key := AfterSetNX(s.key, s.now, c, p.ttl), used := s.used + {c});
      if Free(s.key, s.now) then With(t, c, Asking(s.now)) else t
    case Enter(c) => With(s, c, Running(true, false, true, s.now + Interval(p), Quiet))
    case AcquireErrs(c) => s.(clients := s.clients - {c})
    case SendRenewal(c) =>
      With(s, c, s.clients[c].(renewal := Sent(s.now), nextTick := s.clients[c].nextTick + Interval(p)))
    case ApplyRenewal(c) =>
      With(s, c, s.clients[c].(renewal := Applied(s.clients[c].renewal.at, HeldBy(s.key, s.now, c))))
      .(key := AfterRenew(s.key, s.now, c, p.ttl))
    case RenewalReturns(c) =>
      if s.clients[c].renewal.renewed then With(s, c, s.clients[c].(renewal := Quiet))
      else With(s, c, s.clients[c].(renewal := Quiet, watching := false, cancelled := true))
    case RenewalErrs(c) => With(s, c, s.clients[c].(renewal := Quiet, watching := false, cancelled := true))
    case ParentCancels(c) => With(s, c, s.clients[c].(cancelled := true))
    case FnReturns(c) => With(s, c, s.clients[c].(inFn := false))
    case WatchdogStops(c) => With(s, c, s.clients[c].(watching := false, cancelled := true))
    case Release(c) => s.(key := AfterRelease(s.key, s.now, c), clients := s.clients - {c})
    case ReleaseErrs(c) => s.(clients := s.clients - {c}, parting := s.parting + {c})
    case LateRenewal(c) => s.(key := AfterRenew(s.key, s.now, c, p.ttl))
    case LateRelease(c) => s.(key := AfterRelease(s.key, s.now, c))
    case Crash(c) => s.(clients := s.clients - {c})
  }

  predicate Init(s: State) {
    s.key == None && s.clients == map[] && s.used == {} && s.parting == {}
  }

  /** Replies arrive within the latency, the ticker is served when it fires, and a renewal
      is given up after one second. */
  ghost predicate Timely(p: Params, s: State, e: Step) {
    e.Tick? ==> forall c | c in s.clients :: s.now + e.d <= Deadline(p, s.clients[c], s.now + e.d)
  }

  function Deadline(p: Params, client: Client, otherwise: int): int {
    match client
    case Asking(setAt) => setAt + p.latency
    case Running(_, _, watching, nextTick, renewal) =>
      if !watching then otherwise
      else match renewal
           case Quiet => nextTick
           case Sent(at) => at + Seconds(1)
           case Applied(at, _) => at + Seconds(1)
  }

  ghost predicate IsTimelyRun(p: Params, states: seq<State>, steps: seq<Step>) {
    && |states| == |steps| + 1
    && Init(states[0])
    && forall i | 0 <= i < |steps| ::
         && Enabled(states[i], steps[i]) && Timely(p, states[i], steps[i])
         && states[i + 1] == Apply(p, states[i], steps[i])
  }

  /** The client executes `fn` and its context is not cancelled. */
  predicate Inside(s: State, c: Token) {
    IsRunning(s, c) && s.clients[c].inFn && !s.clients[c].cancelled
  }

  ghost predicate MutualExclusion(s: State) {
    forall c, d | Inside(s, c) && Inside(s, d) :: c == d
  }

  // --------------------------------------------- tokens, under every interleaving

  /** Nothing but its holder's own renewals and releases, and time, touches a live lease. */
  lemma OthersKeepLease(p: Params, s: State, e: Step, c: Token)
    requires Enabled(s, e) && HeldBy(s.key, s.now, c)
    ensures Apply(p, s, e).key == s.key
            || ((e.ApplyRenewal? || e.LateRenewal? || e.Release? || e.LateRelease?) && e.c == c)
  {
  }

  // ------------------------------------------------- timed mutual exclusion

  /** The lease outlasts whatever the client still waits for. */
  predicate Guarded(p: Params, s: State, c: Token, client: Client) {
    && s.key.Some? && s.key.value.token == c
    && var expiry := s.key.value.expiresAt;
    match client
    case Asking(setAt) => setAt <= s.now <= setAt + p.latency && setAt + LeaseTime(p.ttl) <= expiry
    case Running(_, _, watching, nextTick, renewal) =>
      && watching
      && match renewal
         case Quiet => s.now <= nextTick <= s.now + Interval(p) && nextTick + Seconds(1) < expiry
         case Sent(at) => at <= s.now <= at + Seconds(1) < expiry && nextTick == at + Interval(p)
         case Applied(at, renewed) =>
           renewed && at <= s.now <= at + Seconds(1) && at + LeaseTime(p.ttl) <= expiry && nextTick == at + Interval(p)
  }

  ghost predicate Inv(p: Params, s: State) {
    && (forall c | c in s.clients :: c in s.used && c !in s.parting)
    && (forall c | c in s.clients && (s.clients[c].Asking? || Inside(s, c)) :: Guarded(p, s, c, s.clients[c]))
    && s.parting <= s.used
  }

  lemma GuardedIsLive(p: Params, s: State, c: Token)
    requires ValidParams(p) && RenewsInTime(p) && c in s.clients && Guarded(p, s, c, s.clients[c])
    ensures HeldBy(s.key, s.now, c)
  {
  }

  predicate ActsFor(e: Step, c: Token) { !e.Tick? && e.c == c }

  lemma OthersKeepGuard(p: Params, s: State, e: Step, c: Token)
    requires ValidParams(p) && RenewsInTime(p) && Enabled(s, e) && Timely(p, s, e) && !ActsFor(e, c)
    requires c in s.clients && Guarded(p, s, c, s.clients[c])
    ensures var t := Apply(p, s, e); c in t.clients && t.clients[c] == s.clients[c] && Guarded(p, t, c, t.clients[c])
  {
    GuardedIsLive(p, s, c);
    OthersKeepLease(p, s, e, c);
  }

  lemma OwnStepKeepsGuard(p: Params, s: State, e: Step, c: Token)
    requires ValidParams(p) && RenewsInTime(p) && Inv(p, s) && Enabled(s, e) && ActsFor(e, c)
    requires var t := Apply(p, s, e); c in t.clients && (t.clients[c].Asking? || Inside(t, c))
    ensures var t := Apply(p, s, e); Guarded(p, t, c, t.clients[c])
  {
    if c in s.clients { GuardedIsLive(p, s, c); }
  }

  lemma StepKeepsGuard(p: Params, s: State, e: Step, c: Token)
    requires ValidParams(p) && RenewsInTime(p) && Inv(p, s) && Enabled(s, e) && Timely(p, s, e)
    requires var t := Apply(p, s, e); c in t.clients && (t.clients[c].Asking? || Inside(t, c))
    ensures var t := Apply(p, s, e); Guarded(p, t, c, t.clients[c])
  {
    if ActsFor(e, c) { OwnStepKeepsGuard(p, s, e, c); } else { OthersKeepGuard(p, s, e, c); }
  }

  lemma StepKeepsNames(p: Params, s: State, e: Step)
    requires Inv(p, s) && Enabled(s, e)
    ensures var t := Apply(p, s, e);
            (forall c | c in t.clients :: c in t.used && c !in t.parting) && t.parting <= t.used
  {
  }

  lemma StepKeepsInv(p: Params, s: State, e: Step)
    requires ValidParams(p) && RenewsInTime(p) && Inv(p, s) && Enabled(s, e) && Timely(p, s, e)
    ensures Inv(p, Apply(p, s, e))
  {
    var t := Apply(p, s, e);
    StepKeepsNames(p, s, e);
    forall c | c in t.clients && (t.clients[c].Asking? || Inside(t, c)) ensures Guarded(p, t, c, t.clients[c]) {
      StepKeepsGuard(p, s, e, c);
    }
  }

  lemma {:induction false} InvHolds(p: Params, states: seq<State>, steps: seq<Step>, i: nat)
    requires ValidParams(p) && RenewsInTime(p) && IsTimelyRun(p, states, steps) && i < |states|
    ensures Inv(p, states[i])
  {
    if i > 0 {
      InvHolds(p, states, steps, i - 1);
      StepKeepsInv(p, states[i - 1], steps[i - 1]);
    }
  }

  /** At every instant of every run, however many renewals, expiries, errors, crashes and
      late commands it contains, whoever is inside holds a live lease; so at most one is. */
  lemma InsideHoldsLease(p: Params, states: seq<State>, steps: seq<Step>, i: nat)
    requires ValidParams(p) && RenewsInTime(p) && IsTimelyRun(p, states, steps) && i < |states|
    ensures forall c | Inside(states[i], c) :: HeldBy(states[i].key, states[i].now, c)
    ensures MutualExclusion(states[i])
  {
    InvHolds(p, states, steps, i);
    forall c | Inside(states[i], c) ensures HeldBy(states[i].key, states[i].now, c) {
      GuardedIsLive(p, states[i], c);
    }
  }

  // ------------------------------------------------------- what a client gets

  /** A client that finds the key free enters with the whole lease before it, is not inside
      any more once `fn` has returned, and releases after its watchdog has stopped. */
  lemma RoundTrip(p: Params, s: State, c: Token)
    requires Free(s.key, s.now) && c !in s.used
    ensures Enabled(s, TryAcquire(c))
    ensures var asked := Apply(p, s, TryAcquire(c));
            && asked.key == Some(Lease(c, s.now + LeaseTime(p.ttl))) && Enabled(asked, Enter(c))
            && var inside := Apply(p, asked, Enter(c));
            && Inside(inside, c) && Watching(inside, c) && Enabled(inside, FnReturns(c))
            && var done := Apply(p, inside, FnReturns(c));
            && !Inside(done, c) && Enabled(done, WatchdogStops(c))
            && var stopped := Apply(p, done, WatchdogStops(c));
            && !Watching(stopped, c) && Enabled(stopped, Release(c))
            && stopped.key == asked.key
  {
  }

  /** Given back while it lasts, the lease is free and the next client takes it at once. */
  lemma ReleaseLetsNextIn(p: Params, s: State, c: Token, next: Token)
    requires Enabled(s, Release(c)) && HeldBy(s.key, s.now, c) && next !in s.used
    ensures var left := Apply(p, s, Release(c));
            && left.key.None? && c !in left.clients && left.used == s.used
            && Enabled(left, TryAcquire(next))
            && var asked := Apply(p, left, TryAcquire(next));
            && asked.key == Some(Lease(next, s.now + LeaseTime(p.ttl))) && Enabled(asked, Enter(next))
  {
  }

  /** A renewal that reaches a live lease begins it again, and its client stays inside. */
  lemma RenewalExtends(p: Params, s: State, c: Token)
    requires Inside(s, c) && Watching(s, c) && s.clients[c].renewal.Sent? && HeldBy(s.key, s.now, c)
    ensures var applied := Apply(p, s, ApplyRenewal(c));
            && applied.key == Some(Lease(c, s.now + LeaseTime(p.ttl)))
            && Enabled(applied, RenewalReturns(c))
            && var back := Apply(p, applied, RenewalReturns(c));
            && Inside(back, c) && Watching(back, c) && back.clients[c].renewal.Quiet? && back.key == applied.key
            && back.clients[c].nextTick == s.clients[c].nextTick
  {
  }

  /** A renewal that finds the lease gone, or does not get through, cancels the context. */
  lemma LostRenewalCancels(p: Params, s: State, c: Token)
    requires Watching(s, c) && s.clients[c].renewal.Sent? && !HeldBy(s.key, s.now, c)
    ensures Apply(p, s, ApplyRenewal(c)).key == s.key
    ensures Enabled(Apply(p, s, ApplyRenewal(c)), RenewalReturns(c))
    ensures var back := Apply(p, Apply(p, s, ApplyRenewal(c)), RenewalReturns(c));
            !Inside(back, c) && !Watching(back, c) && back.clients[c].inFn == s.clients[c].inFn
    ensures Enabled(s, RenewalErrs(c))
    ensures var failed := Apply(p, s, RenewalErrs(c));
            !Inside(failed, c) && !Watching(failed, c) && failed.clients[c].inFn == s.clients[c].inFn
  {
  }

  /** Nobody asks again with a used token, and asking for a live lease changes nothing. */
  lemma BusyLeaseStays(p: Params, s: State, c: Token)
    requires c !in s.used && !Free(s.key, s.now)
    ensures Apply(p, s, TryAcquire(c)) == s.(used := s.used + {c})
  {
  }

  // ------------------------------------------------------- the bound is exact

  ghost predicate AlwaysExclusive(p: Params) {
    forall states, steps, i | IsTimelyRun(p, states, steps) && 0 <= i < |states| :: MutualExclusion(states[i])
  }

  ghost predicate Reaches(p: Params, s: State) {
    exists states, steps :: IsTimelyRun(p, states, steps) && states[|states| - 1] == s
  }

  lemma Go(p: Params, s: State, e: Step) returns (t: State)
    requires Reaches(p, s) && Enabled(s, e) && Timely(p, s, e)
    ensures t == Apply(p, s, e) && Reaches(p, t)
  {
    t := Apply(p, s, e);
    var states, steps :| IsTimelyRun(p, states, steps) && states[|states| - 1] == s;
    var longer, more := states + [t], steps + [e];
    forall i | 0 <= i < |more|
      ensures Enabled(longer[i], more[i]) && Timely(p, longer[i], more[i])
              && longer[i + 1] == Apply(p, longer[i], more[i])
    {
      if i < |steps| { assert longer[i] == states[i] && longer[i + 1] == states[i + 1]; }
    }
    assert IsTimelyRun(p, longer, more);
  }

  /** A client enters as late as it may, or when its lease expires if that is earlier. */
  lemma LateEntry(p: Params) returns (s: State)
    requires ValidParams(p)
    ensures var entry := Min(p.latency, LeaseTime(p.ttl));
            && Reaches(p, s)
            && s == State(s.now, Some(Lease(0, s.now - entry + LeaseTime(p.ttl))),
                          map[0 := Running(true, false, true, s.now + Interval(p), Quiet)], {0}, {})
  {
    var s0 := State(0, None, map[], {}, {});
    assert IsTimelyRun(p, [s0], []);
    var s1 := Go(p, s0, TryAcquire(0));
    var s2 := Go(p, s1, Tick(Min(p.latency, LeaseTime(p.ttl))));
    s := Go(p, s2, Enter(0));
  }

  /** A client whose first renewal is stuck still runs at the moment its lease expires. */
  lemma StuckClient(p: Params) returns (s: State)
    requires ValidParams(p) && !RenewsInTime(p)
    ensures Reaches(p, s) && Inside(s, 0) && s.clients.Keys == {0} && s.used == {0} && Free(s.key, s.now)
  {
    var left := LeaseTime(p.ttl) - Min(p.latency, LeaseTime(p.ttl));
    s := LateEntry(p);
    if left <= Interval(p) {
      s := Go(p, s, Tick(left));
    } else {
      s := Go(p, s, Tick(Interval(p)));
      s := Go(p, s, SendRenewal(0));
      s := Go(p, s, Tick(left - Interval(p)));
    }
  }

  /** Mutual exclusion holds in every timely run if and only if the acquire latency, a third
      of the ttl and the renewal timeout together stay below the lease. */
  lemma WatchdogBoundIsExact(p: Params)
    requires ValidParams(p)
    ensures AlwaysExclusive(p) <==> RenewsInTime(p)
  {
    if RenewsInTime(p) {
      forall states, steps, i: nat | IsTimelyRun(p, states, steps) && i < |states| ensures MutualExclusion(states[i]) {
        InsideHoldsLease(p, states, steps, i);
      }
    } else {
      var s := StuckClient(p);
      s := Go(p, s, TryAcquire(1));
      s := Go(p, s, Enter(1));
      assert Inside(s, 0) && Inside(s, 1);
      assert !MutualExclusion(s);
    }
  }
}
