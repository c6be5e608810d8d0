/** The sliding-window limiter: a sorted set pruned on every call, under a key that expires
    (pkg/cache/sliding_window.go). Times are milliseconds. */
module SlidingWindow {
  import opened Base

  /** The sorted set (member to score) and the moment its key expires. */
  datatype Window = Window(members: map<string, int>, expiresAt: int)

  datatype Reply = Reply(allowed: bool, limit: int, remaining: int, resetAt: int)

  /** EXPIRE counts whole seconds. */
  function KeyLife(window: int): (life: int)
    ensures window <= life < window + 1000 && life % 1000 == 0
  {
    (window + 999) / 1000 * 1000
  }

  /** What the server still has at `now`; an expired key is as good as an empty one. */
  function Kept(w: Window, now: int): map<string, int> {
    if w.expiresAt <= now then map[] else w.members
  }

  /** The entries a call at `now` counts: those the prune leaves. */
  function Visible(members: map<string, int>, now: int, window: int): (visible: map<string, int>)
    ensures forall m :: m in visible <==> m in members && members[m] > now - window
    ensures forall m | m in visible :: visible[m] == members[m]
  {
    map m | m in members && members[m] > now - window :: members[m]
  }

  /** The Lua script, as one atomic step. */
  function AfterScript(w: Window, now: int, window: int, limit: int, member: string): Window {
    var counted := Visible(Kept(w, now), now, window);
    Window(if |counted| >= limit then counted else counted[member := now], now + KeyLife(window))
  }

  function Admits(members: map<string, int>, now: int, window: int, limit: int): bool {
    |Visible(members, now, window)| < limit
  }

  /** The limiter of one key, as an object. */
  class SlidingWindowLimiter {
    var stored: Window

    constructor (now: int)
      ensures stored == Window(map[], now)
    {
      stored := Window(map[], now);
    }

    method Check(now: int, window: int, limit: int, member: string) returns (reply: Reply)
      modifies this
      ensures stored == AfterScript(old(stored), now, window, limit, member)
      ensures reply.allowed <==> Admits(Kept(old(stored), now), now, window, limit)
      ensures reply.limit == limit && reply.resetAt == now + window
      // a granted call is the one entry that is added, a refused one adds none, and both prune
      ensures var counted := Visible(Kept(old(stored), now), now, window);
              && (reply.allowed <==> |counted| < limit)
              && stored.members == (if reply.allowed then counted[member := now] else counted)
              && stored.expiresAt == now + KeyLife(window)
      ensures var count := |Visible(Kept(old(stored), now), now, window)|;
              reply.remaining == Max(0, limit - (if reply.allowed then count + 1 else count))
    {
      var counted := Visible(Kept(stored, now), now, window);
      var count := |counted|;
      if count >= limit {
        stored := Window(counted, now + KeyLife(window));
        reply := Reply(false, limit, Max(0, limit - count), now + window);
      } else {
        stored := Window(counted[member := now], now + KeyLife(window));
        reply := Reply(true, limit, Max(0, limit - (count + 1)), now + window);
      }
    }
  }

  // -------------------------------------------------- the full log it stands for

  datatype Call = Call(now: int, limit: int, member: string)

  /** What the server holds after the calls, in order. */
  function Held(window: int, calls: seq<Call>): Window {
    if calls == [] then Window(map[], 0)
    else
      var last := calls[|calls| - 1];
      AfterScript(Held(window, calls[..|calls| - 1]), last.now, window, last.limit, last.member)
  }

  /** The log that is never pruned and never expires: each member that was admitted, with the
      time of its last admission. */
  function FullLog(window: int, calls: seq<Call>): map<string, int> {
    if calls == [] then map[]
    else
      var last := calls[|calls| - 1];
      var log := FullLog(window, calls[..|calls| - 1]);
      if Admits(log, last.now, window, last.limit) then log[last.member := last.now] else log
  }

  /** The clock never goes back from one call to the next. */
  ghost predicate InOrder(calls: seq<Call>) {
    forall i, j | 0 <= i < j < |calls| :: calls[i].now <= calls[j].now
  }

  ghost predicate OwnMembers(calls: seq<Call>) {
    forall i, j | 0 <= i < j < |calls| :: calls[i].member != calls[j].member
  }

  lemma KeyLivesLongEnough(window: int)
    ensures KeyLife(window) >= window
  {
  }

  lemma OrderedPrefix(calls: seq<Call>)
    requires InOrder(calls) && calls != []
    ensures var n := |calls| - 1; InOrder(calls[..n]) && (n > 0 ==> calls[..n][n - 1].now <= calls[n].now)
  {
  }

  lemma {:induction false} LogTimes(window: int, calls: seq<Call>, m: string)
    requires InOrder(calls) && m in FullLog(window, calls)
    ensures calls != [] && FullLog(window, calls)[m] <= calls[|calls| - 1].now
  {
    var n := |calls| - 1;
    OrderedPrefix(calls);
    if m in FullLog(window, calls[..n]) { LogTimes(window, calls[..n], m); }
  }

  /** The calls before the last one logged nothing later. */
  lemma EarlierTimes(window: int, calls: seq<Call>)
    requires InOrder(calls) && calls != []
    ensures var n := |calls| - 1;
            var log := FullLog(window, calls[..n]);
            forall m | m in log :: log[m] <= calls[n].now
  {
    var n := |calls| - 1;
    OrderedPrefix(calls);
    forall m | m in FullLog(window, calls[..n]) ensures FullLog(window, calls[..n])[m] <= calls[n].now {
      LogTimes(window, calls[..n], m);
    }
  }

  lemma {:induction false} LogMembers(window: int, calls: seq<Call>, m: string)
    requires m in FullLog(window, calls)
    ensures exists i :: 0 <= i < |calls| && calls[i].member == m
  {
    var n := |calls| - 1;
    if m in FullLog(window, calls[..n]) {
      LogMembers(window, calls[..n], m);
      var i :| 0 <= i < n && calls[..n][i].member == m;
      assert calls[i].member == m;
    } else {
      assert calls[n].member == m;
    }
  }

  lemma NewMember(window: int, calls: seq<Call>)
    requires OwnMembers(calls) && calls != []
    ensures calls[|calls| - 1].member !in FullLog(window, calls[..|calls| - 1])
  {
    var n := |calls| - 1;
    if calls[n].member in FullLog(window, calls[..n]) {
      LogMembers(window, calls[..n], calls[n].member);
    }
  }

  lemma PruneTwice(members: map<string, int>, now: int, t: int, window: int)
    requires now <= t
    ensures Visible(Visible(members, now, window), t, window) == Visible(members, t, window)
  {
  }

  lemma ViewAfterAdmission(members: map<string, int>, now: int, t: int, window: int, member: string)
    requires now <= t
    ensures Visible(Visible(members, now, window)[member := now], t, window)
            == Visible(members[member := now], t, window)
  {
  }

  /** One call keeps the two views alike at every later moment. */
  lemma ScriptKeepsView(w: Window, log: map<string, int>, call: Call, window: int, t: int)
    requires Visible(Kept(w, call.now), call.now, window) == Visible(log, call.now, window)
    requires (forall m | m in log :: log[m] <= call.now) && call.now <= t
    ensures var longer := if Admits(log, call.now, window, call.limit) then log[call.member := call.now] else log;
            Visible(Kept(AfterScript(w, call.now, window, call.limit, call.member), t), t, window)
                == Visible(longer, t, window)
  {
    KeyLivesLongEnough(window);
    if call.now + KeyLife(window) <= t {
      var longer := if Admits(log, call.now, window, call.limit) then log[call.member := call.now] else log;
      assert forall m | m in longer :: longer[m] <= t - window;
      assert Visible(longer, t, window) == map[];
    } else if Admits(log, call.now, window, call.limit) {
      ViewAfterAdmission(log, call.now, t, window, call.member);
    } else {
      PruneTwice(log, call.now, t, window);
    }
  }

  /** At every later moment the pruned, expiring set shows exactly what the full log shows. */
  lemma {:induction false} PrunedShowsFullLog(window: int, calls: seq<Call>, t: int)
    requires InOrder(calls) && (calls != [] ==> calls[|calls| - 1].now <= t)
    ensures Visible(Kept(Held(window, calls), t), t, window) == Visible(FullLog(window, calls), t, window)
  {
    if calls != [] {
      var n := |calls| - 1;
      OrderedPrefix(calls);
      PrunedShowsFullLog(window, calls[..n], calls[n].now);
      EarlierTimes(window, calls);
      ScriptKeepsView(Held(window, calls[..n]), FullLog(window, calls[..n]), calls[n], window, t);
    }
  }

  /** The script grants the last of the calls. */
  predicate Granted(window: int, calls: seq<Call>)
    requires calls != []
  {
    var n := |calls| - 1;
    Admits(Kept(Held(window, calls[..n]), calls[n].now), calls[n].now, window, calls[n].limit)
  }

  /** The script decides every call as if it counted the members of the full log in the
      window, whether or not calls share them. With a member of its own per call that is
      counting every admission (`LogIsFull`). */
  lemma PruningRefinesFullLog(window: int, calls: seq<Call>)
    requires InOrder(calls) && calls != []
    ensures var n := |calls| - 1;
            Granted(window, calls) <==> Admits(FullLog(window, calls[..n]), calls[n].now, window, calls[n].limit)
  {
    OrderedPrefix(calls);
    PrunedShowsFullLog(window, calls[..|calls| - 1], calls[|calls| - 1].now);
  }

  // ------------------------------------------------------- the limit over any run

  /** How many calls the script granted at moments in (t - window, t]. */
  function GrantedWithin(window: int, calls: seq<Call>, t: int): nat {
    if calls == [] then 0
    else
      var n := |calls| - 1;
      GrantedWithin(window, calls[..n], t) + if Granted(window, calls) && t - window < calls[n].now <= t then 1 else 0
  }

  /** The entries of a log in that interval. */
  function Within(log: map<string, int>, t: int, window: int): set<string> {
    set m | m in log && t - window < log[m] <= t
  }

  lemma WithinGrows(log: map<string, int>, m: string, at: int, t: int, window: int)
    requires m !in log
    ensures |Within(log[m := at], t, window)| == |Within(log, t, window)| + if t - window < at <= t then 1 else 0
  {
    assert Within(log[m := at], t, window) == Within(log, t, window) + if t - window < at <= t then {m} else {};
  }

  /** With a member of its own per call, the full log has one entry per grant. */
  lemma {:induction false} LogIsFull(window: int, calls: seq<Call>, t: int)
    requires InOrder(calls) && OwnMembers(calls)
    ensures GrantedWithin(window, calls, t) == |Within(FullLog(window, calls), t, window)|
  {
    if calls == [] {
      assert Within(FullLog(window, calls), t, window) == {};
    } else {
      var n := |calls| - 1;
      OrderedPrefix(calls);
      LogIsFull(window, calls[..n], t);
      PruningRefinesFullLog(window, calls);
      NewMember(window, calls);
      WithinGrows(FullLog(window, calls[..n]), calls[n].member, calls[n].now, t, window);
    }
  }

  /** So with members of their own, a call is granted exactly when fewer calls than its limit
      were granted in the window before it. */
  lemma GrantsCountGrants(window: int, calls: seq<Call>)
    requires InOrder(calls) && OwnMembers(calls) && calls != []
    ensures var last := calls[|calls| - 1];
            Granted(window, calls) <==> GrantedWithin(window, calls[..|calls| - 1], last.now) < last.limit
  {
    var earlier, last := calls[..|calls| - 1], calls[|calls| - 1];
    OrderedPrefix(calls);
    PruningRefinesFullLog(window, calls);
    LogIsFull(window, earlier, last.now);
    EarlierTimes(window, calls);
    var log := FullLog(window, earlier);
    assert Within(log, last.now, window) == Visible(log, last.now, window).Keys;
  }

  lemma SubsetIsSmaller<T>(a: set<T>, b: set<T>)
    requires a <= b
    ensures |a| <= |b|
  {
    assert b == a + (b - a);
  }

  lemma AdmissionFits(log: map<string, int>, call: Call, window: int, t: int)
    requires Admits(log, call.now, window, call.limit)
    requires (forall m | m in log :: log[m] <= call.now) && t - window < call.now <= t
    ensures |Within(log[call.member := call.now], t, window)| <= call.limit
  {
    var visible := Visible(log, call.now, window).Keys;
    SubsetIsSmaller(Within(log[call.member := call.now], t, window), visible + {call.member});
  }

  ghost predicate AllLimited(calls: seq<Call>, limit: nat) {
    forall i | 0 <= i < |calls| :: calls[i].limit == limit
  }

  lemma {:induction false} LogFits(window: int, limit: nat, calls: seq<Call>, t: int)
    requires InOrder(calls) && AllLimited(calls, limit)
    ensures |Within(FullLog(window, calls), t, window)| <= limit
  {
    if calls == [] {
      assert Within(FullLog(window, calls), t, window) == {};
    } else {
      var n := |calls| - 1;
      var log, longer := FullLog(window, calls[..n]), FullLog(window, calls);
      OrderedPrefix(calls);
      LogFits(window, limit, calls[..n], t);
      EarlierTimes(window, calls);
      if Admits(log, calls[n].now, window, limit) && t - window < calls[n].now <= t {
        AdmissionFits(log, calls[n], window, t);
      } else {
        SubsetIsSmaller(Within(longer, t, window), Within(log, t, window));
      }
    }
  }

  /** With a member of its own per call, no interval as long as the window ever sees the
      script grant more than `limit` calls. */
  lemma NeverOverLimit(window: int, limit: nat, calls: seq<Call>, t: int)
    requires InOrder(calls) && OwnMembers(calls) && AllLimited(calls, limit)
    ensures GrantedWithin(window, calls, t) <= limit
  {
    LogIsFull(window, calls, t);
    LogFits(window, limit, calls, t);
  }

  // --------------------------------------------------------- calls that share members

  /** Whatever members the calls have, the script keeps the limit. */
  ghost predicate KeepsLimit(window: int, limit: nat) {
    forall calls, t | InOrder(calls) && AllLimited(calls, limit) :: GrantedWithin(window, calls, t) <= limit
  }

  /** A grant leaves an entry that is at least as late, whatever is written over it. */
  lemma {:induction false} GrantIsLogged(window: int, calls: seq<Call>, t: int) returns (m: string)
    requires InOrder(calls) && GrantedWithin(window, calls, t) > 0
    ensures m in FullLog(window, calls) && t - window < FullLog(window, calls)[m]
  {
    var n := |calls| - 1;
    OrderedPrefix(calls);
    PruningRefinesFullLog(window, calls);
    if GrantedWithin(window, calls[..n], t) > 0 {
      m := GrantIsLogged(window, calls[..n], t);
      EarlierTimes(window, calls);
    } else {
      m := calls[n].member;
    }
  }

  /** A limit of one is kept even if calls share members: the entry of the last grant is
      there as long as that grant counts. */
  lemma {:induction false} OneIsKept(window: int, limit: nat, calls: seq<Call>, t: int)
    requires limit <= 1 && InOrder(calls) && AllLimited(calls, limit)
    ensures GrantedWithin(window, calls, t) <= limit
  {
    if calls != [] {
      var n := |calls| - 1;
      OrderedPrefix(calls);
      OneIsKept(window, limit, calls[..n], t);
      PruningRefinesFullLog(window, calls);
      if GrantedWithin(window, calls[..n], t) > 0 && calls[n].now <= t {
        var m := GrantIsLogged(window, calls[..n], t);
        assert m in Visible(FullLog(window, calls[..n]), calls[n].now, window);
      }
    }
  }

  function Same(k: nat, limit: nat): (calls: seq<Call>)
    ensures |calls| == k && forall i | 0 <= i < k :: calls[i] == Call(0, limit, "")
  {
    seq(k, _ => Call(0, limit, ""))
  }

  lemma {:induction false} SameLog(window: int, limit: nat, k: nat)
    requires limit >= 2
    ensures FullLog(window, Same(k, limit)) == if k == 0 then map[] else map["" := 0]
  {
    if k > 0 {
      SameLog(window, limit, k - 1);
      assert Same(k, limit)[..k - 1] == Same(k - 1, limit);
      SubsetIsSmaller(Visible(FullLog(window, Same(k - 1, limit)), 0, window).Keys, {""});
    }
  }

  /** Calls that all share one member leave one entry, and are all granted. */
  lemma {:induction false} SharedMemberSlipsThrough(window: int, limit: nat, k: nat)
    requires window > 0 && limit >= 2
    ensures GrantedWithin(window, Same(k, limit), 0) == k
  {
    if k > 0 {
      SharedMemberSlipsThrough(window, limit, k - 1);
      assert Same(k, limit)[..k - 1] == Same(k - 1, limit);
      SameLog(window, limit, k - 1);
      SubsetIsSmaller(Visible(FullLog(window, Same(k - 1, limit)), 0, window).Keys, {""});
      PruningRefinesFullLog(window, Same(k, limit));
    }
  }

  /** The limit is kept whatever members the calls have, so even if several calls read the
      same clock, if and only if it is at most one or the window is empty. */
  lemma SharingBoundIsExact(window: int, limit: nat)
    ensures KeepsLimit(window, limit) <==> limit <= 1 || window <= 0
  {
    if limit <= 1 {
      forall calls, t | InOrder(calls) && AllLimited(calls, limit) ensures GrantedWithin(window, calls, t) <= limit {
        OneIsKept(window, limit, calls, t);
      }
    } else if window <= 0 {
      forall calls, t | InOrder(calls) && AllLimited(calls, limit) ensures GrantedWithin(window, calls, t) <= limit {
        NothingWithin(window, calls, t);
      }
    } else {
      SharedMemberSlipsThrough(window, limit, limit + 1);
      assert InOrder(Same(limit + 1, limit)) && AllLimited(Same(limit + 1, limit), limit);
    }
  }

  lemma {:induction false} NothingWithin(window: int, calls: seq<Call>, t: int)
    requires window <= 0
    ensures GrantedWithin(window, calls, t) == 0
  {
    if calls != [] { NothingWithin(window, calls[..|calls| - 1], t); }
  }

  // ------------------------------------------------------ what a reply promises

  /** Each call adds at most one entry to what the next one counts. */
  lemma CountGrowsByOne(w: Window, call: Call, window: int, t: int)
    requires call.now <= t
    ensures |Visible(Kept(AfterScript(w, call.now, window, call.limit, call.member), t), t, window)|
         <= |Visible(Kept(w, call.now), call.now, window)|
             + if Admits(Kept(w, call.now), call.now, window, call.limit) then 1 else 0
  {
    var counted := Visible(Kept(w, call.now), call.now, window);
    var stored := AfterScript(w, call.now, window, call.limit, call.member).members;
    var after := AfterScript(w, call.now, window, call.limit, call.member);
    SubsetIsSmaller(Visible(Kept(after, t), t, window).Keys, stored.Keys);
    assert stored.Keys <= counted.Keys + {call.member};
  }

  function AfterCalls(w: Window, window: int, calls: seq<Call>): Window {
    if calls == [] then w
    else
      var last := calls[|calls| - 1];
      AfterScript(AfterCalls(w, window, calls[..|calls| - 1]), last.now, window, last.limit, last.member)
  }

  lemma {:induction false} CountGrows(w: Window, window: int, calls: seq<Call>, t: int)
    requires InOrder(calls)
    requires calls != [] && calls[|calls| - 1].now <= t
    ensures |Visible(Kept(AfterCalls(w, window, calls), t), t, window)|
         <= |Visible(Kept(w, calls[0].now), calls[0].now, window)| + |calls|
  {
    var n := |calls| - 1;
    CountGrowsByOne(AfterCalls(w, window, calls[..n]), calls[n], window, t);
    if n > 0 { CountGrows(w, window, calls[..n], calls[n].now); }
  }

  /** After an allowed reply with `remaining` r, the next r calls are all allowed, whenever
      they come: `calls` is the call so answered and the ones between it and `next`. */
  lemma RemainingIsKept(w: Window, window: int, limit: int, calls: seq<Call>, next: Call)
    requires InOrder(calls)
    requires calls != [] && calls[|calls| - 1].now <= next.now
    requires forall i | 0 <= i < |calls| :: calls[i].limit == limit
    requires next.limit == limit
    requires Admits(Kept(w, calls[0].now), calls[0].now, window, limit)
    requires |calls| <= limit - (|Visible(Kept(w, calls[0].now), calls[0].now, window)| + 1)
    ensures Admits(Kept(AfterCalls(w, window, calls), next.now), next.now, window, limit)
  {
    CountGrows(w, window, calls, next.now);
  }

  /** A call at or after `resetAt` counts none of the admissions that reply counted. */
  lemma ResetForgets(w: Window, window: int, calls: seq<Call>, t: int, m: string)
    requires InOrder(calls) && calls != [] && t >= calls[0].now + window && calls[|calls| - 1].now <= t
    requires m in AfterScript(w, calls[0].now, window, calls[0].limit, calls[0].member).members
    requires forall k | k in w.members :: w.members[k] <= calls[0].now
    requires forall i | 0 < i < |calls| :: calls[i].member != m
    ensures m !in Visible(Kept(AfterCalls(w, window, calls), t), t, window)
  {
    ScoreStays(w, window, calls, m);
  }

  lemma {:induction false} ScoreStays(w: Window, window: int, calls: seq<Call>, m: string)
    requires calls != [] && (forall k | k in w.members :: w.members[k] <= calls[0].now)
    requires forall i | 0 < i < |calls| :: calls[i].member != m
    ensures var after := AfterCalls(w, window, calls).members; m in after ==> after[m] <= calls[0].now
  {
    if |calls| > 1 { ScoreStays(w, window, calls[..|calls| - 1], m); }
  }
}
