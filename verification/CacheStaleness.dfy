/** How old a cached value can be: any number of readers, in any number of processes, that
    read the database and later store what they read, against writers that delete the key
    (`GetOrLoadJSON`, `Delete`, `DeleteWithDoubleDelete` in pkg/cache/read_through.go;
    `GetProfile`, `UpdateProfile` in internal/service/user_service.go). */
module CacheStaleness {
  import opened Base
  import ReadThrough

  type Id = nat

  datatype Params = Params(
    maxLatency: nat,  // longest time from a flight's database read to its cache write
    maxTTL: nat,      // longest ttl an entry is stored with
    delay: nat)       // pause between the two deletes of a double delete

  datatype Entry = Entry(version: nat, readAt: int, expiresAt: int)

  datatype Reader = Reader(version: nat, readAt: int)

  datatype Writer =
    | Committed(version: nat)
    | DeletedOnce(version: nat, at: int)
    | DeletedTwice(version: nat, at: int)

  /** Version k of the entity was committed at `commits[k - 1]`; version 0 is the initial one. */
  datatype State = State(
    now: int,
    commits: seq<int>,
    entry: Option<Entry>,
    readers: map<Id, Reader>,
    writers: map<Id, Writer>)

  datatype Step =
    | Tick(d: nat)
    | Commit(w: Id)
    | FirstDelete(w: Id)
    | SecondDelete(w: Id)
    | OtherDelete
    | ReadDatabase(r: Id)
    | WriteCache(r: Id, ttl: nat)
    | Abandon(r: Id)

  predicate Enabled(p: Params, s: State, e: Step) {
    match e
    case Tick(_) => true
    case Commit(w) => w !in s.writers
    case FirstDelete(w) => w in s.writers && s.writers[w].Committed?
    case SecondDelete(w) => w in s.writers && s.writers[w].DeletedOnce? && s.writers[w].at + p.delay <= s.now
    case OtherDelete => true
    case ReadDatabase(r) => r !in s.readers
    case WriteCache(r, ttl) => r in s.readers && 0 < ttl <= p.maxTTL && s.now <= s.readers[r].readAt + p.maxLatency
    case Abandon(r) => r in s.readers
  }

  function Apply(s: State, e: Step, p: Params): State
    requires Enabled(p, s, e)
  {
    match e
    case Tick(d) => s.(now := s.now + d)
    case Commit(w) => s.(commits := s.commits + [s.now], writers := s.writers[w := Committed(|s.commits| + 1)])
    case FirstDelete(w) => s.(entry := None, writers := s.writers[w := DeletedOnce(s.writers[w].version, s.now)])
    case SecondDelete(w) => s.(entry := None, writers := s.writers[w := DeletedTwice(s.writers[w].version, s.now)])
    case OtherDelete => s.(entry := None)
    case ReadDatabase(r) => s.(readers := s.readers[r := Reader(|s.commits|, s.now)])
    case WriteCache(r, ttl) =>
      s.(entry := Some(Entry(s.readers[r].version, s.readers[r].readAt, s.now + ttl)), readers := s.readers - {r})
    case Abandon(r) => s.(readers := s.readers - {r})
  }

  predicate Init(s: State) {
    s.commits == [] && s.entry == None && s.readers == map[] && s.writers == map[]
  }

  ghost predicate IsRun(p: Params, states: seq<State>, steps: seq<Step>) {
    && |states| == |steps| + 1
    && Init(states[0])
    && forall i | 0 <= i < |steps| :: Enabled(p, states[i], steps[i]) && states[i + 1] == Apply(states[i], steps[i], p)
  }

  /** `version` is what the database held at time `at`: nothing newer was committed before. */
  ghost predicate ReadThen(s: State, version: nat, at: int) {
    && version <= |s.commits| && at <= s.now
    && forall k | version <= k < |s.commits| :: at <= s.commits[k]
  }

  ghost predicate Inv(p: Params, s: State) {
    && (forall k | 0 <= k < |s.commits| :: s.commits[k] <= s.now)
    && (forall r | r in s.readers :: ReadThen(s, s.readers[r].version, s.readers[r].readAt))
    && (s.entry.Some? ==>
          && ReadThen(s, s.entry.value.version, s.entry.value.readAt)
          && s.entry.value.expiresAt <= s.entry.value.readAt + p.maxLatency + p.maxTTL)
    && (forall w | w in s.writers :: 1 <= s.writers[w].version <= |s.commits|)
    && (forall w | w in s.writers && !s.writers[w].Committed? ::
          s.commits[s.writers[w].version - 1] <= s.writers[w].at <= s.now)
  }

  lemma ReadThenStays(p: Params, s: State, e: Step, version: nat, at: int)
    requires Enabled(p, s, e) && ReadThen(s, version, at)
    ensures ReadThen(Apply(s, e, p), version, at)
  {
  }

  lemma StepKeepsWriters(p: Params, s: State, e: Step)
    requires Inv(p, s) && Enabled(p, s, e)
    ensures var t := Apply(s, e, p);
            && (forall k | 0 <= k < |t.commits| :: t.commits[k] <= t.now)
            && (forall w | w in t.writers :: 1 <= t.writers[w].version <= |t.commits|)
            && (forall w | w in t.writers && !t.writers[w].Committed? ::
                  t.commits[t.writers[w].version - 1] <= t.writers[w].at <= t.now)
  {
  }

  lemma StepKeepsInv(p: Params, s: State, e: Step)
    requires Inv(p, s) && Enabled(p, s, e)
    ensures Inv(p, Apply(s, e, p))
  {
    var t := Apply(s, e, p);
    StepKeepsWriters(p, s, e);
    forall r | r in t.readers ensures ReadThen(t, t.readers[r].version, t.readers[r].readAt) {
      if r in s.readers { ReadThenStays(p, s, e, s.readers[r].version, s.readers[r].readAt); }
    }
    if s.entry.Some? { ReadThenStays(p, s, e, s.entry.value.version, s.entry.value.readAt); }
    if e.WriteCache? { ReadThenStays(p, s, e, s.readers[e.r].version, s.readers[e.r].readAt); }
  }

  lemma {:induction false} InvHolds(p: Params, states: seq<State>, steps: seq<Step>, i: nat)
    requires IsRun(p, states, steps) && i < |states|
    ensures Inv(p, states[i])
  {
    if i > 0 {
      InvHolds(p, states, steps, i - 1);
      StepKeepsInv(p, states[i - 1], steps[i - 1]);
    }
  }

  /** A commit is the version its writer deletes for, now and later. */
  lemma {:induction false} WriterKnowsItsCommit(p: Params, states: seq<State>, steps: seq<Step>, i: nat, j: nat, w: Id)
    requires IsRun(p, states, steps) && i < j < |states| && steps[i] == Commit(w)
    ensures states[i + 1].commits == states[i].commits + [states[i].now]
    ensures w in states[j].writers && states[j].writers[w].version == |states[i + 1].commits|
    ensures |states[i].commits| < |states[j].commits| && states[j].commits[|states[i].commits|] == states[i].now
  {
    if i + 1 < j { WriterKnowsItsCommit(p, states, steps, i, j - 1, w); }
  }

  /** A delete leaves nothing cached, a read takes the newest version, and a write caches
      exactly what was read, for its ttl. */
  lemma CacheSteps(p: Params, s: State, e: Step)
    requires Enabled(p, s, e)
    ensures e.FirstDelete? || e.SecondDelete? || e.OtherDelete? ==> Apply(s, e, p).entry.None?
    ensures e.Tick? || e.Commit? || e.ReadDatabase? || e.Abandon? ==> Apply(s, e, p).entry == s.entry
    ensures e.ReadDatabase? ==>
              e.r in Apply(s, e, p).readers && Apply(s, e, p).readers[e.r] == Reader(|s.commits|, s.now)
    ensures e.WriteCache? ==>
              Apply(s, e, p).entry == Some(Entry(s.readers[e.r].version, s.readers[e.r].readAt, s.now + e.ttl))
    ensures e.WriteCache? || e.Abandon? ==> Apply(s, e, p).readers == s.readers - {e.r}
  {
  }

  /** Whatever deletes are lost, late or never made: a hit shows every version committed
      longer ago than the longest flight and the longest ttl together. */
  lemma StalenessBounded(p: Params, states: seq<State>, steps: seq<Step>, i: nat, k: nat)
    requires IsRun(p, states, steps) && i < |states|
    requires var s := states[i]; s.entry.Some? && s.now < s.entry.value.expiresAt
    requires k < |states[i].commits| && states[i].commits[k] <= states[i].now - (p.maxLatency + p.maxTTL)
    ensures k < states[i].entry.value.version
  {
    InvHolds(p, states, steps, i);
  }

  // ------------------------------------------------ the staleness bound is tight

  ghost predicate Reaches(p: Params, s: State) {
    exists states, steps :: IsRun(p, states, steps) && states[|states| - 1] == s
  }

  lemma Go(p: Params, s: State, e: Step) returns (t: State)
    requires Reaches(p, s) && Enabled(p, s, e)
    ensures t == Apply(s, e, p) && Reaches(p, t)
  {
    t := Apply(s, e, p);
    var states, steps :| IsRun(p, states, steps) && states[|states| - 1] == s;
    var longer, more := states + [t], steps + [e];
    forall i | 0 <= i < |more| ensures Enabled(p, longer[i], more[i]) && longer[i + 1] == Apply(longer[i], more[i], p) {
      if i < |steps| { assert longer[i] == states[i] && longer[i + 1] == states[i + 1]; }
    }
    assert IsRun(p, longer, more);
  }

  /** In every run, a hit shows every version committed at least `age` ago. */
  ghost predicate ShowsOlderThan(p: Params, age: int) {
    forall states: seq<State>, steps, i, k |
      IsRun(p, states, steps) && 0 <= i < |states| && Hit(states[i]) && 0 <= k < |states[i].commits|
          && states[i].commits[k] <= states[i].now - age ::
      k < states[i].entry.value.version
  }

  predicate Hit(s: State) { s.entry.Some? && s.now < s.entry.value.expiresAt }

  /** A reader read before the commit, and has not stored what it read when the delete is over. */
  lemma LateReader(p: Params) returns (s: State)
    ensures Reaches(p, s)
    ensures s == State(0, [0], None, map[0 := Reader(0, 0)], map[0 := DeletedOnce(1, 0)])
  {
    var s0 := State(0, [], None, map[], map[]);
    assert IsRun(p, [s0], []);
    var s1 := Go(p, s0, ReadDatabase(0));
    var s2 := Go(p, s1, Commit(0));
    s := Go(p, s2, FirstDelete(0));
  }

  /** The plain delete loses the race: a reader stores what it read before the commit, and
      that is served until the last moment of its ttl. */
  lemma LateReaderServesOld(p: Params) returns (s: State)
    requires p.maxTTL > 0
    ensures Reaches(p, s) && Hit(s) && s.entry.value.version == 0
    ensures s.commits == [0] && s.now == p.maxLatency + p.maxTTL - 1 && s.writers == map[0 := DeletedOnce(1, 0)]
  {
    s := LateReader(p);
    s := Go(p, s, Tick(p.maxLatency));
    s := Go(p, s, WriteCache(0, p.maxTTL));
    s := Go(p, s, Tick(p.maxTTL - 1));
  }

  /** A hit shows everything older than `age` in every run if and only if `age` is at least
      the longest flight and the longest ttl together. */
  lemma StalenessBoundIsExact(p: Params, age: int)
    requires p.maxTTL > 0
    ensures ShowsOlderThan(p, age) <==> p.maxLatency + p.maxTTL <= age
  {
    if p.maxLatency + p.maxTTL <= age {
      forall states: seq<State>, steps, i: nat, k: nat |
        IsRun(p, states, steps) && i < |states| && Hit(states[i]) && k < |states[i].commits|
            && states[i].commits[k] <= states[i].now - age
        ensures k < states[i].entry.value.version
      {
        StalenessBounded(p, states, steps, i, k);
      }
    } else {
      var s := LateReaderServesOld(p);
      var states, steps :| IsRun(p, states, steps) && states[|states| - 1] == s;
      assert Hit(states[|states| - 1]) && s.commits[0] <= s.now - age && !(0 < s.entry.value.version);
    }
  }

  /** Profiles are kept for five minutes. */
  const PROFILE_TTL: int := 300_000_000_000

  /** The longest ttl a profile, or the note that it does not exist, is stored with. */
  function MaxProfileTTL(jitter: nat, nullTTL: nat): nat { Max(PROFILE_TTL + jitter, nullTTL) }

  /** The store's ttls are within the bound the staleness of a profile is stated for. */
  lemma ProfileTTLFits(jitter: nat, nullTTL: nat, delta: int)
    requires 0 <= delta + jitter && delta <= jitter && nullTTL > 0
    ensures 0 < ReadThrough.EffectiveTTL(PROFILE_TTL, jitter, delta) <= MaxProfileTTL(jitter, nullTTL)
    ensures 0 < ReadThrough.StoredTTL(nullTTL) <= MaxProfileTTL(jitter, nullTTL)
  {
  }

  // ------------------------------------------------------------- double delete

  /** After a writer's second delete nothing older than its version is cached. */
  ghost predicate NothingOlder(s: State) {
    forall w | w in s.writers && s.writers[w].DeletedTwice? && s.entry.Some? ::
        s.writers[w].version <= s.entry.value.version
  }

  /** Readers that read before a finished writer's commit are too late to store it. */
  ghost predicate Overtaken(p: Params, s: State) {
    forall w, r | w in s.writers && s.writers[w].DeletedTwice? && r in s.readers
        && s.readers[r].version < s.writers[w].version ::
      s.readers[r].readAt + p.maxLatency < s.now
  }

  lemma StepKeepsOvertaken(p: Params, s: State, e: Step)
    requires p.maxLatency < p.delay && Inv(p, s) && Overtaken(p, s) && NothingOlder(s) && Enabled(p, s, e)
    ensures Overtaken(p, Apply(s, e, p)) && NothingOlder(Apply(s, e, p))
  {
    var t := Apply(s, e, p);
    forall w, r | w in t.writers && t.writers[w].DeletedTwice? && r in t.readers
        && t.readers[r].version < t.writers[w].version
      ensures t.readers[r].readAt + p.maxLatency < t.now
    {
      if e.SecondDelete? && e.w == w {
        assert ReadThen(s, s.readers[r].version, s.readers[r].readAt);
        assert s.readers[r].readAt <= s.commits[s.writers[w].version - 1];
      } else if e.ReadDatabase? && e.r == r {
        assert 1 <= s.writers[w].version <= |s.commits|;
      }
    }
  }

  lemma {:induction false} DoubleDeleteWorks(p: Params, states: seq<State>, steps: seq<Step>, i: nat)
    requires p.maxLatency < p.delay && IsRun(p, states, steps) && i < |states|
    ensures Overtaken(p, states[i]) && NothingOlder(states[i])
  {
    if i > 0 {
      DoubleDeleteWorks(p, states, steps, i - 1);
      InvHolds(p, states, steps, i - 1);
      StepKeepsOvertaken(p, states[i - 1], steps[i - 1]);
    }
  }

  ghost predicate NeverOlder(p: Params) {
    forall states, steps, i | IsRun(p, states, steps) && 0 <= i < |states| :: NothingOlder(states[i])
  }

  /** A reader that is as slow as the pause stores the old version after the second delete. */
  lemma SlowReaderWins(p: Params) returns (s: State)
    requires p.delay <= p.maxLatency && p.maxTTL > 0
    ensures Reaches(p, s) && !NothingOlder(s)
  {
    s := LateReader(p);
    s := Go(p, s, Tick(p.delay));
    s := Go(p, s, SecondDelete(0));
    s := Go(p, s, WriteCache(0, 1));
    assert s.writers[0].DeletedTwice? && s.entry.Some?;
  }

  /** The double delete leaves nothing older behind, for any number of overlapping readers
      and writers, if and only if every flight is shorter than the pause. */
  lemma DoubleDeleteBoundIsExact(p: Params)
    requires p.maxTTL > 0
    ensures NeverOlder(p) <==> p.maxLatency < p.delay
  {
    if p.maxLatency < p.delay {
      forall states, steps, i: nat | IsRun(p, states, steps) && i < |states| ensures NothingOlder(states[i]) {
        DoubleDeleteWorks(p, states, steps, i);
      }
    } else {
      var s := SlowReaderWins(p);
      var states, steps :| IsRun(p, states, steps) && states[|states| - 1] == s;
      assert !NothingOlder(states[|states| - 1]);
    }
  }
}
