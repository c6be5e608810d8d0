/** Concurrent lookups of one key in one process: callers share a single flight that rechecks
    the cache, loads and stores (`GetOrLoadJSON` in pkg/cache/read_through.go). */
module Singleflight {
  import opened Base

  type CallerId = nat

  /** A value as the cache keeps it; `Garbage` does not decode. */
  datatype Content = Payload(version: nat) | NullValue | Garbage

  datatype Outcome = Served(content: Content) | LoadFailed

  datatype Caller =
    | Arriving
    | Missed              // its own read gave it nothing it could use
    | Waiting             // for the flight under way, which it may have started
    | Done(outcome: Outcome)

  datatype Flight =
    | NoFlight
    | Rechecking
    | Loading
    | Storing(content: Content)
    | Landed(outcome: Outcome)

  datatype State = State(
    cache: Option<Content>,
    callers: map<CallerId, Caller>,
    flight: Flight,
    loads: nat,
    removals: nat,       // deletes, expiries, and values spoilt by somebody else
    failedWrites: nat,
    loaderErrors: nat,
    badRechecks: nat,    // rechecks that failed or found something undecodable
    foreignWrites: nat)  // decodable values stored by somebody else

  datatype Step =
    | Call(i: CallerId)
    | FirstRead(i: CallerId, useless: bool)  // the read failed, or the payload does not fit
    | Join(i: CallerId)
    | Recheck(fails: bool)
    | LoaderReturns(loaded: Option<Content>)
    | StoreReturns(ok: bool)
    | Land
    | Remove
    | Spoil
    | ForeignWrite(content: Content)

  predicate Decodable(cache: Option<Content>) { cache.Some? && !cache.value.Garbage? }

  predicate Enabled(s: State, e: Step) {
    match e
    case Call(i) => i !in s.callers
    case FirstRead(i, _) => i in s.callers && s.callers[i].Arriving?
    case Join(i) => i in s.callers && s.callers[i].Missed?
    case Recheck(_) => s.flight.Rechecking?
    case LoaderReturns(loaded) => s.flight.Loading? && (loaded.Some? ==> !loaded.value.Garbage?)
    case StoreReturns(_) => s.flight.Storing?
    case Land => s.flight.Landed?
    case Remove => true
    case Spoil => true
    case ForeignWrite(content) => !content.Garbage?
  }

  function Apply(s: State, e: Step): State
    requires Enabled(s, e)
  {
    match e
    case Call(i) => s.(callers := s.callers[i := Arriving])
    case FirstRead(i, useless) =>
      s.(callers := s.callers[i := if !useless && Decodable(s.cache) then Done(Served(s.cache.value)) else Missed])
    case Join(i) => s.(callers := s.callers[i := Waiting],
        flight := if s.flight.NoFlight? then Rechecking else s.flight)
    case Recheck(fails) =>
      if !fails && Decodable(s.cache) then s.(flight := Landed(Served(s.cache.value)))
      else s.(flight := Loading, loads := s.loads + 1,
              badRechecks := if fails || s.cache.Some? then s.badRechecks + 1 else s.badRechecks)
    case LoaderReturns(loaded) =>
      if loaded.None? then s.(flight := Landed(LoadFailed), loaderErrors := s.loaderErrors + 1)
      else s.(flight := Storing(loaded.value))
    case StoreReturns(ok) =>
      var content := s.flight.content;
      if ok then s.(cache := Some(content), flight := Landed(Served(content)))
      else s.(flight := Landed(Served(content)), failedWrites := s.failedWrites + 1)
    case Land =>
      s.(callers := map i | i in s.callers :: if s.callers[i].Waiting? then Done(s.flight.outcome) else s.callers[i],
         flight := NoFlight)
    case Remove => s.(cache := None, removals := s.removals + 1)
    case Spoil => s.(cache := Some(Garbage), removals := s.removals + 1)
    case ForeignWrite(content) => s.(cache := Some(content), foreignWrites := s.foreignWrites + 1)
  }

  predicate Init(s: State) {
    s.cache == None && s.callers == map[] && s.flight == NoFlight && s.loads == 0 && s.removals == 0
    && s.failedWrites == 0 && s.loaderErrors == 0 && s.badRechecks == 0 && s.foreignWrites == 0
  }

  ghost predicate IsRun(states: seq<State>, steps: seq<Step>) {
    && |states| == |steps| + 1
    && Init(states[0])
    && forall i | 0 <= i < |steps| :: Enabled(states[i], steps[i]) && states[i + 1] == Apply(states[i], steps[i])
  }

  function Mishaps(s: State): nat { s.removals + s.failedWrites + s.loaderErrors + s.badRechecks }

  /** A load is paid for by a mishap, by the value in the cache or by the load under way. */
  predicate Inv(s: State) {
    && s.loads <= Mishaps(s) + (if Decodable(s.cache) || s.flight.Loading? || s.flight.Storing? then 1 else 0)
    && (s.flight.Storing? ==> !s.flight.content.Garbage?)
  }

  lemma StepKeepsInv(s: State, e: Step)
    requires Inv(s) && Enabled(s, e)
    ensures Inv(Apply(s, e))
  {
  }

  /** For any number of callers and any interleaving, other processes included: loader calls
      are at most one more than removals, failed writes, loader errors and bad rechecks. */
  lemma {:induction false} LoadsBounded(states: seq<State>, steps: seq<Step>, i: nat)
    requires IsRun(states, steps) && i < |states|
    ensures Inv(states[i])
    ensures states[i].loads <= 1 + Mishaps(states[i])
  {
    if i > 0 {
      LoadsBounded(states, steps, i - 1);
      StepKeepsInv(states[i - 1], steps[i - 1]);
    }
  }

  // --------------------------------------------- without mishaps one load serves all

  predicate Quiet(s: State) { Mishaps(s) == 0 && s.foreignWrites == 0 }

  /** Nothing has been loaded yet, and nobody has been answered. */
  predicate Unserved(s: State) {
    && s.cache == None
    && (forall i | i in s.callers :: !s.callers[i].Done?)
    && (if s.flight.Loading? then s.loads == 1 else s.loads == 0 && (s.flight.NoFlight? || s.flight.Rechecking?))
  }

  /** The one load gave `content`, and that is all anybody gets. */
  predicate AllServed(s: State, content: Content) {
    && s.loads == 1 && !content.Garbage?
    && (s.flight.Storing? || s.cache == Some(content))
    && (s.cache.Some? ==> s.cache == Some(content))
    && !s.flight.Loading?
    && (s.flight.Storing? ==> s.flight.content == content)
    && (s.flight.Landed? ==> s.flight.outcome == Served(content))
    && (forall i | i in s.callers && s.callers[i].Done? :: s.callers[i].outcome == Served(content))
  }

  lemma QuietEarlier(s: State, e: Step)
    requires Enabled(s, e) && Quiet(Apply(s, e))
    ensures Quiet(s)
  {
  }

  lemma QuietStep(s: State, e: Step, content: Content)
    requires Enabled(s, e) && Quiet(Apply(s, e)) && (Unserved(s) || AllServed(s, content))
    ensures var t := Apply(s, e);
            var loaded := if e.LoaderReturns? && e.loaded.Some? then e.loaded.value else content;
            Unserved(t) || AllServed(t, loaded)
  {
  }

  lemma {:induction false} QuietRun(states: seq<State>, steps: seq<Step>, i: nat) returns (content: Content)
    requires IsRun(states, steps) && i < |states| && Quiet(states[i])
    ensures Unserved(states[i]) || AllServed(states[i], content)
  {
    content := NullValue;
    if i > 0 {
      QuietEarlier(states[i - 1], steps[i - 1]);
      content := QuietRun(states, steps, i - 1);
      QuietStep(states[i - 1], steps[i - 1], content);
      var e := steps[i - 1];
      if e.LoaderReturns? && e.loaded.Some? { content := e.loaded.value; }
    }
  }

  /** As long as nothing is removed, no command fails and nobody else writes the key, there
      is at most one load, and every caller that was answered was served what it loaded. */
  lemma OneLoadServesAll(states: seq<State>, steps: seq<Step>, i: nat) returns (content: Content)
    requires IsRun(states, steps) && i < |states| && Quiet(states[i])
    ensures states[i].loads <= 1
    ensures forall k | k in states[i].callers && states[i].callers[k].Done? ::
              states[i].loads == 1 && states[i].callers[k].outcome == Served(content)
  {
    content := QuietRun(states, steps, i);
  }

  // --------------------------------------------- what callers are told

  /** The content was loaded, or found in the cache, before state number `i`. */
  ghost predicate WasReal(states: seq<State>, steps: seq<Step>, i: nat, content: Content)
    requires i <= |steps| < |states|
  {
    exists k | 0 <= k < i ::
      steps[k] == LoaderReturns(Some(content)) || (states[k].cache == Some(content) && !content.Garbage?)
  }

  /** A load failed before state number `i`. */
  ghost predicate LoadFailedBefore(steps: seq<Step>, i: nat)
    requires i <= |steps|
  {
    exists k | 0 <= k < i :: steps[k] == LoaderReturns(None)
  }

  ghost predicate Told(states: seq<State>, steps: seq<Step>, i: nat, outcome: Outcome)
    requires i <= |steps| < |states|
  {
    match outcome
    case Served(content) => WasReal(states, steps, i, content)
    case LoadFailed => LoadFailedBefore(steps, i)
  }

  /** No caller is served what was neither loaded nor cached, nor told of a failure that did
      not happen. */
  lemma {:induction false} AnswersAreReal(states: seq<State>, steps: seq<Step>, i: nat)
    requires IsRun(states, steps) && i < |states|
    ensures forall k | k in states[i].callers && states[i].callers[k].Done? ::
              Told(states, steps, i, states[i].callers[k].outcome)
    ensures states[i].flight.Landed? ==> Told(states, steps, i, states[i].flight.outcome)
    ensures states[i].flight.Storing? ==> Told(states, steps, i, Served(states[i].flight.content))
  {
    if i > 0 {
      AnswersAreReal(states, steps, i - 1);
      forall outcome | Told(states, steps, i - 1, outcome) ensures Told(states, steps, i, outcome) {
        ToldStays(states, steps, i - 1, outcome);
      }
      StepTells(states, steps, i - 1);
    }
  }

  lemma ToldStays(states: seq<State>, steps: seq<Step>, i: nat, outcome: Outcome)
    requires i < |steps| < |states| && Told(states, steps, i, outcome)
    ensures Told(states, steps, i + 1, outcome)
  {
  }

  /** Whatever a step decides, it takes from the loader or from the cache. */
  lemma StepTells(states: seq<State>, steps: seq<Step>, i: nat)
    requires IsRun(states, steps) && i < |steps|
    ensures var s, e, t := states[i], steps[i], states[i + 1];
            && (forall k | k in t.callers && t.callers[k].Done? && !(k in s.callers && s.callers[k] == t.callers[k]) ::
                  if e.Land? then t.callers[k].outcome == s.flight.outcome
                  else Told(states, steps, i + 1, t.callers[k].outcome))
            && (t.flight.Landed? && !(s.flight == t.flight) ==>
                  (s.flight.Storing? && t.flight.outcome == Served(s.flight.content))
                  || Told(states, steps, i + 1, t.flight.outcome))
            && (t.flight.Storing? && s.flight != t.flight ==> Told(states, steps, i + 1, Served(t.flight.content)))
  {
    var s, e := states[i], steps[i];
    if e.LoaderReturns? {
      assert e.loaded.None? ==> steps[i] == LoaderReturns(None);
      assert e.loaded.Some? ==> steps[i] == LoaderReturns(Some(e.loaded.value));
    } else if s.cache.Some? {
      assert states[i].cache == Some(s.cache.value);
    }
  }

  /** What a step decides for everybody who waits: a recheck that finds a usable entry, or the
      loader's answer. */
  function Decision(s: State, e: Step): Option<Outcome> {
    match e
    case Recheck(fails) => if !fails && Decodable(s.cache) then Some(Served(s.cache.value)) else None
    case LoaderReturns(loaded) => Some(if loaded.None? then LoadFailed else Served(loaded.value))
    case _ => None
  }

  /** The flight carries the outcome to its end. */
  predicate Carries(flight: Flight, outcome: Outcome) {
    flight == Landed(outcome) || (flight.Storing? && outcome == Served(flight.content))
  }

  lemma {:induction false} DecisionIsCarried(states: seq<State>, steps: seq<Step>, i: nat, j: nat, outcome: Outcome)
    requires IsRun(states, steps) && i < j < |states| && Decision(states[i], steps[i]) == Some(outcome)
    requires forall k | i < k < j :: !steps[k].Land?
    ensures Carries(states[j].flight, outcome)
  {
    if i + 1 < j { DecisionIsCarried(states, steps, i, j - 1, outcome); }
  }

  /** When the flight lands, every caller that waited for it is told what was decided: the
      cached value, the loaded one even if it could not be stored, or the loader's failure. */
  lemma WaitersAreTold(states: seq<State>, steps: seq<Step>, i: nat, j: nat, outcome: Outcome, caller: CallerId)
    requires IsRun(states, steps) && i < j < |steps| && Decision(states[i], steps[i]) == Some(outcome)
    requires (forall k | i < k < j :: !steps[k].Land?) && steps[j].Land?
    requires caller in states[j].callers && states[j].callers[caller].Waiting?
    ensures states[j + 1].callers[caller] == Done(outcome) && states[j + 1].flight.NoFlight?
  {
    DecisionIsCarried(states, steps, i, j, outcome);
  }

  /** The other steps: a usable entry answers its reader at once, everybody else is sent to the
      flight, which loads when its own read is of no use, and stores what it loaded. */
  lemma FlightSteps(s: State, e: Step)
    requires Enabled(s, e)
    ensures var t := Apply(s, e);
            && (e.FirstRead? && !e.useless && Decodable(s.cache) ==> t.callers[e.i] == Done(Served(s.cache.value)))
            && (e.FirstRead? && (e.useless || !Decodable(s.cache)) ==> t.callers[e.i].Missed?)
            && (e.Join? ==> t.callers[e.i].Waiting? && !t.flight.NoFlight?)
            && (e.Join? && !s.flight.NoFlight? ==> t.flight == s.flight)
            && (e.Recheck? && (e.fails || !Decodable(s.cache)) ==> t.flight.Loading? && t.loads == s.loads + 1)
            && (!(e.Recheck? && t.flight.Loading?) ==> t.loads == s.loads)
            && (e.StoreReturns? ==> t.cache == if e.ok then Some(s.flight.content) else s.cache)
            && (e.FirstRead? || e.Join? || e.Recheck? || e.LoaderReturns? || e.Land? ==> t.cache == s.cache)
  {
  }
}
