/** The bound on a run's length is exact in polling mode: for every configuration that
    violates it, the unguarded `Mark*` updates let a slow dispatcher undo a verdict another
    one recorded. */
module PollingBound {
  import opened Base
  import opened OutboxDispatcher
  import opened OutboxProtocol
  import opened OutboxLease
  import opened OutboxTiming
  import opened PollingLease
  import opened SlowBatch

  /** In every run of the polling system, published and dead are final. */
  ghost predicate VerdictsFinal(c: Config) {
    forall states, steps, i, j | IsPollingRun(c, states, steps) && 0 <= i <= j < |states| ::
        Settled(states[i], states[j])
  }

  ghost predicate Reaches(c: Config, s: State) {
    exists states, steps :: IsPollingRun(c, states, steps) && states[|states| - 1] == s
  }

  lemma Go(c: Config, s: State, e: Step) returns (t: State)
    requires Reaches(c, s) && Enabled(c, s, e) && Polling(s, e)
    ensures t == Apply(c, s, e) && Reaches(c, t)
    ensures VerdictsFinal(c) ==> Settled(s, t)
  {
    t := Apply(c, s, e);
    var states, steps :| IsPollingRun(c, states, steps) && states[|states| - 1] == s;
    var longer, more := states + [t], steps + [e];
    forall i | 0 <= i < |more|
      ensures Enabled(c, longer[i], more[i]) && longer[i + 1] == Apply(c, longer[i], more[i])
              && Polling(longer[i], more[i])
    {
      if i < |steps| { assert longer[i] == states[i] && longer[i + 1] == states[i + 1]; }
    }
    assert IsPollingRun(c, longer, more);
    assert longer[|states| - 1] == s && longer[|states|] == t;
  }

  lemma {:induction false} FollowPath(c: Config, states: seq<State>, steps: seq<Step>, k: nat)
    requires IsPath(c, states, steps) && Reaches(c, states[0]) && k <= |steps|
    ensures Reaches(c, states[k])
  {
    if k > 0 {
      FollowPath(c, states, steps, k - 1);
      var t := Go(c, states[k - 1], steps[k - 1]);
    }
  }

  lemma Follow(c: Config, s: State, t: State)
    requires Reaches(c, s) && Leads(c, s, t)
    ensures Reaches(c, t)
  {
    var states, steps :| IsPath(c, states, steps) && states[0] == s && states[|steps|] == t;
    FollowPath(c, states, steps, |steps|);
  }

  /** A slow run is reachable for every configuration. */
  lemma SlowRunBegins(c: Config) returns (s: State)
    requires ValidConfig(c)
    ensures Reaches(c, s) && SlowBegins(c, s, Start(0, None, LockTimeout(c)))
  {
    assert IsPollingRun(c, [EMPTY], []) && [EMPTY][0] == EMPTY;
    var s0 := CommitAll(c, c.batchSize);
    Follow(c, EMPTY, s0);
    s := Go(c, s0, Begin(0, None));
  }

  lemma FastRunBegins(c: Config, slow: State) returns (s: State)
    requires ValidConfig(c) && Reaches(c, slow) && 1 !in slow.runs
    ensures Reaches(c, s) && FastBegins(c, s, slow)
  {
    s := Go(c, slow, Begin(1, None));
  }

  lemma VerdictUndone(c: Config)
    requires ValidConfig(c) && !LeaseOutlivesRun(c)
    ensures !VerdictsFinal(c)
  {
    var b := Start(0, None, LockTimeout(c));
    var begun := SlowRunBegins(c);
    BudgetIsProduct(c, c.batchSize);
    var slow := SlowFailure(c, begun, b);
    Follow(c, begun, slow);
    var second := FastRunBegins(c, slow);
    var published := FastPublish(c, second, slow, b);
    Follow(c, second, published);
    SlowMarkUndoes(c, published, slow, b);
    var undone := Go(c, published, Mark(0, published.now));
  }

  /** Verdicts are final in every run of the polling system if and only if a full batch
      is recorded before its lease goes stale. */
  lemma LeaseBoundIsExact(c: Config)
    requires ValidConfig(c)
    ensures VerdictsFinal(c) <==> LeaseOutlivesRun(c)
  {
    if LeaseOutlivesRun(c) {
      forall states, steps, i: nat, j: nat | IsPollingRun(c, states, steps) && i <= j < |states|
        ensures Settled(states[i], states[j])
      {
        PollingSettles(c, states, steps, i, j);
      }
    } else {
      VerdictUndone(c);
    }
  }

  /** The values the service is shipped with. */
  const SHIPPED: Config := Config(50, 10, 30, 2000, 2000)

  /** They are outside the bound: a full batch may take 202 seconds, its lease 30. */
  lemma ShippedValuesUndoVerdicts()
    ensures ValidConfig(SHIPPED) && !VerdictsFinal(SHIPPED)
  {
    BudgetIsProduct(SHIPPED, SHIPPED.batchSize);
    assert BudgetMs(SHIPPED, SHIPPED.batchSize) == 202_000;
    LeaseBoundIsExact(SHIPPED);
  }
}
