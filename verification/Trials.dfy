/** trial_summary, accepted and rejection of lab/dradd.py: what a group of replays says. */
module Trials {
  import opened Bytes

  /** What an adapter reports: a status, and a signature when it is a string. */
  datatype Trial = Trial(status: string, signature: Option<string>)

  datatype Category = Reproduced | Passed | Different | TimedOut | Incomplete | Environment

  function Classify(t: Trial, signature: string): (r: Category) {
    if t.status == "fail" && t.signature.Some? then
      if t.signature.value == signature then Reproduced else Different
    else if t.status == "pass" then Passed
    else if t.status == "timeout" then TimedOut
    else if t.status == "environment" then Environment
    else Incomplete
  }

  datatype Statistics = Statistics(reproduced: nat, passed: nat, different: nat,
                                   timedOut: nat, incomplete: nat, environment: nat)
  {
    function Valid(): (r: nat) {
      reproduced + passed + different
    }

    function Bump(c: Category): (r: Statistics) {
      match c
      case Reproduced => this.(reproduced := reproduced + 1)
      case Passed => this.(passed := passed + 1)
      case Different => this.(different := different + 1)
      case TimedOut => this.(timedOut := timedOut + 1)
      case Incomplete => this.(incomplete := incomplete + 1)
      case Environment => this.(environment := environment + 1)
    }
  }

  function Count(trials: seq<Trial>, signature: string, c: Category): (n: nat)
    ensures n <= |trials|
    ensures n == |trials| <==> forall t :: t in trials ==> Classify(t, signature) == c
    ensures n == 0 <==> forall t :: t in trials ==> Classify(t, signature) != c
  {
    if trials == [] then 0
    else
      var last := |trials| - 1;
      assert trials == trials[..last] + [trials[last]];
      Count(trials[..last], signature, c) + if Classify(trials[last], signature) == c then 1 else 0
  }

  function Summary(trials: seq<Trial>, signature: string): (s: Statistics) {
    Statistics(Count(trials, signature, Reproduced), Count(trials, signature, Passed),
               Count(trials, signature, Different), Count(trials, signature, TimedOut),
               Count(trials, signature, Incomplete), Count(trials, signature, Environment))
  }

  lemma {:induction false} CountStep(trials: seq<Trial>, t: Trial, signature: string, c: Category)
    ensures Count(trials + [t], signature, c)
            == Count(trials, signature, c) + if Classify(t, signature) == c then 1 else 0
  {
    assert (trials + [t])[..|trials|] == trials;
  }

  lemma SummaryStep(trials: seq<Trial>, t: Trial, signature: string)
    ensures Summary(trials + [t], signature) == Summary(trials, signature).Bump(Classify(t, signature))
  {
    hide Count, Classify;
    CountStep(trials, t, signature, Reproduced);
    CountStep(trials, t, signature, Passed);
    CountStep(trials, t, signature, Different);
    CountStep(trials, t, signature, TimedOut);
    CountStep(trials, t, signature, Incomplete);
    CountStep(trials, t, signature, Environment);
  }

  lemma NoTrials(signature: string)
    ensures Summary([], signature) == Statistics(0, 0, 0, 0, 0, 0)
  {
  }

  method TrialSummary(trials: seq<Trial>, signature: string) returns (s: Statistics)
    ensures s == Summary(trials, signature)
  {
    hide Summary, Classify;
    s := Statistics(0, 0, 0, 0, 0, 0);
    assert s == Summary(trials[..0], signature) by {
      NoTrials(signature);
    }
    for i := 0 to |trials|
      invariant s == Summary(trials[..i], signature)
    {
      assert trials[..i + 1] == trials[..i] + [trials[i]];
      SummaryStep(trials[..i], trials[i], signature);
      s := s.Bump(Classify(trials[i], signature));
    }
    assert trials[..|trials|] == trials;
  }

  /** Every trial is counted exactly once. */
  lemma {:induction false} EveryTrialIsCounted(trials: seq<Trial>, signature: string)
    ensures var s := Summary(trials, signature);
            s.Valid() + s.timedOut + s.incomplete + s.environment == |trials|
  {
    hide Count, Classify, Summary;
    if trials == [] {
      NoTrials(signature);
    } else {
      var last := |trials| - 1;
      assert trials == trials[..last] + [trials[last]];
      EveryTrialIsCounted(trials[..last], signature);
      SummaryStep(trials[..last], trials[last], signature);
    }
  }

  /** `wilson` gives the lower end of the confidence interval; its arithmetic is not modelled. */
  predicate Accepted(s: Statistics, n: nat, threshold: real, lowerBound: Option<real>, wilson: (nat, nat) -> real) {
    && s.Valid() == n && s.reproduced > 0
    && s.reproduced as real / s.Valid() as real >= threshold
    && (lowerBound.None? || wilson(s.reproduced, s.Valid()) >= lowerBound.value)
  }

  datatype State = SuccessReproducer | TargetFailureNotReproduced | InvalidCandidate
                 | DifferentFailure | IncompleteExecution | EnvironmentError

  function Rejection(s: Statistics): (r: State)
    ensures r != SuccessReproducer && r != InvalidCandidate
  {
    if s.environment > 0 then EnvironmentError
    else if s.timedOut > 0 || s.incomplete > 0 then IncompleteExecution
    else if s.different > 0 then DifferentFailure
    else TargetFailureNotReproduced
  }

  /** Discarding inconclusive attempts cannot make a group acceptable: an accepted group of `n` consists of
      conclusive trials only. */
  lemma AcceptedIsConclusive(trials: seq<Trial>, signature: string)
    requires Summary(trials, signature).Valid() == |trials| && Summary(trials, signature).reproduced > 0
    ensures forall t :: t in trials ==> Classify(t, signature) in {Reproduced, Passed, Different}
    ensures exists t :: t in trials && Classify(t, signature) == Reproduced
  {
    hide Count, Classify;
    EveryTrialIsCounted(trials, signature);
  }

  /** The trial fails with the target signature. */
  predicate Hits(t: Trial, signature: string) {
    t.status == "fail" && t.signature == Some(signature)
  }

  /** The trial passes or fails with a signature. */
  predicate Conclusive(t: Trial) {
    t.status == "pass" || (t.status == "fail" && t.signature.Some?)
  }

  /** Which trials fall into a category. */
  function Of(trials: seq<Trial>, signature: string, c: Category): (s: set<int>) {
    set i | 0 <= i < |trials| && Classify(trials[i], signature) == c
  }

  lemma OfMore(trials: seq<Trial>, t: Trial, signature: string, c: Category)
    ensures var before := Of(trials, signature, c);
            Of(trials + [t], signature, c) == if Classify(t, signature) == c then before + {|trials|} else before
  {
    hide Classify;
    forall i | 0 <= i < |trials| ensures (trials + [t])[i] == trials[i] {
    }
  }

  lemma {:induction false} CountIsCardinality(trials: seq<Trial>, signature: string, c: Category)
    ensures Count(trials, signature, c) == |Of(trials, signature, c)|
  {
    hide Classify;
    if trials == [] {
      assert Of([], signature, c) == {};
    } else {
      var last := |trials| - 1;
      assert trials == trials[..last] + [trials[last]];
      CountIsCardinality(trials[..last], signature, c);
      OfMore(trials[..last], trials[last], signature, c);
      CountStep(trials[..last], trials[last], signature, c);
    }
  }

  /** What each category means, and that the summary counts the trials of each. */
  lemma SummaryExactly(trials: seq<Trial>, signature: string)
    ensures var s := Summary(trials, signature);
            && s.reproduced == |Of(trials, signature, Reproduced)| && s.passed == |Of(trials, signature, Passed)|
            && s.different == |Of(trials, signature, Different)| && s.timedOut == |Of(trials, signature, TimedOut)|
            && s.incomplete == |Of(trials, signature, Incomplete)|
            && s.environment == |Of(trials, signature, Environment)|
    ensures forall t: Trial :: && (Classify(t, signature) == Reproduced <==> Hits(t, signature))
                               && (Classify(t, signature) == Passed <==> t.status == "pass")
                               && (Classify(t, signature) == Different <==>
                                     t.status == "fail" && t.signature.Some? && t.signature != Some(signature))
                               && (Classify(t, signature) == TimedOut <==> t.status == "timeout")
                               && (Classify(t, signature) == Environment <==> t.status == "environment")
  {
    CountIsCardinality(trials, signature, Reproduced);
    CountIsCardinality(trials, signature, Passed);
    CountIsCardinality(trials, signature, Different);
    CountIsCardinality(trials, signature, TimedOut);
    CountIsCardinality(trials, signature, Incomplete);
    CountIsCardinality(trials, signature, Environment);
  }

  function Hitting(trials: seq<Trial>, signature: string): (s: set<int>) {
    set i | 0 <= i < |trials| && Hits(trials[i], signature)
  }

  lemma HittingIsReproduced(trials: seq<Trial>, signature: string)
    ensures Count(trials, signature, Reproduced) == |Hitting(trials, signature)|
  {
    CountIsCardinality(trials, signature, Reproduced);
    assert Hitting(trials, signature) == Of(trials, signature, Reproduced);
  }

  /** What the decision asks of the trials themselves: all are conclusive, at least one and at least the required part
      of them fail with the target signature, and the bound, if there is one, is met. */
  predicate MeetsRate(trials: seq<Trial>, signature: string, rate: real, lowerBound: Option<real>,
                      wilson: (nat, nat) -> real)
  {
    var hits := |Hitting(trials, signature)|;
    && (forall t :: t in trials ==> Conclusive(t))
    && hits > 0 && hits as real >= rate * |trials| as real
    && (lowerBound.None? || wilson(hits, |trials|) >= lowerBound.value)
  }

  lemma ConclusiveTrials(trials: seq<Trial>, signature: string)
    ensures Summary(trials, signature).Valid() == |trials| <==> forall t :: t in trials ==> Conclusive(t)
  {
    hide Count;
    EveryTrialIsCounted(trials, signature);
    forall t | t in trials
      ensures Conclusive(t) <==> Classify(t, signature) !in {TimedOut, Incomplete, Environment}
    {
    }
  }

  lemma Quotient(a: real, b: real, rate: real)
    requires b > 0.0
    ensures a / b >= rate <==> a >= rate * b
  {
    assert a == (a / b) * b;
    if a / b >= rate {
      assert (a / b - rate) * b >= 0.0;
    } else {
      assert (rate - a / b) * b > 0.0;
    }
  }

  /** The decision about a group of trials, read off the trials. */
  lemma AcceptedExactly(trials: seq<Trial>, signature: string, rate: real, lowerBound: Option<real>,
                        wilson: (nat, nat) -> real)
    ensures Accepted(Summary(trials, signature), |trials|, rate, lowerBound, wilson)
            <==> MeetsRate(trials, signature, rate, lowerBound, wilson)
  {
    hide Count, Classify, Conclusive, Hitting;
    var s := Summary(trials, signature);
    ConclusiveTrials(trials, signature);
    HittingIsReproduced(trials, signature);
    if s.Valid() == |trials| > 0 {
      Quotient(s.reproduced as real, |trials| as real, rate);
    }
  }

  /** With a required rate of 1 every trial has to reproduce. */
  lemma FullRate(trials: seq<Trial>, signature: string, lowerBound: Option<real>, wilson: (nat, nat) -> real)
    requires MeetsRate(trials, signature, 1.0, lowerBound, wilson)
    ensures forall t :: t in trials ==> Hits(t, signature)
  {
    hide Hitting;
    HittingIsReproduced(trials, signature);
    assert Count(trials, signature, Reproduced) == |trials|;
    forall t | t in trials ensures Hits(t, signature) {
      assert Classify(t, signature) == Reproduced;
    }
  }

  /** Why a group is not accepted: the worst thing that happened in one of its trials. */
  ghost function Reason(trials: seq<Trial>, signature: string): (r: State) {
    if exists t :: t in trials && t.status == "environment" then EnvironmentError
    else if exists t :: t in trials && !Conclusive(t) then IncompleteExecution
    else if exists t :: t in trials && t.status == "fail" && !Hits(t, signature) then DifferentFailure
    else TargetFailureNotReproduced
  }

  /** The reason that is given for a rejection, read off the trials. */
  lemma RejectionExactly(trials: seq<Trial>, signature: string)
    ensures Rejection(Summary(trials, signature)) == Reason(trials, signature)
  {
    hide Count;
    var s := Summary(trials, signature);
    forall t | t in trials
      ensures Classify(t, signature) == Environment <==> t.status == "environment"
      ensures Classify(t, signature) in {TimedOut, Incomplete} <==> t.status != "environment" && !Conclusive(t)
      ensures Classify(t, signature) == Different <==>
                Conclusive(t) && t.status == "fail" && !Hits(t, signature)
    {
    }
  }

  /** A group whose trials all agree is accepted exactly when they reproduce and the interval is good enough. */
  lemma UnanimousGroup(trials: seq<Trial>, signature: string, threshold: real, lowerBound: Option<real>,
                       wilson: (nat, nat) -> real, c: Category)
    requires trials != [] && threshold <= 1.0 && forall t :: t in trials ==> Classify(t, signature) == c
    ensures Accepted(Summary(trials, signature), |trials|, threshold, lowerBound, wilson)
            <==> c == Reproduced && (lowerBound.None? || wilson(|trials|, |trials|) >= lowerBound.value)
  {
    hide Count, Classify;
    EveryTrialIsCounted(trials, signature);
    assert Classify(trials[0], signature) == c;
  }
}
