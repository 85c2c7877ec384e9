/** reduce of lab/dradd.py, and the checks that `verify` of lab/research.py makes on its reports. */
module Reduction {
  import opened Bytes
  import opened Selection
  import opened Workload
  import opened Projection
  import opened Trials

  datatype Strategy = Single | Chunk | Legacy | Dependency | Reproduction | Dradd

  /** What the adapter says of a candidate: it may raise a ValueError, or break with another exception. */
  datatype Validation = Accepts | Refuses | Breaks

  /** The adapter. `validate` is given the number of the call and `execute` the seed of the trial, so that any sequence
      of outcomes is possible; `execute` yields None where the original raises. */
  datatype Target = Target(signature: string, validate: (nat, Source) -> Validation,
                           execute: (Source, int) -> Option<Trial>)

  datatype Policy = Policy(strategy: Strategy, trials: int, maxExecutions: int, maxCandidates: int,
                           threshold: real, lowerBound: Option<real>, seed: int, wilson: (nat, nat) -> real)
  {
    predicate Allowed() {
      && 1 <= trials <= 20 && 2 * trials <= maxExecutions <= 10000 && 1 <= maxCandidates <= 1000
      && 0.0 < threshold <= 1.0 && (lowerBound.Some? ==> 0.0 <= lowerBound.value <= 1.0)
    }

    predicate Guided() {
      strategy == Dependency || strategy == Dradd
    }

    predicate Repeated() {
      strategy == Reproduction || strategy == Dradd
    }

    function CandidateTrials(): (r: int) {
      if strategy == Dependency then 1 else trials
    }

    function DecisionThreshold(): (r: real) {
      if Repeated() then threshold else 1.0
    }

    function Bound(): (r: Option<real>) {
      if Repeated() then lowerBound else None
    }
  }

  datatype Job = Job(source: Source, target: Target, policy: Policy)
  {
    /** What `reduce` insists on before it runs anything. */
    ghost predicate Legal() {
      && Workload.Accepted(source) && target.validate(0, Project(source, All(|source.operations|))) == Accepts
      && policy.Allowed()
    }
  }

  /** Which policies are refused. */
  lemma RefusedPolicies(p: Policy)
    ensures !p.Allowed() <==>
      || p.trials <= 0 || 20 < p.trials || 10000 < p.maxExecutions || p.maxExecutions < p.trials + p.trials
      || p.maxCandidates <= 0 || 1000 < p.maxCandidates || p.threshold <= 0.0 || 1.0 < p.threshold
      || (p.lowerBound.Some? && (p.lowerBound.value < 0.0 || 1.0 < p.lowerBound.value))
  {
  }

  datatype Phase = Initial | Candidate | Confirmation

  datatype Group = Group(phase: Phase, ids: seq<int>, trials: seq<Trial>, statistics: Option<Statistics>,
                         accepted: bool, state: State)

  // ---------------------------------------------------------------- one group of replays

  function Observed(r: Option<Trial>): (out: Trial) {
    if r.Some? then r.value else Trial("environment", None)
  }

  /** `n` fresh executions of the candidate, the first with number `first`. */
  function TrialsOf(job: Job, keep: seq<int>, first: int, n: nat): (t: seq<Trial>)
    requires Shaped(job.source) && ValidKeep(job.source, keep)
    ensures |t| == n
  {
    seq(n, i => Observed(job.target.execute(Project(job.source, keep), job.policy.seed + first + i)))
  }

  predicate AcceptedAt(job: Job, keep: seq<int>, first: int, n: nat, rate: real)
    requires Shaped(job.source) && ValidKeep(job.source, keep)
  {
    Trials.Accepted(Summary(TrialsOf(job, keep, first, n), job.target.signature), n, rate,
                    job.policy.Bound(), job.policy.wilson)
  }

  function GroupOf(job: Job, phase: Phase, keep: seq<int>, first: int, n: nat, rate: real): (r: Group)
    requires Shaped(job.source) && ValidKeep(job.source, keep)
  {
    var raw := TrialsOf(job, keep, first, n);
    var stats := Summary(raw, job.target.signature);
    var ok := AcceptedAt(job, keep, first, n, rate);
    Group(phase, keep, raw, Some(stats), ok, if ok then SuccessReproducer else Rejection(stats))
  }

  ghost predicate Deterministic(t: Target) {
    && (forall c, s1, s2 :: t.execute(c, s1) == t.execute(c, s2))
    && (forall c, k1, k2 :: t.validate(k1, c) == t.validate(k2, c))
  }

  predicate Reproduces(job: Job, keep: seq<int>)
    requires Shaped(job.source) && ValidKeep(job.source, keep)
  {
    var r := Observed(job.target.execute(Project(job.source, keep), job.policy.seed));
    Classify(r, job.target.signature) == Reproduced
  }

  predicate BoundMet(p: Policy, n: nat) {
    p.Bound().None? || p.wilson(n, n) >= p.Bound().value
  }

  /** On a deterministic target the decision about a candidate does not depend on when it is replayed. */
  lemma DeterministicGroup(job: Job, keep: seq<int>, first: int, n: nat, rate: real)
    requires Shaped(job.source) && ValidKeep(job.source, keep)
    requires Deterministic(job.target) && n > 0 && rate <= 1.0
    ensures AcceptedAt(job, keep, first, n, rate) <==> Reproduces(job, keep) && BoundMet(job.policy, n)
  {
    hide Closed, Summary, Classify;
    var c := Project(job.source, keep);
    var all := TrialsOf(job, keep, first, n);
    var one := Observed(job.target.execute(c, job.policy.seed));
    forall t | t in all ensures t == one {
      var i :| 0 <= i < n && all[i] == t;
      assert job.target.execute(c, job.policy.seed + first + i) == job.target.execute(c, job.policy.seed);
    }
    UnanimousGroup(all, job.target.signature, rate, job.policy.Bound(), job.policy.wilson,
                   Classify(one, job.target.signature));
  }

  lemma GroupFacts(job: Job, phase: Phase, keep: seq<int>, first: int, n: nat, rate: real)
    requires Shaped(job.source) && ValidKeep(job.source, keep)
    ensures var g := GroupOf(job, phase, keep, first, n, rate);
            && g.phase == phase && g.ids == keep && g.accepted == AcceptedAt(job, keep, first, n, rate)
            && g.statistics == Some(Summary(TrialsOf(job, keep, first, n), job.target.signature))
            && g.state == if g.accepted then SuccessReproducer else Rejection(g.statistics.value)
  {
  }

  // ---------------------------------------------------------------- deletions

  /** The current indexes without `width` of them, pruned when the strategy follows the dependencies. */
  function Without(job: Job, current: seq<int>, offset: nat, width: nat): (r: seq<int>)
    requires offset <= |current|
  {
    var rest := Deleted(current, offset, width);
    if job.policy.Guided() then Pruned(job.source, rest) else rest
  }

  lemma WithoutIsSmaller(job: Job, current: seq<int>, offset: nat, width: nat)
    requires Ascending(current) && InRange(|job.source.operations|, current) && offset < |current| && width > 0
    ensures |Without(job, current, offset, width)| < |current|
    ensures InRange(|job.source.operations|, Deleted(current, offset, width))
  {
    var rest := Deleted(current, offset, width);
    forall x | x in rest ensures x in current {
    }
    if job.policy.Guided() {
      var kept := Pruned(job.source, rest);
      assert forall x :: x in kept ==> x in rest;
      NotLonger(kept, rest);
    }
  }

  lemma {:induction false} NotLonger(a: seq<int>, b: seq<int>)
    requires Ascending(a) && forall x :: x in a ==> x in b
    ensures |a| <= |b|
  {
    if a == [] {
    } else {
      var x := a[|a| - 1];
      assert x in a;
      var i :| 0 <= i < |b| && b[i] == x;
      var shorter := b[..i] + b[i + 1..];
      forall y | y in a[..|a| - 1] ensures y in shorter {
        assert y in a && y != x;
      }
      NotLonger(a[..|a| - 1], shorter);
    }
  }

  /** Evaluation `number` may execute the candidate. */
  predicate Executable(job: Job, keep: seq<int>, number: nat)
    requires Shaped(job.source)
  {
    ValidKeep(job.source, keep) && job.target.validate(number, Project(job.source, keep)) == Accepts
  }

  /** Evaluation `number` of the candidate breaks with an exception of the adapter. */
  predicate BreaksOn(job: Job, keep: seq<int>, number: nat)
    requires Shaped(job.source)
  {
    ValidKeep(job.source, keep) && job.target.validate(number, Project(job.source, keep)) == Breaks
  }

  function Unexecuted(keep: seq<int>): (r: Group) {
    Group(Candidate, keep, [], None, false, InvalidCandidate)
  }

  /** The evidence of evaluation `number` about a candidate whose first execution has number `first`. */
  function Attempt(job: Job, keep: seq<int>, first: int, number: nat): (r: Group)
    requires Shaped(job.source) && job.policy.Allowed()
  {
    if Executable(job, keep, number)
    then GroupOf(job, Candidate, keep, first, job.policy.CandidateTrials(), job.policy.DecisionThreshold())
    else Unexecuted(keep)
  }

  /** The candidate was turned down, or would be in evaluation `number`. */
  predicate Refused(job: Job, keep: seq<int>, first: int, number: nat)
    requires Shaped(job.source) && job.policy.Allowed()
  {
    !Attempt(job, keep, first, number).accepted
  }

  /** Group `number` of the journal is a refusal of the candidate. */
  predicate RefusalAt(job: Job, groups: seq<Group>, keep: seq<int>, first: int, number: nat)
    requires Shaped(job.source) && job.policy.Allowed()
  {
    number < |groups| && groups[number] == Attempt(job, keep, first, number) && Refused(job, keep, first, number)
  }

  /** The journal holds a refusal of the candidate; the empty candidate needs none. */
  ghost predicate RefusedIn(job: Job, groups: seq<Group>, keep: seq<int>)
    requires Shaped(job.source) && job.policy.Allowed()
  {
    keep == [] || exists first, number: nat :: RefusalAt(job, groups, keep, first, number)
  }

  ghost predicate RefusedUpTo(job: Job, groups: seq<Group>, current: seq<int>, count: int)
    requires Shaped(job.source) && job.policy.Allowed()
  {
    forall o: nat :: o < count && o < |current| ==> RefusedIn(job, groups, Without(job, current, o, 1))
  }

  /** No single remaining operation can go: each such deletion was tried and refused. */
  ghost predicate OneMinimal(job: Job, groups: seq<Group>, current: seq<int>)
    requires Shaped(job.source) && job.policy.Allowed()
  {
    RefusedUpTo(job, groups, current, |current|)
  }

  lemma NoneRefused(job: Job, groups: seq<Group>, current: seq<int>)
    requires Shaped(job.source) && job.policy.Allowed()
    ensures RefusedUpTo(job, groups, current, 0)
  {
  }

  lemma RefusalsStay(job: Job, groups: seq<Group>, more: seq<Group>, current: seq<int>, count: int)
    requires Shaped(job.source) && job.policy.Allowed()
    requires RefusedUpTo(job, groups, current, count)
    ensures RefusedUpTo(job, groups + more, current, count)
  {
    hide Refused, Without, Attempt;
    forall o: nat | o < count && o < |current| ensures RefusedIn(job, groups + more, Without(job, current, o, 1)) {
      var keep := Without(job, current, o, 1);
      assert RefusedIn(job, groups, keep);
      if keep != [] {
        var first, number: nat :| RefusalAt(job, groups, keep, first, number);
        assert RefusalAt(job, groups + more, keep, first, number);
      }
    }
  }

  lemma OneMoreRefused(job: Job, groups: seq<Group>, current: seq<int>, o: nat, first: int)
    requires Shaped(job.source) && job.policy.Allowed() && o < |current| && RefusedUpTo(job, groups, current, o)
    requires Refused(job, Without(job, current, o, 1), first, |groups|)
    ensures RefusedUpTo(job, groups + [Attempt(job, Without(job, current, o, 1), first, |groups|)], current, o + 1)
  {
    hide Refused, Without, Attempt;
    var keep := Without(job, current, o, 1);
    var g := Attempt(job, keep, first, |groups|);
    RefusalsStay(job, groups, [g], current, o);
    assert RefusalAt(job, groups + [g], keep, first, |groups|);
  }

  /** For a deterministic target a refusal is final: the deletion is invalid, or it does not reproduce the failure. */
  lemma DeterministicRefusal(job: Job, keep: seq<int>, first: int, number: nat, later: nat)
    requires Shaped(job.source) && job.policy.Allowed() && Deterministic(job.target)
    requires Refused(job, keep, first, number) && Executable(job, keep, later)
    ensures !Reproduces(job, keep) || !BoundMet(job.policy, job.policy.CandidateTrials())
  {
    hide ValidKeep, AcceptedAt, Reproduces;
    assert Executable(job, keep, number);
    DeterministicGroup(job, keep, first, job.policy.CandidateTrials(), job.policy.DecisionThreshold());
  }

  /** Without any one of the operations (and what depends on it, for guided strategies) the workload is invalid or
      does not reproduce. */
  ghost predicate Irreducible(job: Job, current: seq<int>)
    requires Shaped(job.source)
  {
    forall o: nat, number: nat :: o < |current| && Executable(job, Without(job, current, o, 1), number) ==>
      !Reproduces(job, Without(job, current, o, 1))
  }

  /** For a deterministic target, refusing each deletion once shows that none can ever succeed. */
  lemma MinimalIsIrreducible(job: Job, groups: seq<Group>, current: seq<int>)
    requires Shaped(job.source) && job.policy.Allowed() && Deterministic(job.target)
    requires OneMinimal(job, groups, current) && BoundMet(job.policy, job.policy.trials)
    ensures Irreducible(job, current)
  {
    hide ValidKeep, Reproduces, Without, Deterministic, Refused, Attempt;
    forall o: nat, later: nat | o < |current| && Executable(job, Without(job, current, o, 1), later)
      ensures !Reproduces(job, Without(job, current, o, 1))
    {
      var keep := Without(job, current, o, 1);
      assert RefusedIn(job, groups, keep);
      var first, number: nat :| RefusalAt(job, groups, keep, first, number);
      DeterministicRefusal(job, keep, first, number, later);
    }
  }

  lemma NothingIsInvalid(job: Job, groups: seq<Group>, current: seq<int>)
    requires Shaped(job.source) && job.policy.Allowed() && |current| <= 1
    ensures OneMinimal(job, groups, current)
  {
    hide Attempt, Closed;
    forall o: nat | o < |current| ensures RefusedIn(job, groups, Without(job, current, o, 1)) {
      assert Deleted(current, o, 1) == [];
      PrunedNothing(job.source);
    }
  }

  lemma PrunedNothing(source: Source)
    ensures Pruned(source, []) == []
  {
    var r := Pruned(source, []);
    NotLonger(r, []);
  }

  // ---------------------------------------------------------------- the journal

  function Executed(groups: seq<Group>): (n: nat) {
    if groups == [] then 0
    else Executed(groups[..|groups| - 1])
         + if groups[|groups| - 1].state == InvalidCandidate then 0 else |groups[|groups| - 1].trials|
  }

  /** What `verify` demands of one group: nothing invalid is executed, and the statistics are those of the trials. */
  predicate GroupChecks(source: Source, signature: string, g: Group) {
    if g.state == InvalidCandidate then g.trials == []
    else ValidKeep(source, g.ids) && g.statistics == Some(Summary(g.trials, signature))
  }

  predicate Journal(source: Source, signature: string, groups: seq<Group>, executions: int) {
    && (forall i :: 0 <= i < |groups| ==> GroupChecks(source, signature, groups[i]))
    && executions == Executed(groups)
  }

  lemma JournalGrows(source: Source, signature: string, groups: seq<Group>, executions: int, g: Group)
    requires Journal(source, signature, groups, executions) && GroupChecks(source, signature, g)
    ensures Journal(source, signature, groups + [g], executions + |g.trials|)
  {
    assert (groups + [g])[..|groups|] == groups;
  }

  lemma JournalCounts(source: Source, signature: string, groups: seq<Group>, executions: int)
    requires Journal(source, signature, groups, executions)
    ensures executions == Executed(groups)
  {
  }

  lemma InvalidGroup(source: Source, signature: string, groups: seq<Group>, executions: int, g: Group)
    requires Journal(source, signature, groups, executions) && g.state == InvalidCandidate && g.trials == []
    ensures Journal(source, signature, groups + [g], executions)
  {
    JournalGrows(source, signature, groups, executions, g);
  }

  function Invalids(groups: seq<Group>): (n: nat)
    ensures n <= |groups|
  {
    if groups == [] then 0
    else Invalids(groups[..|groups| - 1]) + if groups[|groups| - 1].state == InvalidCandidate then 1 else 0
  }

  /** Every candidate evaluation is journaled, except one that a used-up execution budget stopped. */
  predicate Tally(groups: seq<Group>, attempts: int, invalid: int) {
    invalid == Invalids(groups) && attempts <= |groups| <= attempts + 1
  }

  lemma NoInvalids()
    ensures Invalids([]) == 0
  {
  }

  lemma OneMoreGroup(groups: seq<Group>, g: Group)
    ensures Invalids(groups + [g]) == Invalids(groups) + if g.state == InvalidCandidate then 1 else 0
  {
    assert (groups + [g])[..|groups|] == groups;
  }

  // ---------------------------------------------------------------- where groups come from

  /** What the search has arrived at after these groups: the indexes that were accepted last. */
  function Standing(n: nat, groups: seq<Group>): (ids: seq<int>) {
    if groups == [] then All(n)
    else
      var last := groups[|groups| - 1];
      if last.phase == Candidate && last.accepted then last.ids else Standing(n, groups[..|groups| - 1])
  }

  /** Where the deletion loop is after these groups, the first of which is the initial one. */
  function Place(job: Job, groups: seq<Group>): (c: Cursor) {
    if |groups| <= 1 then At(2, 0)
    else
      var last := |groups| - 1;
      var before := Place(job, groups[..last]);
      if groups[last].phase == Candidate && groups[last].accepted then Adopt(before)
      else Refuse(job.policy.strategy == Single, |Standing(|job.source.operations|, groups[..last])|, before)
  }

  /** `ids` are the current indexes without the window that is next, pruned when the strategy follows the
      dependencies. */
  predicate Tries(job: Job, c: Cursor, current: seq<int>, ids: seq<int>) {
    && |current| > 1 && c.At? && c.offset < |current|
    && ids == Without(job, current, c.offset, Width(job.policy.strategy == Single, |current|, c.granularity))
  }

  /** Group `k` is the evidence that its place in the search calls for: first the whole workload, then deletions from
      what was accepted last, at the end what the search has arrived at. */
  ghost predicate Genuine(job: Job, groups: seq<Group>, k: nat)
    requires Shaped(job.source) && job.policy.Allowed() && k < |groups|
  {
    var g, first, p := groups[k], Executed(groups[..k]), job.policy;
    var standing := Standing(|job.source.operations|, groups[..k]);
    match g.phase
    case Initial => k == 0 && ValidKeep(job.source, standing)
                    && g == GroupOf(job, Initial, standing, 0, p.trials, p.threshold)
    case Candidate =>
      0 < k && Tries(job, Place(job, groups[..k]), standing, g.ids) && g == Attempt(job, g.ids, first, k)
    case Confirmation => 0 < k == |groups| - 1 && ValidKeep(job.source, standing)
                         && g == GroupOf(job, Confirmation, standing, first, p.trials, p.threshold)
  }

  ghost predicate AllGenuine(job: Job, groups: seq<Group>)
    requires Shaped(job.source) && job.policy.Allowed()
  {
    forall k: nat :: k < |groups| ==> Genuine(job, groups, k)
  }

  /** The groups so far are those of a search that has arrived at `current`. */
  ghost predicate Arrived(job: Job, groups: seq<Group>, current: seq<int>)
    requires Shaped(job.source) && job.policy.Allowed()
  {
    && AllGenuine(job, groups) && current == Standing(|job.source.operations|, groups)
    && forall k :: 0 <= k < |groups| ==> groups[k].phase != Confirmation
  }

  lemma AttemptNames(job: Job, keep: seq<int>, first: int, number: nat)
    requires Shaped(job.source) && job.policy.Allowed()
    ensures Attempt(job, keep, first, number).phase == Candidate && Attempt(job, keep, first, number).ids == keep
  {
  }

  /** The deletion loop goes on with the verdict about the window that was next. */
  lemma PlaceMoves(job: Job, groups: seq<Group>, g: Group, keep: seq<int>, first: int, current: seq<int>)
    requires Shaped(job.source) && job.policy.Allowed() && Arrived(job, groups, current) && groups != []
    requires g == Attempt(job, keep, first, |groups|)
    ensures Place(job, groups + [g]) == if g.accepted then Adopt(Place(job, groups))
                                        else Refuse(job.policy.strategy == Single, |current|, Place(job, groups))
  {
    hide Standing, AllGenuine, Attempt;
    AttemptNames(job, keep, first, |groups|);
    assert (groups + [g])[..|groups|] == groups;
  }

  lemma StartsAtHalves(job: Job, groups: seq<Group>)
    ensures |groups| == 1 ==> Place(job, groups) == At(2, 0)
  {
  }

  lemma CandidateIsGenuine(job: Job, groups: seq<Group>, keep: seq<int>, current: seq<int>)
    requires Shaped(job.source) && job.policy.Allowed() && Arrived(job, groups, current) && groups != []
    requires Tries(job, Place(job, groups), current, keep)
    ensures Genuine(job, groups + [Attempt(job, keep, Executed(groups), |groups|)], |groups|)
  {
    hide Tries, Place, Executed, Attempt, AllGenuine, Standing;
    AttemptNames(job, keep, Executed(groups), |groups|);
    assert (groups + [Attempt(job, keep, Executed(groups), |groups|)])[..|groups|] == groups;
  }

  lemma InitialIsGenuine(job: Job)
    requires Shaped(job.source) && job.policy.Allowed() && ValidKeep(job.source, All(|job.source.operations|))
    ensures var all := All(|job.source.operations|);
            Arrived(job, [GroupOf(job, Initial, all, 0, job.policy.trials, job.policy.threshold)], all)
  {
    hide ValidKeep, TrialsOf, Summary, AcceptedAt;
    var all := All(|job.source.operations|);
    var groups := [GroupOf(job, Initial, all, 0, job.policy.trials, job.policy.threshold)];
    assert groups[..0] == [] && Genuine(job, groups, 0);
  }

  lemma ConfirmationIsGenuine(job: Job, groups: seq<Group>, current: seq<int>)
    requires Shaped(job.source) && job.policy.Allowed() && Arrived(job, groups, current) && groups != []
    requires ValidKeep(job.source, current)
    ensures var g := GroupOf(job, Confirmation, current, Executed(groups), job.policy.trials, job.policy.threshold);
            AllGenuine(job, groups + [g]) && Standing(|job.source.operations|, groups + [g]) == current
  {
    hide Executed, ValidKeep, TrialsOf, Summary, AcceptedAt, Attempt;
    var g := GroupOf(job, Confirmation, current, Executed(groups), job.policy.trials, job.policy.threshold);
    assert (groups + [g])[..|groups|] == groups;
    OneMoreGenuine(job, groups, g, current);
  }

  lemma OneMoreGenuine(job: Job, groups: seq<Group>, g: Group, current: seq<int>)
    requires Shaped(job.source) && job.policy.Allowed() && Arrived(job, groups, current)
    requires Genuine(job, groups + [g], |groups|)
    ensures AllGenuine(job, groups + [g])
    ensures g.phase != Confirmation ==>
      Arrived(job, groups + [g], if g.phase == Candidate && g.accepted then g.ids else current)
  {
    hide Attempt, GroupOf, Tries, Place, Executed, ValidKeep;
    var more := groups + [g];
    assert more[..|groups|] == groups;
    forall k: nat | k < |more| ensures Genuine(job, more, k) {
      if k < |groups| {
        assert Genuine(job, groups, k);
        assert more[..k] == groups[..k] && more[k] == groups[k];
      }
    }
  }

  datatype Report = Report(outcome: State, exhausted: bool, reduced: Source, confirmed: bool,
                           statistics: Statistics, attempts: nat, invalid: nat, executions: nat, groups: seq<Group>)

  function ReducedIds(r: Report): (out: seq<int>) {
    if r.reduced.originalIds.Some? then r.reduced.originalIds.value else []
  }

  lemma ReportedIds(source: Source, keep: seq<int>, r: Report)
    requires Shaped(source) && ValidKeep(source, keep) && r.reduced == Project(source, keep)
    ensures r.reduced.originalIds.Some? && ReducedIds(r) == keep
  {
  }

  /** The per-job checks of `verify`. */
  ghost predicate PerJobChecks(source: Source, signature: string, maxExecutions: int, r: Report) {
    && Workload.Accepted(source) && r.reduced.originalIds.Some? && ValidKeep(source, ReducedIds(r))
    && Project(source, ReducedIds(r)) == r.reduced
    && Journal(source, signature, r.groups, r.executions) && r.executions <= maxExecutions
    && r.groups != [] && r.groups[|r.groups| - 1].statistics == Some(r.statistics)
    && (r.confirmed ==> r.groups[|r.groups| - 1].phase == Confirmation)
  }

  method VerifyJob(source: Source, signature: string, maxExecutions: int, r: Report) returns (ok: bool)
    ensures ok <==> PerJobChecks(source, signature, maxExecutions, r)
  {
    hide GroupChecks, Workload.Accepted, ValidKeep;
    var accepted := Construct(source);
    if accepted.None? || r.reduced.originalIds.None? {
      return false;
    }
    WellFormedFromAccepted(source);
    if !ValidKeep(source, ReducedIds(r)) || Project(source, ReducedIds(r)) != r.reduced {
      return false;
    }
    var executions := 0;
    for i := 0 to |r.groups|
      invariant forall j :: 0 <= j < i ==> GroupChecks(source, signature, r.groups[j])
      invariant executions == Executed(r.groups[..i])
    {
      var fine := CheckGroup(source, signature, r.groups[i]);
      if !fine {
        return false;
      }
      assert r.groups[..i + 1][..i] == r.groups[..i];
      if r.groups[i].state != InvalidCandidate {
        executions := executions + |r.groups[i].trials|;
      }
    }
    assert r.groups[..|r.groups|] == r.groups;
    ok := executions == r.executions && executions <= maxExecutions
          && r.groups != [] && r.groups[|r.groups| - 1].statistics == Some(r.statistics)
          && (r.confirmed ==> r.groups[|r.groups| - 1].phase == Confirmation);
  }

  method CheckGroup(source: Source, signature: string, g: Group) returns (ok: bool)
    ensures ok <==> GroupChecks(source, signature, g)
  {
    if g.state == InvalidCandidate {
      return g.trials == [];
    }
    var s := TrialSummary(g.trials, signature);
    ok := ValidKeep(source, g.ids) && g.statistics == Some(s);
  }

  lemma WellFormedFromAccepted(source: Source)
    requires Workload.Accepted(source)
    ensures WellFormed(source)
  {
  }

  /** Illegal stands for the ValueError of `reduce`. Broken stands for an exception of the adapter that it lets through,
      raised on the candidate `keep` when the groups so far were journaled. */
  datatype Answer = Illegal | Broken(keep: seq<int>, groups: seq<Group>) | Done(report: Report)

  /** The very evaluation that ended the search broke: the first one, of the whole workload, or the one after these
      groups, which begin with the replays of the whole workload and pass the checks of `verify`. */
  ghost predicate BrokenBy(job: Job, keep: seq<int>, groups: seq<Group>)
    requires Shaped(job.source)
  {
    var whole := All(|job.source.operations|);
    && ValidKeep(job.source, whole)
    && BreaksOn(job, keep, |groups|) && Journal(job.source, job.target.signature, groups, Executed(groups))
    && if groups == [] then keep == whole
       else
         && job.policy.Allowed() && |groups| <= job.policy.maxCandidates
         && groups[0] == GroupOf(job, Initial, whole, 0, job.policy.trials, job.policy.threshold)
         && AllGenuine(job, groups)
         && Tries(job, Place(job, groups), Standing(|job.source.operations|, groups), keep)
  }

  // ---------------------------------------------------------------- the search

  datatype Verdict = Adopted | Turned | OutOfBudget | Crashed

  /** The local state of one call of `reduce`. */
  class Search {
    const job: Job
    const required: seq<set<int>>
    var current: seq<int>
    var groups: seq<Group>
    var executions: int
    var attempts: nat
    var invalid: nat
    var exhausted: bool

    ghost predicate Valid()
      reads this
    {
      && job.Legal() && job.policy.Allowed() && Shaped(job.source)
      && required == RequiredTable(job.source, |job.source.dependencies|)
      && ValidKeep(job.source, current)
      && Journal(job.source, job.target.signature, groups, executions)
    }

    /** While searching, the trials of the final confirmation stay reserved. */
    ghost predicate Searching()
      reads this
    {
      && Valid() && groups != []
      && 0 <= executions && executions + job.policy.trials <= job.policy.maxExecutions
      && attempts <= job.policy.maxCandidates && Tally(groups, attempts, invalid) && Arrived(job, groups, current)
      && (Deterministic(job.target) ==> Reproduces(job, current) && BoundMet(job.policy, job.policy.trials))
    }

    /** One more candidate would be one too many, or its trials would use up those of the confirmation. */
    predicate UsedUp()
      reads this
    {
      || attempts >= job.policy.maxCandidates
      || executions + job.policy.CandidateTrials() + job.policy.trials > job.policy.maxExecutions
    }

    constructor (job: Job, required: seq<set<int>>)
      requires job.Legal() && required == RequiredTable(job.source, |job.source.dependencies|)
      ensures Valid() && this.job == job && this.required == required
      ensures current == All(|job.source.operations|) && groups == [] && executions == 0
      ensures attempts == 0 && invalid == 0 && !exhausted
    {
      hide ValidKeep, Cyclic, EdgesInRange, RequiredTable;
      this.job, this.required := job, required;
      current, groups, executions, attempts, invalid, exhausted := All(|job.source.operations|), [], 0, 0, 0, false;
      new;
      WholeIsValid(job.source);
    }

    method Replay(keep: seq<int>, phase: Phase, n: nat, rate: real) returns (ok: bool, stats: Statistics)
      requires Valid() && ValidKeep(job.source, keep)
      modifies this`groups, this`executions
      ensures Valid() && executions == old(executions) + n
      ensures groups == old(groups) + [GroupOf(job, phase, keep, old(executions), n, rate)]
      ensures ok == AcceptedAt(job, keep, old(executions), n, rate)
      ensures stats == Summary(TrialsOf(job, keep, old(executions), n), job.target.signature)
    {
      hide Closed, Summary, Journal, RequiredTable, Job.Legal, Project, ValidKeep, Shaped, Executed, Rejection;
      var candidate := Project(job.source, keep);
      var raw: seq<Trial> := [];
      for i := 0 to n
        invariant executions == old(executions) + i && groups == old(groups)
        invariant raw == TrialsOf(job, keep, old(executions), i)
      {
        var result := job.target.execute(candidate, job.policy.seed + executions);
        raw := raw + [Observed(result)];
        executions := executions + 1;
      }
      stats := TrialSummary(raw, job.target.signature);
      ok := Trials.Accepted(stats, n, rate, job.policy.Bound(), job.policy.wilson);
      var g := Group(phase, keep, raw, Some(stats), ok, if ok then SuccessReproducer else Rejection(stats));
      JournalGrows(job.source, job.target.signature, groups, old(executions), g);
      groups := groups + [g];
    }

    method RecordInvalid(keep: seq<int>)
      requires Searching() && |groups| == attempts && Tries(job, Place(job, groups), current, keep)
      requires !Executable(job, keep, attempts)
      modifies this`invalid, this`groups
      ensures Searching() && groups == old(groups) + [Unexecuted(keep)]
    {
      hide ValidKeep, Shaped, Reproduces, BoundMet, RequiredTable, Journal, Workload.Accepted, Deterministic,
        GroupChecks, Invalids, Executable, Tries, Place, Executed, Arrived, Job.Legal, Policy.Allowed, Standing,
        Project;
      var g := Unexecuted(keep);
      CandidateIsGenuine(job, groups, keep, current);
      OneMoreGenuine(job, groups, g, current);
      InvalidGroup(job.source, job.target.signature, groups, executions, g);
      OneMoreGroup(groups, g);
      invalid, groups := invalid + 1, groups + [g];
    }

    /** One candidate of the sweep: adopt it, refuse it, find the execution budget used up, or see the adapter break. */
    method Consider(keep: seq<int>) returns (verdict: Verdict)
      requires Searching() && !exhausted && attempts < job.policy.maxCandidates && |groups| == attempts + 1
      requires Tries(job, Place(job, groups), current, keep)
      modifies this
      ensures Searching() && attempts == old(attempts) + 1
      ensures exhausted <==> verdict == OutOfBudget
      ensures verdict == Crashed <==> BreaksOn(job, keep, attempts)
      ensures verdict == OutOfBudget <==>
        Executable(job, keep, attempts)
        && old(executions) + job.policy.CandidateTrials() + job.policy.trials > job.policy.maxExecutions
      ensures verdict == OutOfBudget ==> executions == old(executions)
      ensures groups == old(groups) + if verdict == OutOfBudget || verdict == Crashed then []
                                      else [Attempt(job, keep, old(executions), attempts)]
      ensures verdict == Adopted <==>
        verdict != OutOfBudget && verdict != Crashed && Attempt(job, keep, old(executions), attempts).accepted
      ensures current == if verdict == Adopted then keep else old(current)
    {
      hide ValidKeep, Shaped, InRange, Reproduces, BoundMet, AcceptedAt, GroupOf, RequiredTable, Journal,
        Workload.Accepted, Deterministic, GroupChecks, Project, Summary, TrialsOf, Executed, Invalids, Tries, Place,
        Arrived;
      attempts := attempts + 1;
      if !ValidKeep(job.source, keep) {
        RecordInvalid(keep);
        return Turned;
      }
      match job.target.validate(attempts, Project(job.source, keep)) {
        case Breaks => return Crashed;
        case Refuses =>
          RecordInvalid(keep);
          return Turned;
        case Accepts =>
      }
      if executions + job.policy.CandidateTrials() + job.policy.trials > job.policy.maxExecutions {
        exhausted := true;
        return OutOfBudget;
      }
      ghost var first, before, was := executions, groups, current;
      JournalCounts(job.source, job.target.signature, groups, executions);
      CandidateIsGenuine(job, groups, keep, current);
      GroupFacts(job, Candidate, keep, first, job.policy.CandidateTrials(), job.policy.DecisionThreshold());
      OneMoreGroup(groups, Attempt(job, keep, first, attempts));
      var ok, _ := Replay(keep, Candidate, job.policy.CandidateTrials(), job.policy.DecisionThreshold());
      OneMoreGenuine(job, before, Attempt(job, keep, first, attempts), was);
      if !ok {
        return Turned;
      }
      if Deterministic(job.target) {
        DeterministicGroup(job, keep, first, job.policy.CandidateTrials(), job.policy.DecisionThreshold());
      }
      current := keep;
      verdict := Adopted;
    }

    /** Try to delete each window of `width` operations until a deletion is accepted or a budget runs out. */
    method Sweep(width: nat, ghost granularity: nat) returns (changed: bool, broken: Option<seq<int>>)
      requires Searching() && !exhausted && width > 0 && |groups| == attempts + 1 && |current| > 1
      requires width == Width(job.policy.strategy == Single, |current|, granularity)
      requires Place(job, groups) == At(granularity, 0)
      modifies this
      ensures Searching() && groups[0] == old(groups[0])
      ensures broken.Some? ==> BreaksOn(job, broken.value, |groups|) && |groups| == attempts && !changed
      ensures broken.Some? ==> Tries(job, Place(job, groups), current, broken.value)
      ensures broken.None? && !exhausted ==> |groups| == attempts + 1
      ensures broken.None? && !exhausted ==>
        Place(job, groups) == if changed then At(Max(2, granularity - 1), 0)
                              else Position(job.policy.strategy == Single, |current|, granularity, |current|)
      ensures exhausted ==> UsedUp() && Place(job, groups).At?
      ensures changed ==> |current| < |old(current)| && !exhausted
      ensures !changed ==> current == old(current)
      ensures !changed && broken.None? && !exhausted && width == 1 ==> OneMinimal(job, groups, current)
    {
      hide ValidKeep, Shaped, InRange, Reproduces, BoundMet, Without, RefusedUpTo, Attempt, Executable,
        RequiredTable, Journal, Invalids, Job.Legal, Policy.Allowed, Arrived, Tries, Place, BreaksOn, Deterministic,
        Width;
      var size := |current|;
      var offset: nat := 0;
      NoneRefused(job, groups, current);
      while offset < size
        invariant Searching() && groups[0] == old(groups[0]) && current == old(current)
        invariant !exhausted && |groups| == attempts + 1
        invariant Place(job, groups) == Position(job.policy.strategy == Single, size, granularity, offset)
        invariant width == 1 ==> offset <= size && RefusedUpTo(job, groups, current, offset)
        decreases size - offset
      {
        if attempts >= job.policy.maxCandidates {
          exhausted := true;
          return false, None;
        }
        var keep := Delete(offset, width, granularity);
        ghost var before, first := groups, executions;
        PlaceMoves(job, groups, Attempt(job, keep, first, |groups|), keep, first, current);
        var verdict := Consider(keep);
        assert verdict == Crashed || verdict == OutOfBudget ==> groups == before;
        if verdict != Turned {
          return verdict == Adopted, if verdict == Crashed then Some(keep) else None;
        }
        if width == 1 {
          OneMoreRefused(job, before, current, offset, first);
        }
        offset := offset + width;
      }
      changed, broken := false, None;
    }

    method Delete(offset: nat, width: nat, ghost granularity: nat) returns (keep: seq<int>)
      requires Searching() && offset < |current| && |current| > 1 && width > 0
      requires width == Width(job.policy.strategy == Single, |current|, granularity)
      requires Place(job, groups) == At(granularity, offset)
      ensures keep == Without(job, current, offset, width) && |keep| < |current|
      ensures Tries(job, Place(job, groups), current, keep)
    {
      WithoutIsSmaller(job, current, offset, width);
      keep := Deleted(current, offset, width);
      if job.policy.Guided() {
        keep := Prune(job.source, required, keep);
      }
    }

    /** The deletion loop: halve the windows until single deletions fail or a budget runs out. */
    method Shrink() returns (broken: Option<seq<int>>)
      requires Searching() && !exhausted && |groups| == attempts + 1 == 1
      modifies this
      ensures Searching() && groups[0] == old(groups[0])
      ensures broken.Some? ==> BreaksOn(job, broken.value, |groups|) && |groups| == attempts
      ensures broken.Some? ==> Tries(job, Place(job, groups), current, broken.value)
      ensures broken.None? && !exhausted ==> |groups| == attempts + 1
      ensures broken.None? && !exhausted ==> |current| <= 1 || Place(job, groups).Finished?
      ensures exhausted ==> UsedUp() && |current| > 1 && Place(job, groups).At?
      ensures broken.None? && !exhausted ==> OneMinimal(job, groups, current)
    {
      hide ValidKeep, Shaped, InRange, Reproduces, BoundMet, OneMinimal, RequiredTable, Journal, Workload.Accepted,
        Invalids, Tries, Place, Arrived, BreaksOn, Job.Legal, Policy.Allowed, Deterministic;
      StartsAtHalves(job, groups);
      var granularity := 2;
      while |current| > 1
        invariant Searching() && groups[0] == old(groups[0]) && granularity >= 2
        invariant Place(job, groups) == At(granularity, 0)
        invariant !exhausted && |groups| == attempts + 1
        decreases |current|, |current| - granularity
      {
        var size := |current|;
        var width := if job.policy.strategy == Single then 1 else (size + granularity - 1) / granularity;
        WindowWidth(size, granularity);
        var changed;
        changed, broken := Sweep(width, granularity);
        if broken.Some? || exhausted {
          return;
        }
        if changed {
          granularity := Max(2, granularity - 1);
        } else {
          if job.policy.strategy == Single || granularity >= size {
            return None;
          }
          granularity := Min(size, granularity * 2);
        }
      }
      NothingIsInvalid(job, groups, current);
      broken := None;
    }

    /** The whole search; an exception of the adapter ends it. */
    method Run() returns (r: Answer)
      requires Valid() && current == All(|job.source.operations|) && groups == [] && executions == 0
      requires attempts == 0 && invalid == 0 && !exhausted
      modifies this
      ensures !r.Illegal?
      ensures r.Broken? ==> r.groups != [] && BrokenBy(job, r.keep, r.groups)
      ensures r.Done? ==> PerJobChecks(job.source, job.target.signature, job.policy.maxExecutions, r.report)
      ensures r.Done? ==> Within(job.policy, r.report) && Decided(job, r.report)
    {
      hide ValidKeep, Shaped, InRange, RefusedUpTo, RequiredTable, Journal, GroupOf, AcceptedAt, Rejection, Summary,
        TrialsOf, Deterministic, Reproduces, BoundMet, Irreducible, Workload.Accepted, Invalids, Genuine, Executed,
        Standing, Tries, BreaksOn, GroupChecks, Project, ReducedIds, AllGenuine, Place;
      GroupFacts(job, Initial, current, 0, job.policy.trials, job.policy.threshold);
      OneMoreGroup(groups, GroupOf(job, Initial, current, 0, job.policy.trials, job.policy.threshold));
      assert Invalids([]) == 0 by {
        NoInvalids();
      }
      var ok, stats := Replay(current, Initial, job.policy.trials, job.policy.threshold);
      assert groups == [GroupOf(job, Initial, current, 0, job.policy.trials, job.policy.threshold)];
      InitialIsGenuine(job);
      var confirmed := false;
      if ok {
        if Deterministic(job.target) {
          DeterministicGroup(job, current, 0, job.policy.trials, job.policy.threshold);
        }
        var broken := Shrink();
        if broken.Some? {
          JournalCounts(job.source, job.target.signature, groups, executions);
          return Broken(broken.value, groups);
        }
        if Deterministic(job.target) {
          DeterministicGroup(job, current, executions, job.policy.trials, job.policy.threshold);
          if !exhausted {
            MinimalIsIrreducible(job, groups, current);
          }
        }
        JournalCounts(job.source, job.target.signature, groups, executions);
        ConfirmationIsGenuine(job, groups, current);
        OneMoreGroup(groups, GroupOf(job, Confirmation, current, executions, job.policy.trials, job.policy.threshold));
        if !exhausted {
          RefusalsStay(job, groups, [GroupOf(job, Confirmation, current, executions, job.policy.trials,
                                             job.policy.threshold)], current, |current|);
        }
        GroupFacts(job, Confirmation, current, executions, job.policy.trials, job.policy.threshold);
        confirmed, stats := Replay(current, Confirmation, job.policy.trials, job.policy.threshold);
      }
      var report := Report(if confirmed then SuccessReproducer else Rejection(stats), exhausted,
                           Project(job.source, current), confirmed, stats, attempts, invalid, executions, groups);
      ReportedIds(job.source, current, report);
      r := Done(report);
    }
  }

  predicate Within(p: Policy, r: Report) {
    && r.executions <= p.maxExecutions && r.attempts <= p.maxCandidates
    && r.invalid == Invalids(r.groups)
  }

  /** What a report says about its job: it starts with the replays of the whole workload; unless those fail it ends
      with the reserved confirmation of the reduced one, which decides the outcome, and has one group per candidate
      in between; and a search that was not cut off has left nothing that could go. */
  ghost predicate Decided(job: Job, r: Report)
    requires job.Legal() && r.groups != []
  {
    && ValidKeep(job.source, ReducedIds(r)) && ValidKeep(job.source, All(|job.source.operations|))
    && AllGenuine(job, r.groups) && ReducedIds(r) == Standing(|job.source.operations|, r.groups)
    && var last := r.groups[|r.groups| - 1];
    var p := job.policy;
    && r.groups[0] == GroupOf(job, Initial, All(|job.source.operations|), 0, p.trials, p.threshold)
    && (!r.groups[0].accepted ==>
          |r.groups| == 1 && r.attempts == 0 && ReducedIds(r) == All(|job.source.operations|) && !r.exhausted)
    && (r.groups[0].accepted ==>
          && last == GroupOf(job, Confirmation, ReducedIds(r), r.executions - p.trials, p.trials, p.threshold)
          && r.attempts + 1 <= |r.groups| <= r.attempts + 2
          && (!r.exhausted ==> |r.groups| == r.attempts + 2 && OneMinimal(job, r.groups, ReducedIds(r)))
          && (r.exhausted <==> |ReducedIds(r)| > 1 && Place(job, r.groups[..|r.groups| - 1]).At?)
          && (r.exhausted ==> r.attempts == p.maxCandidates || r.executions + p.CandidateTrials() > p.maxExecutions))
    && (r.confirmed <==> last.phase == Confirmation && last.accepted) && r.outcome == last.state
    && (Deterministic(job.target) ==>
          && r.confirmed == r.groups[0].accepted
          && (r.confirmed && !r.exhausted ==> Irreducible(job, ReducedIds(r))))
  }

  // ---------------------------------------------------------------- what the evidence shows

  /** How many trials a group takes, what part of them has to reproduce, and which bound applies. */
  function GroupSize(p: Policy, phase: Phase): (n: int) {
    if phase == Candidate && p.strategy == Dependency then 1 else p.trials
  }

  function RequiredRate(p: Policy, phase: Phase): (rate: real) {
    if phase == Candidate && p.strategy in {Single, Chunk, Legacy, Dependency} then 1.0 else p.threshold
  }

  function RequiredBound(p: Policy): (bound: Option<real>) {
    if p.strategy in {Reproduction, Dradd} then p.lowerBound else None
  }

  /** The trials are what the adapter answered to `c`, with consecutive seeds from number `first` on. */
  predicate Answered(job: Job, c: Source, trials: seq<Trial>, first: nat) {
    forall i :: 0 <= i < |trials| ==>
      trials[i] == match job.target.execute(c, job.policy.seed + first + i)
                   case Some(t) => t
                   case None => Trial("environment", None)
  }

  function TrialsBefore(groups: seq<Group>, k: nat): (n: nat)
    requires k <= |groups|
  {
    if k == 0 then 0 else TrialsBefore(groups, k - 1) + |groups[k - 1].trials|
  }

  /** An executed group holds fresh answers of the adapter to a workload with exactly the operations it names, and is
      accepted if and only if enough of these answers reproduce the failure; otherwise it gives the reason. */
  ghost predicate ExecutedGroup(job: Job, g: Group, first: nat) {
    && |g.trials| == GroupSize(job.policy, g.phase) && 0 < |g.trials| <= 20
    && (exists c :: Holds(job.source, g.ids, c) && Answered(job, c, g.trials, first))
    && g.statistics == Some(Summary(g.trials, job.target.signature))
    && (g.accepted <==> MeetsRate(g.trials, job.target.signature, RequiredRate(job.policy, g.phase),
                                  RequiredBound(job.policy), job.policy.wilson))
    && g.state == (if g.accepted then SuccessReproducer else Reason(g.trials, job.target.signature))
  }

  /** A candidate that was not executed is invalid, or refused by the adapter in this very evaluation. */
  ghost predicate UnexecutedGroup(job: Job, g: Group, number: nat) {
    && g.phase == Candidate && g.trials == [] && !g.accepted && g.statistics == None
    && (ValidKeep(job.source, g.ids) ==>
          exists c :: Holds(job.source, g.ids, c) && job.target.validate(number, c) != Accepts)
  }

  ghost predicate Evidence(job: Job, groups: seq<Group>, k: nat)
    requires k < |groups|
  {
    if groups[k].state == InvalidCandidate then UnexecutedGroup(job, groups[k], k)
    else
      && ExecutedGroup(job, groups[k], TrialsBefore(groups, k))
      && (groups[k].phase == Candidate ==>
            exists c :: Holds(job.source, groups[k].ids, c) && job.target.validate(k, c) == Accepts)
  }

  lemma TrialsAreAnswers(job: Job, keep: seq<int>, first: nat, n: nat)
    requires Shaped(job.source) && ValidKeep(job.source, keep)
    ensures Answered(job, Project(job.source, keep), TrialsOf(job, keep, first, n), first)
  {
    hide Project, ValidKeep;
    var c, trials := Project(job.source, keep), TrialsOf(job, keep, first, n);
    forall i: nat | i < |trials| ensures trials[i] == Observed(job.target.execute(c, job.policy.seed + first + i)) {
    }
  }

  lemma GroupIsEvidence(job: Job, phase: Phase, keep: seq<int>, first: nat, n: nat, rate: real)
    requires Shaped(job.source) && ValidKeep(job.source, keep)
    requires job.policy.Allowed() && n == GroupSize(job.policy, phase) && rate == RequiredRate(job.policy, phase)
    ensures var g := GroupOf(job, phase, keep, first, n, rate);
            ExecutedGroup(job, g, first) && g.state != InvalidCandidate
  {
    hide ValidKeep, Summary, MeetsRate, Holds, Project, Trials.Accepted, Rejection, Reason;
    var g, c := GroupOf(job, phase, keep, first, n, rate), Project(job.source, keep);
    ProjectionIsExact(job.source, keep, c);
    assert Answered(job, c, g.trials, first) by {
      TrialsAreAnswers(job, keep, first, n);
    }
    AcceptedExactly(g.trials, job.target.signature, rate, job.policy.Bound(), job.policy.wilson);
    RejectionExactly(g.trials, job.target.signature);
  }

  lemma {:induction false} ExecutionsAreTrials(source: Source, signature: string, groups: seq<Group>, k: nat)
    requires k <= |groups| && forall i :: 0 <= i < |groups| ==> GroupChecks(source, signature, groups[i])
    ensures Executed(groups[..k]) == TrialsBefore(groups, k)
  {
    hide ValidKeep, Summary;
    if k == 0 {
    } else {
      ExecutionsAreTrials(source, signature, groups, k - 1);
      assert groups[..k][..k - 1] == groups[..k - 1];
      assert GroupChecks(source, signature, groups[k - 1]);
    }
  }

  lemma GenuineIsEvidence(job: Job, groups: seq<Group>, k: nat)
    requires Shaped(job.source) && job.policy.Allowed() && k < |groups| && Genuine(job, groups, k)
    requires Executed(groups[..k]) == TrialsBefore(groups, k)
    ensures Evidence(job, groups, k)
  {
    hide GroupOf, ExecutedGroup, ValidKeep, Executed, Tries, Place, Standing, Holds, Project;
    var g, first, p := groups[k], Executed(groups[..k]), job.policy;
    if g.phase != Candidate {
      var n := |job.source.operations|;
      GroupIsEvidence(job, g.phase, Standing(n, groups[..k]), first, p.trials, p.threshold);
    } else if Executable(job, g.ids, k) {
      GroupIsEvidence(job, Candidate, g.ids, first, p.CandidateTrials(), p.DecisionThreshold());
      ProjectionIsExact(job.source, g.ids, Project(job.source, g.ids));
    } else if ValidKeep(job.source, g.ids) {
      ProjectionIsExact(job.source, g.ids, Project(job.source, g.ids));
    }
  }

  /** `ids` were accepted by the last accepted candidate before group `k`, or are all when there is none. */
  ghost predicate AcceptedLast(n: nat, groups: seq<Group>, k: nat, ids: seq<int>)
    requires k <= |groups|
  {
    if exists j :: 0 <= j < k && Adopts(groups[j])
    then exists j :: 0 <= j < k && Adopts(groups[j]) && ids == groups[j].ids
                     && forall i :: j < i < k ==> !Adopts(groups[i])
    else ids == All(n)
  }

  predicate Adopts(g: Group) {
    g.phase == Candidate && g.accepted
  }

  lemma {:induction false} StandingExactly(n: nat, groups: seq<Group>, k: nat)
    requires k <= |groups|
    ensures AcceptedLast(n, groups, k, Standing(n, groups[..k]))
  {
    if k == 0 {
    } else {
      assert groups[..k][..k - 1] == groups[..k - 1];
      StandingExactly(n, groups, k - 1);
      assert Adopts(groups[k - 1]) ==> Standing(n, groups[..k]) == groups[k - 1].ids;
    }
  }

  /** The window that is next in the deletion loop is gone from the current indexes; guided strategies also drop what
      then lacks a prerequisite, and nothing else. */
  ghost predicate LeavesOut(job: Job, c: Cursor, current: seq<int>, ids: seq<int>) {
    && |current| > 1 && c.At? && c.offset < |current|
    && var end := c.offset + Width(job.policy.strategy == Single, |current|, c.granularity);
       var rest := current[..c.offset] + if end < |current| then current[end..] else [];
       if job.policy.strategy in {Dependency, Dradd}
       then Ascending(ids) && IsGreatestClosed(job.source, Members(rest), Members(ids)) else ids == rest
  }

  ghost predicate IsGreatestClosed(v: Source, all: set<int>, ids: set<int>) {
    ids <= all && Closed(v, ids) && forall c :: c <= all && Closed(v, c) ==> c <= ids
  }

  lemma DeletionExactly(job: Job, c: Cursor, current: seq<int>, ids: seq<int>)
    requires Tries(job, c, current, ids) && InRange(|job.source.operations|, current)
    ensures LeavesOut(job, c, current, ids)
  {
    hide Closed, PruneSet, Width;
    var width := Width(job.policy.strategy == Single, |current|, c.granularity);
    var end, rest := c.offset + width, Deleted(current, c.offset, width);
    assert rest == current[..c.offset] + if end < |current| then current[end..] else [];
    if job.policy.Guided() {
      PruneIsGreatest(job.source, Members(rest));
      forall x | x in rest ensures x in current {
      }
      assert Members(ids) == PruneSet(job.source, Members(rest));
    }
  }

  /** Where the indexes of group `k` come from. */
  ghost predicate Course(job: Job, groups: seq<Group>, k: nat)
    requires k < |groups|
  {
    var g, n := groups[k], |job.source.operations|;
    match g.phase
    case Initial => k == 0 && g.ids == All(n)
    case Candidate =>
      0 < k && exists current ::
        AcceptedLast(n, groups, k, current) && LeavesOut(job, Place(job, groups[..k]), current, g.ids)
    case Confirmation => 0 < k == |groups| - 1 && AcceptedLast(n, groups, k, g.ids)
  }

  lemma {:induction false} StandingInRange(job: Job, groups: seq<Group>, k: nat)
    requires Shaped(job.source) && job.policy.Allowed() && AllGenuine(job, groups) && k <= |groups|
    ensures InRange(|job.source.operations|, Standing(|job.source.operations|, groups[..k]))
  {
    hide Executed, Tries, Place, Summary, TrialsOf, AcceptedAt;
    if k == 0 {
    } else {
      StandingInRange(job, groups, k - 1);
      assert groups[..k][..k - 1] == groups[..k - 1];
      assert Genuine(job, groups, k - 1);
    }
  }

  lemma GenuineIsCourse(job: Job, groups: seq<Group>, k: nat)
    requires Shaped(job.source) && job.policy.Allowed() && AllGenuine(job, groups) && k < |groups|
    ensures Course(job, groups, k)
  {
    hide Executed, Tries, Place, Summary, TrialsOf, AcceptedAt, AcceptedLast, LeavesOut, ValidKeep;
    assert Genuine(job, groups, k);
    StandingExactly(|job.source.operations|, groups, k);
    StandingInRange(job, groups, k);
    if groups[k].phase == Candidate {
      DeletionExactly(job, Place(job, groups[..k]), Standing(|job.source.operations|, groups[..k]), groups[k].ids);
    } else if groups[k].phase == Initial {
      assert groups[..0] == [];
    }
  }

  /** The report rests on its evidence: where each group's indexes come from, which workload was executed and how often,
      and what follows from the answers; and the workload it delivers is the one that was accepted last. */
  ghost predicate Substantiated(job: Job, r: Report) {
    && r.groups != [] && (forall k: nat :: k < |r.groups| ==> Course(job, r.groups, k) && Evidence(job, r.groups, k))
    && AcceptedLast(|job.source.operations|, r.groups, |r.groups|, ReducedIds(r))
    && Holds(job.source, ReducedIds(r), r.reduced)
    && r.executions == TrialsBefore(r.groups, |r.groups|) <= 10000 && |r.groups| <= 1002
    && r.invalid == |UnexecutedIn(r.groups)|
    && var last := r.groups[|r.groups| - 1];
       (r.confirmed <==> last.phase == Confirmation && last.accepted)
       && (last.phase == Confirmation ==> last.ids == ReducedIds(r)) && r.outcome == last.state
       && (last.phase == Confirmation <==> r.groups[0].accepted) && (last.phase != Confirmation ==> |r.groups| == 1)
       && (r.exhausted <==> last.phase == Confirmation && |ReducedIds(r)| > 1
                            && Place(job, r.groups[..|r.groups| - 1]).At?)
       && (r.exhausted ==>
             || r.attempts == job.policy.maxCandidates
             || r.executions + GroupSize(job.policy, Candidate) > job.policy.maxExecutions)
  }

  function UnexecutedIn(groups: seq<Group>): (s: set<int>) {
    set k | 0 <= k < |groups| && groups[k].state == InvalidCandidate
  }

  lemma {:induction false} InvalidsAreUnexecuted(groups: seq<Group>)
    ensures Invalids(groups) == |UnexecutedIn(groups)|
  {
    if groups == [] {
    } else {
      var last := |groups| - 1;
      InvalidsAreUnexecuted(groups[..last]);
      var before := UnexecutedIn(groups[..last]);
      assert UnexecutedIn(groups) == before + if groups[last].state == InvalidCandidate then {last} else {};
    }
  }

  lemma DecidedIsSubstantiated(job: Job, r: Report)
    requires job.Legal() && PerJobChecks(job.source, job.target.signature, job.policy.maxExecutions, r)
    requires Decided(job, r) && Within(job.policy, r)
    ensures Substantiated(job, r)
  {
    hide Executed, Genuine, Evidence, Course, GroupChecks, ValidKeep, OneMinimal, Irreducible, Invalids,
      Deterministic, AcceptedLast, Summary, TrialsOf, AcceptedAt, Holds, Project;
    forall k: nat | k < |r.groups| ensures Course(job, r.groups, k) && Evidence(job, r.groups, k) {
      GenuineIsCourse(job, r.groups, k);
      ExecutionsAreTrials(job.source, job.target.signature, r.groups, k);
      GenuineIsEvidence(job, r.groups, k);
    }
    assert r.groups[..|r.groups|] == r.groups;
    ExecutionsAreTrials(job.source, job.target.signature, r.groups, |r.groups|);
    InvalidsAreUnexecuted(r.groups);
    StandingExactly(|job.source.operations|, r.groups, |r.groups|);
    ProjectionIsExact(job.source, ReducedIds(r), r.reduced);
  }

  /** At least the required part of the trials reproduces, and all are conclusive; where no miss is tolerated all
      reproduce. */
  predicate Frequent(p: Policy, signature: string, g: Group) {
    var hits := |Hitting(g.trials, signature)|;
    var rate := if p.strategy in {Reproduction, Dradd} || g.phase == Confirmation then p.threshold else 1.0;
    && |g.trials| == (if g.phase == Candidate && p.strategy == Dependency then 1 else p.trials)
    && (forall t :: t in g.trials ==> Conclusive(t)) && hits > 0 && hits as real >= rate * |g.trials| as real
    && (p.strategy in {Single, Chunk, Legacy, Dependency} && g.phase == Candidate ==>
          forall t :: t in g.trials ==> Hits(t, signature))
  }

  lemma AcceptedIsFrequent(job: Job, g: Group, first: nat)
    requires ExecutedGroup(job, g, first) && g.accepted && g.phase != Initial
    ensures Frequent(job.policy, job.target.signature, g)
  {
    hide Hits, Conclusive, Hitting, Summary, Holds, Answered;
    var p := job.policy;
    if g.phase == Candidate && p.strategy in {Single, Chunk, Legacy, Dependency} {
      FullRate(g.trials, job.target.signature, RequiredBound(p), p.wilson);
    }
  }

  /** A confirmed report has the required part of its confirming trials reproduce, and so has every adopted candidate;
      these are trials of a workload with exactly the operations that the group names. */
  lemma ConfirmedIsFrequent(job: Job, r: Report, k: nat)
    requires Substantiated(job, r) && k < |r.groups|
    requires Adopts(r.groups[k]) || (r.confirmed && k == |r.groups| - 1)
    ensures Frequent(job.policy, job.target.signature, r.groups[k])
    ensures exists c :: Holds(job.source, r.groups[k].ids, c)
                        && Answered(job, c, r.groups[k].trials, TrialsBefore(r.groups, k))
  {
    hide Frequent, MeetsRate, Hits, Summary, Holds, Answered, Course;
    assert Evidence(job, r.groups, k);
    AcceptedIsFrequent(job, r.groups[k], TrialsBefore(r.groups, k));
  }

  method Reduce(job: Job) returns (r: Answer)
    ensures r.Illegal? <==>
      !job.Legal() && !(Workload.Accepted(job.source)
                        && job.target.validate(0, Project(job.source, All(|job.source.operations|))) == Breaks)
    ensures r.Done? ==> job.Legal()
    ensures r.Broken? ==> Workload.Accepted(job.source) && BrokenBy(job, r.keep, r.groups)
    ensures r.Broken? ==> (r.groups == [] <==> !job.Legal())
    ensures r.Done? ==> PerJobChecks(job.source, job.target.signature, job.policy.maxExecutions, r.report)
    ensures r.Done? ==> Within(job.policy, r.report) && Decided(job, r.report) && Substantiated(job, r.report)
  {
    var required := Construct(job.source);
    if required.None? {
      return Illegal;
    }
    WholeIsValid(job.source);
    match job.target.validate(0, Project(job.source, All(|job.source.operations|))) {
      case Refuses => return Illegal;
      case Breaks => return Broken(All(|job.source.operations|), []);
      case Accepts =>
    }
    if !job.policy.Allowed() {
      return Illegal;
    }
    var search := new Search(job, required.value);
    r := search.Run();
    if r.Done? {
      DecidedIsSubstantiated(job, r.report);
    }
  }
}
