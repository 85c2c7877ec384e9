/** reduce_concurrent of lab/replay.py: deleting operations from a concurrent workload, each decision backed by
    repeated fresh trials. */
module Replay {
  import opened Bytes
  import opened Selection
  import opened Contract

  datatype Scenario = Scenario(capacity: int, operations: seq<Op>, owners: seq<int>)

  /** What one concurrent evaluation reports. */
  datatype Verdict = Passed | Failed(reason: Option<string>) | Inconclusive

  const NO_ORDERING := "no legal FIFO ordering"

  predicate Matches(v: Verdict) {
    v == Failed(Some(NO_ORDERING))
  }

  datatype Strategy = Single | Chunk

  /** The call that raised an exception: a trial of a candidate. */
  datatype Crash = Crash(trial: nat, scenario: Scenario)

  /** The evaluator is given the number of the group and of the trial, so that fresh trials may differ; None stands for
      an exception that it raises. */
  datatype Setup = Setup(evaluator: (nat, nat, Scenario) -> Option<Verdict>, workers: int, strategy: Strategy,
                         trials: int, budget: int, searchBudget: int)
  {
    predicate Allowed() {
      && 2 <= workers <= 4 && 1 <= trials <= 20 && 1 <= budget <= 100 && 1 <= searchBudget <= 100000
    }

    predicate Accepts(s: Scenario) {
      && ValidScenario(s.capacity, s.operations) && 1 <= |s.operations| <= 12
      && |s.owners| == |s.operations| && forall w :: w in s.owners ==> 0 <= w < workers
    }

    predicate Raises(group: nat, trial: nat, s: Scenario) {
      evaluator(group, trial, s).None?
    }

    /** The trials of a group in which nothing is raised. */
    function TrialsOf(group: nat, s: Scenario): (t: seq<Verdict>)
      ensures |t| == if trials > 0 then trials else 0
    {
      seq(if trials > 0 then trials else 0,
          i requires i >= 0 => if Raises(group, i, s) then Inconclusive else evaluator(group, i, s).value)
    }

    /** No trial of the group raises. */
    predicate Quiet(group: nat, s: Scenario) {
      forall i: nat :: i < trials ==> !Raises(group, i, s)
    }

    /** The group is cut short by an exception of this trial, the first one. */
    predicate CutShort(group: nat, c: Crash) {
      c.trial < trials && Raises(group, c.trial, c.scenario)
      && forall i: nat :: i < c.trial ==> !Raises(group, i, c.scenario)
    }

    /** Every fresh trial of the group fails the same contract. */
    predicate Holds(group: nat, s: Scenario) {
      forall t :: t in TrialsOf(group, s) ==> Matches(t)
    }

    ghost predicate Deterministic() {
      forall g1, i1, g2, i2, s :: evaluator(g1, i1, s) == evaluator(g2, i2, s)
    }
  }

  /** Which calls are refused. */
  lemma RefusedSetups(setup: Setup, s: Scenario)
    ensures !(setup.Allowed() && setup.Accepts(s)) <==>
      || setup.workers < 2 || 4 < setup.workers || setup.trials < 1 || 20 < setup.trials
      || setup.budget < 1 || 100 < setup.budget || setup.searchBudget < 1 || 100000 < setup.searchBudget
      || s.operations == [] || 12 < |s.operations| || !ValidScenario(s.capacity, s.operations)
      || |s.owners| != |s.operations| || exists w :: w in s.owners && (w < 0 || setup.workers <= w)
  {
  }

  lemma DeterministicHolds(setup: Setup, g1: nat, g2: nat, s: Scenario)
    requires setup.Deterministic()
    ensures setup.Holds(g1, s) == setup.Holds(g2, s)
  {
    forall i: nat ensures setup.evaluator(g1, i, s) == setup.evaluator(g2, i, s) {
    }
    assert setup.TrialsOf(g1, s) == setup.TrialsOf(g2, s);
  }

  /** Delete a window of operations together with their owners. */
  function Shortened(s: Scenario, start: nat, width: nat): (r: Scenario) {
    if start <= |s.operations| && start <= |s.owners|
    then Scenario(s.capacity, Deleted(s.operations, start, width), Deleted(s.owners, start, width))
    else s
  }

  /** `s` keeps some of the operations of `whole`, in their order and with their workers. */
  ghost predicate Kept(s: Scenario, whole: Scenario) {
    exists keep :: KeptBy(s, whole, keep)
  }

  predicate KeptBy(s: Scenario, whole: Scenario, keep: seq<int>) {
    && |whole.owners| == |whole.operations| && Ascending(keep) && InRange(|whole.operations|, keep)
    && s == Scenario(whole.capacity, Select(whole.operations, keep), Select(whole.owners, keep))
  }

  lemma KeptItself(s: Scenario)
    requires |s.owners| == |s.operations|
    ensures Kept(s, s)
  {
    assert KeptBy(s, s, All(|s.operations|));
  }

  lemma KeptIsShorter(s: Scenario, whole: Scenario)
    requires Kept(s, whole)
    ensures |s.operations| <= |whole.operations| && forall op :: op in s.operations ==> op in whole.operations
  {
    var keep :| KeptBy(s, whole, keep);
    assert PartBy(s.operations, whole.operations, keep);
    PartMembers(s.operations, whole.operations);
  }

  lemma KeptShrinks(s: Scenario, whole: Scenario, start: nat, width: nat)
    requires Kept(s, whole) && start < |s.operations|
    ensures Kept(Shortened(s, start, width), whole)
  {
    var keep :| KeptBy(s, whole, keep);
    var inner := Remaining(|keep|, start, width);
    DeletedIsSelection(s.operations, start, width);
    DeletedIsSelection(s.owners, start, width);
    SelectAscending(|whole.operations|, keep, inner);
    SelectTwice(whole.operations, keep, inner);
    SelectTwice(whole.owners, keep, inner);
    assert KeptBy(Shortened(s, start, width), whole, Select(keep, inner));
  }

  /** The operations of worker `w`, in list order. */
  function ProgramOf(s: Scenario, w: int): (p: seq<Op>)
    decreases |s.operations|
  {
    if s.operations == [] || |s.owners| != |s.operations| then []
    else
      var n := |s.operations| - 1;
      ProgramOf(Scenario(s.capacity, s.operations[..n], s.owners[..n]), w)
      + if s.owners[n] == w then [s.operations[n]] else []
  }

  /** Every worker's program is part of its original program: no operation changes worker or place. */
  lemma {:induction false} ProgramsAreParts(s: Scenario, whole: Scenario, keep: seq<int>, w: int)
    requires KeptBy(s, whole, keep)
    ensures Part(ProgramOf(s, w), ProgramOf(whole, w))
    decreases |whole.operations|
  {
    if whole.operations == [] {
      AscendingIsShort(0, keep);
      PartOfItself<Op>([]);
    } else {
      var n := |whole.operations| - 1;
      var shorter := Scenario(whole.capacity, whole.operations[..n], whole.owners[..n]);
      var tail := if whole.owners[n] == w then [whole.operations[n]] else [];
      if keep != [] && keep[|keep| - 1] == n {
        var k := |keep| - 1;
        BelowTheLast(n + 1, keep);
        var s' := Scenario(s.capacity, s.operations[..k], s.owners[..k]);
        assert KeptBy(s', shorter, keep[..k]) by {
          assert s'.operations == Select(shorter.operations, keep[..k]);
          assert s'.owners == Select(shorter.owners, keep[..k]);
        }
        ProgramsAreParts(s', shorter, keep[..k], w);
        PartExtends(ProgramOf(s', w), ProgramOf(shorter, w), tail, tail);
      } else {
        NotTheLast(n, keep);
        assert KeptBy(s, shorter, keep);
        ProgramsAreParts(s, shorter, keep, w);
        PartExtends(ProgramOf(s, w), ProgramOf(shorter, w), [], tail);
        assert ProgramOf(s, w) + [] == ProgramOf(s, w);
      }
    }
  }

  lemma NotTheLast(n: nat, keep: seq<int>)
    requires Ascending(keep) && InRange(n + 1, keep) && (keep == [] || keep[|keep| - 1] != n)
    ensures InRange(n, keep)
  {
    forall x | x in keep ensures x < n {
      var i :| 0 <= i < |keep| && keep[i] == x;
      assert keep[|keep| - 1] in keep;
    }
  }

  lemma PartExtends(part: seq<Op>, whole: seq<Op>, a: seq<Op>, b: seq<Op>)
    requires Part(part, whole) && (a == b || a == []) && |b| <= 1
    ensures Part(part + a, whole + b)
  {
    var keep :| PartBy(part, whole, keep);
    var longer := if a == [] then keep else keep + [|whole|];
    forall x | x in longer ensures 0 <= x < |whole + b| {
    }
    forall i, j | 0 <= i < j < |longer| ensures longer[i] < longer[j] {
      assert longer[i] in keep;
    }
    assert part + a == Select(whole + b, longer) by {
      forall j | 0 <= j < |longer| ensures (part + a)[j] == (whole + b)[longer[j]] {
        assert j < |keep| ==> longer[j] == keep[j] && part[j] == whole[keep[j]];
      }
    }
    assert PartBy(part + a, whole + b, longer);
  }

  // ---------------------------------------------------------------- the evidence

  datatype Phase = Initial | Candidate | Confirmation

  datatype Evidence = Evidence(phase: Phase, scenario: Scenario, trials: seq<Verdict>, matched: nat, inconclusive: nat)

  function CountMatched(trials: seq<Verdict>): (n: nat)
    ensures n <= |trials|
    ensures n == |trials| <==> forall t :: t in trials ==> Matches(t)
  {
    if trials == [] then 0
    else
      var last := |trials| - 1;
      assert trials == trials[..last] + [trials[last]];
      CountMatched(trials[..last]) + if Matches(trials[last]) then 1 else 0
  }

  function CountInconclusive(trials: seq<Verdict>): (n: nat)
    ensures n == 0 <==> Inconclusive !in trials
  {
    if trials == [] then 0
    else
      var last := |trials| - 1;
      assert trials == trials[..last] + [trials[last]];
      CountInconclusive(trials[..last]) + if trials[last] == Inconclusive then 1 else 0
  }

  function EvidenceOf(setup: Setup, group: nat, phase: Phase, s: Scenario): (e: Evidence)
    ensures e.phase == phase && e.scenario == s
  {
    var trials := setup.TrialsOf(group, s);
    Evidence(phase, s, trials, CountMatched(trials), CountInconclusive(trials))
  }

  /** Entry `g` reports the fresh trials of group `g`, none of which raised. */
  ghost predicate Reports(setup: Setup, g: nat, e: Evidence) {
    e == EvidenceOf(setup, g, e.phase, e.scenario) && setup.Quiet(g, e.scenario)
  }

  ghost predicate Journal(setup: Setup, evidence: seq<Evidence>) {
    forall g: nat :: g < |evidence| ==> Reports(setup, g, evidence[g])
  }

  lemma LongerJournal(setup: Setup, evidence: seq<Evidence>, e: Evidence)
    requires Journal(setup, evidence) && Reports(setup, |evidence|, e)
    ensures Journal(setup, evidence + [e])
  {
    hide Reports;
  }

  /** The results of all trials make the evidence; all of them match just when the group holds up. */
  lemma CompleteGroup(setup: Setup, group: nat, phase: Phase, s: Scenario, results: seq<Verdict>)
    requires setup.Allowed() && setup.Quiet(group, s) && results == setup.TrialsOf(group, s)
    ensures Reports(setup, group, Evidence(phase, s, results, CountMatched(results), CountInconclusive(results)))
    ensures CountMatched(results) == setup.trials <==> setup.Holds(group, s)
  {
  }

  /** The trials of a list that ended with this verdict. */
  function Ending(trials: seq<Verdict>, v: Verdict): (s: set<int>) {
    set i | 0 <= i < |trials| && trials[i] == v
  }

  lemma EndingMore(trials: seq<Verdict>, last: Verdict, v: Verdict)
    ensures |Ending(trials + [last], v)| == |Ending(trials, v)| + if last == v then 1 else 0
  {
    var before := Ending(trials, v);
    assert Ending(trials + [last], v) == before + if last == v then {|trials|} else {};
  }

  lemma {:induction false} CountsAreCardinalities(trials: seq<Verdict>)
    ensures CountMatched(trials) == |Ending(trials, Failed(Some("no legal FIFO ordering")))|
    ensures CountInconclusive(trials) == |Ending(trials, Inconclusive)|
  {
    if trials == [] {
    } else {
      var last := |trials| - 1;
      assert trials == trials[..last] + [trials[last]];
      CountsAreCardinalities(trials[..last]);
      EndingMore(trials[..last], trials[last], Failed(Some("no legal FIFO ordering")));
      EndingMore(trials[..last], trials[last], Inconclusive);
    }
  }

  /** The trials are the answers of the evaluator to this very scenario, the next trial of group `g` for each, and they
      are counted by how they ended. */
  ghost predicate Told(setup: Setup, g: nat, e: Evidence) {
    && |e.trials| == setup.trials
    && (forall i: nat :: i < setup.trials ==> setup.evaluator(g, i, e.scenario) == Some(e.trials[i]))
    && e.matched == |Ending(e.trials, Failed(Some("no legal FIFO ordering")))|
    && e.inconclusive == |Ending(e.trials, Inconclusive)|
  }

  lemma ReportsExactly(setup: Setup, g: nat, e: Evidence)
    requires setup.Allowed()
    ensures Reports(setup, g, e) <==> Told(setup, g, e)
  {
    hide CountMatched, CountInconclusive, Ending;
    var trials := setup.TrialsOf(g, e.scenario);
    CountsAreCardinalities(e.trials);
    if Told(setup, g, e) {
      forall i: nat | i < setup.trials ensures !setup.Raises(g, i, e.scenario) && trials[i] == e.trials[i] {
        assert setup.evaluator(g, i, e.scenario) == Some(e.trials[i]);
      }
      assert trials == e.trials;
    }
  }

  // ---------------------------------------------------------------- where the groups come from

  /** The trials uphold the reduction: every single one fails for lack of an ordering. */
  predicate Upheld(e: Evidence) {
    forall t :: t in e.trials ==> t == Failed(Some("no legal FIFO ordering"))
  }

  predicate Adopts(e: Evidence) {
    e.phase == Candidate && Upheld(e)
  }

  /** The window that is next in the deletion loop is gone, with its owners. */
  predicate LeavesOut(setup: Setup, c: Cursor, current: Scenario, s: Scenario) {
    && 1 < |current.operations| == |current.owners| && c.At? && c.offset < |current.operations|
    && var end := c.offset + Width(setup.strategy == Single, |current.operations|, c.granularity);
       && s.operations == current.operations[..c.offset]
                          + (if end < |current.operations| then current.operations[end..] else [])
       && s.owners == current.owners[..c.offset] + (if end < |current.owners| then current.owners[end..] else [])
       && s.capacity == current.capacity && s.operations != []
  }

  lemma ShortenedLeavesOut(setup: Setup, current: Scenario, c: Cursor)
    requires 1 < |current.operations| == |current.owners| && c.At? && c.offset < |current.operations|
    requires c.granularity >= 2
    ensures var width := Width(setup.strategy == Single, |current.operations|, c.granularity);
            width > 0 && LeavesOut(setup, c, current, Shortened(current, c.offset, width))
  {
    hide Width;
    WidthIsPart(setup.strategy == Single, |current.operations|, c.granularity);
  }

  lemma NotEmptied(setup: Setup, c: Cursor, current: Scenario, s: Scenario)
    requires LeavesOut(setup, c, current, s)
    ensures s.operations != []
  {
  }

  /** What the search has arrived at: the scenario that was upheld last. */
  function Standing(whole: Scenario, evidence: seq<Evidence>): (s: Scenario) {
    if evidence == [] then whole
    else
      var last := |evidence| - 1;
      if Adopts(evidence[last]) then evidence[last].scenario else Standing(whole, evidence[..last])
  }

  /** Where the deletion loop is after these groups, the first of which is the initial one. */
  function Place(setup: Setup, whole: Scenario, evidence: seq<Evidence>): (c: Cursor) {
    if |evidence| <= 1 then At(2, 0)
    else
      var last := |evidence| - 1;
      var before := Place(setup, whole, evidence[..last]);
      if Adopts(evidence[last]) then Adopt(before)
      else Refuse(setup.strategy == Single, |Standing(whole, evidence[..last]).operations|, before)
  }

  /** `s` is the scenario of the last candidate before group `k` that was upheld, or the whole one if there is none. */
  ghost predicate AcceptedLast(whole: Scenario, evidence: seq<Evidence>, k: nat, s: Scenario)
    requires k <= |evidence|
  {
    if exists j :: 0 <= j < k && Adopts(evidence[j])
    then exists j :: 0 <= j < k && Adopts(evidence[j]) && s == evidence[j].scenario
                     && forall i :: j < i < k ==> !Adopts(evidence[i])
    else s == whole
  }

  /** Where the scenario of group `k` comes from. */
  ghost predicate Course(setup: Setup, whole: Scenario, evidence: seq<Evidence>, k: nat)
    requires k < |evidence|
  {
    var e := evidence[k];
    match e.phase
    case Initial => k == 0 && e.scenario == whole
    case Candidate =>
      0 < k && exists s ::
        AcceptedLast(whole, evidence, k, s) && LeavesOut(setup, Place(setup, whole, evidence[..k]), s, e.scenario)
    case Confirmation => 0 < k == |evidence| - 1 && AcceptedLast(whole, evidence, k, e.scenario)
  }

  /** The groups so far are those of a search that has arrived at `current`. */
  ghost predicate Arrived(setup: Setup, whole: Scenario, evidence: seq<Evidence>, current: Scenario) {
    && (forall k: nat :: k < |evidence| ==> Course(setup, whole, evidence, k) && evidence[k].phase != Confirmation)
    && AcceptedLast(whole, evidence, |evidence|, current) && current == Standing(whole, evidence)
  }

  lemma NothingYet(setup: Setup, whole: Scenario)
    ensures Arrived(setup, whole, [], whole)
  {
  }

  lemma SameBefore(whole: Scenario, evidence: seq<Evidence>, e: Evidence, k: nat, s: Scenario)
    requires k <= |evidence|
    ensures AcceptedLast(whole, evidence + [e], k, s) <==> AcceptedLast(whole, evidence, k, s)
  {
    hide Adopts;
    assert forall j :: 0 <= j < k ==> (evidence + [e])[j] == evidence[j];
  }

  lemma CoursesGoOn(setup: Setup, whole: Scenario, evidence: seq<Evidence>, e: Evidence, current: Scenario)
    requires Arrived(setup, whole, evidence, current)
    ensures forall k: nat :: k < |evidence| ==> Course(setup, whole, evidence + [e], k)
    ensures AcceptedLast(whole, evidence + [e], |evidence|, current)
  {
    hide AcceptedLast, LeavesOut, Place, Standing;
    SameBefore(whole, evidence, e, |evidence|, current);
    forall k: nat | k < |evidence| ensures Course(setup, whole, evidence + [e], k) {
      assert Course(setup, whole, evidence, k) && (evidence + [e])[k] == evidence[k];
      assert (evidence + [e])[..k] == evidence[..k];
      if evidence[k].phase == Candidate {
        var s :| AcceptedLast(whole, evidence, k, s)
                 && LeavesOut(setup, Place(setup, whole, evidence[..k]), s, evidence[k].scenario);
        SameBefore(whole, evidence, e, k, s);
      }
    }
  }

  lemma AcceptedNext(whole: Scenario, evidence: seq<Evidence>, k: nat, s: Scenario)
    requires k < |evidence| && AcceptedLast(whole, evidence, k, s)
    ensures AcceptedLast(whole, evidence, k + 1, if Adopts(evidence[k]) then evidence[k].scenario else s)
  {
    hide Adopts;
  }

  /** The groups are those of a search that ended at `current`: its last group may confirm it. */
  ghost predicate Ended(setup: Setup, whole: Scenario, evidence: seq<Evidence>, current: Scenario) {
    && (forall k: nat :: k < |evidence| ==> Course(setup, whole, evidence, k))
    && AcceptedLast(whole, evidence, |evidence|, current)
  }

  lemma StartsAtHalves(setup: Setup, whole: Scenario, evidence: seq<Evidence>)
    ensures |evidence| == 1 ==> Place(setup, whole, evidence) == At(2, 0)
  {
  }

  lemma ArrivedIsEnded(setup: Setup, whole: Scenario, evidence: seq<Evidence>, current: Scenario)
    requires Arrived(setup, whole, evidence, current)
    ensures Ended(setup, whole, evidence, current)
  {
  }

  lemma StandingNext(whole: Scenario, evidence: seq<Evidence>, e: Evidence)
    ensures Standing(whole, evidence + [e]) == if Adopts(e) then e.scenario else Standing(whole, evidence)
  {
    hide Adopts;
    assert (evidence + [e])[..|evidence|] == evidence;
  }

  /** The deletion loop goes on with the verdict about the window that was next. */
  lemma PlaceMoves(setup: Setup, whole: Scenario, evidence: seq<Evidence>, e: Evidence)
    requires evidence != []
    ensures var before := Place(setup, whole, evidence);
            Place(setup, whole, evidence + [e])
            == if Adopts(e) then Adopt(before)
               else Refuse(setup.strategy == Single, |Standing(whole, evidence).operations|, before)
  {
    hide Adopts, Adopt, Refuse, Standing;
    assert (evidence + [e])[..|evidence|] == evidence;
  }

  /** The first group, and every group of a candidate, carries the search on. */
  lemma ArrivedNext(setup: Setup, whole: Scenario, evidence: seq<Evidence>, e: Evidence, current: Scenario)
    requires Arrived(setup, whole, evidence, current)
    requires match e.phase
             case Initial => evidence == [] && e.scenario == whole
             case Candidate => evidence != [] && LeavesOut(setup, Place(setup, whole, evidence), current, e.scenario)
             case Confirmation => false
    ensures Arrived(setup, whole, evidence + [e], if Adopts(e) then e.scenario else current)
    ensures e.phase == Candidate ==>
      Place(setup, whole, evidence + [e])
      == if Adopts(e) then Adopt(Place(setup, whole, evidence))
         else Refuse(setup.strategy == Single, |current.operations|, Place(setup, whole, evidence))
  {
    hide AcceptedLast, LeavesOut, Adopts, Standing, Place, Adopt, Refuse;
    StandingNext(whole, evidence, e);
    if evidence != [] {
      PlaceMoves(setup, whole, evidence, e);
    }
    assert (evidence + [e])[..|evidence|] == evidence;
    CoursesGoOn(setup, whole, evidence, e, current);
    AcceptedNext(whole, evidence + [e], |evidence|, current);
    forall k: nat | k < |evidence| ensures (evidence + [e])[k].phase != Confirmation {
      assert (evidence + [e])[k] == evidence[k];
    }
    assert Course(setup, whole, evidence + [e], |evidence|);
  }

  lemma ConfirmedLast(setup: Setup, whole: Scenario, evidence: seq<Evidence>, e: Evidence, current: Scenario)
    requires Arrived(setup, whole, evidence, current) && evidence != []
    requires e.phase == Confirmation && e.scenario == current
    ensures Ended(setup, whole, evidence + [e], current)
  {
    hide AcceptedLast, LeavesOut, Upheld;
    CoursesGoOn(setup, whole, evidence, e, current);
    AcceptedNext(whole, evidence + [e], |evidence|, current);
  }

  lemma HoldsIsUpheld(setup: Setup, group: nat, phase: Phase, s: Scenario)
    ensures Upheld(EvidenceOf(setup, group, phase, s)) <==> setup.Holds(group, s)
  {
  }

  /** Deleting operation `o` alone was tried, and the evidence shows that it did not hold up; an only operation is
      never tried. */
  ghost predicate Needed(setup: Setup, evidence: seq<Evidence>, s: Scenario, o: nat) {
    |s.operations| > 1 ==>
      exists g: nat ::
        g < |evidence| && evidence[g].scenario == Shortened(s, o, 1) && !setup.Holds(g, Shortened(s, o, 1))
  }

  ghost predicate NeededUpTo(setup: Setup, evidence: seq<Evidence>, s: Scenario, count: nat) {
    forall o: nat :: o < count && o < |s.operations| ==> Needed(setup, evidence, s, o)
  }

  ghost predicate OneMinimal(setup: Setup, evidence: seq<Evidence>, s: Scenario) {
    NeededUpTo(setup, evidence, s, |s.operations|)
  }

  /** Without any one of the operations no group of trials holds up, whenever it is run. */
  ghost predicate Irreducible(setup: Setup, s: Scenario) {
    forall o: nat, g: nat :: o < |s.operations| && |s.operations| > 1 ==> !setup.Holds(g, Shortened(s, o, 1))
  }

  /** For a deterministic evaluator one refusal of each deletion shows that none can ever succeed. */
  lemma MinimalIsIrreducible(setup: Setup, evidence: seq<Evidence>, s: Scenario)
    requires setup.Deterministic() && OneMinimal(setup, evidence, s)
    ensures Irreducible(setup, s)
  {
    hide Setup.Holds, Setup.Deterministic, Shortened;
    forall o: nat, g: nat | o < |s.operations| && |s.operations| > 1 ensures !setup.Holds(g, Shortened(s, o, 1)) {
      assert Needed(setup, evidence, s, o);
      var refused: nat :| refused < |evidence| && !setup.Holds(refused, Shortened(s, o, 1));
      DeterministicHolds(setup, g, refused, Shortened(s, o, 1));
    }
  }

  lemma MoreEvidence(setup: Setup, evidence: seq<Evidence>, more: seq<Evidence>, s: Scenario, count: nat)
    requires NeededUpTo(setup, evidence, s, count) && evidence <= more
    ensures NeededUpTo(setup, more, s, count)
  {
    hide Setup.Holds, Shortened;
    forall o: nat | o < count && o < |s.operations| ensures Needed(setup, more, s, o) {
      assert Needed(setup, evidence, s, o);
      if |s.operations| > 1 {
        var g: nat :| g < |evidence| && evidence[g].scenario == Shortened(s, o, 1)
                      && !setup.Holds(g, Shortened(s, o, 1));
        assert more[g].scenario == Shortened(s, o, 1);
      }
    }
  }

  datatype Outcome = ReproducerFound | Undecided | ReproductionFailed

  /** The list of evidence that one reduction appends to. */
  class Log {
    const setup: Setup
    var evidence: seq<Evidence>

    /** Each entry reports fresh trials, numbered by its place in the list. */
    ghost predicate Valid()
      reads this
    {
      setup.Allowed() && Journal(setup, evidence)
    }

    constructor (setup: Setup)
      requires setup.Allowed()
      ensures Valid() && evidence == [] && this.setup == setup
    {
      this.setup, evidence := setup, [];
    }

    /** One group of fresh trials. An exception in one of them goes through to the caller. */
    method Replay(candidate: Scenario, phase: Phase) returns (accepted: bool, crash: Option<Crash>)
      requires Valid()
      modifies this`evidence
      ensures Valid()
      ensures crash.Some? ==>
        crash.value.scenario == candidate && setup.CutShort(|old(evidence)|, crash.value) && evidence == old(evidence)
      ensures crash.None? ==>
        && setup.Quiet(|old(evidence)|, candidate)
        && evidence == old(evidence) + [EvidenceOf(setup, |old(evidence)|, phase, candidate)]
        && accepted == setup.Holds(|old(evidence)|, candidate)
    {
      hide Setup.Holds, Reports, CountMatched, CountInconclusive;
      var group := |evidence|;
      var results: seq<Verdict> := [];
      for i := 0 to setup.trials
        invariant results == setup.TrialsOf(group, candidate)[..i]
        invariant forall k: nat :: k < i ==> !setup.Raises(group, k, candidate)
      {
        var result := setup.evaluator(group, i, candidate);
        if result.None? {
          return false, Some(Crash(i, candidate));
        }
        results := results + [result.value];
      }
      assert results == setup.TrialsOf(group, candidate);
      var matched := CountMatched(results);
      var entry := Evidence(phase, candidate, results, matched, CountInconclusive(results));
      CompleteGroup(setup, group, phase, candidate, results);
      LongerJournal(setup, evidence, entry);
      evidence := evidence + [entry];
      accepted, crash := matched == setup.trials, None;
    }

    /** The inner loop. `attempts` counts the groups of candidate trials. */
    method TryDeletions(current: Scenario, chunk: nat, ghost whole: Scenario, ghost granularity: nat)
      returns (changed: bool, kept: Scenario, crash: Option<Crash>)
      requires Valid() && 1 <= |evidence| <= setup.budget && chunk > 0
      requires |current.owners| == |current.operations|
      requires Arrived(setup, whole, evidence, current) && |current.operations| > 1 && granularity >= 2
      requires chunk == Width(setup.strategy == Single, |current.operations|, granularity)
      requires Place(setup, whole, evidence) == At(granularity, 0)
      modifies this`evidence
      ensures Valid() && old(evidence) <= evidence && |evidence| <= setup.budget + 1
      ensures changed ==> kept.operations != [] && |kept.operations| < |current.operations|
      ensures changed ==> exists start: nat :: start < |current.operations| && kept == Shortened(current, start, chunk)
      ensures changed ==> exists group :: setup.Holds(group, kept)
      ensures !changed ==> kept == current
      ensures Arrived(setup, whole, evidence, kept)
      ensures crash.Some? ==> LeavesOut(setup, Place(setup, whole, evidence), current, crash.value.scenario)
      ensures changed ==> Place(setup, whole, evidence) == At(Max(2, granularity - 1), 0)
      ensures !changed && crash.None? && |evidence| <= setup.budget ==>
        Place(setup, whole, evidence)
        == Position(setup.strategy == Single, |current.operations|, granularity, |current.operations|)
      ensures crash.Some? ==> !changed && setup.CutShort(|evidence|, crash.value)
      ensures crash.Some? ==>
        exists start: nat :: start < |current.operations| && crash.value.scenario == Shortened(current, start, chunk)
      ensures !changed && crash.None? && |evidence| <= setup.budget && chunk == 1 ==>
        OneMinimal(setup, evidence, current)
    {
      hide Setup.Holds, Setup.CutShort, Setup.Quiet, NeededUpTo, EvidenceOf, Journal, Arrived, Upheld, LeavesOut,
        Place, Width;
      changed, kept, crash := false, current, None;
      NoneNeeded(setup, evidence, current);
      var start: nat := 0;
      while start < |current.operations|
        invariant Valid() && old(evidence) <= evidence && |evidence| <= setup.budget && !changed && kept == current
        invariant crash.None? && Arrived(setup, whole, evidence, current)
        invariant Place(setup, whole, evidence)
                  == Position(setup.strategy == Single, |current.operations|, granularity, start)
        invariant chunk == 1 ==> start <= |current.operations| && NeededUpTo(setup, evidence, current, start)
      {
        var candidate := Shortened(current, start, chunk);
        ghost var before, group := evidence, |evidence|;
        ShortenedLeavesOut(setup, current, At(granularity, start));
        NotEmptied(setup, At(granularity, start), current, candidate);
        if candidate.operations != [] {
          var accepted;
          accepted, crash := Replay(candidate, Candidate);
          if crash.Some? {
            return;
          }
          HoldsIsUpheld(setup, group, Candidate, candidate);
          ArrivedNext(setup, whole, before, EvidenceOf(setup, group, Candidate, candidate), current);
          if accepted {
            return true, candidate, None;
          }
          if |evidence| - 1 >= setup.budget {
            return;
          }
        }
        if chunk == 1 {
          MoreEvidence(setup, before, evidence, current, start);
          OneMoreNeeded(setup, evidence, current, start, group);
        }
        start := start + chunk;
      }
    }

    /** The deletion loop. */
    method Shrink(whole: Scenario) returns (current: Scenario, crash: Option<Crash>)
      requires Valid() && |evidence| == 1 && whole.operations != [] && |whole.owners| == |whole.operations|
      requires exists group :: setup.Holds(group, whole)
      requires Arrived(setup, whole, evidence, whole)
      requires Place(setup, whole, evidence) == At(2, 0)
      modifies this`evidence
      ensures Valid() && old(evidence) <= evidence && |evidence| <= setup.budget + 1
      ensures current.operations != [] && Kept(current, whole)
      ensures exists group :: setup.Holds(group, current)
      ensures Arrived(setup, whole, evidence, current)
      ensures crash.Some? ==> setup.CutShort(|evidence|, crash.value) && Kept(crash.value.scenario, whole)
      ensures crash.Some? ==> LeavesOut(setup, Place(setup, whole, evidence), current, crash.value.scenario)
      ensures crash.None? && |evidence| <= setup.budget ==>
        |current.operations| <= 1 || Place(setup, whole, evidence).Finished?
      ensures crash.None? && |evidence| <= setup.budget ==> OneMinimal(setup, evidence, current)
    {
      hide Setup.Holds, Setup.CutShort, NeededUpTo, EvidenceOf, Kept, Journal, Arrived, Upheld, LeavesOut, Place;
      current, crash := whole, None;
      KeptItself(whole);
      var granularity := 2;
      while |current.operations| > 1 && |evidence| - 1 < setup.budget
        invariant Valid() && old(evidence) <= evidence && |evidence| <= setup.budget + 1
        invariant current.operations != [] && |current.owners| == |current.operations| && Kept(current, whole)
        invariant exists group :: setup.Holds(group, current)
        invariant granularity >= 2 && crash.None? && Arrived(setup, whole, evidence, current)
        invariant |evidence| - 1 < setup.budget ==> Place(setup, whole, evidence) == At(granularity, 0)
        decreases |current.operations|, |current.operations| - granularity
      {
        var size := |current.operations|;
        var chunk := if setup.strategy == Single then 1 else (size + granularity - 1) / granularity;
        WindowWidth(size, granularity);
        ghost var before := current;
        var changed;
        changed, current, crash := TryDeletions(current, chunk, whole, granularity);
        if crash.Some? {
          ghost var at: nat :| at < |before.operations| && crash.value.scenario == Shortened(before, at, chunk);
          KeptShrinks(before, whole, at, chunk);
          return;
        }
        if changed {
          ghost var start: nat :| start < |before.operations| && current == Shortened(before, start, chunk);
          KeptShrinks(before, whole, start, chunk);
          granularity := Max(2, granularity - 1);
        } else {
          if setup.strategy == Single || granularity >= size {
            return;
          }
          granularity := Min(size, granularity * 2);
        }
      }
      OneOperation(setup, evidence, current);
    }
  }

  lemma NoneNeeded(setup: Setup, evidence: seq<Evidence>, s: Scenario)
    ensures NeededUpTo(setup, evidence, s, 0)
  {
  }

  lemma OneOperation(setup: Setup, evidence: seq<Evidence>, s: Scenario)
    ensures |s.operations| <= 1 ==> OneMinimal(setup, evidence, s)
  {
  }

  lemma OneMoreNeeded(setup: Setup, evidence: seq<Evidence>, s: Scenario, o: nat, group: nat)
    requires o < |s.operations| && |s.owners| == |s.operations| && NeededUpTo(setup, evidence, s, o)
    requires Shortened(s, o, 1).operations == []
             || (group < |evidence| && evidence[group].scenario == Shortened(s, o, 1)
                 && !setup.Holds(group, Shortened(s, o, 1)))
    ensures NeededUpTo(setup, evidence, s, o + 1)
  {
    hide Setup.Holds;
    assert Needed(setup, evidence, s, o);
  }

  datatype Summary = Summary(outcome: Outcome, current: Scenario, attempts: int, confirmed: bool,
                             evidence: seq<Evidence>)

  /** The owners that are used when the scenario names none. */
  function RoundRobin(n: nat, workers: int): (owners: seq<int>)
    requires workers > 0
  {
    seq(n, i => i % workers)
  }

  function Assigned(setup: Setup, capacity: int, operations: seq<Op>, owners: Option<seq<int>>): (r: Scenario)
    requires setup.workers > 0
    ensures r.capacity == capacity && r.operations == operations
    ensures owners.Some? ==> r.owners == owners.value
    ensures owners.None? ==> |r.owners| == |operations|
    ensures owners.None? ==> forall i :: 0 <= i < |r.owners| ==> r.owners[i] == i % setup.workers
  {
    Scenario(capacity, operations, if owners.Some? then owners.value else RoundRobin(|operations|, setup.workers))
  }

  /** What the summary promises: fresh trials of the whole workload first, and, unless those fail, fresh trials of the
      reduced one last, which alone decide; between them one group per attempt. The reduced workload keeps
      operations in place and with their worker; no single one of them can go unless the budget was used up. */
  ghost predicate Reduces(setup: Setup, whole: Scenario, r: Summary) {
    && r.evidence != [] && r.evidence[0] == EvidenceOf(setup, 0, Initial, whole)
    && Journal(setup, r.evidence)
    && r.current.operations != [] && Kept(r.current, whole) && |r.current.operations| <= |whole.operations|
    && 0 <= r.attempts <= setup.budget
    && (if setup.Holds(0, whole)
        then |r.evidence| == r.attempts + 2
             && r.evidence[r.attempts + 1] == EvidenceOf(setup, r.attempts + 1, Confirmation, r.current)
             && r.confirmed == setup.Holds(r.attempts + 1, r.current)
             && (r.attempts < setup.budget ==> OneMinimal(setup, r.evidence, r.current))
             && (setup.Deterministic() ==> r.confirmed)
             && (setup.Deterministic() && r.attempts < setup.budget ==> Irreducible(setup, r.current))
        else |r.evidence| == 1 && r.attempts == 0 && !r.confirmed && r.current == whole)
    && (r.outcome == ReproducerFound <==> r.confirmed)
    && (r.outcome == Undecided <==> !r.confirmed && Inconclusive in r.evidence[|r.evidence| - 1].trials)
  }

  /** The summary rests on its evidence: where the scenario of each group comes from, what the evaluator answered, and
      what follows from the answers; and the scenario it delivers is the one that was upheld last. */
  ghost predicate Substantiated(setup: Setup, whole: Scenario, r: Summary) {
    && 0 < |r.evidence| <= 102 && 0 < setup.trials < 21 && 1 < setup.workers < 5 && 0 < setup.searchBudget < 100001
    && (forall k: nat :: k < |r.evidence| ==> Course(setup, whole, r.evidence, k) && Told(setup, k, r.evidence[k]))
    && AcceptedLast(whole, r.evidence, |r.evidence|, r.current)
    && var last := r.evidence[|r.evidence| - 1];
       && (last.phase == Confirmation <==> Upheld(r.evidence[0]))
       && (last.phase == Confirmation ==> last.scenario == r.current && r.attempts == |r.evidence| - 2)
       && (last.phase != Confirmation ==> |r.evidence| == 1 && r.attempts == 0)
       && (last.phase == Confirmation && r.attempts < setup.budget ==>
             |r.current.operations| <= 1 || Place(setup, whole, r.evidence[..r.attempts + 1]).Finished?)
       && r.confirmed == (last.phase == Confirmation && Upheld(last))
       && r.outcome == if r.confirmed then ReproducerFound
                       else if Inconclusive in last.trials then Undecided else ReproductionFailed
  }

  lemma EndedIsSubstantiated(setup: Setup, whole: Scenario, r: Summary)
    requires setup.Allowed() && Reduces(setup, whole, r) && Ended(setup, whole, r.evidence, r.current)
    requires |r.evidence| == r.attempts + 2 && r.attempts < setup.budget ==>
      |r.current.operations| <= 1 || Place(setup, whole, r.evidence[..r.attempts + 1]).Finished?
    ensures Substantiated(setup, whole, r)
  {
    hide Reports, Told, Course, AcceptedLast, Upheld, Irreducible, Kept, Setup.Holds, Setup.Deterministic, OneMinimal,
      EvidenceOf, Place;
    forall k: nat | k < |r.evidence| ensures Told(setup, k, r.evidence[k]) {
      ReportsExactly(setup, k, r.evidence[k]);
    }
    HoldsIsUpheld(setup, 0, Initial, whole);
    HoldsIsUpheld(setup, r.attempts + 1, Confirmation, r.current);
  }

  /** What is known when an exception goes through: these groups of trials were complete, and in the next one this trial
      of this part of the workload was the first to raise. */
  ghost predicate CutsOff(setup: Setup, whole: Scenario, evidence: seq<Evidence>, c: Crash) {
    && (exists s :: Arrived(setup, whole, evidence, s)
                    && (c.scenario == s || LeavesOut(setup, Place(setup, whole, evidence), s, c.scenario)))
    && Journal(setup, evidence) && |evidence| <= setup.budget + 1
    && setup.CutShort(|evidence|, c) && Kept(c.scenario, whole) && (evidence == [] ==> c.scenario == whole)
  }

  /** A device that no evaluation accuses yields no reproducer, whatever the strategy and the budget. */
  lemma NothingToReproduce(setup: Setup, whole: Scenario, r: Summary)
    requires setup.Allowed() && Reduces(setup, whole, r)
    requires forall g: nat, i: nat, s :: setup.evaluator(g, i, s) != Some(Failed(Some(NO_ORDERING)))
    ensures r.outcome != ReproducerFound && r.current == whole && |r.evidence| == 1
  {
    assert !Matches(setup.TrialsOf(0, whole)[0]);
  }

  /** What the evidence says at the end, after one more group: the result is still 1-minimal, and a deterministic
      evaluator upholds it once more, and none of its deletions. */
  lemma FinalGroup(setup: Setup, searched: seq<Evidence>, evidence: seq<Evidence>, current: Scenario)
    requires searched <= evidence && evidence != [] && exists group :: setup.Holds(group, current)
    ensures OneMinimal(setup, searched, current) ==> OneMinimal(setup, evidence, current)
    ensures setup.Deterministic() ==> setup.Holds(|evidence| - 1, current)
    ensures setup.Deterministic() && OneMinimal(setup, searched, current) ==> Irreducible(setup, current)
  {
    hide Setup.Holds, Setup.Deterministic, Irreducible, NeededUpTo;
    if OneMinimal(setup, searched, current) {
      MoreEvidence(setup, searched, evidence, current, |current.operations|);
      if setup.Deterministic() {
        MinimalIsIrreducible(setup, evidence, current);
      }
    }
    if setup.Deterministic() {
      var group :| setup.Holds(group, current);
      DeterministicHolds(setup, group, |evidence| - 1, current);
    }
  }

  /** Illegal stands for the ValueError of `reduce_concurrent`, Raised for an exception of the evaluator that it lets
      through. */
  datatype Answer = Illegal | Raised(evidence: seq<Evidence>, crash: Crash) | Done(summary: Summary)

  method ReduceConcurrent(setup: Setup, capacity: int, operations: seq<Op>, owners: Option<seq<int>>)
    returns (r: Answer)
    ensures r.Illegal? <==> !(setup.Allowed() && setup.Accepts(Assigned(setup, capacity, operations, owners)))
    ensures r.Raised? ==> CutsOff(setup, Assigned(setup, capacity, operations, owners), r.evidence, r.crash)
    ensures r.Done? ==> Reduces(setup, Assigned(setup, capacity, operations, owners), r.summary)
    ensures r.Done? ==> Substantiated(setup, Assigned(setup, capacity, operations, owners), r.summary)
  {
    hide Place, Setup.Holds, Setup.CutShort, OneMinimal, Irreducible, Setup.Accepts, EvidenceOf, Kept, Reports, Arrived,
      Ended, LeavesOut, Upheld, Substantiated, Journal, Setup.Deterministic, Assigned;
    if !setup.Allowed() {
      return Illegal;
    }
    var whole := Assigned(setup, capacity, operations, owners);
    if !setup.Accepts(whole) {
      return Illegal;
    }
    AcceptedShape(setup, whole);
    KeptItself(whole);
    NothingYet(setup, whole);
    var log := new Log(setup);
    var reproduced, crash := log.Replay(whole, Initial);
    if crash.Some? {
      return Raised(log.evidence, crash.value);
    }
    ArrivedNext(setup, whole, [], EvidenceOf(setup, 0, Initial, whole), whole);
    var current, confirmed, attempts := whole, false, 0;
    ghost var searched := log.evidence;
    StartsAtHalves(setup, whole, log.evidence);
    if reproduced {
      current, crash := log.Shrink(whole);
      if crash.Some? {
        return Raised(log.evidence, crash.value);
      }
      attempts := |log.evidence| - 1;
      searched := log.evidence;
      confirmed, crash := log.Replay(current, Confirmation);
      if crash.Some? {
        return Raised(log.evidence, crash.value);
      }
      ConfirmedLast(setup, whole, searched, EvidenceOf(setup, |searched|, Confirmation, current), current);
      FinalGroup(setup, searched, log.evidence, current);
    }
    if !reproduced {
      ArrivedIsEnded(setup, whole, log.evidence, whole);
    }
    KeptIsShorter(current, whole);
    var last := log.evidence[|log.evidence| - 1];
    var outcome := if confirmed then ReproducerFound
                   else if last.inconclusive > 0 then Undecided else ReproductionFailed;
    LastCount(setup, |log.evidence| - 1, last);
    assert reproduced ==> log.evidence[..attempts + 1] == searched;
    var summary := Summary(outcome, current, attempts, confirmed, log.evidence);
    EndedIsSubstantiated(setup, whole, summary);
    r := Done(summary);
  }

  lemma AcceptedShape(setup: Setup, s: Scenario)
    requires setup.Accepts(s)
    ensures s.operations != [] && |s.owners| == |s.operations|
  {
  }

  lemma LastCount(setup: Setup, group: nat, e: Evidence)
    requires Reports(setup, group, e)
    ensures e.inconclusive > 0 <==> Inconclusive in e.trials
  {
  }
}
