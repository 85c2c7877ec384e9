/** The depth-first search of lab/history.py as a function: what it finds, how many transitions it takes,
    and why both are independent of everything but the set of calls. */
module Search {
  import opened Bytes
  import opened Contract
  import opened History

  /** `found` is the first explanation met; `cost` counts the transitions tried until then. */
  datatype Outcome = Outcome(found: Option<seq<Event>>, cost: nat)

  function Calls(h: seq<Event>): (s: set<Call>) {
    set e | e in h :: e.call
  }

  predicate Distinct(h: seq<Event>) {
    forall i, j :: 0 <= i < j < |h| ==> h[i].call != h[j].call
  }

  function Unbox(order: seq<Event>): (calls: seq<Call>)
    ensures |calls| == |order|
    ensures forall i :: 0 <= i < |order| ==> calls[i] == order[i].call
  {
    seq(|order|, i requires 0 <= i < |order| => order[i].call)
  }

  /** Explore the calls still `left`, trying events in list order from position `i` on. */
  function Explore(h: seq<Event>, i: nat, left: set<Call>, m: Model): (o: Outcome)
    requires i <= |h| && m.Valid()
    decreases |left|, |h| - i
  {
    if i == |h| then Outcome(None, 0)
    else
      var e := h[i];
      if !Enabled(left, e.call) then Explore(h, i + 1, left, m)
      else
        var below := Descend(h, e.call, left, m);
        if below.found.Some? then Outcome(Some([e] + below.found.value), 1 + below.cost)
        else
          var others := Explore(h, i + 1, left, m);
          Outcome(others.found, 1 + below.cost + others.cost)
  }

  /** The search below one enabled call: nothing at all when the call answers differently. */
  function Descend(h: seq<Event>, e: Call, left: set<Call>, m: Model): (o: Outcome)
    requires m.Valid() && e in left
    decreases |left|, 0
  {
    if !Matches(m, e) then Outcome(None, 0)
    else Solve(h, left - {e}, Next(m, e))
  }

  function Solve(h: seq<Event>, left: set<Call>, m: Model): (o: Outcome)
    requires m.Valid()
    decreases |left|, |h| + 1
  {
    if left == {} then Outcome(Some([]), 0) else Explore(h, 0, left, m)
  }

  // ---------------------------------------------------------------- exactness

  lemma {:induction false} ExploreSound(h: seq<Event>, i: nat, left: set<Call>, m: Model)
    requires i <= |h| && m.Valid() && Explore(h, i, left, m).found.Some?
    ensures Stepwise(m, left, Unbox(Explore(h, i, left, m).found.value))
    ensures forall e :: e in Explore(h, i, left, m).found.value ==> e in h
    decreases |left|, |h| - i
  {
    var e := h[i];
    if Enabled(left, e.call) && Descend(h, e.call, left, m).found.Some? {
      SolveSound(h, left - {e.call}, Next(m, e.call));
      var tail := Descend(h, e.call, left, m).found.value;
      assert Unbox([e] + tail)[1..] == Unbox(tail);
    } else {
      ExploreSound(h, i + 1, left, m);
    }
  }

  lemma {:induction false} SolveSound(h: seq<Event>, left: set<Call>, m: Model)
    requires m.Valid() && Solve(h, left, m).found.Some?
    ensures Stepwise(m, left, Unbox(Solve(h, left, m).found.value))
    ensures forall e :: e in Solve(h, left, m).found.value ==> e in h
    decreases |left|, |h| + 1
  {
    if left != {} {
      ExploreSound(h, 0, left, m);
    }
  }

  lemma {:induction false} ExploreComplete(h: seq<Event>, i: nat, left: set<Call>, m: Model, order: seq<Call>, at: nat)
    requires i <= at < |h| && m.Valid() && order != [] && h[at].call == order[0]
    requires left <= Calls(h) && Stepwise(m, left, order)
    ensures Explore(h, i, left, m).found.Some?
    decreases |left|, |h| - i
  {
    if i == at {
      SolveComplete(h, left - {order[0]}, Next(m, order[0]), order[1..]);
    } else {
      ExploreComplete(h, i + 1, left, m, order, at);
    }
  }

  lemma {:induction false} SolveComplete(h: seq<Event>, left: set<Call>, m: Model, order: seq<Call>)
    requires m.Valid() && left <= Calls(h) && Stepwise(m, left, order)
    ensures Solve(h, left, m).found.Some?
    decreases |left|, |h| + 1
  {
    if left != {} {
      assert order[0] in Calls(h);
      var at :| 0 <= at < |h| && h[at].call == order[0];
      ExploreComplete(h, 0, left, m, order, at);
    }
  }

  /** The unbudgeted search succeeds exactly on linearizable histories. */
  lemma SearchIsExact(h: seq<Event>, m: Model)
    requires m.Valid()
    ensures Solve(h, Calls(h), m).found.Some? <==> Linearizable(m, Calls(h))
    ensures Solve(h, Calls(h), m).found.Some? ==>
              Explains(m, Calls(h), Unbox(Solve(h, Calls(h), m).found.value))
  {
    var o := Solve(h, Calls(h), m);
    if o.found.Some? {
      SolveSound(h, Calls(h), m);
      StepwiseIsExplains(m, Calls(h), Unbox(o.found.value));
    }
    if Linearizable(m, Calls(h)) {
      var order :| Explains(m, Calls(h), order);
      StepwiseIsExplains(m, Calls(h), order);
      SolveComplete(h, Calls(h), m, order);
    }
  }

  // ---------------------------------------------------------------- cost

  /** Every sequence of calls the exhaustive search tries: each call enabled in its turn, every call but
      the last answering as observed. One sequence is one transition. */
  ghost function Attempts(m: Model, left: set<Call>): (s: set<seq<Call>>)
    requires m.Valid()
    decreases |left|, 1
  {
    set e, p | e in left && p in Branch(m, left, e) :: p
  }

  /** The attempts that begin with `e`. */
  ghost function Branch(m: Model, left: set<Call>, e: Call): (s: set<seq<Call>>)
    requires m.Valid() && e in left
    decreases |left|, 0
  {
    if !Enabled(left, e) then {}
    else if !Matches(m, e) then {[e]}
    else {[e]} + (set p | p in Attempts(Next(m, e), left - {e}) :: [e] + p)
  }

  lemma BranchHeads(m: Model, left: set<Call>, e: Call)
    requires m.Valid() && e in left
    ensures forall p :: p in Branch(m, left, e) ==> p != [] && p[0] == e
  {
  }

  lemma PrependCardinality(e: Call, s: set<seq<Call>>)
    ensures |set p | p in s :: [e] + p| == |s|
  {
    if s != {} {
      var q :| q in s;
      PrependCardinality(e, s - {q});
      var image := set p | p in s :: [e] + p;
      assert image == (set p | p in s - {q} :: [e] + p) + {[e] + q};
      assert forall p :: ([e] + p)[1..] == p;
    }
  }

  lemma AttemptsAreNonempty(m: Model, left: set<Call>)
    requires m.Valid()
    ensures [] !in Attempts(m, left)
  {
    forall e | e in left ensures [] !in Branch(m, left, e) {
      BranchHeads(m, left, e);
    }
  }

  lemma BranchCardinality(m: Model, left: set<Call>, e: Call)
    requires m.Valid() && Enabled(left, e)
    ensures |Branch(m, left, e)| == 1 + if Matches(m, e) then |Attempts(Next(m, e), left - {e})| else 0
  {
    if Matches(m, e) {
      var below := Attempts(Next(m, e), left - {e});
      AttemptsAreNonempty(Next(m, e), left - {e});
      PrependCardinality(e, below);
      assert forall p | p in below :: |[e] + p| > 1;
    }
  }

  /** The attempts that begin with an event at position `i` or later. */
  ghost function AttemptsFrom(h: seq<Event>, i: nat, m: Model, left: set<Call>): (s: set<seq<Call>>)
    requires i <= |h| && m.Valid()
    decreases |h| - i
  {
    if i == |h| then {}
    else (if h[i].call in left then Branch(m, left, h[i].call) else {}) + AttemptsFrom(h, i + 1, m, left)
  }

  lemma {:induction false} AttemptsFromHeads(h: seq<Event>, i: nat, m: Model, left: set<Call>)
    requires i <= |h| && m.Valid()
    ensures forall p :: p in AttemptsFrom(h, i, m, left) ==>
              p != [] && exists j :: i <= j < |h| && p[0] == h[j].call
    decreases |h| - i
  {
    if i < |h| {
      AttemptsFromHeads(h, i + 1, m, left);
    }
  }

  lemma {:induction false} AttemptsFromMembers(h: seq<Event>, i: nat, m: Model, left: set<Call>)
    requires i <= |h| && m.Valid()
    ensures AttemptsFrom(h, i, m, left) <= Attempts(m, left)
    ensures forall j :: i <= j < |h| && h[j].call in left ==>
              Branch(m, left, h[j].call) <= AttemptsFrom(h, i, m, left)
    decreases |h| - i
  {
    if i < |h| {
      AttemptsFromMembers(h, i + 1, m, left);
    }
  }

  lemma AttemptsFromStart(h: seq<Event>, m: Model, left: set<Call>)
    requires m.Valid() && left <= Calls(h)
    ensures AttemptsFrom(h, 0, m, left) == Attempts(m, left)
  {
    AttemptsFromMembers(h, 0, m, left);
    forall p | p in Attempts(m, left) ensures p in AttemptsFrom(h, 0, m, left) {
      var e :| e in left && p in Branch(m, left, e);
      assert e in Calls(h);
      var j :| 0 <= j < |h| && h[j].call == e;
    }
  }

  /** Positions after `i` contribute attempts of their own. */
  lemma SplitAt(h: seq<Event>, i: nat, m: Model, left: set<Call>)
    requires i < |h| && m.Valid() && Distinct(h)
    ensures |AttemptsFrom(h, i, m, left)| == |AttemptsFrom(h, i + 1, m, left)|
              + (if h[i].call in left then |Branch(m, left, h[i].call)| else 0)
  {
    if h[i].call in left {
      BranchHeads(m, left, h[i].call);
      AttemptsFromHeads(h, i + 1, m, left);
      assert Branch(m, left, h[i].call) !! AttemptsFrom(h, i + 1, m, left);
    }
  }

  /** A search that fails makes exactly one transition per attempt; one that succeeds makes no more. */
  lemma {:induction false} ExploreCost(h: seq<Event>, i: nat, left: set<Call>, m: Model)
    requires i <= |h| && m.Valid() && Distinct(h) && left <= Calls(h)
    ensures Explore(h, i, left, m).cost <= |AttemptsFrom(h, i, m, left)|
    ensures Explore(h, i, left, m).found.None? ==>
              Explore(h, i, left, m).cost == |AttemptsFrom(h, i, m, left)|
    decreases |left|, |h| - i
  {
    if i < |h| {
      var e := h[i].call;
      SplitAt(h, i, m, left);
      ExploreCost(h, i + 1, left, m);
      if Enabled(left, e) {
        BranchCardinality(m, left, e);
        if Matches(m, e) {
          SolveCost(h, left - {e}, Next(m, e));
        }
      }
    }
  }

  lemma {:induction false} SolveCost(h: seq<Event>, left: set<Call>, m: Model)
    requires m.Valid() && Distinct(h) && left <= Calls(h)
    ensures Solve(h, left, m).cost <= |Attempts(m, left)|
    ensures Solve(h, left, m).found.None? ==> Solve(h, left, m).cost == |Attempts(m, left)|
    decreases |left|, |h| + 1
  {
    if left != {} {
      ExploreCost(h, 0, left, m);
      AttemptsFromStart(h, m, left);
    }
  }

  /** The cost of a failing search depends on the calls, not on the order they are listed in. */
  lemma FailingCostIgnoresListOrder(h: seq<Event>, g: seq<Event>, m: Model)
    requires m.Valid() && Distinct(h) && Distinct(g) && Calls(h) == Calls(g)
    requires Solve(h, Calls(h), m).found.None?
    ensures Solve(g, Calls(g), m) == Solve(h, Calls(h), m)
  {
    SearchIsExact(h, m);
    SearchIsExact(g, m);
    SolveCost(h, Calls(h), m);
    SolveCost(g, Calls(g), m);
  }

  /** Every attempt on a quiescent prefix is an attempt on the whole history. */
  lemma {:induction false} PrefixAttempts(m: Model, earlier: set<Call>, later: set<Call>)
    requires m.Valid() && ValidIntervals(earlier + later) && Quiescent(earlier, later)
    ensures Attempts(m, earlier) <= Attempts(m, earlier + later)
    decreases |earlier|
  {
    forall e | e in earlier
      ensures Branch(m, earlier, e) <= Branch(m, earlier + later, e)
    {
      var rest := later - {e};
      assert earlier + later - {e} == (earlier - {e}) + rest;
      if Enabled(earlier, e) {
        forall f | f in later && f != e ensures !Before(f, e) {
          assert f in earlier + later && e in earlier + later;
        }
        assert Enabled(earlier + later, e);
        if Matches(m, e) {
          PrefixAttempts(Next(m, e), earlier - {e}, rest);
        }
      }
    }
  }

  /** Searching a quiescent prefix never takes more transitions than failing on the whole. */
  lemma PrefixCost(h: seq<Event>, g: seq<Event>, later: set<Call>, m: Model)
    requires m.Valid() && Distinct(h) && Distinct(g)
    requires Calls(h) == Calls(g) + later && ValidIntervals(Calls(h)) && Quiescent(Calls(g), later)
    requires Solve(h, Calls(h), m).found.None?
    ensures Solve(g, Calls(g), m).cost <= Solve(h, Calls(h), m).cost
  {
    SolveCost(h, Calls(h), m);
    SolveCost(g, Calls(g), m);
    PrefixAttempts(m, Calls(g), later);
    SubsetCardinality(Attempts(m, Calls(g)), Attempts(m, Calls(h)));
  }

  lemma SubsetCardinality<T>(a: set<T>, b: set<T>)
    requires a <= b
    ensures |a| <= |b|
  {
    assert b == a + (b - a);
  }
}
