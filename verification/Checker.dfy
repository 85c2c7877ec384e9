/** check_history of lab/history.py: validation, predecessor masks and the budgeted search. */
module Checker {
  import opened Bytes
  import opened Contract
  import opened Limits
  import opened History
  import opened Search

  const MAX_HISTORY := 12
  const MAX_BUDGET := 100000

  /** Rejected stands for the ValueError the code raises. */
  datatype CheckResult =
    | Rejected
    | Incomplete
    | Exhausted(explored: nat)
    | Pass(order: seq<int>, explored: nat)
    | Fail(explored: nat)

  datatype Issue = Fine | Malformed | Unfinished

  /** What the validation loop says about the last event of `h` once all earlier ones were fine. */
  function LastIssue(h: seq<Event>): (r: Issue)
    requires h != []
  {
    var n := |h| - 1;
    var e := h[n];
    if e.index < 0 || e.call.worker < 0 || e.call.sequence < 0 || e.call.started < 0 || e.call.finished < 0
    then Malformed
    else if e.call.finished < e.call.started then Malformed
    else if exists j :: 0 <= j < n && h[j].index == e.index then Malformed
    else if exists j :: 0 <= j < n && h[j].call.worker == e.call.worker && h[j].call.sequence == e.call.sequence
    then Malformed
    else if e.call.actual.None? then Unfinished
    else Fine
  }

  /** The first issue of the validation loop. */
  function Screening(h: seq<Event>): (r: Issue) {
    if h == [] then Fine
    else
      var before := Screening(h[..|h| - 1]);
      if before != Fine then before else LastIssue(h)
  }

  predicate CoversIndexes(h: seq<Event>) {
    forall e :: e in h ==> 0 <= e.index < |h|
  }

  /** Every worker's sequence numbers start at zero and have no gap. */
  predicate NoGaps(h: seq<Event>) {
    forall e, s | e in h && 0 <= s < e.call.sequence :: HasCall(h, e.call.worker, s)
  }

  predicate HasCall(h: seq<Event>, worker: int, sequence: int) {
    exists f :: f in h && f.call.worker == worker && f.call.sequence == sequence
  }

  predicate WellFormedEvent(e: Event) {
    && 0 <= e.index && 0 <= e.call.worker && 0 <= e.call.sequence
    && 0 <= e.call.started <= e.call.finished && e.call.actual.Some?
  }

  /** The conditions a history meets when the search is reached. */
  ghost predicate WellFormed(h: seq<Event>) {
    && (forall e :: e in h ==> WellFormedEvent(e))
    && (forall i, j :: 0 <= i < j < |h| ==> h[i].index != h[j].index)
    && (forall i, j :: 0 <= i < j < |h| && h[i].call.worker == h[j].call.worker ==>
          h[i].call.sequence != h[j].call.sequence)
  }

  lemma {:induction false} ScreeningIsWellFormed(h: seq<Event>)
    ensures Screening(h) == Fine <==> WellFormed(h)
  {
    if h == [] {
    } else {
      var n := |h| - 1;
      var g := h[..n];
      ScreeningIsWellFormed(g);
      assert forall i :: 0 <= i < n ==> g[i] == h[i];
      assert forall e :: e in g ==> e in h;
      if Screening(h) == Fine {
        assert forall e :: e in h ==> e in g || e == h[n];
      }
      if WellFormed(h) {
        assert h[n] in h;
        assert WellFormedEvent(h[n]);
      }
    }
  }

  lemma WellFormedIsDistinct(h: seq<Event>)
    requires WellFormed(h)
    ensures Distinct(h)
  {
  }

  function OperationsOf(h: seq<Event>): (ops: seq<Op>)
    ensures |ops| == |h|
  {
    seq(|h|, i requires 0 <= i < |h| => h[i].call.operation)
  }

  function IndexesOf(order: seq<Event>): (indexes: seq<int>)
    ensures |indexes| == |order|
  {
    seq(|order|, i requires 0 <= i < |order| => order[i].index)
  }

  /** The verdict on a validated history. */
  function Verdict(h: seq<Event>, capacity: int, budget: nat): (r: CheckResult)
    requires MIN_CAPACITY <= capacity <= MAX_CAPACITY
  {
    var o := Solve(h, Calls(h), Start(capacity));
    if o.cost > budget then Exhausted(budget)
    else if o.found.Some? then Pass(IndexesOf(o.found.value), o.cost)
    else Fail(o.cost)
  }

  function Check(capacity: int, h: seq<Event>, expected: int, budget: int): (r: CheckResult) {
    if !(1 <= budget <= MAX_BUDGET) || !(1 <= expected <= MAX_HISTORY) then Rejected
    else if |h| != expected then Incomplete
    else if Screening(h) == Malformed then Rejected
    else if Screening(h) == Unfinished then Incomplete
    else if !CoversIndexes(h) || !NoGaps(h) || !ValidScenario(capacity, OperationsOf(h))
            || !ValidIntervals(Calls(h)) then Rejected
    else Verdict(h, capacity, budget)
  }

  // ---------------------------------------------------------------- what a verdict means

  /** A passing verdict names, by index, an order that explains the history. */
  ghost predicate Witnesses(h: seq<Event>, m: Model, order: seq<int>)
    requires m.Valid()
  {
    exists events: seq<Event> ::
      && (forall e :: e in events ==> e in h)
      && IndexesOf(events) == order
      && Explains(m, Calls(h), Unbox(events))
  }

  /** The checker is exact, for histories of any length. */
  lemma VerdictIsExact(h: seq<Event>, capacity: int, budget: nat)
    requires MIN_CAPACITY <= capacity <= MAX_CAPACITY
    ensures var v := Verdict(h, capacity, budget);
            && (v.Pass? ==> Witnesses(h, Start(capacity), v.order) && Linearizable(Start(capacity), Calls(h)))
            && (v.Fail? ==> !Linearizable(Start(capacity), Calls(h)))
            && (v.Exhausted? || v.Pass? || v.Fail?)
  {
    SearchIsExact(h, Start(capacity));
    var o := Solve(h, Calls(h), Start(capacity));
    if o.found.Some? {
      SolveSound(h, Calls(h), Start(capacity));
      assert forall e :: e in o.found.value ==> e in h;
    }
  }

  /** A conclusive verdict is repeated, unchanged, under every larger budget; the number of explored
      transitions never exceeds the budget and equals it when the budget runs out. */
  lemma BudgetMonotone(h: seq<Event>, capacity: int, budget: nat, larger: nat)
    requires MIN_CAPACITY <= capacity <= MAX_CAPACITY && budget <= larger
    ensures var v := Verdict(h, capacity, budget);
            && v.explored <= budget
            && (v.Exhausted? ==> v.explored == budget)
            && (!v.Exhausted? ==> Verdict(h, capacity, larger) == v)
  {
  }

  // ---------------------------------------------------------------- the code

  /** The calls whose bit is not set in `mask`. */
  function Left(h: seq<Event>, mask: set<nat>): (s: set<Call>) {
    set i | 0 <= i < |h| && i !in mask :: h[i].call
  }

  ghost predicate Masks(h: seq<Event>, predecessors: seq<set<nat>>) {
    && |predecessors| == |h|
    && forall i :: 0 <= i < |h| ==> predecessors[i] == PredecessorsOf(h, i)
  }

  function PredecessorsOf(h: seq<Event>, i: nat): (s: set<nat>)
    requires i < |h|
  {
    set j: nat | j < |h| && j != i && Before(h[j].call, h[i].call)
  }

  /** The `n` lowest bits. */
  function LowBits(n: nat): (s: set<nat>)
    ensures forall i: nat :: i in s <==> i < n
  {
    if n == 0 then {} else LowBits(n - 1) + {n - 1}
  }

  lemma EligibleIsEnabled(h: seq<Event>, predecessors: seq<set<nat>>, mask: set<nat>, i: nat)
    requires Distinct(h) && Masks(h, predecessors) && i < |h|
    ensures i !in mask && predecessors[i] <= mask <==> Enabled(Left(h, mask), h[i].call)
  {
    var left := Left(h, mask);
    assert h[i].call in left <==> i !in mask;
    assert forall k: nat | k < |h| && k !in mask :: h[k].call in left;
    if Enabled(left, h[i].call) {
      forall j | j in predecessors[i] ensures j in mask {
        assert j in PredecessorsOf(h, i) && h[j].call != h[i].call;
      }
    }
    if i !in mask && predecessors[i] <= mask {
      forall f | f in left && f != h[i].call ensures !Before(f, h[i].call) {
        var j :| 0 <= j < |h| && j !in mask && h[j].call == f;
        assert j !in PredecessorsOf(h, i);
      }
    }
  }

  lemma SettingABit(h: seq<Event>, mask: set<nat>, i: nat)
    requires Distinct(h) && i < |h| && i !in mask
    ensures Left(h, mask + {i}) == Left(h, mask) - {h[i].call}
  {
    forall c | c in Left(h, mask) && c != h[i].call ensures c in Left(h, mask + {i}) {
      var j :| 0 <= j < |h| && j !in mask && h[j].call == c;
      assert j !in mask + {i};
    }
  }

  lemma LeftIsEmpty(h: seq<Event>, mask: set<nat>, complete: set<nat>)
    requires mask <= complete && complete == LowBits(|h|)
    ensures mask == complete <==> Left(h, mask) == {}
  {
    if mask != complete {
      var i :| i in complete && i !in mask;
      assert h[i].call in Left(h, mask);
    }
  }

  datatype SearchResult = Raised | Found(order: seq<int>) | NotFound

  /** What a search that starts with `before` transitions already explored ends with. */
  ghost predicate Budgeted(o: Outcome, order: seq<int>, before: nat, after: nat, budget: nat, r: SearchResult) {
    if before + o.cost > budget then r == Raised && after == budget
    else
      && after == before + o.cost
      && r == if o.found.Some? then Found(order + IndexesOf(o.found.value)) else NotFound
  }

  class HistoryChecker {
    var explored: nat

    constructor ()
      ensures explored == 0
    {
      explored := 0;
    }

    method DepthFirst(h: seq<Event>, predecessors: seq<set<nat>>, complete: set<nat>,
                      mask: set<nat>, model: Model, order: seq<int>, budget: nat)
      returns (r: SearchResult)
      requires model.Valid() && Distinct(h) && Masks(h, predecessors)
      requires complete == LowBits(|h|) && mask <= complete
      requires explored <= budget
      modifies this
      ensures explored <= budget
      ensures Budgeted(Solve(h, Left(h, mask), model), order, old(explored), explored, budget, r)
      decreases complete - mask
    {
      ghost var left := Left(h, mask);
      LeftIsEmpty(h, mask, complete);
      if mask == complete {
        r := Found(order);
        assert order + [] == order;
        return;
      }
      var i := 0;
      while i < |h|
        invariant 0 <= i <= |h| && explored <= budget
        invariant var o, rest := Solve(h, left, model), Explore(h, i, left, model);
                  && old(explored) + o.cost == explored + rest.cost
                  && o.found == rest.found
      {
        var event := h[i];
        EligibleIsEnabled(h, predecessors, mask, i);
        if i in mask || !(predecessors[i] <= mask) {
          i := i + 1;
          continue;
        }
        if explored >= budget {
          return Raised;
        }
        explored := explored + 1;
        var candidate, answer := ApplyToCopy(model, event.call.operation);
        if event.call.actual != Some(answer) {
          i := i + 1;
          continue;
        }
        SettingABit(h, mask, i);
        assert i in complete - mask && i !in complete - (mask + {i});
        var found := DepthFirst(h, predecessors, complete, mask + {i},
                                candidate, order + [event.index], budget);
        if found != NotFound {
          ghost var below := Descend(h, event.call, left, model);
          if below.found.Some? {
            assert order + [event.index] + IndexesOf(below.found.value)
                == order + IndexesOf([event] + below.found.value);
          }
          return found;
        }
        i := i + 1;
      }
      r := NotFound;
    }

    /** A transition works on a copy of the model. */
    method ApplyToCopy(model: Model, operation: Op) returns (after: Model, answer: Result)
      requires model.Valid()
      ensures (after, answer) == Apply(model, operation)
    {
      var candidate := new ReferenceModel(model.capacity);
      candidate.data := model.data;
      answer := candidate.Step(operation);
      after := Model(candidate.capacity, candidate.data);
    }

    /** The nested loops that fill the predecessor masks; None when a worker's calls overlap. */
    method FillPredecessors(h: seq<Event>) returns (predecessors: Option<seq<set<nat>>>)
      ensures predecessors.None? <==>
                exists i, j :: 0 <= i < |h| && 0 <= j < |h| && i != j
                  && SameWorkerBefore(h[j].call, h[i].call) && h[j].call.finished > h[i].call.started
      ensures predecessors.Some? ==> Masks(h, predecessors.value)
    {
      var table := [];
      for i := 0 to |h|
        invariant |table| == i
        invariant forall k :: 0 <= k < i ==> table[k] == PredecessorsOf(h, k)
        invariant forall k, j :: 0 <= k < i && 0 <= j < |h| && j != k && SameWorkerBefore(h[j].call, h[k].call) ==>
          h[j].call.finished <= h[k].call.started
      {
        var mask: set<nat> := {};
        for j := 0 to |h|
          invariant forall k :: k in mask <==> 0 <= k < j && k != i && Before(h[k].call, h[i].call)
          invariant forall k :: 0 <= k < j && k != i && SameWorkerBefore(h[k].call, h[i].call) ==>
            h[k].call.finished <= h[i].call.started
        {
          if i != j {
            var sameWorkerBefore := SameWorkerBefore(h[j].call, h[i].call);
            if sameWorkerBefore && h[j].call.finished > h[i].call.started {
              return None;
            }
            if h[j].call.finished < h[i].call.started || sameWorkerBefore {
              mask := mask + {j};
            }
          }
        }
        assert mask == PredecessorsOf(h, i);
        table := table + [mask];
      }
      predecessors := Some(table);
    }

    /** The validation loop over the events. */
    method Screen(h: seq<Event>) returns (issue: Issue)
      ensures issue == Screening(h)
    {
      var indexes: set<int> := {};
      var workerSequences: set<(int, int)> := {};
      for i := 0 to |h|
        invariant Screening(h[..i]) == Fine
        invariant forall x :: x in indexes <==> exists j :: 0 <= j < i && h[j].index == x
        invariant forall w, s :: (w, s) in workerSequences <==>
          exists j :: 0 <= j < i && h[j].call.worker == w && h[j].call.sequence == s
      {
        var event := h[i];
        var call := event.call;
        assert h[..i + 1][..i] == h[..i];
        PrefixIssue(h, i);
        if event.index < 0 || call.worker < 0 || call.sequence < 0 || call.started < 0 || call.finished < 0 {
          IssueStays(h, i + 1);
          return Malformed;
        }
        if call.finished < call.started || event.index in indexes {
          IssueStays(h, i + 1);
          return Malformed;
        }
        indexes := indexes + {event.index};
        if (call.worker, call.sequence) in workerSequences {
          IssueStays(h, i + 1);
          return Malformed;
        }
        workerSequences := workerSequences + {(call.worker, call.sequence)};
        if call.actual.None? {
          IssueStays(h, i + 1);
          return Unfinished;
        }
      }
      assert h[..|h|] == h;
      issue := Fine;
    }

    method CheckHistory(capacity: int, h: seq<Event>, expected: int, budget: int) returns (r: CheckResult)
      modifies this
      ensures r == Check(capacity, h, expected, budget)
    {
      if !(1 <= budget <= MAX_BUDGET) {
        return Rejected;
      }
      if !(1 <= expected <= MAX_HISTORY) {
        return Rejected;
      }
      if |h| != expected {
        return Incomplete;
      }
      var issue := Screen(h);
      if issue == Malformed {
        return Rejected;
      }
      if issue == Unfinished {
        return Incomplete;
      }
      if !CoversIndexes(h) || !NoGaps(h) || !ValidScenario(capacity, OperationsOf(h)) {
        return Rejected;
      }
      ScreeningIsWellFormed(h);
      var predecessors := FillPredecessors(h);
      IntervalsByPosition(h);
      if predecessors.None? {
        return Rejected;
      }
      explored := 0;
      assert Left(h, {}) == Calls(h);
      var complete := LowBits(|h|);
      var found := DepthFirst(h, predecessors.value, complete, {}, Start(capacity), [], budget);
      match found
      case Raised => r := Exhausted(explored);
      case Found(order) => r := Pass(order, explored);
      case NotFound => r := Fail(explored);
    }
  }

  lemma PrefixIssue(h: seq<Event>, i: nat)
    requires i < |h|
    ensures LastIssue(h[..i + 1]) == LastIssue(h[..i] + [h[i]])
    ensures Screening(h[..i]) == Fine ==> Screening(h[..i + 1]) == LastIssue(h[..i + 1])
  {
    assert h[..i + 1] == h[..i] + [h[i]];
    assert h[..i + 1][..i] == h[..i];
  }

  lemma {:induction false} IssueStays(h: seq<Event>, i: nat)
    requires i <= |h| && Screening(h[..i]) != Fine
    ensures Screening(h) == Screening(h[..i])
    decreases |h| - i
  {
    if i < |h| {
      assert h[..i + 1][..i] == h[..i];
      IssueStays(h, i + 1);
    } else {
      assert h[..i] == h;
    }
  }

  lemma IntervalsByPosition(h: seq<Event>)
    requires WellFormed(h)
    ensures ValidIntervals(Calls(h)) <==>
              !exists i, j :: 0 <= i < |h| && 0 <= j < |h| && i != j
                && SameWorkerBefore(h[j].call, h[i].call) && h[j].call.finished > h[i].call.started
  {
    if ValidIntervals(Calls(h)) {
      forall i, j | 0 <= i < |h| && 0 <= j < |h| && SameWorkerBefore(h[j].call, h[i].call)
        ensures h[j].call.finished <= h[i].call.started
      {
        assert h[j].call in Calls(h) && h[i].call in Calls(h);
      }
    }
  }
}
