/** What the answers of check_history in lab/history.py mean, said of the recorded events alone. */
module Verdicts {
  import opened Bytes
  import opened Contract
  import opened History
  import opened Search
  import opened Checker

  /** Event `i` has nonnegative fields, ends no earlier than it starts, and repeats no earlier index or program
      position. */
  predicate Proper(h: seq<Event>, i: nat)
    requires i < |h|
  {
    var e, c := h[i], h[i].call;
    && 0 <= e.index && 0 <= c.worker && 0 <= c.sequence && 0 <= c.started && 0 <= c.finished && c.started <= c.finished
    && forall j :: 0 <= j < i ==>
         h[j].index != e.index && !(h[j].call.worker == c.worker && h[j].call.sequence == c.sequence)
  }

  /** The first event that stops the validation is proper, but its worker has no result. */
  predicate Unfinished(h: seq<Event>) {
    exists i: nat :: i < |h| && UnfinishedAt(h, i)
  }

  predicate UnfinishedAt(h: seq<Event>, i: nat)
    requires i < |h|
  {
    FineUpTo(h, i) && Proper(h, i) && h[i].call.actual.None?
  }

  predicate FineUpTo(h: seq<Event>, k: nat)
    requires k <= |h|
  {
    forall j: nat :: j < k ==> Proper(h, j) && h[j].call.actual.Some?
  }

  /** Everything that is demanded of a history before it is searched. */
  ghost predicate Sane(capacity: int, h: seq<Event>) {
    && FineUpTo(h, |h|) && (forall i: nat :: i < |h| ==> 0 <= h[i].index < |h|)
    && Gapless(h)
    && 256 <= capacity <= 65536 && 1 <= |h| <= 10000 && (forall i: nat :: i < |h| ==> Sized(h[i].call.operation))
    && OneAtATime(h)
  }

  /** At most 4096 bytes or 64 bits of capacity are asked for. */
  predicate Sized(op: Op) {
    && (op.Write? ==> |op.data| < 4097) && (op.Read? ==> op.count < 4097)
    && (op.Resize? ==> op.capacity <= 0xFFFF_FFFF_FFFF_FFFF)
  }

  /** Every worker's sequence numbers start at zero without a gap. */
  predicate Gapless(h: seq<Event>) {
    forall i: nat, s: int | i < |h| && 0 <= s < h[i].call.sequence :: HasEvent(h, h[i].call.worker, s)
  }

  /** A worker's call returns before its next one is invoked. */
  predicate OneAtATime(h: seq<Event>) {
    forall i: nat, j: nat :: i < |h| && j < |h| && h[i].call.worker == h[j].call.worker
                             && h[i].call.sequence < h[j].call.sequence ==>
      h[i].call.finished <= h[j].call.started
  }

  predicate HasEvent(h: seq<Event>, worker: int, sequence: int) {
    exists i: nat :: i < |h| && h[i].call.worker == worker && h[i].call.sequence == sequence
  }

  function OperationsIn(order: seq<Call>): (ops: seq<Op>)
    ensures |ops| == |order|
  {
    seq(|order|, k requires 0 <= k < |order| => order[k].operation)
  }

  /** An order in which one queue could have executed the calls one after the other: it lists each of them once, puts no
      call before one that had returned before it was invoked, keeps every worker's program, and the contract answers in
      it what was observed. */
  ghost predicate Legal(capacity: int, calls: set<Call>, order: seq<Call>)
    requires 256 <= capacity <= 65536
  {
    && (forall c :: c in order <==> c in calls)
    && (forall i, j :: 0 <= i < j < |order| ==>
          && order[i] != order[j] && !(order[j].finished < order[i].started)
          && (order[i].worker == order[j].worker ==> order[i].sequence < order[j].sequence))
    && forall i :: 0 <= i < |order| ==>
         order[i].actual == Some(Answers(Start(capacity), OperationsIn(order))[i])
  }

  /** No two calls have the same place in a program. */
  predicate OnePlaceEach(calls: set<Call>) {
    forall c, d :: c in calls && d in calls && c.worker == d.worker && c.sequence == d.sequence ==> c == d
  }

  lemma {:induction false} ListedOperations(order: seq<Call>)
    ensures Operations(order) == OperationsIn(order)
  {
    if order == [] {
    } else {
      ListedOperations(order[1..]);
      assert order == [order[0]] + order[1..];
    }
  }

  /** Legal orders are the explanations of the calls. */
  lemma LegalIsExplanation(capacity: int, calls: set<Call>, order: seq<Call>)
    requires 256 <= capacity <= 65536 && OnePlaceEach(calls)
    ensures Legal(capacity, calls, order) <==> Explains(Start(capacity), calls, order)
  {
    hide Answers, Operations;
    ListedOperations(order);
    if Explains(Start(capacity), calls, order) || Legal(capacity, calls, order) {
      forall i, j | 0 <= i < j < |order|
        ensures order[i] != order[j] && (order[i].worker == order[j].worker ==> order[i].sequence < order[j].sequence)
                <==> order[i] != order[j] && !SameWorkerBefore(order[j], order[i])
      {
        assert order[i] in calls && order[j] in calls;
      }
    }
  }

  lemma PlacesOfHistory(h: seq<Event>)
    requires WellFormed(h)
    ensures OnePlaceEach(Calls(h))
  {
    forall c, d | c in Calls(h) && d in Calls(h) && c.worker == d.worker && c.sequence == d.sequence ensures c == d {
      var i :| 0 <= i < |h| && h[i].call == c;
      var j :| 0 <= j < |h| && h[j].call == d;
    }
  }

  lemma ProperInPrefix(h: seq<Event>, n: nat, i: nat)
    requires i < n <= |h|
    ensures Proper(h[..n], i) <==> Proper(h, i)
  {
  }

  lemma FineInPrefix(h: seq<Event>, n: nat, k: nat)
    requires k <= n <= |h|
    ensures FineUpTo(h[..n], k) <==> FineUpTo(h, k)
  {
    hide Proper;
    forall i: nat | i < k ensures Proper(h[..n], i) <==> Proper(h, i) {
      ProperInPrefix(h, n, i);
    }
    if FineUpTo(h[..n], k) {
      forall i: nat | i < k ensures Proper(h, i) && h[i].call.actual.Some? {
        assert h[..n][i] == h[i];
      }
    }
  }

  lemma {:induction false} ScreeningExactly(h: seq<Event>)
    ensures Screening(h) == Fine <==> FineUpTo(h, |h|)
    ensures Screening(h) == Issue.Unfinished <==> Unfinished(h)
  {
    hide Proper, LastIssue;
    if h == [] {
    } else {
      var n := |h| - 1;
      ScreeningExactly(h[..n]);
      LastExactly(h);
      FineInPrefix(h, n, n);
      OneMoreUnfinished(h);
    }
  }

  lemma OneMoreUnfinished(h: seq<Event>)
    requires h != []
    ensures Unfinished(h) <==> Unfinished(h[..|h| - 1]) || UnfinishedAt(h, |h| - 1)
  {
    hide Proper, FineUpTo;
    var n := |h| - 1;
    forall i: nat | i < n ensures UnfinishedAt(h[..n], i) <==> UnfinishedAt(h, i) {
      ProperInPrefix(h, n, i);
      FineInPrefix(h, n, i);
    }
    if Unfinished(h) {
      var i: nat :| i < |h| && UnfinishedAt(h, i);
      assert i < n ==> UnfinishedAt(h[..n], i);
    }
    if Unfinished(h[..n]) {
      var i: nat :| i < n && UnfinishedAt(h[..n], i);
      assert UnfinishedAt(h, i);
    }
  }

  lemma LastExactly(h: seq<Event>)
    requires h != []
    ensures LastIssue(h) == Malformed <==> !Proper(h, |h| - 1)
    ensures LastIssue(h) == Issue.Unfinished <==> Proper(h, |h| - 1) && h[|h| - 1].call.actual.None?
  {
  }

  lemma GapsExactly(h: seq<Event>)
    ensures Gapless(h) <==> NoGaps(h)
  {
    forall worker, sequence ensures HasCall(h, worker, sequence) <==> HasEvent(h, worker, sequence) {
    }
    if Gapless(h) {
      forall e, s | e in h && 0 <= s < e.call.sequence ensures HasCall(h, e.call.worker, s) {
        var i: nat :| i < |h| && h[i] == e;
        assert HasEvent(h, h[i].call.worker, s);
      }
    }
    if NoGaps(h) {
      forall i: nat, s: int | i < |h| && 0 <= s < h[i].call.sequence ensures HasEvent(h, h[i].call.worker, s) {
        assert h[i] in h && HasCall(h, h[i].call.worker, s);
      }
    }
  }

  lemma IntervalsExactly(h: seq<Event>)
    requires FineUpTo(h, |h|)
    ensures OneAtATime(h) <==> ValidIntervals(Calls(h))
  {
    assert forall i: nat :: i < |h| ==> Proper(h, i) && h[i].call in Calls(h);
    if OneAtATime(h) {
      forall f, e | f in Calls(h) && e in Calls(h) && SameWorkerBefore(f, e) ensures f.finished <= e.started {
        var i: nat :| i < |h| && h[i].call == f;
        var j: nat :| j < |h| && h[j].call == e;
      }
    }
    if ValidIntervals(Calls(h)) {
      forall i: nat, j: nat | i < |h| && j < |h| && SameWorkerBefore(h[i].call, h[j].call)
        ensures h[i].call.finished <= h[j].call.started
      {
      }
    }
  }

  lemma ScenarioExactly(capacity: int, h: seq<Event>)
    ensures ValidScenario(capacity, OperationsOf(h))
            <==> && 256 <= capacity <= 65536 && 1 <= |h| <= 10000
                 && forall i: nat :: i < |h| ==> ValidOp(h[i].call.operation)
  {
    var ops := OperationsOf(h);
    if ValidScenario(capacity, ops) {
      forall i: nat | i < |h| ensures ValidOp(h[i].call.operation) {
        assert ops[i] in ops;
      }
    }
  }

  lemma SaneExactly(capacity: int, h: seq<Event>)
    ensures Sane(capacity, h) <==> Screening(h) == Fine && CoversIndexes(h) && NoGaps(h)
                                   && ValidScenario(capacity, OperationsOf(h)) && ValidIntervals(Calls(h))
  {
    hide FineUpTo, Gapless, OneAtATime, NoGaps, ValidScenario, ValidIntervals, Screening;
    ScreeningExactly(h);
    GapsExactly(h);
    ScenarioExactly(capacity, h);
    if FineUpTo(h, |h|) {
      IntervalsExactly(h);
    }
    forall i: nat | i < |h| ensures h[i] in h {
    }
  }

  /** The indexes are those of recorded events that make a legal order. */
  ghost predicate ListsLegally(capacity: int, h: seq<Event>, indexes: seq<int>)
    requires 256 <= capacity <= 65536
  {
    exists order: seq<Event> ::
      (forall e :: e in order ==> e in h) && IndexesOf(order) == indexes && Legal(capacity, Calls(h), Unbox(order))
  }

  /** Every answer of the checker, for every input: rejected input, an incomplete capture, an order that explains the
      history, the proof that there is none, or a search that ran out of its budget. */
  lemma CheckExactly(capacity: int, h: seq<Event>, expected: int, budget: int)
    ensures var r, bounds := Check(capacity, h, expected, budget), 1 <= budget <= 100000 && 1 <= expected <= 12;
            && (r.Rejected? <==> !bounds || (|h| == expected && !Unfinished(h) && !Sane(capacity, h)))
            && (r.Incomplete? <==> bounds && (|h| != expected || Unfinished(h)))
            && (r.Pass? || r.Fail? || r.Exhausted? ==> Sane(capacity, h) && r.explored <= budget)
            && (r.Exhausted? ==> r.explored == budget)
            && (r.Pass? ==> ListsLegally(capacity, h, r.order))
            && (r.Fail? ==> forall order :: !Legal(capacity, Calls(h), order))
  {
    hide Sane, Unfinished, FineUpTo, Legal, ListsLegally, NoGaps, CoversIndexes, ValidIntervals, ValidScenario, Solve;
    ScreeningExactly(h);
    if 1 <= |h| <= 12 {
      SaneExactly(capacity, h);
      if Sane(capacity, h) && 1 <= budget {
        CapacityInRange(capacity, h);
        ScreeningIsWellFormed(h);
        VerdictExactly(capacity, h, budget);
      }
    }
  }

  lemma CapacityInRange(capacity: int, h: seq<Event>)
    requires Sane(capacity, h)
    ensures 256 <= capacity <= 65536 && !Unfinished(h) && FineUpTo(h, |h|)
  {
  }

  lemma VerdictExactly(capacity: int, h: seq<Event>, budget: nat)
    requires 256 <= capacity <= 65536 && WellFormed(h)
    ensures var v := Verdict(h, capacity, budget);
            && v.explored <= budget && (v.Exhausted? ==> v.explored == budget)
            && (v.Pass? ==> ListsLegally(capacity, h, v.order))
            && (v.Fail? ==> forall order :: !Legal(capacity, Calls(h), order))
  {
    hide Legal, Explains, WellFormed;
    var v := Verdict(h, capacity, budget);
    VerdictIsExact(h, capacity, budget);
    BudgetMonotone(h, capacity, budget, budget);
    PlacesOfHistory(h);
    if v.Pass? {
      var order: seq<Event> :| (forall e :: e in order ==> e in h) && IndexesOf(order) == v.order
                               && Explains(Start(capacity), Calls(h), Unbox(order));
      LegalIsExplanation(capacity, Calls(h), Unbox(order));
    }
    if v.Fail? {
      forall order ensures !Legal(capacity, Calls(h), order) {
        LegalIsExplanation(capacity, Calls(h), order);
      }
    }
  }
}
