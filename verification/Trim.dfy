/** reduce_history_prefix of lab/history.py: trimming a failing history at quiescent cuts. */
module Trim {
  import opened Bytes
  import opened Contract
  import opened Limits
  import opened History
  import opened Search
  import opened Checker
  import V = Verdicts

  /** The sort key: invocation time, then worker, then program position. */
  predicate KeyAtMost(a: Call, b: Call) {
    || a.started < b.started
    || (a.started == b.started && a.worker < b.worker)
    || (a.started == b.started && a.worker == b.worker && a.sequence <= b.sequence)
  }

  function Insert(e: Event, s: seq<Event>): (r: seq<Event>)
    ensures multiset(r) == multiset(s) + multiset{e} && |r| == |s| + 1
  {
    if s == [] then [e]
    else if KeyAtMost(e.call, s[0].call) then assert s == [s[0]] + s[1..]; [e] + s
    else assert s == [s[0]] + s[1..]; [s[0]] + Insert(e, s[1..])
  }

  function Sorted(h: seq<Event>): (r: seq<Event>)
    ensures multiset(r) == multiset(h) && |r| == |h|
  {
    if h == [] then []
    else assert h == h[..|h| - 1] + [h[|h| - 1]]; Insert(h[|h| - 1], Sorted(h[..|h| - 1]))
  }

  predicate Ordered(s: seq<Event>) {
    forall i, j :: 0 <= i < j < |s| ==> KeyAtMost(s[i].call, s[j].call)
  }

  lemma PrependKeepsOrder(e: Event, s: seq<Event>)
    requires Ordered(s) && forall x :: x in s ==> KeyAtMost(e.call, x.call)
    ensures Ordered([e] + s)
  {
    hide KeyAtMost;
    forall i, j | 0 <= i < j < |[e] + s| ensures KeyAtMost(([e] + s)[i].call, ([e] + s)[j].call) {
      assert s[j - 1] in s;
    }
  }

  lemma HeadIsLeast(s: seq<Event>, x: Event)
    requires Ordered(s) && s != []
    ensures x in s ==> KeyAtMost(s[0].call, x.call)
  {
    if x in s {
      var i :| 0 <= i < |s| && s[i] == x;
      assert i > 0 ==> KeyAtMost(s[0].call, s[i].call);
    }
  }

  lemma {:induction false} InsertKeepsOrder(e: Event, s: seq<Event>)
    requires Ordered(s)
    ensures Ordered(Insert(e, s))
  {
    if s != [] && !KeyAtMost(e.call, s[0].call) {
      var tail := Insert(e, s[1..]);
      InsertKeepsOrder(e, s[1..]);
      assert s == [s[0]] + s[1..];
      forall x | x in tail ensures KeyAtMost(s[0].call, x.call) {
        assert x in multiset(tail);
        HeadIsLeast(s, x);
      }
      PrependKeepsOrder(s[0], tail);
    } else {
      forall x | x in s ensures KeyAtMost(e.call, x.call) {
        HeadIsLeast(s, x);
      }
      PrependKeepsOrder(e, s);
    }
  }

  lemma {:induction false} SortedIsOrdered(h: seq<Event>)
    ensures Ordered(Sorted(h))
  {
    if h == [] {
    } else {
      SortedIsOrdered(h[..|h| - 1]);
      InsertKeepsOrder(h[|h| - 1], Sorted(h[..|h| - 1]));
    }
  }

  function MaxFinished(s: seq<Event>): (m: int)
    requires s != []
    ensures forall e :: e in s ==> e.call.finished <= m
    ensures exists e :: e in s && e.call.finished == m
  {
    if |s| == 1 then s[0].call.finished
    else assert s == s[..|s| - 1] + [s[|s| - 1]]; Max(MaxFinished(s[..|s| - 1]), s[|s| - 1].call.finished)
  }

  /** No call is running at a cut: the kept calls end strictly before the next one starts. */
  predicate QuiescentCut(ordered: seq<Event>, size: nat) {
    && 1 <= size <= |ordered|
    && (size < |ordered| ==> MaxFinished(ordered[..size]) < ordered[size].call.started)
  }

  function Relabelled(s: seq<Event>): (r: seq<Event>)
    ensures |r| == |s|
    ensures forall i :: 0 <= i < |s| ==> r[i] == Event(i, s[i].call)
  {
    seq(|s|, i requires 0 <= i < |s| => Event(i, s[i].call))
  }

  /** The candidate that is checked at a cut of the sorted history `s`. */
  function Cut(s: seq<Event>, size: nat): (r: seq<Event>)
    requires size <= |s|
    ensures |r| == size
  {
    Relabelled(s[..size])
  }

  // ---------------------------------------------------------------- cuts of a valid history

  ghost predicate SortOf(s: seq<Event>, h: seq<Event>) {
    multiset(s) == multiset(h) && |s| == |h| && Ordered(s)
  }

  ghost predicate Validated(capacity: int, h: seq<Event>) {
    && WellFormed(h) && CoversIndexes(h) && NoGaps(h)
    && ValidScenario(capacity, OperationsOf(h)) && ValidIntervals(Calls(h))
  }

  /** On a validated history the check is the verdict of the search. */
  lemma CheckIsVerdict(capacity: int, h: seq<Event>, budget: int)
    requires 1 <= budget <= MAX_BUDGET && 1 <= |h| <= MAX_HISTORY
    requires Validated(capacity, h)
    ensures Check(capacity, h, |h|, budget) == Verdict(h, capacity, budget)
  {
    ScreeningIsWellFormed(h);
  }

  lemma FailedCheck(capacity: int, h: seq<Event>, budget: int)
    requires Check(capacity, h, |h|, budget).Fail?
    ensures 1 <= budget <= MAX_BUDGET && 1 <= |h| <= MAX_HISTORY && Validated(capacity, h)
    ensures Verdict(h, capacity, budget).Fail?
  {
    ScreeningIsWellFormed(h);
  }

  lemma SameMembers(s: seq<Event>, h: seq<Event>)
    requires multiset(s) == multiset(h)
    ensures forall e :: e in s <==> e in h
    ensures Calls(s) == Calls(h)
  {
    forall e ensures e in s <==> e in h {
      assert e in multiset(s) <==> e in multiset(h);
    }
  }

  lemma CallsOfCut(s: seq<Event>, size: nat)
    requires size <= |s|
    ensures Calls(Cut(s, size)) == Calls(s[..size])
  {
    var c, p := Cut(s, size), s[..size];
    forall x | x in Calls(p) ensures x in Calls(c) {
      var i :| 0 <= i < size && p[i].call == x;
      assert c[i] in c;
    }
    forall x | x in Calls(c) ensures x in Calls(p) {
      var i :| 0 <= i < size && c[i].call == x;
      assert p[i] in p;
    }
  }

  lemma CallsSplit(s: seq<Event>, i: nat, j: nat)
    requires i <= j <= |s|
    ensures Calls(s[..j]) == Calls(s[..i]) + Calls(s[i..j])
  {
    assert s[..j] == s[..i] + s[i..j];
  }

  lemma SortedIsWellFormed(s: seq<Event>, h: seq<Event>)
    requires multiset(s) == multiset(h) && WellFormed(h)
    ensures WellFormed(s)
  {
    SameMembers(s, h);
    forall i, j | 0 <= i < j < |s|
      ensures s[i].index != s[j].index
      ensures s[i].call.worker == s[j].call.worker ==> s[i].call.sequence != s[j].call.sequence
    {
      var a, b := TwoPositions(h, s, i, j);
    }
  }

  /** Two positions of a permutation come from two positions of the original. */
  lemma TwoPositions(h: seq<Event>, s: seq<Event>, i: nat, j: nat) returns (a: nat, b: nat)
    requires multiset(s) == multiset(h) && i < j < |s|
    ensures a < |h| && b < |h| && a != b && h[a] == s[i] && h[b] == s[j]
  {
    assert s[i] in multiset(h) && s[j] in multiset(h);
    a :| 0 <= a < |h| && h[a] == s[i];
    if s[i] != s[j] {
      b :| 0 <= b < |h| && h[b] == s[j];
    } else {
      assert s == (s[..i] + [s[i]] + s[i + 1..j]) + ([s[j]] + s[j + 1..]);
      a, b := TwiceInside(h, s[i]);
    }
  }

  lemma {:induction false} TwiceInside(h: seq<Event>, x: Event) returns (a: nat, b: nat)
    requires multiset(h)[x] >= 2
    ensures a < |h| && b < |h| && a != b && h[a] == h[b] == x
  {
    var rest := h[1..];
    assert h == [h[0]] + rest;
    if h[0] == x {
      assert x in multiset(rest);
      var k :| 0 <= k < |rest| && rest[k] == x;
      a, b := 0, k + 1;
    } else {
      a, b := TwiceInside(rest, x);
      a, b := a + 1, b + 1;
    }
  }

  lemma EarlierInProgramSortsEarlier(s: seq<Event>, i: nat, j: nat)
    requires WellFormed(s) && Ordered(s) && ValidIntervals(Calls(s)) && i < |s| && j < |s|
    requires SameWorkerBefore(s[i].call, s[j].call)
    ensures i < j
  {
    assert s[i].call in Calls(s) && s[j].call in Calls(s) && WellFormedEvent(s[i]);
    assert !KeyAtMost(s[j].call, s[i].call);
  }

  lemma CutHasNoGaps(h: seq<Event>, s: seq<Event>, size: nat)
    requires SortOf(s, h) && WellFormed(s) && NoGaps(h) && ValidIntervals(Calls(s)) && size <= |s|
    ensures NoGaps(Cut(s, size))
  {
    var c := Cut(s, size);
    SameMembers(s, h);
    forall e, q | e in c && 0 <= q < e.call.sequence ensures HasCall(c, e.call.worker, q) {
      var k :| 0 <= k < size && e == c[k];
      assert s[k] in h && HasCall(h, s[k].call.worker, q);
      var f :| f in h && f.call.worker == s[k].call.worker && f.call.sequence == q;
      var j :| 0 <= j < |s| && s[j] == f;
      EarlierInProgramSortsEarlier(s, j, k);
      assert c[j] in c;
    }
  }

  lemma CutIsWellFormed(s: seq<Event>, size: nat)
    requires WellFormed(s) && size <= |s|
    ensures WellFormed(Cut(s, size)) && CoversIndexes(Cut(s, size))
  {
    var c := Cut(s, size);
    forall e | e in c ensures WellFormedEvent(e) {
      var i :| 0 <= i < size && e == c[i];
      assert WellFormedEvent(s[i]);
    }
  }

  lemma CutIsScenario(capacity: int, h: seq<Event>, s: seq<Event>, size: nat)
    requires multiset(s) == multiset(h) && |s| == |h| && 1 <= size <= |s|
    requires ValidScenario(capacity, OperationsOf(h))
    ensures ValidScenario(capacity, OperationsOf(Cut(s, size)))
  {
    var c := Cut(s, size);
    SameMembers(s, h);
    forall op | op in OperationsOf(c) ensures ValidOp(op) {
      var i :| 0 <= i < size && OperationsOf(c)[i] == op;
      assert s[i] in h;
      var k :| 0 <= k < |h| && h[k] == s[i];
      assert OperationsOf(h)[k] in OperationsOf(h);
    }
  }

  /** A prefix of the sorted history passes every validation. */
  lemma CutIsValidated(capacity: int, h: seq<Event>, s: seq<Event>, size: nat)
    requires Validated(capacity, h) && SortOf(s, h) && 1 <= size <= |s|
    ensures Validated(capacity, Cut(s, size))
  {
    SameMembers(s, h);
    SortedIsWellFormed(s, h);
    CutIsWellFormed(s, size);
    CutHasNoGaps(h, s, size);
    CutIsScenario(capacity, h, s, size);
    CallsOfCut(s, size);
    CallsSplit(s, size, |s|);
    assert s[..|s|] == s;
  }

  lemma CutsAreQuiescent(s: seq<Event>, size: nat, larger: nat)
    requires Ordered(s) && QuiescentCut(s, size) && size <= larger <= |s|
    ensures Quiescent(Calls(Cut(s, size)), Calls(s[size..larger]))
    ensures Calls(Cut(s, larger)) == Calls(Cut(s, size)) + Calls(s[size..larger])
  {
    hide Cut, Calls, Ordered, QuiescentCut;
    CallsOfCut(s, size);
    CallsOfCut(s, larger);
    CallsSplit(s, size, larger);
    SeparatedByCut(s, size, larger);
  }

  lemma SeparatedByCut(s: seq<Event>, size: nat, larger: nat)
    requires Ordered(s) && QuiescentCut(s, size) && size <= larger <= |s|
    ensures Quiescent(Calls(s[..size]), Calls(s[size..larger]))
  {
    var later := s[size..larger];
    forall e, f | e in Calls(s[..size]) && f in Calls(later)
      ensures e.finished < f.started
    {
      var j :| 0 <= j < |later| && later[j].call == f;
      assert later[j] == s[size + j];
      assert j == 0 || KeyAtMost(s[size].call, s[size + j].call);
    }
  }

  lemma WholeCut(s: seq<Event>, h: seq<Event>)
    requires SortOf(s, h)
    ensures Calls(Cut(s, |s|)) == Calls(h)
  {
    CallsOfCut(s, |s|);
    SameMembers(s, h);
    assert s[..|s|] == s;
  }

  /** After the whole history failed, checking a quiescent cut raises nothing, never runs out of budget,
      and decides whether the cut is linearizable. */
  lemma CutIsDecided(capacity: int, h: seq<Event>, s: seq<Event>, budget: int, size: nat)
    requires Check(capacity, h, |h|, budget).Fail? && SortOf(s, h) && QuiescentCut(s, size)
    ensures MIN_CAPACITY <= capacity <= MAX_CAPACITY
    ensures var v := Check(capacity, Cut(s, size), size, budget);
            && (v.Pass? || v.Fail?)
            && (v.Fail? <==> !Linearizable(Start(capacity), Calls(Cut(s, size))))
  {
    var c := Cut(s, size);
    FailedCheck(capacity, h, budget);
    CutIsValidated(capacity, h, s, size);
    CheckIsVerdict(capacity, c, budget);
    WellFormedIsDistinct(h);
    WellFormedIsDistinct(c);
    CutsAreQuiescent(s, size, |s|);
    WholeCut(s, h);
    PrefixCost(h, c, Calls(s[size..|s|]), Start(capacity));
    VerdictIsExact(c, capacity, budget);
  }

  /** Failure is inherited by every larger quiescent cut, up to the whole history. */
  lemma LargerCutsFail(capacity: int, h: seq<Event>, budget: int, size: nat, larger: nat)
    requires Check(capacity, h, |h|, budget).Fail?
    requires QuiescentCut(Sorted(h), size) && QuiescentCut(Sorted(h), larger) && size <= larger
    requires Check(capacity, Cut(Sorted(h), size), size, budget).Fail?
    ensures Check(capacity, Cut(Sorted(h), larger), larger, budget).Fail?
  {
    var s := Sorted(h);
    SortedIsOrdered(h);
    FailedCheck(capacity, h, budget);
    CutIsDecided(capacity, h, s, budget, size);
    CutIsDecided(capacity, h, s, budget, larger);
    CutsAreQuiescent(s, size, larger);
    CutIsValidated(capacity, h, s, larger);
    if Linearizable(Start(capacity), Calls(Cut(s, larger))) {
      QuiescentPrefixIsLinearizable(Start(capacity), Calls(Cut(s, size)), Calls(s[size..larger]));
    }
  }

  /** A cut that is not linearizable refutes the full history. */
  lemma CounterexampleRefutes(capacity: int, h: seq<Event>, size: nat)
    requires Validated(capacity, h) && QuiescentCut(Sorted(h), size)
    requires !Linearizable(Start(capacity), Calls(Cut(Sorted(h), size)))
    ensures !Linearizable(Start(capacity), Calls(h))
  {
    var s := Sorted(h);
    SortedIsOrdered(h);
    WholeCut(s, h);
    CutsAreQuiescent(s, size, |s|);
    if Linearizable(Start(capacity), Calls(h)) {
      QuiescentPrefixIsLinearizable(Start(capacity), Calls(Cut(s, size)), Calls(s[size..|s|]));
    }
  }

  /** The last cut is the whole history, which has failed already. */
  lemma WholeCutFails(capacity: int, h: seq<Event>, s: seq<Event>, budget: int)
    requires Check(capacity, h, |h|, budget).Fail? && SortOf(s, h)
    ensures FailingCut(capacity, s, budget, |s|)
  {
    FailedCheck(capacity, h, budget);
    VerdictIsExact(h, capacity, budget);
    CutIsDecided(capacity, h, s, budget, |s|);
    WholeCut(s, h);
  }

  // ---------------------------------------------------------------- the code

  /** Refused stands for a ValueError of a check; Unresolved for the return after the loop. `originals` are the indexes
      the kept events had, `checks` counts the calls of the checker. */
  datatype TrimResult =
    | Refused
    | Inconclusive(original: CheckResult, checks: nat)
    | NoCounterexample(original: CheckResult, checks: nat)
    | Counterexample(history: seq<Event>, originals: seq<int>, result: CheckResult, checks: nat)
    | Unresolved(checks: nat)

  predicate FailingCut(capacity: int, s: seq<Event>, budget: int, size: nat) {
    QuiescentCut(s, size) && Check(capacity, Cut(s, size), size, budget).Fail?
  }

  predicate NoneFailsBelow(capacity: int, s: seq<Event>, budget: int, size: int) {
    forall k :: 1 <= k < size ==> !FailingCut(capacity, s, budget, k)
  }

  lemma NoneFailsUpTo(capacity: int, s: seq<Event>, budget: int, size: nat)
    requires NoneFailsBelow(capacity, s, budget, size) && !FailingCut(capacity, s, budget, size)
    ensures NoneFailsBelow(capacity, s, budget, size + 1)
  {
    hide FailingCut;
  }

  /** The number of quiescent cuts up to `size`. */
  function CutsUpTo(s: seq<Event>, size: nat): (n: nat)
    ensures n <= size
  {
    if size == 0 then 0 else CutsUpTo(s, size - 1) + if QuiescentCut(s, size) then 1 else 0
  }

  /** The result of the loop: the smallest failing quiescent cut of the sorted history `s`, with the indexes its events
      had, its verdict, and one check for the whole and for each quiescent cut up to it. */
  ghost predicate SmallestFailing(capacity: int, s: seq<Event>, budget: int, r: TrimResult) {
    && r.Counterexample? && |r.history| <= |s|
    && var size := |r.history|;
    && r.history == Cut(s, size) && r.originals == IndexesOf(s[..size])
    && FailingCut(capacity, s, budget, size) && NoneFailsBelow(capacity, s, budget, size)
    && r.result == Check(capacity, r.history, size, budget) && r.checks == 1 + CutsUpTo(s, size)
  }

  /** The labels lead back to the recorded events. */
  lemma OriginalsAreRecorded(h: seq<Event>, s: seq<Event>, size: nat, i: nat)
    requires SortOf(s, h) && i < size <= |s|
    ensures Event(IndexesOf(s[..size])[i], Cut(s, size)[i].call) in h
  {
    assert s[i] in multiset(s);
    assert s[i] in multiset(h);
    assert s[..size][i] == s[i];
  }

  /** A failing history is always trimmed, to its smallest failing quiescent cut. */
  method ReduceHistoryPrefix(capacity: int, h: seq<Event>, budget: int) returns (r: TrimResult)
    ensures !r.Unresolved?
    ensures var original := Check(capacity, h, |h|, budget);
            match original
            case Rejected => r == Refused
            case Pass(_, _) => r == NoCounterexample(original, 1)
            case Fail(_) =>
              && SmallestFailing(capacity, Sorted(h), budget, r) && |r.history| <= |h|
              && SmallestRefutation(capacity, h, r)
            case _ => r == Inconclusive(original, 1)
  {
    var checker := new HistoryChecker();
    var original := checker.CheckHistory(capacity, h, |h|, budget);
    match original {
      case Rejected => return Refused;
      case Pass(_, _) => return NoCounterexample(original, 1);
      case Fail(_) =>
      case _ => return Inconclusive(original, 1);
    }
    var ordered := Sorted(h);
    SortedIsOrdered(h);
    r := TrySizes(checker, capacity, h, ordered, budget);
    TrimIsSmallest(capacity, h, budget, r);
  }

  /** One check of the loop; it never raises. */
  method CheckCut(checker: HistoryChecker, capacity: int, ghost h: seq<Event>, ordered: seq<Event>, budget: int,
                  size: nat)
    returns (result: CheckResult)
    requires Check(capacity, h, |h|, budget).Fail? && SortOf(ordered, h) && QuiescentCut(ordered, size)
    modifies checker
    ensures result == Check(capacity, Cut(ordered, size), size, budget) && (result.Pass? || result.Fail?)
    ensures result.Fail? <==> FailingCut(capacity, ordered, budget, size)
  {
    CutIsDecided(capacity, h, ordered, budget, size);
    result := checker.CheckHistory(capacity, Cut(ordered, size), size, budget);
  }

  /** The loop over the cuts of the sorted history. */
  method TrySizes(checker: HistoryChecker, capacity: int, ghost h: seq<Event>, ordered: seq<Event>, budget: int)
    returns (r: TrimResult)
    requires Check(capacity, h, |h|, budget).Fail? && SortOf(ordered, h)
    modifies checker
    ensures SmallestFailing(capacity, ordered, budget, r)
  {
    hide Check, SortOf, NoneFailsBelow, Cut, IndexesOf;
    var checks: nat := 1;
    NoneFailsYet(capacity, ordered, budget);
    for size := 1 to |ordered| + 1
      invariant NoneFailsBelow(capacity, ordered, budget, size) && checks == 1 + CutsUpTo(ordered, size - 1)
    {
      if size < |ordered| && MaxFinished(ordered[..size]) >= ordered[size].call.started {
        NoneFailsUpTo(capacity, ordered, budget, size);
        continue;
      }
      var candidate := Relabelled(ordered[..size]);
      var result := CheckCut(checker, capacity, h, ordered, budget, size);
      checks := checks + 1;
      if result.Fail? {
        CutIsRelabelled(ordered, size);
        return Counterexample(candidate, IndexesOf(ordered[..size]), result, checks);
      }
      NoneFailsUpTo(capacity, ordered, budget, size);
    }
    WholeCutFails(capacity, h, ordered, budget);
    NotBelow(capacity, ordered, budget, |ordered|);
    r := Unresolved(checks);
  }

  lemma NoneFailsYet(capacity: int, s: seq<Event>, budget: int)
    ensures NoneFailsBelow(capacity, s, budget, 1)
  {
  }

  lemma CutIsRelabelled(s: seq<Event>, size: nat)
    requires size <= |s|
    ensures Cut(s, size) == Relabelled(s[..size]) && |Cut(s, size)| == size
  {
  }

  lemma NotBelow(capacity: int, s: seq<Event>, budget: int, size: nat)
    requires FailingCut(capacity, s, budget, size)
    ensures !NoneFailsBelow(capacity, s, budget, size + 1)
  {
  }

  // ---------------------------------------------------------------- what a counterexample is

  /** Earlier by invocation, then by worker, then by program position. */
  predicate Earlier(a: Call, b: Call) {
    || a.started < b.started
    || (a.started == b.started && (a.worker < b.worker || (a.worker == b.worker && a.sequence < b.sequence)))
  }

  /** A part of the recorded calls that were over before any other was invoked. */
  predicate QuietPart(calls: set<Call>, part: set<Call>) {
    part != {} && part <= calls && forall c, d :: c in part && d in calls && d !in part ==> c.finished < d.started
  }

  lemma CallsAreDistinct(s: seq<Event>, k: nat)
    requires WellFormed(s) && k <= |s|
    ensures |Calls(s[..k])| == k
    ensures forall i: nat :: i < |s| ==> (s[i].call in Calls(s[..k]) <==> i < k)
  {
    forall i: nat | i < |s| ensures s[i].call in Calls(s[..k]) <==> i < k {
      if i < k {
        assert s[..k][i] in s[..k];
      }
    }
    CallCount(s, k);
  }

  lemma OneCallMore(s: seq<Event>, k: nat)
    requires WellFormed(s) && 0 < k <= |s|
    ensures Calls(s[..k]) == Calls(s[..k - 1]) + {s[k - 1].call} && s[k - 1].call !in Calls(s[..k - 1])
  {
    assert s[..k] == s[..k - 1] + [s[k - 1]];
    forall e | e in s[..k - 1] ensures e.call != s[k - 1].call {
      var j :| 0 <= j < k - 1 && s[..k - 1][j] == e;
    }
  }

  lemma {:induction false} CallCount(s: seq<Event>, k: nat)
    requires WellFormed(s) && k <= |s|
    ensures |Calls(s[..k])| == k
  {
    hide WellFormed;
    if k == 0 {
      assert Calls(s[..0]) == {};
    } else {
      hide Calls;
      CallCount(s, k - 1);
      OneCallMore(s, k);
    }
  }

  /** The quiet parts of a history are the quiescent cuts of it, sorted. */
  lemma CutIsQuietPart(s: seq<Event>, size: nat)
    requires WellFormed(s) && Ordered(s) && QuiescentCut(s, size)
    ensures QuietPart(Calls(s), Calls(s[..size])) && |Calls(s[..size])| == size
  {
    hide Ordered, QuiescentCut, WellFormed;
    CutIsNonempty(s, size);
    CallsAreDistinct(s, size);
    SeparatedByCut(s, size, |s|);
    CallsSplit(s, size, |s|);
    assert s[..|s|] == s;
    assert s[..size][0] in s[..size];
  }

  lemma CutIsNonempty(s: seq<Event>, size: nat)
    requires QuiescentCut(s, size)
    ensures 1 <= size <= |s|
  {
  }

  /** A quiet part takes the first places of the sorted history. */
  lemma PartIsDownward(s: seq<Event>, part: set<Call>, i: nat, j: nat)
    requires WellFormed(s) && Ordered(s) && QuietPart(Calls(s), part) && i < j < |s| && s[j].call in part
    ensures s[i].call in part
  {
    assert s[i] in s && s[j] in s && WellFormedEvent(s[j]) && KeyAtMost(s[i].call, s[j].call);
  }

  lemma QuietPartIsCut(s: seq<Event>, part: set<Call>) returns (size: nat)
    requires WellFormed(s) && Ordered(s) && QuietPart(Calls(s), part)
    ensures QuiescentCut(s, size) && part == Calls(s[..size]) && |part| == size
  {
    hide Ordered, WellFormed;
    size := 0;
    while size < |s| && s[size].call in part
      invariant size <= |s| && forall i: nat :: i < size ==> s[i].call in part
    {
      size := size + 1;
    }
    forall j: nat | j < |s| && size <= j ensures s[j].call !in part {
      if s[j].call in part && size < j {
        PartIsDownward(s, part, size, j);
      }
    }
    CallsAreDistinct(s, size);
    forall c ensures c in part <==> c in Calls(s[..size]) {
      if c in part {
        var j: nat :| j < |s| && s[j].call == c;
      }
      if c in Calls(s[..size]) {
        var j: nat :| j < size && s[..size][j].call == c;
        assert s[j].call == c;
      }
    }
    assert part == Calls(s[..size]);
    PartIsQuiescent(s, part, size);
  }

  lemma PartIsQuiescent(s: seq<Event>, part: set<Call>, size: nat)
    requires QuietPart(Calls(s), part) && size <= |s| && part == Calls(s[..size])
    requires size < |s| ==> s[size].call !in part
    ensures QuiescentCut(s, size)
  {
    assert Calls(s[..0]) == {};
    if size < |s| {
      assert s[size] in s;
      var e :| e in s[..size] && e.call.finished == MaxFinished(s[..size]);
      assert e.call in part;
    }
  }

  /** What trimming delivers, said of the recorded history alone: recorded calls in the order of their invocation, with
      the indexes they had; they are a quiet part of the history that has no legal order, and every smaller one has. */
  ghost predicate SmallestRefutation(capacity: int, h: seq<Event>, r: TrimResult) {
    && 256 <= capacity <= 65536 && r.Counterexample? && |r.originals| == |r.history|
    && (forall i: nat :: i < |r.history| ==>
          r.history[i].index == i && Event(r.originals[i], r.history[i].call) in h)
    && (forall i: nat, j: nat :: i < j < |r.history| ==> Earlier(r.history[i].call, r.history[j].call))
    && QuietPart(Calls(h), Calls(r.history))
    && (forall order :: !V.Legal(capacity, Calls(r.history), order))
    && forall part :: QuietPart(Calls(h), part) && |part| < |r.history| ==>
         exists order :: V.Legal(capacity, part, order)
  }

  lemma TrimIsSmallest(capacity: int, h: seq<Event>, budget: int, r: TrimResult)
    requires Check(capacity, h, |h|, budget).Fail? && SmallestFailing(capacity, Sorted(h), budget, r)
    ensures SmallestRefutation(capacity, h, r)
  {
    hide Check, Ordered, WellFormed, QuietPart, QuiescentCut, V.Legal, Linearizable, KeyAtMost, NoneFailsBelow,
      FailingCut, ValidIntervals, NoGaps, CoversIndexes, ValidScenario, CutsUpTo, Sorted;
    var s, n := Sorted(h), |r.history|;
    FailedCheck(capacity, h, budget);
    SortedIsOrdered(h);
    SameMembers(s, h);
    SortedIsWellFormed(s, h);
    FailingSize(capacity, s, budget, n);
    CutIsQuietPart(s, n);
    CallsOfCut(s, n);
    CutIsDecided(capacity, h, s, budget, n);
    PlacesOfCalls(s, n);
    forall order ensures !V.Legal(capacity, Calls(r.history), order) {
      V.LegalIsExplanation(capacity, Calls(r.history), order);
      NotExplained(capacity, Calls(r.history), order);
    }
    forall i: nat | i < n ensures Event(r.originals[i], r.history[i].call) in h && r.history[i].index == i {
      OriginalsAreRecorded(h, s, n, i);
    }
    forall i: nat, j: nat | i < j < n ensures Earlier(r.history[i].call, r.history[j].call) {
      SortedEarlier(s, i, j);
    }
    forall part | QuietPart(Calls(h), part) && |part| < n
      ensures exists order :: V.Legal(capacity, part, order)
    {
      var size := QuietPartIsCut(s, part);
      SmallerCutPasses(capacity, h, s, budget, size, n);
      PlacesOfCalls(s, size);
      var order := Explanation(capacity, part);
      V.LegalIsExplanation(capacity, part, order);
    }
  }

  lemma FailingSize(capacity: int, s: seq<Event>, budget: int, n: nat)
    requires FailingCut(capacity, s, budget, n)
    ensures QuiescentCut(s, n) && Check(capacity, Cut(s, n), n, budget).Fail?
  {
  }

  lemma PlacesOfCalls(s: seq<Event>, k: nat)
    requires WellFormed(s) && k <= |s|
    ensures V.OnePlaceEach(Calls(s[..k]))
  {
    V.PlacesOfHistory(s);
    assert forall c :: c in Calls(s[..k]) ==> c in Calls(s);
  }

  lemma NotExplained(capacity: int, calls: set<Call>, order: seq<Call>)
    requires MIN_CAPACITY <= capacity <= MAX_CAPACITY && !Linearizable(Start(capacity), calls)
    ensures !Explains(Start(capacity), calls, order)
  {
  }

  lemma Explanation(capacity: int, calls: set<Call>) returns (order: seq<Call>)
    requires MIN_CAPACITY <= capacity <= MAX_CAPACITY && Linearizable(Start(capacity), calls)
    ensures Explains(Start(capacity), calls, order)
  {
    order :| Explains(Start(capacity), calls, order);
  }

  lemma SortedEarlier(s: seq<Event>, i: nat, j: nat)
    requires WellFormed(s) && Ordered(s) && i < j < |s|
    ensures Earlier(s[i].call, s[j].call)
  {
    assert KeyAtMost(s[i].call, s[j].call);
  }

  lemma SmallerCutPasses(capacity: int, h: seq<Event>, s: seq<Event>, budget: int, size: nat, n: nat)
    requires Check(capacity, h, |h|, budget).Fail? && SortOf(s, h) && QuiescentCut(s, size) && size < n
    requires NoneFailsBelow(capacity, s, budget, n) && MIN_CAPACITY <= capacity <= MAX_CAPACITY
    ensures Linearizable(Start(capacity), Calls(s[..size]))
  {
    hide Linearizable, Check, SortOf;
    CutIsDecided(capacity, h, s, budget, size);
    CallsOfCut(s, size);
    assert !FailingCut(capacity, s, budget, size);
  }
}
