/** Recorded calls, the order that real time and worker programs force on them, and what it means
    that a history has a legal sequential explanation (lab/history.py). */
module History {
  import opened Bytes
  import opened Contract

  /** One recorded call. `actual` is None when the worker stopped with an error instead of a result. */
  datatype Call = Call(worker: int, sequence: int, started: int, finished: int,
                       operation: Op, actual: Option<Result>)

  datatype Event = Event(index: int, call: Call)

  predicate SameWorkerBefore(f: Call, e: Call) {
    f.worker == e.worker && f.sequence < e.sequence
  }

  /** `f` must come before `e`: it returned before `e` was invoked, or its worker ran it earlier. */
  predicate Before(f: Call, e: Call) {
    f.finished < e.started || SameWorkerBefore(f, e)
  }

  /** What validation establishes about the intervals of any set of calls. */
  predicate ValidIntervals(calls: set<Call>) {
    && (forall c :: c in calls ==> c.started <= c.finished)
    && (forall f, e :: f in calls && e in calls && SameWorkerBefore(f, e) ==> f.finished <= e.started)
  }

  predicate Chain(path: seq<Call>) {
    forall k :: 0 <= k < |path| - 1 ==> Before(path[k], path[k + 1])
  }

  /** Along a chain the pair (start time, program position within a worker) grows lexicographically, even
      when clock readings tie. */
  lemma {:induction false} ChainsAdvance(calls: set<Call>, path: seq<Call>)
    requires ValidIntervals(calls) && 2 <= |path| && Chain(path)
    requires forall c :: c in path ==> c in calls
    ensures path[0].started < path[|path| - 1].started
            || (path[0].started == path[|path| - 1].started
                && SameWorkerBefore(path[0], path[|path| - 1]))
    decreases |path|
  {
    if |path| > 2 {
      ChainsAdvance(calls, path[..|path| - 1]);
    }
    assert Before(path[|path| - 2], path[|path| - 1]);
    assert path[|path| - 2] in calls && path[|path| - 1] in calls;
  }

  /** The forced order is acyclic on validated intervals. */
  lemma ForcedOrderIsAcyclic(calls: set<Call>, path: seq<Call>)
    requires ValidIntervals(calls) && 2 <= |path| && Chain(path)
    requires forall c :: c in path ==> c in calls
    ensures path[0] != path[|path| - 1]
  {
    ChainsAdvance(calls, path);
  }

  /** `e` may go first among the calls `left` over. */
  predicate Enabled(left: set<Call>, e: Call) {
    e in left && forall f :: f in left && f != e ==> !Before(f, e)
  }

  predicate Matches(m: Model, e: Call)
    requires m.Valid()
  {
    e.actual == Some(Apply(m, e.operation).1)
  }

  function Next(m: Model, e: Call): (n: Model)
    requires m.Valid()
    ensures n.Valid()
  {
    Apply(m, e.operation).0
  }

  function Operations(order: seq<Call>): (ops: seq<Op>)
    ensures |ops| == |order|
  {
    if order == [] then [] else [order[0].operation] + Operations(order[1..])
  }

  /** The declarative meaning: `order` is a permutation of `calls` that never contradicts the forced
      order and whose operations, run on one queue, answer what was observed. */
  ghost predicate Explains(m: Model, calls: set<Call>, order: seq<Call>)
    requires m.Valid()
  {
    && (forall i, j :: 0 <= i < j < |order| ==> order[i] != order[j])
    && (forall c :: c in calls <==> c in order)
    && (forall i, j :: 0 <= i < j < |order| ==> !Before(order[j], order[i]))
    && Replays(m, order)
  }

  /** Every call of `order`, run in turn from `m`, answers what was observed. */
  ghost predicate Replays(m: Model, order: seq<Call>)
    requires m.Valid()
  {
    forall i :: 0 <= i < |order| ==> order[i].actual == Some(Answers(m, Operations(order))[i])
  }

  lemma ReplaysUnfolds(m: Model, order: seq<Call>)
    requires m.Valid() && order != []
    ensures Replays(m, order) <==> Matches(m, order[0]) && Replays(Next(m, order[0]), order[1..])
  {
    var rest, n := order[1..], Next(m, order[0]);
    var all, later := Answers(m, Operations(order)), Answers(n, Operations(rest));
    assert Operations(order)[1..] == Operations(rest);
    assert all == [Apply(m, order[0].operation).1] + later;
    forall i | 0 <= i < |rest|
      ensures rest[i].actual == Some(later[i]) <==> order[i + 1].actual == Some(all[i + 1])
    {
    }
    if Matches(m, order[0]) && Replays(n, rest) {
      forall i | 0 <= i < |order| ensures order[i].actual == Some(all[i]) {
        if 0 < i {
          assert order[i] == rest[i - 1];
        }
      }
    }
  }

  ghost predicate Linearizable(m: Model, calls: set<Call>)
    requires m.Valid()
  {
    exists order :: Explains(m, calls, order)
  }

  /** The same meaning, one call at a time. */
  ghost predicate Stepwise(m: Model, calls: set<Call>, order: seq<Call>)
    requires m.Valid()
    decreases |order|
  {
    if order == [] then calls == {}
    else
      && Enabled(calls, order[0]) && Matches(m, order[0])
      && Stepwise(Next(m, order[0]), calls - {order[0]}, order[1..])
  }

  lemma {:induction false} StepwiseIsExplains(m: Model, calls: set<Call>, order: seq<Call>)
    requires m.Valid()
    ensures Stepwise(m, calls, order) <==> Explains(m, calls, order)
    decreases |order|
  {
    if order == [] {
    } else {
      var e, rest := order[0], order[1..];
      StepwiseIsExplains(Next(m, e), calls - {e}, rest);
      if Stepwise(m, calls, order) {
        StepwiseExplains(m, calls, order);
      }
      if Explains(m, calls, order) {
        ExplainsStepwise(m, calls, order);
      }
    }
  }

  lemma StepwiseExplains(m: Model, calls: set<Call>, order: seq<Call>)
    requires m.Valid() && order != [] && Enabled(calls, order[0]) && Matches(m, order[0])
    requires Explains(Next(m, order[0]), calls - {order[0]}, order[1..])
    ensures Explains(m, calls, order)
  {
    var e, rest := order[0], order[1..];
    ReplaysUnfolds(m, order);
    assert forall i :: 0 < i < |order| ==> order[i] == rest[i - 1] && order[i] in rest;
    assert forall c :: c in order <==> c == e || c in rest;
    forall i, j | 0 <= i < j < |order|
      ensures order[i] != order[j] && !Before(order[j], order[i])
    {
      if i == 0 {
        assert order[j] in calls - {e};
      } else {
        assert rest[i - 1] != rest[j - 1] && !Before(rest[j - 1], rest[i - 1]);
      }
    }
  }

  lemma ExplainsStepwise(m: Model, calls: set<Call>, order: seq<Call>)
    requires m.Valid() && order != [] && Explains(m, calls, order)
    ensures Enabled(calls, order[0]) && Matches(m, order[0])
    ensures Explains(Next(m, order[0]), calls - {order[0]}, order[1..])
  {
    var e, rest := order[0], order[1..];
    ReplaysUnfolds(m, order);
    assert forall i :: 0 <= i < |rest| ==> rest[i] == order[i + 1];
    assert forall c :: c in order <==> c == e || c in rest;
    forall f | f in calls && f != e
      ensures !Before(f, e)
    {
      var j :| 0 <= j < |order| && order[j] == f;
      assert 0 < j;
    }
  }

  /** A set of calls no other call of `later` can precede: `later` starts after all of `earlier` ended. */
  predicate Quiescent(earlier: set<Call>, later: set<Call>) {
    forall e, f :: e in earlier && f in later ==> e.finished < f.started
  }

  /** Any quiescent prefix of an explainable history is explainable. */
  lemma {:induction false} PrefixOfStepwise(m: Model, earlier: set<Call>, later: set<Call>, order: seq<Call>)
    returns (prefix: seq<Call>)
    requires m.Valid() && ValidIntervals(earlier + later) && Quiescent(earlier, later)
    requires Stepwise(m, earlier + later, order)
    ensures Stepwise(m, earlier, prefix)
    decreases |order|
  {
    if earlier == {} {
      return [];
    }
    var first :| first in earlier;
    assert first in earlier + later && order != [];
    var e := order[0];
    assert first == e || !Before(first, e);
    assert e in earlier;
    var later' := later - {e};
    assert earlier + later - {e} == (earlier - {e}) + later';
    var tail := PrefixOfStepwise(Next(m, e), earlier - {e}, later', order[1..]);
    prefix := [e] + tail;
  }

  lemma QuiescentPrefixIsLinearizable(m: Model, earlier: set<Call>, later: set<Call>)
    requires m.Valid() && ValidIntervals(earlier + later) && Quiescent(earlier, later)
    requires Linearizable(m, earlier + later)
    ensures Linearizable(m, earlier)
  {
    var order :| Explains(m, earlier + later, order);
    StepwiseIsExplains(m, earlier + later, order);
    var prefix := PrefixOfStepwise(m, earlier, later, order);
    StepwiseIsExplains(m, earlier, prefix);
  }
}
