/** Workloads of lab/dradd.py: what the constructor accepts, which subsets are valid, and projection. */
module Workload {
  import opened Bytes

  /** One operation, as its JSON text. */
  type Operation = string

  datatype Kind = HardStructural | ContractRequired | ConservativeInferred | OptionalHeuristic

  predicate Enforced(k: Kind) {
    k == HardStructural || k == ContractRequired
  }

  /** `operation` may be kept only together with `needs`. */
  datatype Edge = Edge(operation: int, needs: int, kind: Kind)

  datatype Source = Source(operations: seq<Operation>, owners: seq<int>, workers: int,
                           dependencies: seq<Edge>, originalIds: Option<seq<int>>)

  predicate Shaped(v: Source) {
    && 1 <= |v.operations| <= 12 && 1 <= v.workers <= 4
    && |v.owners| == |v.operations| && forall w :: w in v.owners ==> 0 <= w < v.workers
  }

  predicate EdgeInRange(n: nat, e: Edge) {
    0 <= e.operation < n && 0 <= e.needs < n && e.operation != e.needs
  }

  predicate Unrepeated(edges: seq<Edge>) {
    forall i, j :: 0 <= i < j < |edges| ==> edges[i] != edges[j]
  }

  predicate EdgesInRange(n: nat, edges: seq<Edge>) {
    && (forall e :: e in edges ==> EdgeInRange(n, e))
    && Unrepeated(edges)
  }

  predicate WellFormed(v: Source) {
    Shaped(v) && EdgesInRange(|v.operations|, v.dependencies)
  }

  // ---------------------------------------------------------------- constraints

  predicate Needs(v: Source, a: int, b: int) {
    exists e :: e in v.dependencies && Enforced(e.kind) && e.operation == a && e.needs == b
  }

  predicate ProgramBefore(v: Source, b: int, a: int) {
    0 <= b < a < |v.owners| && v.owners[b] == v.owners[a]
  }

  /** `b` must come before `a`: a required edge or the program of a common worker says so. */
  predicate Precedes(v: Source, b: int, a: int) {
    Needs(v, a, b) || ProgramBefore(v, b, a)
  }

  /** Each element is constrained to come before the one it follows here. */
  predicate Descending(v: Source, path: seq<int>) {
    forall k :: 0 <= k < |path| - 1 ==> Precedes(v, path[k + 1], path[k])
  }

  /** A walk against the constraints that returns to its start. */
  predicate Cycle(v: Source, path: seq<int>) {
    2 <= |path| && path[0] == path[|path| - 1] && Descending(v, path)
  }

  ghost predicate Cyclic(v: Source) {
    exists path :: Cycle(v, path)
  }

  predicate Lists(order: seq<int>, n: nat) {
    && (forall x :: x in order ==> 0 <= x < n)
    && (forall x :: 0 <= x < n ==> x in order)
    && (forall i, j :: 0 <= i < j < |order| ==> order[i] != order[j])
  }

  /** `order` lists all operations once and contradicts no constraint. */
  predicate Schedule(v: Source, order: seq<int>) {
    && Lists(order, |v.operations|)
    && forall i, j :: 0 <= i < |order| && 0 <= j < |order| && Precedes(v, order[i], order[j]) ==> i < j
  }

  lemma PrecedesInRange(v: Source, b: int, a: int)
    requires WellFormed(v) && Precedes(v, b, a)
    ensures 0 <= b < |v.operations| && 0 <= a < |v.operations|
  {
    if Needs(v, a, b) {
      var e :| e in v.dependencies && Enforced(e.kind) && e.operation == a && e.needs == b;
      assert EdgeInRange(|v.operations|, e);
    }
  }

  lemma {:induction false} ScheduleDescends(v: Source, order: seq<int>, path: seq<int>, p: nat, q: nat)
    requires WellFormed(v) && Schedule(v, order) && 2 <= |path| && p < |order| && q < |order|
    requires Descending(v, path) && order[p] == path[0] && order[q] == path[|path| - 1]
    ensures q < p
    decreases |path|
  {
    assert Precedes(v, path[0 + 1], path[0]);
    PrecedesInRange(v, path[1], path[0]);
    assert path[1] in order;
    var m: nat :| m < |order| && order[m] == path[1];
    assert m < p;
    if |path| > 2 {
      DescendingTail(v, path, 1);
      ScheduleDescends(v, order, path[1..], m, q);
    }
  }

  lemma DescendingTail(v: Source, path: seq<int>, j: nat)
    requires Descending(v, path) && j <= |path|
    ensures Descending(v, path[j..])
  {
    var rest := path[j..];
    forall k | 0 <= k < |rest| - 1 ensures Precedes(v, rest[k + 1], rest[k]) {
      assert Precedes(v, path[j + k + 1], path[j + k]);
    }
  }

  /** A schedule rules out cycles. */
  lemma ScheduleMeansAcyclic(v: Source, order: seq<int>)
    requires WellFormed(v) && Schedule(v, order)
    ensures !Cyclic(v)
  {
    forall path ensures !Cycle(v, path) {
      if Cycle(v, path) {
        assert Precedes(v, path[0 + 1], path[0]);
        PrecedesInRange(v, path[1], path[0]);
        assert path[0] in order;
        var p: nat :| p < |order| && order[p] == path[0];
        ScheduleDescends(v, order, path, p, p);
      }
    }
  }

  // ---------------------------------------------------------------- what a runnable workload is

  /** The order starts every operation once, every worker's operations in list order, and no operation before one of
      its hard or required prerequisites. */
  ghost predicate Runs(v: Source, order: seq<int>)
    requires |v.owners| == |v.operations|
  {
    && (forall i :: 0 <= i < |order| ==> 0 <= order[i] < |v.operations|)
    && (forall x :: 0 <= x < |v.operations| ==> x in order)
    && (forall i, j :: 0 <= i < j < |order| ==> order[i] != order[j])
    && (forall i, j :: 0 <= i < j < |order| && v.owners[order[i]] == v.owners[order[j]] ==> order[i] < order[j])
    && forall i, j, e :: 0 <= i < j < |order| && e in v.dependencies && e.kind in {HardStructural, ContractRequired}
                         ==> !(e.operation == order[i] && e.needs == order[j])
  }

  /** One to twelve operations with as many owners among one to four workers, and distinct edges, each between two
      operations. */
  predicate Sound(v: Source) {
    && 0 < |v.operations| < 13 && 0 < v.workers < 5 && |v.owners| == |v.operations|
    && (forall k :: 0 <= k < |v.owners| ==> 0 <= v.owners[k] < v.workers)
    && (forall k :: 0 <= k < |v.dependencies| ==>
          && 0 <= v.dependencies[k].operation < |v.operations| && 0 <= v.dependencies[k].needs < |v.operations|
          && v.dependencies[k].operation != v.dependencies[k].needs)
    && forall j, k :: 0 <= j < k < |v.dependencies| ==> v.dependencies[j] != v.dependencies[k]
  }

  /** Some order of the operations keeps everything that is required. */
  ghost predicate Runnable(v: Source) {
    Sound(v) && exists order :: Runs(v, order)
  }

  lemma SoundIsWellFormed(v: Source)
    ensures WellFormed(v) <==> Sound(v)
  {
    if WellFormed(v) {
      forall k | 0 <= k < |v.owners| ensures 0 <= v.owners[k] < v.workers {
        assert v.owners[k] in v.owners;
      }
      forall k | 0 <= k < |v.dependencies| ensures EdgeInRange(|v.operations|, v.dependencies[k]) {
        assert v.dependencies[k] in v.dependencies;
      }
    }
  }

  /** Contradicting no constraint is starting the operations in an order that keeps what is required. */
  lemma ScheduleRuns(v: Source, order: seq<int>)
    requires WellFormed(v)
    ensures Schedule(v, order) <==> Runs(v, order)
  {
    if Schedule(v, order) {
      forall i | 0 <= i < |order| ensures 0 <= order[i] < |v.operations| {
        assert order[i] in order;
      }
      forall i, j | 0 <= i < j < |order| && v.owners[order[i]] == v.owners[order[j]] ensures order[i] < order[j] {
        assert !Precedes(v, order[j], order[i]);
      }
      forall i, j, e | 0 <= i < j < |order| && e in v.dependencies && e.kind in {HardStructural, ContractRequired}
        ensures !(e.operation == order[i] && e.needs == order[j])
      {
        assert !Precedes(v, order[j], order[i]);
      }
    }
    if Runs(v, order) {
      forall i, j | 0 <= i < |order| && 0 <= j < |order| && Precedes(v, order[i], order[j]) ensures i < j {
        RunsKeeps(v, order, i, j);
      }
    }
  }

  lemma RunsKeeps(v: Source, order: seq<int>, i: nat, j: nat)
    requires WellFormed(v) && Runs(v, order) && i < |order| && j < |order| && Precedes(v, order[i], order[j])
    ensures i < j
  {
    if Needs(v, order[j], order[i]) {
      var e :| e in v.dependencies && Enforced(e.kind) && e.operation == order[j] && e.needs == order[i];
      assert EdgeInRange(|v.operations|, e);
    }
  }

  // ---------------------------------------------------------------- the graph that is searched

  /** The prerequisites recorded for `i` by the edges. */
  function RequiredOf(edges: seq<Edge>, i: int): (s: set<int>)
    ensures forall b :: b in s <==> exists e :: e in edges && Enforced(e.kind) && e.operation == i && e.needs == b
  {
    set e | e in edges && Enforced(e.kind) && e.operation == i :: e.needs
  }

  /** The last operation of worker `w` before position `n`, or -1. */
  function LastOf(owners: seq<int>, n: nat, w: int): (p: int)
    requires n <= |owners|
    ensures -1 <= p < n
    ensures p >= 0 ==> owners[p] == w
    ensures forall k :: p < k < n ==> owners[k] != w
  {
    if n == 0 then -1
    else if owners[n - 1] == w then n - 1
    else LastOf(owners, n - 1, w)
  }

  /** The link to the worker's previous operation. */
  function PreviousOf(owners: seq<int>, i: nat): (s: set<int>)
    requires i < |owners|
  {
    var p := LastOf(owners, i, owners[i]);
    if p >= 0 then {p} else {}
  }

  function Parents(v: Source, i: int): (s: set<int>) {
    if 0 <= i < |v.owners| then RequiredOf(v.dependencies, i) + PreviousOf(v.owners, i) else {}
  }

  lemma ParentsPrecede(v: Source, i: nat, b: int)
    requires WellFormed(v) && b in Parents(v, i)
    ensures Precedes(v, b, i) && 0 <= b < |v.operations|
  {
    if b in RequiredOf(v.dependencies, i) {
      assert Needs(v, i, b);
    }
    PrecedesInRange(v, b, i);
  }

  predicate ParentsBefore(v: Source, order: seq<int>, j: nat)
    requires j < |order|
  {
    forall b :: b in Parents(v, order[j]) ==> b in order[..j]
  }

  predicate ParentsFirst(v: Source, order: seq<int>) {
    forall j: nat :: j < |order| ==> ParentsBefore(v, order, j)
  }

  lemma AppendParentsFirst(v: Source, order: seq<int>, i: int)
    requires ParentsFirst(v, order) && forall b :: b in Parents(v, i) ==> b in order
    ensures ParentsFirst(v, order + [i])
  {
    var longer := order + [i];
    forall j: nat | j < |longer| ensures ParentsBefore(v, longer, j) {
      assert longer[..j] == if j < |order| then order[..j] else order;
      if j < |order| {
        assert ParentsBefore(v, order, j);
      }
    }
  }

  /** An order in which all searched parents come first is a schedule: the links to the previous operation
      carry each worker's whole program. */
  lemma ParentsFirstIsSchedule(v: Source, order: seq<int>)
    requires WellFormed(v) && Lists(order, |v.operations|) && ParentsFirst(v, order)
    ensures Schedule(v, order)
  {
    forall i: nat, j: nat | i < |order| && j < |order| && Precedes(v, order[i], order[j])
      ensures i < j
    {
      assert ParentsBefore(v, order, j);
      if Needs(v, order[j], order[i]) {
        PrecedesInRange(v, order[i], order[j]);
        assert order[i] in Parents(v, order[j]);
        var k :| 0 <= k < j && order[k] == order[i];
      } else {
        ProgramComesFirst(v, order, i, j);
      }
    }
  }

  lemma {:induction false} ProgramComesFirst(v: Source, order: seq<int>, i: nat, j: nat)
    requires WellFormed(v) && Lists(order, |v.operations|) && i < |order| && j < |order|
    requires ParentsFirst(v, order) && ProgramBefore(v, order[i], order[j])
    ensures i < j
    decreases order[j]
  {
    var a := order[j];
    var p := LastOf(v.owners, a, v.owners[a]);
    assert ParentsBefore(v, order, j);
    assert order[i] <= p && p in Parents(v, a);
    var k: nat :| k < j && order[k] == p;
    if order[i] != p {
      ProgramComesFirst(v, order, i, k);
    } else {
      assert i == k;
    }
  }

  // ---------------------------------------------------------------- the constructor

  /** What the constructor accepts. */
  ghost predicate Accepted(v: Source) {
    WellFormed(v) && !Cyclic(v)
  }

  lemma StackCloses(v: Source, stack: seq<int>, i: int)
    requires i in stack && Descending(v, stack + [i])
    ensures Cyclic(v)
  {
    var all := stack + [i];
    var j: nat :| j < |stack| && stack[j] == i;
    DescendingTail(v, all, j);
    assert Cycle(v, all[j..]);
  }

  /** A prerequisite that follows its operation in the same program is a cycle of two. */
  lemma ConflictIsCycle(v: Source, e: Edge)
    requires Shaped(v) && e in v.dependencies && Enforced(e.kind) && EdgeInRange(|v.operations|, e)
    requires v.owners[e.operation] == v.owners[e.needs] && e.needs > e.operation
    ensures Cyclic(v)
  {
    assert Needs(v, e.operation, e.needs) && ProgramBefore(v, e.operation, e.needs);
    assert Cycle(v, [e.operation, e.needs, e.operation]);
  }

  lemma RunnableIsAccepted(v: Source)
    ensures Runnable(v) ==> Accepted(v)
  {
    SoundIsWellFormed(v);
    if Runnable(v) {
      var order :| Runs(v, order);
      ScheduleRuns(v, order);
      ScheduleMeansAcyclic(v, order);
    }
  }

  predicate Distinct(s: seq<int>) {
    forall i, j :: 0 <= i < j < |s| ==> s[i] != s[j]
  }

  /** `finished` lists the nodes of `done`, parents first; the open nodes are apart from them. */
  ghost predicate Consistent(v: Source, visiting: set<int>, done: set<int>, finished: seq<int>) {
    && visiting !! done && visiting + done <= LowInts(|v.operations|)
    && done == (set x | x in finished)
    && Distinct(finished) && ParentsFirst(v, finished)
  }

  lemma EnterNode(v: Source, visiting: set<int>, done: set<int>, finished: seq<int>, i: int)
    requires Consistent(v, visiting, done, finished) && 0 <= i < |v.operations| && i !in visiting + done
    ensures Consistent(v, visiting + {i}, done, finished)
    ensures LowInts(|v.operations|) - (visiting + {i}) < LowInts(|v.operations|) - visiting
    ensures visiting + {i} - {i} == visiting
  {
    assert i in LowInts(|v.operations|) - visiting;
  }

  lemma AppendDistinct(s: seq<int>, i: int)
    requires Distinct(s) && i !in s
    ensures Distinct(s + [i]) && (set x | x in s + [i]) == (set x | x in s) + {i}
  {
  }

  lemma LeaveNode(v: Source, visiting: set<int>, done: set<int>, finished: seq<int>, i: int)
    requires Consistent(v, visiting, done, finished) && i in visiting && Parents(v, i) <= done
    ensures Consistent(v, visiting - {i}, done + {i}, finished + [i])
  {
    hide ParentsFirst, Parents, Distinct, LowInts;
    AppendParentsFirst(v, finished, i);
    AppendDistinct(finished, i);
  }

  lemma FinishedIsSchedule(v: Source, done: set<int>, finished: seq<int>)
    requires WellFormed(v) && Consistent(v, {}, done, finished) && LowInts(|v.operations|) <= done
    ensures Schedule(v, finished)
  {
    forall x | 0 <= x < |v.operations| ensures x in finished {
      assert x in LowInts(|v.operations|);
    }
    forall x | x in finished ensures 0 <= x < |v.operations| {
      assert x in {} + done;
    }
    ParentsFirstIsSchedule(v, finished);
  }

  /** The state of the depth-first search. */
  class CycleSearch {
    var visiting: set<int>
    var done: set<int>
    ghost var finished: seq<int>

    ghost predicate Valid(v: Source)
      reads this
    {
      Consistent(v, visiting, done, finished)
    }

    constructor (v: Source)
      ensures Valid(v) && visiting == {} && done == {}
    {
      visiting, done, finished := {}, {}, [];
    }

    /** Visit `i`; `stack` is the chain of open visits that led here. False stands for the ValueError. */
    method Visit(v: Source, graph: seq<set<int>>, i: int, ghost stack: seq<int>) returns (ok: bool)
      requires WellFormed(v) && Valid(v) && 0 <= i < |v.operations|
      requires |graph| == |v.operations| && forall k :: 0 <= k < |graph| ==> graph[k] == Parents(v, k)
      requires visiting == (set x | x in stack) && Descending(v, stack + [i])
      modifies this
      ensures ok ==> Valid(v) && visiting == old(visiting) && old(done) <= done && i in done
      ensures !ok ==> Cyclic(v)
      decreases LowInts(|v.operations|) - visiting
    {
      hide Consistent, Parents, Precedes, Cyclic, WellFormed, Descending;
      if i in visiting {
        StackCloses(v, stack, i);
        return false;
      }
      if i in done {
        return true;
      }
      EnterNode(v, visiting, done, finished, i);
      visiting := visiting + {i};
      var pending := graph[i];
      while pending != {}
        invariant Valid(v) && visiting == old(visiting) + {i} && old(done) <= done
        invariant pending <= graph[i] && graph[i] <= pending + done
        decreases pending
      {
        var parent :| parent in pending;
        pending := pending - {parent};
        ParentsPrecede(v, i, parent);
        Deeper(v, stack, i, parent);
        var fine := Visit(v, graph, parent, stack + [i]);
        if !fine {
          return false;
        }
      }
      LeaveNode(v, visiting, done, finished, i);
      visiting := visiting - {i};
      done := done + {i};
      finished := finished + [i];
      ok := true;
    }
  }

  lemma Deeper(v: Source, stack: seq<int>, i: int, parent: int)
    requires Descending(v, stack + [i]) && Precedes(v, parent, i)
    ensures Descending(v, stack + [i] + [parent])
  {
    var all := stack + [i];
    var longer := all + [parent];
    forall k | 0 <= k < |longer| - 1 ensures Precedes(v, longer[k + 1], longer[k]) {
      if k + 1 < |all| {
        assert Precedes(v, all[k + 1], all[k]);
      }
    }
  }

  /** The prerequisite sets the constructor has recorded from the first `k` edges. */
  function RequiredTable(v: Source, k: nat): (t: seq<set<int>>)
    requires k <= |v.dependencies|
    ensures |t| == |v.operations|
    ensures forall i :: 0 <= i < |t| ==> t[i] == RequiredOf(v.dependencies[..k], i)
  {
    seq(|v.operations|, i requires 0 <= i < |v.operations| => RequiredOf(v.dependencies[..k], i))
  }

  lemma RecordEdge(v: Source, k: nat)
    requires k < |v.dependencies| && EdgeInRange(|v.operations|, v.dependencies[k])
    ensures var e := v.dependencies[k];
            var t := RequiredTable(v, k);
            RequiredTable(v, k + 1) == if Enforced(e.kind) then t[e.operation := t[e.operation] + {e.needs}] else t
  {
    var e := v.dependencies[k];
    var t := RequiredTable(v, k);
    var longer := v.dependencies[..k + 1];
    assert longer == v.dependencies[..k] + [e];
    forall i | 0 <= i < |t|
      ensures RequiredOf(longer, i) == if Enforced(e.kind) && i == e.operation then t[i] + {e.needs} else t[i]
    {
    }
  }

  /** Accept exactly the well-formed workloads whose required edges and programs contain no cycle, and record the
      prerequisites of each operation. The order in which the search leaves its nodes satisfies all constraints. */
  method Construct(v: Source) returns (required: Option<seq<set<int>>>)
    ensures required.Some? <==> Accepted(v)
    ensures required.Some? <==> Runnable(v)
    ensures required.Some? ==> required.value == RequiredTable(v, |v.dependencies|)
  {
    hide Consistent, Parents, Schedule, Runs, Sound, Cyclic, RequiredTable, LowInts;
    SoundIsWellFormed(v);
    RunnableIsAccepted(v);
    if !Shaped(v) {
      return None;
    }
    var table := CollectEdges(v);
    if table.None? {
      return None;
    }
    var graph := AddPrograms(v, table.value);
    var search := new CycleSearch(v);
    for i := 0 to |v.operations|
      invariant search.Valid(v) && search.visiting == {} && LowInts(i) <= search.done
      invariant fresh(search)
    {
      var fine := search.Visit(v, graph, i, []);
      if !fine {
        return None;
      }
    }
    FinishedIsSchedule(v, search.done, search.finished);
    ScheduleMeansAcyclic(v, search.finished);
    ScheduleRuns(v, search.finished);
    required := table;
  }

  /** The edge loop: references, duplicates, and the early conflict check within one program. */
  method CollectEdges(v: Source) returns (required: Option<seq<set<int>>>)
    requires Shaped(v)
    ensures required.Some? ==> WellFormed(v) && required.value == RequiredTable(v, |v.dependencies|)
    ensures required.None? ==> !Accepted(v)
  {
    hide RequiredTable, Cyclic, RequiredOf;
    var edges := v.dependencies;
    var table := seq(|v.operations|, i => {});
    assert table == RequiredTable(v, 0) by { EmptyTable(v); }
    var seen: set<Edge> := {};
    for k := 0 to |edges|
      invariant table == RequiredTable(v, k) && |table| == |v.operations|
      invariant seen == set e | e in edges[..k]
      invariant EdgesInRange(|v.operations|, edges[..k])
    {
      var e := edges[k];
      assert edges[..k + 1] == edges[..k] + [e];
      if !(0 <= e.operation < |v.operations| && 0 <= e.needs < |v.operations|) || e.operation == e.needs {
        assert e in edges && !EdgeInRange(|v.operations|, e);
        return None;
      }
      if e in seen {
        var j :| 0 <= j < k && edges[j] == e;
        return None;
      }
      seen := seen + {e};
      RecordEdge(v, k);
      if Enforced(e.kind) {
        table := table[e.operation := table[e.operation] + {e.needs}];
        if v.owners[e.operation] == v.owners[e.needs] && e.needs > e.operation {
          ConflictIsCycle(v, e);
          return None;
        }
      }
    }
    assert edges[..|edges|] == edges;
    required := Some(table);
  }

  lemma EmptyTable(v: Source)
    ensures RequiredTable(v, 0) == seq(|v.operations|, i => {})
  {
    assert forall i :: RequiredOf([], i) == {};
  }

  /** Add the link from each operation to the previous one of its worker. */
  method AddPrograms(v: Source, required: seq<set<int>>) returns (graph: seq<set<int>>)
    requires WellFormed(v) && required == RequiredTable(v, |v.dependencies|)
    ensures |graph| == |v.operations| && forall k :: 0 <= k < |graph| ==> graph[k] == Parents(v, k)
  {
    hide RequiredTable, RequiredOf, LastSeen, PreviousOf;
    assert v.dependencies[..|v.dependencies|] == v.dependencies;
    graph := required;
    var last: map<int, int> := map[];
    NothingSeen(v.owners);
    for i := 0 to |v.owners|
      invariant |graph| == |v.operations|
      invariant forall k :: 0 <= k < i ==> graph[k] == Parents(v, k)
      invariant forall k :: i <= k < |graph| ==> graph[k] == required[k]
      invariant LastSeen(v.owners, i, last)
    {
      var owner := v.owners[i];
      LastSeenStep(v.owners, i, last);
      if owner in last {
        graph := graph[i := graph[i] + {last[owner]}];
      }
      assert graph[i] == Parents(v, i);
      last := last[owner := i];
    }
  }

  ghost predicate LastSeen(owners: seq<int>, i: nat, last: map<int, int>)
    requires i <= |owners|
  {
    && (forall w :: w in last <==> LastOf(owners, i, w) >= 0)
    && (forall w :: w in last ==> last[w] == LastOf(owners, i, w))
  }

  lemma NothingSeen(owners: seq<int>)
    ensures LastSeen(owners, 0, map[])
  {
  }

  lemma LastSeenStep(owners: seq<int>, i: nat, last: map<int, int>)
    requires i < |owners| && LastSeen(owners, i, last)
    ensures LastSeen(owners, i + 1, last[owners[i] := i])
    ensures PreviousOf(owners, i) == if owners[i] in last then {last[owners[i]]} else {}
  {
  }
}
