/** Workload.valid, Workload.prune and Workload.candidate of lab/dradd.py: subsets of a workload. */
module Projection {
  import opened Bytes
  import opened Selection
  import opened Workload

  function Members(keep: seq<int>): (s: set<int>) {
    set x | x in keep
  }

  /** sorted(ids) for ids below `n`. */
  function Listing(n: nat, ids: set<int>): (r: seq<int>)
    ensures Ascending(r) && InRange(n, r)
    ensures forall x :: x in r <==> x in ids && 0 <= x < n
  {
    if n == 0 then []
    else
      var r := Listing(n - 1, ids);
      assert forall i :: 0 <= i < |r| ==> r[i] in r;
      if n - 1 in ids then r + [n - 1] else r
  }

  /** Every prerequisite of a member is a member. */
  predicate Closed(v: Source, ids: set<int>) {
    forall i :: i in ids ==> RequiredOf(v.dependencies, i) <= ids
  }

  predicate ValidKeep(v: Source, keep: seq<int>): (ok: bool)
    ensures ok ==> keep != [] && Ascending(keep) && InRange(|v.operations|, keep)
  {
    && keep != [] && Listing(|v.operations|, Members(keep)) == keep
    && Closed(v, Members(keep))
  }

  /** Comparing with the sorted set means: strictly ascending indexes of operations. */
  lemma ListingIsAscending(n: nat, keep: seq<int>)
    ensures Listing(n, Members(keep)) == keep <==> Ascending(keep) && InRange(n, keep)
  {
    if Ascending(keep) && InRange(n, keep) {
      AscendingIsListed(n, keep);
    }
  }

  /** What makes indexes valid: strictly ascending indexes of operations, at least one, with every hard or required
      prerequisite of a kept operation kept. */
  lemma ValidExactly(v: Source, keep: seq<int>)
    ensures ValidKeep(v, keep) <==>
      && keep != [] && Ascending(keep) && InRange(|v.operations|, keep)
      && forall e :: e in v.dependencies && e.operation in keep && e.kind in {HardStructural, ContractRequired} ==>
                     e.needs in keep
  {
    ListingIsAscending(|v.operations|, keep);
    if ValidKeep(v, keep) {
      forall e | e in v.dependencies && e.operation in keep && e.kind in {HardStructural, ContractRequired}
        ensures e.needs in keep
      {
        assert e.operation in Members(keep) && e.needs in RequiredOf(v.dependencies, e.operation);
      }
    }
  }

  lemma {:induction false} AscendingIsListed(n: nat, keep: seq<int>)
    requires Ascending(keep) && InRange(n, keep)
    ensures Listing(n, Members(keep)) == keep
  {
    var last := |keep| - 1;
    if n == 0 {
      AscendingIsShort(0, keep);
    } else if keep != [] && keep[last] == n - 1 {
      BelowTheLast(n, keep);
      MembersOfLast(keep);
      AscendingIsListed(n - 1, keep[..last]);
      ListingIgnores(n - 1, Members(keep), Members(keep[..last]));
      assert keep == keep[..last] + [n - 1];
    } else {
      forall x | x in keep ensures x < n - 1 {
        var i :| 0 <= i < |keep| && keep[i] == x;
        assert keep[last] in keep && keep[i] <= keep[last];
      }
      AscendingIsListed(n - 1, keep);
    }
  }

  lemma MembersOfLast(keep: seq<int>)
    requires keep != []
    ensures Members(keep) == Members(keep[..|keep| - 1]) + {keep[|keep| - 1]}
  {
  }

  lemma {:induction false} ListingIgnores(n: nat, a: set<int>, b: set<int>)
    requires forall x :: 0 <= x < n ==> (x in a <==> x in b)
    ensures Listing(n, a) == Listing(n, b)
  {
    if n == 0 {
    } else {
      ListingIgnores(n - 1, a, b);
    }
  }

  // ---------------------------------------------------------------- prune

  /** One round: drop the members with a missing prerequisite. */
  function Round(v: Source, ids: set<int>): (r: set<int>)
    ensures r <= ids
  {
    set i | i in ids && RequiredOf(v.dependencies, i) <= ids
  }

  /** Rounds until nothing is dropped. */
  function PruneSet(v: Source, ids: set<int>): (r: set<int>)
    ensures r <= ids
    decreases ids
  {
    if Round(v, ids) == ids then ids else PruneSet(v, Round(v, ids))
  }

  /** Pruning yields the greatest closed subset. */
  lemma {:induction false} PruneIsGreatest(v: Source, ids: set<int>)
    ensures Closed(v, PruneSet(v, ids))
    ensures forall c :: c <= ids && Closed(v, c) ==> c <= PruneSet(v, ids)
    decreases ids
  {
    var next := Round(v, ids);
    forall c | c <= ids && Closed(v, c) ensures c <= next {
    }
    if next != ids {
      PruneIsGreatest(v, next);
    } else {
      assert forall i :: i in ids ==> i in next;
    }
  }

  lemma PruneLaws(v: Source, a: set<int>, b: set<int>)
    ensures PruneSet(v, PruneSet(v, a)) == PruneSet(v, a)
    ensures a <= b ==> PruneSet(v, a) <= PruneSet(v, b)
    ensures Closed(v, a) ==> PruneSet(v, a) == a
  {
    PruneIsGreatest(v, a);
    PruneIsGreatest(v, b);
    PruneIsGreatest(v, PruneSet(v, a));
  }

  function Pruned(v: Source, keep: seq<int>): (r: seq<int>) {
    Listing(|v.operations|, PruneSet(v, Members(keep)))
  }

  method Prune(v: Source, required: seq<set<int>>, keep: seq<int>) returns (r: seq<int>)
    requires Shaped(v) && required == RequiredTable(v, |v.dependencies|) && InRange(|v.operations|, keep)
    ensures r == Pruned(v, keep)
    ensures r != [] ==> ValidKeep(v, r)
    ensures forall x :: x in r ==> x in keep
    ensures ValidKeep(v, keep) ==> r == keep
  {
    TableEntries(v, required);
    var ids := set x | x in keep;
    while true
      invariant ids <= Members(keep) && PruneSet(v, ids) == PruneSet(v, Members(keep))
      decreases ids
    {
      var next := set i | i in ids && required[i] <= ids;
      assert next == Round(v, ids);
      if next == ids {
        break;
      }
      ids := next;
    }
    r := SortedIds(|v.operations|, ids);
    PruneIsGreatest(v, Members(keep));
    PruneLaws(v, Members(keep), {});
    assert Members(r) == ids;
  }

  lemma TableEntries(v: Source, required: seq<set<int>>)
    requires required == RequiredTable(v, |v.dependencies|)
    ensures forall i :: 0 <= i < |required| ==> required[i] == RequiredOf(v.dependencies, i)
  {
    assert v.dependencies[..|v.dependencies|] == v.dependencies;
  }

  method SortedIds(n: nat, ids: set<int>) returns (r: seq<int>)
    ensures r == Listing(n, ids)
  {
    r := [];
    for i := 0 to n
      invariant r == Listing(i, ids)
    {
      if i in ids {
        r := r + [i];
      }
    }
  }

  // ---------------------------------------------------------------- candidate

  /** The new index of an old one. */
  function IndexOf(keep: seq<int>, x: int): (r: int)
    requires x in keep
    ensures 0 <= r < |keep| && keep[r] == x
  {
    if keep[|keep| - 1] == x then |keep| - 1 else IndexOf(keep[..|keep| - 1], x)
  }

  predicate Kept(e: Edge, keep: seq<int>) {
    e.operation in keep && e.needs in keep
  }

  function Renumbered(e: Edge, keep: seq<int>): (r: Edge)
    requires Kept(e, keep)
  {
    Edge(IndexOf(keep, e.operation), IndexOf(keep, e.needs), e.kind)
  }

  /** What becomes of one edge. */
  function ProjectEdge(e: Edge, keep: seq<int>): (r: seq<Edge>) {
    if Kept(e, keep) then [Renumbered(e, keep)] else []
  }

  function ProjectEdges(edges: seq<Edge>, keep: seq<int>): (r: seq<Edge>) {
    if edges == [] then [] else ProjectEdge(edges[0], keep) + ProjectEdges(edges[1..], keep)
  }

  function Project(v: Source, keep: seq<int>): (p: Source)
    requires Shaped(v) && InRange(|v.operations|, keep)
  {
    Source(Select(v.operations, keep), Select(v.owners, keep),
           v.workers, ProjectEdges(v.dependencies, keep), Some(keep))
  }

  /** `e` is the edge `f` of the original workload, its ends numbered as in `keep`. */
  predicate SameEdge(keep: seq<int>, e: Edge, f: Edge) {
    && 0 <= e.operation < |keep| && keep[e.operation] == f.operation
    && 0 <= e.needs < |keep| && keep[e.needs] == f.needs && e.kind == f.kind
  }

  /** `result` lists, in their order, the edges between kept operations; they stand at the positions `at`. */
  predicate EdgesAt(edges: seq<Edge>, keep: seq<int>, result: seq<Edge>, at: seq<int>) {
    && Ascending(at) && InRange(|edges|, at) && |result| == |at|
    && (forall p :: 0 <= p < |edges| ==> (p in at <==> edges[p].operation in keep && edges[p].needs in keep))
    && forall j :: 0 <= j < |at| ==> at[j] in at && SameEdge(keep, result[j], edges[at[j]])
  }

  /** `c` holds the operations `keep` of `v` and nothing else: each with its owner, and the edges between them. */
  ghost predicate Holds(v: Source, keep: seq<int>, c: Source) {
    && |c.operations| == |c.owners| == |keep| && InRange(Min(|v.operations|, |v.owners|), keep)
    && (forall j :: 0 <= j < |keep| ==>
          keep[j] in keep && c.operations[j] == v.operations[keep[j]] && c.owners[j] == v.owners[keep[j]])
    && c.workers == v.workers && c.originalIds == Some(keep)
    && exists at :: EdgesAt(v.dependencies, keep, c.dependencies, at)
  }

  lemma {:induction false} ProjectEdgesSnoc(edges: seq<Edge>, e: Edge, keep: seq<int>)
    ensures ProjectEdges(edges + [e], keep)
         == ProjectEdges(edges, keep) + ProjectEdge(e, keep)
    decreases |edges|
  {
    hide ProjectEdge;
    if edges == [] {
      assert ([] + [e])[1..] == [] && ([] + [e])[0] == e;
    } else {
      assert (edges + [e])[1..] == edges[1..] + [e] && (edges + [e])[0] == edges[0];
      ProjectEdgesSnoc(edges[1..], e, keep);
      Associates(ProjectEdge(edges[0], keep), ProjectEdges(edges[1..], keep), ProjectEdge(e, keep));
    }
  }

  lemma Associates(a: seq<Edge>, b: seq<Edge>, c: seq<Edge>)
    ensures a + (b + c) == (a + b) + c
  {
  }

  lemma {:induction false} ProjectedEdgesAt(edges: seq<Edge>, keep: seq<int>) returns (at: seq<int>)
    ensures EdgesAt(edges, keep, ProjectEdges(edges, keep), at)
    decreases |edges|
  {
    if edges == [] {
      at := [];
    } else {
      var n := |edges| - 1;
      assert edges == edges[..n] + [edges[n]];
      var before := ProjectedEdgesAt(edges[..n], keep);
      ProjectEdgesSnoc(edges[..n], edges[n], keep);
      at := if Kept(edges[n], keep) then before + [n] else before;
      OneEdgeMore(edges, keep, before, at);
    }
  }

  lemma OneEdgeMore(edges: seq<Edge>, keep: seq<int>, before: seq<int>, at: seq<int>)
    requires edges != []
    requires var n := |edges| - 1;
             && EdgesAt(edges[..n], keep, ProjectEdges(edges[..n], keep), before)
             && ProjectEdges(edges, keep) == ProjectEdges(edges[..n], keep)
                  + (if Kept(edges[n], keep) then [Renumbered(edges[n], keep)] else [])
             && at == if Kept(edges[n], keep) then before + [n] else before
    ensures EdgesAt(edges, keep, ProjectEdges(edges, keep), at)
  {
    hide ProjectEdges;
    var n := |edges| - 1;
    assert forall j :: 0 <= j < |before| ==> before[j] in before;
    forall x | x in at ensures 0 <= x < |edges| {
      assert x in before || x == n;
    }
    forall p | 0 <= p < |edges| ensures p in at <==> Kept(edges[p], keep) {
      assert p < n ==> edges[..n][p] == edges[p];
      assert p in at <==> p in before || (p == n && Kept(edges[n], keep));
    }
    forall j | 0 <= j < |at| ensures at[j] in at && SameEdge(keep, ProjectEdges(edges, keep)[j], edges[at[j]]) {
      assert j < |before| ==> SameEdge(keep, ProjectEdges(edges[..n], keep)[j], edges[..n][before[j]]);
    }
  }

  lemma ProjectionHolds(v: Source, keep: seq<int>)
    requires Shaped(v) && InRange(|v.operations|, keep)
    ensures Holds(v, keep, Project(v, keep))
  {
    hide EdgesAt, ProjectEdges;
    var at := ProjectedEdgesAt(v.dependencies, keep);
    assert forall j :: 0 <= j < |keep| ==> keep[j] in keep;
  }

  lemma EdgesAreUnique(edges: seq<Edge>, keep: seq<int>, a: seq<Edge>, b: seq<Edge>, at: seq<int>, bt: seq<int>)
    requires Ascending(keep) && EdgesAt(edges, keep, a, at) && EdgesAt(edges, keep, b, bt)
    ensures a == b
  {
    hide SameEdge;
    SamePositions(|edges|, at, bt);
    forall j | 0 <= j < |at| ensures a[j] == b[j] {
      assert at[j] in at;
      SameEdges(keep, a[j], b[j], edges[at[j]]);
    }
  }

  /** A candidate contains what its indexes name: exactly one workload holds these operations, and it is this one. */
  lemma ProjectionIsExact(v: Source, keep: seq<int>, c: Source)
    requires Shaped(v) && Ascending(keep) && InRange(|v.operations|, keep)
    ensures Holds(v, keep, c) <==> c == Project(v, keep)
  {
    hide EdgesAt, Project, Ascending;
    var p := Project(v, keep);
    ProjectionHolds(v, keep);
    if Holds(v, keep, c) {
      var at :| EdgesAt(v.dependencies, keep, p.dependencies, at);
      var ct :| EdgesAt(v.dependencies, keep, c.dependencies, ct);
      EdgesAreUnique(v.dependencies, keep, c.dependencies, p.dependencies, ct, at);
      assert c.operations == p.operations && c.owners == p.owners;
    }
  }

  lemma SamePositions(n: nat, a: seq<int>, b: seq<int>)
    requires Ascending(a) && Ascending(b) && InRange(n, a) && InRange(n, b)
    requires forall p :: 0 <= p < n ==> (p in a <==> p in b)
    ensures a == b
  {
    AscendingIsListed(n, a);
    AscendingIsListed(n, b);
    ListingIgnores(n, Members(a), Members(b));
  }

  lemma SameEdges(keep: seq<int>, a: Edge, b: Edge, f: Edge)
    requires Ascending(keep) && SameEdge(keep, a, f) && SameEdge(keep, b, f)
    ensures a == b
  {
  }

  predicate EndsWithin(e: Edge, n: nat) {
    0 <= e.operation < n && 0 <= e.needs < n
  }

  /** The edge of the original workload behind an edge of a projection. */
  function Lifted(e: Edge, keep: seq<int>): (r: Edge)
    requires EndsWithin(e, |keep|)
  {
    Edge(keep[e.operation], keep[e.needs], e.kind)
  }

  /** Lifting undoes renumbering. */
  lemma LiftedIsInverse(keep: seq<int>, e: Edge, f: Edge)
    requires Ascending(keep)
    ensures Kept(f, keep) && e == Renumbered(f, keep) <==> EndsWithin(e, |keep|) && Lifted(e, keep) == f
  {
  }

  lemma {:induction false} ProjectedEdge(edges: seq<Edge>, keep: seq<int>, e: Edge)
    requires Ascending(keep)
    ensures e in ProjectEdges(edges, keep) <==> EndsWithin(e, |keep|) && Lifted(e, keep) in edges
  {
    hide Kept, EndsWithin, Lifted, Renumbered, Ascending;
    if edges == [] {
    } else {
      ProjectedEdge(edges[1..], keep, e);
      LiftedIsInverse(keep, e, edges[0]);
      assert edges == [edges[0]] + edges[1..];
    }
  }

  lemma {:induction false} ProjectedEdgesDiffer(edges: seq<Edge>, keep: seq<int>)
    requires Ascending(keep) && Unrepeated(edges)
    ensures Unrepeated(ProjectEdges(edges, keep))
  {
    if edges == [] {
    } else {
      var rest := ProjectEdges(edges[1..], keep);
      ProjectedEdgesDiffer(edges[1..], keep);
      if Kept(edges[0], keep) {
        var first := Renumbered(edges[0], keep);
        ProjectedEdge(edges[1..], keep, first);
        assert Lifted(first, keep) == edges[0];
      }
    }
  }

  lemma ProjectionKeepsEdges(v: Source, keep: seq<int>, a: nat, b: nat)
    requires WellFormed(v) && Ascending(keep) && InRange(|v.operations|, keep) && a < |keep| && b < |keep|
    ensures Needs(Project(v, keep), a, b) <==> Needs(v, keep[a], keep[b])
  {
    var p := Project(v, keep);
    if Needs(p, a, b) {
      var e :| e in p.dependencies && Enforced(e.kind) && e.operation == a && e.needs == b;
      ProjectedEdge(v.dependencies, keep, e);
    }
    if Needs(v, keep[a], keep[b]) {
      var e :| e in v.dependencies && Enforced(e.kind) && e.operation == keep[a] && e.needs == keep[b];
      ProjectedEdge(v.dependencies, keep, Edge(a, b, e.kind));
    }
  }

  /** Among the kept operations a projection has exactly the constraints of the source: required edges, and the
      order of each worker's program. */
  lemma ProjectionKeepsConstraints(v: Source, keep: seq<int>, a: nat, b: nat)
    requires WellFormed(v) && Ascending(keep) && InRange(|v.operations|, keep) && a < |keep| && b < |keep|
    ensures Needs(Project(v, keep), a, b) <==> Needs(v, keep[a], keep[b])
    ensures ProgramBefore(Project(v, keep), b, a) <==> ProgramBefore(v, keep[b], keep[a])
    ensures Precedes(Project(v, keep), b, a) <==> Precedes(v, keep[b], keep[a])
  {
    ProjectionKeepsEdges(v, keep, a, b);
    assert keep[a] in keep && keep[b] in keep;
    assert a < b ==> keep[a] < keep[b];
  }

  lemma ProjectionIsWellFormed(v: Source, keep: seq<int>)
    requires WellFormed(v) && keep != [] && Ascending(keep) && InRange(|v.operations|, keep)
    ensures WellFormed(Project(v, keep))
  {
    var p := Project(v, keep);
    AscendingIsShort(|v.operations|, keep);
    forall w | w in p.owners ensures 0 <= w < p.workers {
      var j :| 0 <= j < |keep| && p.owners[j] == w;
      assert keep[j] in keep && v.owners[keep[j]] in v.owners;
    }
    forall e | e in p.dependencies ensures EdgeInRange(|keep|, e) {
      ProjectedEdge(v.dependencies, keep, e);
      assert EdgeInRange(|v.operations|, Lifted(e, keep));
    }
    ProjectedEdgesDiffer(v.dependencies, keep);
  }

  /** The constructor accepts every projection of a workload it accepted. */
  lemma ProjectionIsAccepted(v: Source, keep: seq<int>)
    requires Accepted(v) && ValidKeep(v, keep)
    ensures Accepted(Project(v, keep))
  {
    ListingIsAscending(|v.operations|, keep);
    ProjectionIsWellFormed(v, keep);
    var p := Project(v, keep);
    forall path ensures !Cycle(p, path) {
      if Cycle(p, path) {
        LiftedCycle(v, keep, path);
      }
    }
  }

  lemma LiftedCycle(v: Source, keep: seq<int>, path: seq<int>)
    requires WellFormed(v) && keep != [] && Ascending(keep) && InRange(|v.operations|, keep)
    requires Cycle(Project(v, keep), path)
    ensures Cyclic(v)
  {
    var p := Project(v, keep);
    ProjectionIsWellFormed(v, keep);
    forall k | 0 <= k < |path| ensures 0 <= path[k] < |keep| {
      var j := if k == 0 then 0 else k - 1;
      assert Precedes(p, path[j + 1], path[j]);
      PrecedesInRange(p, path[j + 1], path[j]);
    }
    var lifted := seq(|path|, k requires 0 <= k < |path| => keep[path[k]]);
    forall k | 0 <= k < |lifted| - 1 ensures Precedes(v, lifted[k + 1], lifted[k]) {
      assert Precedes(p, path[k + 1], path[k]);
      ProjectionKeepsConstraints(v, keep, path[k], path[k + 1]);
    }
    assert Cycle(v, lifted);
  }

  // ---------------------------------------------------------------- projecting a projection

  lemma ComposedIndex(outer: seq<int>, inner: seq<int>, x: int)
    requires Ascending(outer) && Ascending(inner) && InRange(|outer|, inner)
    ensures x in Select(outer, inner) <==> x in outer && IndexOf(outer, x) in inner
    ensures x in Select(outer, inner) ==> IndexOf(Select(outer, inner), x) == IndexOf(inner, IndexOf(outer, x))
  {
    var all := Select(outer, inner);
    forall j | 0 <= j < |inner| ensures 0 <= inner[j] < |outer| && all[j] == outer[inner[j]] {
      assert inner[j] in inner;
    }
    if x in all {
      var j := IndexOf(all, x);
      assert outer[inner[j]] == x;
      assert IndexOf(outer, x) == inner[j];
    }
    if x in outer && IndexOf(outer, x) in inner {
      var j := IndexOf(inner, IndexOf(outer, x));
      assert all[j] == x;
    }
  }

  lemma {:induction false} ProjectEdgesTwice(edges: seq<Edge>, outer: seq<int>, inner: seq<int>)
    requires Ascending(outer) && Ascending(inner) && InRange(|outer|, inner)
    ensures ProjectEdges(ProjectEdges(edges, outer), inner) == ProjectEdges(edges, Select(outer, inner))
  {
    if edges == [] {
    } else {
      ProjectEdgesTwice(edges[1..], outer, inner);
      ComposedIndex(outer, inner, edges[0].operation);
      ComposedIndex(outer, inner, edges[0].needs);
      var rest := ProjectEdges(edges[1..], outer);
      if Kept(edges[0], outer) {
        assert ProjectEdges(edges, outer) == [Renumbered(edges[0], outer)] + rest;
        assert ([Renumbered(edges[0], outer)] + rest)[1..] == rest;
      } else {
        assert ProjectEdges(edges, outer) == rest;
      }
    }
  }

  /** Keeping part of what was kept is keeping the composed indexes of the original workload. */
  lemma ProjectTwice(v: Source, outer: seq<int>, inner: seq<int>)
    requires WellFormed(v) && ValidKeep(v, outer) && InRange(|v.operations|, outer)
    requires ValidKeep(Project(v, outer), inner)
    ensures WellFormed(Project(v, outer))
    ensures InRange(|outer|, inner) && InRange(|v.operations|, Select(outer, inner))
    ensures ValidKeep(v, Select(outer, inner))
    ensures Project(Project(v, outer), inner).(originalIds := None)
            == Project(v, Select(outer, inner)).(originalIds := None)
  {
    hide Closed, EdgesInRange, ProjectEdges;
    ListingIsAscending(|v.operations|, outer);
    ListingIsAscending(|outer|, inner);
    SelectAscending(|v.operations|, outer, inner);
    ListingIsAscending(|v.operations|, Select(outer, inner));
    ProjectionIsWellFormed(v, outer);
    ComposedIsClosed(v, outer, inner);
    SameProjection(v, outer, inner);
  }

  lemma SameProjection(v: Source, outer: seq<int>, inner: seq<int>)
    requires Shaped(v) && Ascending(outer) && InRange(|v.operations|, outer) && Shaped(Project(v, outer))
    requires Ascending(inner) && InRange(|outer|, inner) && InRange(|v.operations|, Select(outer, inner))
    ensures Project(Project(v, outer), inner).(originalIds := None)
            == Project(v, Select(outer, inner)).(originalIds := None)
  {
    var p := Project(v, outer);
    var all := Select(outer, inner);
    ProjectEdgesTwice(v.dependencies, outer, inner);
    SelectTwice(v.operations, outer, inner);
    SelectTwice(v.owners, outer, inner);
  }

  lemma ComposedIsClosed(v: Source, outer: seq<int>, inner: seq<int>)
    requires WellFormed(v) && Ascending(outer) && InRange(|v.operations|, outer) && Closed(v, Members(outer))
    requires Ascending(inner) && InRange(|outer|, inner) && Closed(Project(v, outer), Members(inner))
    ensures Closed(v, Members(Select(outer, inner)))
  {
    var p := Project(v, outer);
    var all := Select(outer, inner);
    forall i, b | i in all && b in RequiredOf(v.dependencies, i) ensures b in all {
      ComposedIndex(outer, inner, i);
      var j := IndexOf(outer, i);
      assert b in Members(outer);
      var k := IndexOf(outer, b);
      assert Needs(v, i, b);
      ProjectionKeepsEdges(v, outer, j, k);
      assert k in RequiredOf(p.dependencies, j);
      assert j in Members(inner) && k in Members(inner);
      ComposedIndex(outer, inner, b);
    }
  }

  // ---------------------------------------------------------------- the whole workload

  lemma WholeIsValid(v: Source)
    requires WellFormed(v)
    ensures ValidKeep(v, All(|v.operations|))
  {
    var ids := All(|v.operations|);
    ListingIsAscending(|v.operations|, ids);
    forall i, b | i in ids && b in RequiredOf(v.dependencies, i) ensures b in ids {
      assert Needs(v, i, b);
      PrecedesInRange(v, b, i);
      assert ids[b] == b;
    }
  }
}
