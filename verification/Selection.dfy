/** Keeping part of a list: ascending positions, and what deletions leave. */
module Selection {
  import opened Bytes

  predicate Ascending(keep: seq<int>) {
    forall i, j :: 0 <= i < j < |keep| ==> keep[i] < keep[j]
  }

  predicate InRange(n: nat, keep: seq<int>) {
    forall x :: x in keep ==> 0 <= x < n
  }

  /** [s[i] for i in keep] */
  function Select<T>(s: seq<T>, keep: seq<int>): (r: seq<T>)
    requires InRange(|s|, keep)
    ensures |r| == |keep|
    ensures forall j :: 0 <= j < |keep| ==> 0 <= keep[j] < |s| && r[j] == s[keep[j]]
  {
    assert forall j :: 0 <= j < |keep| ==> keep[j] in keep;
    seq(|keep|, j requires 0 <= j < |keep| => s[keep[j]])
  }

  lemma SelectAscending(n: nat, outer: seq<int>, inner: seq<int>)
    requires Ascending(outer) && InRange(n, outer) && Ascending(inner) && InRange(|outer|, inner)
    ensures Ascending(Select(outer, inner)) && InRange(n, Select(outer, inner))
  {
    forall x | x in Select(outer, inner) ensures 0 <= x < n {
      var j :| 0 <= j < |inner| && outer[inner[j]] == x;
      assert x in outer;
    }
  }

  /** Selecting from a selection is selecting the composed positions. */
  lemma SelectTwice<T>(s: seq<T>, outer: seq<int>, inner: seq<int>)
    requires InRange(|s|, outer) && InRange(|outer|, inner) && InRange(|s|, Select(outer, inner))
    ensures Select(Select(s, outer), inner) == Select(s, Select(outer, inner))
  {
  }

  lemma {:induction false} AscendingIsShort(n: nat, keep: seq<int>)
    requires Ascending(keep) && InRange(n, keep)
    ensures |keep| <= n
  {
    if keep == [] {
    } else {
      BelowTheLast(n, keep);
      AscendingIsShort(keep[|keep| - 1], keep[..|keep| - 1]);
    }
  }

  lemma BelowTheLast(n: nat, keep: seq<int>)
    requires Ascending(keep) && InRange(n, keep) && keep != []
    ensures 0 <= keep[|keep| - 1] < n
    ensures Ascending(keep[..|keep| - 1]) && InRange(keep[|keep| - 1], keep[..|keep| - 1])
  {
    var last := |keep| - 1;
    assert keep[last] in keep;
    forall x | x in keep[..last] ensures 0 <= x < keep[last] {
      assert x in keep;
    }
  }

  /** list(range(from, to)) */
  function Span(from: nat, to: nat): (r: seq<int>)
    requires from <= to
    ensures |r| == to - from && forall i :: 0 <= i < |r| ==> r[i] == from + i
    ensures forall x :: x in r <==> from <= x < to
  {
    if from == to then [] else Span(from, to - 1) + [to - 1]
  }

  /** All positions. */
  function All(n: nat): (ids: seq<int>)
    ensures |ids| == n && Ascending(ids) && InRange(n, ids)
  {
    Span(0, n)
  }

  /** [i for i in range(n) if not start <= i < start + width] */
  function Remaining(n: nat, start: nat, width: nat): (keep: seq<int>)
    requires start <= n
    ensures Ascending(keep) && InRange(n, keep)
    ensures forall x :: x in keep <==> 0 <= x < n && !(start <= x < start + width)
  {
    Span(0, start) + Span(Min(start + width, n), n)
  }

  /** A list with one window deleted. */
  function Deleted<T>(s: seq<T>, start: nat, width: nat): (r: seq<T>)
    requires start <= |s|
    ensures start < |s| && width > 0 ==> |r| < |s|
  {
    s[..start] + s[Min(start + width, |s|)..]
  }

  lemma DeletedIsSelection<T>(s: seq<T>, start: nat, width: nat)
    requires start <= |s|
    ensures Deleted(s, start, width) == Select(s, Remaining(|s|, start, width))
  {
  }

  /** `part` is what deletions left of `whole`. */
  ghost predicate Part<T>(part: seq<T>, whole: seq<T>) {
    exists keep :: PartBy(part, whole, keep)
  }

  ghost predicate PartBy<T>(part: seq<T>, whole: seq<T>, keep: seq<int>) {
    Ascending(keep) && InRange(|whole|, keep) && part == Select(whole, keep)
  }

  lemma PartOfItself<T>(s: seq<T>)
    ensures Part(s, s)
  {
    assert PartBy(s, s, All(|s|));
  }

  lemma PartShrinks<T>(part: seq<T>, whole: seq<T>, start: nat, width: nat)
    requires Part(part, whole) && start <= |part|
    ensures Part(Deleted(part, start, width), whole)
  {
    var keep :| PartBy(part, whole, keep);
    var inner := Remaining(|part|, start, width);
    DeletedIsSelection(part, start, width);
    SelectAscending(|whole|, keep, inner);
    SelectTwice(whole, keep, inner);
    assert PartBy(Deleted(part, start, width), whole, Select(keep, inner));
  }

  lemma PartMembers<T>(part: seq<T>, whole: seq<T>)
    requires Part(part, whole)
    ensures |part| <= |whole| && forall x :: x in part ==> x in whole
  {
    var keep :| PartBy(part, whole, keep);
    AscendingIsShort(|whole|, keep);
  }

  // ---------------------------------------------------------------- the schedule of the deletion loops

  /** Where a deletion loop is: the next window starts at `offset`, or no window is left to try. */
  datatype Cursor = At(granularity: nat, offset: nat) | Finished

  /** How many neighbours are deleted at once: one, or ceil(size / granularity). */
  function Width(single: bool, size: nat, granularity: nat): (w: nat) {
    if single || granularity == 0 then 1 else (size + granularity - 1) / granularity
  }

  lemma WidthIsCeiling(size: nat, granularity: nat)
    requires granularity > 0 && size > 0
    ensures var w := Width(false, size, granularity);
            (w - 1) * granularity < size <= w * granularity
  {
    var w := Width(false, size, granularity);
    Quotient(size + granularity - 1, granularity, w);
    assert (w - 1) * granularity == w * granularity - granularity;
  }

  lemma WidthIsPart(single: bool, size: nat, granularity: nat)
    requires granularity >= 2 && size > 1
    ensures 0 < Width(single, size, granularity) < size
  {
    if !single {
      hide Width;
      var w := Width(single, size, granularity);
      WidthIsCeiling(size, granularity);
      assert w > 0;
      Monotone(w - 1, 2, granularity);
    }
  }

  lemma Quotient(n: nat, d: nat, q: nat)
    requires d > 0 && q == n / d
    ensures q * d <= n < q * d + d
  {
  }

  lemma Monotone(f: nat, a: nat, b: nat)
    requires a <= b
    ensures a * f <= b * f
  {
  }

  /** A sweep goes on at `offset`; after it the windows are halved, unless they were single operations already. */
  function Position(single: bool, size: nat, granularity: nat, offset: nat): (c: Cursor) {
    if offset < size then At(granularity, offset)
    else if single || granularity >= size then Finished
    else At(Min(size, granularity * 2), 0)
  }

  /** The loop goes on after the deletion at `c` was refused. */
  function Refuse(single: bool, size: nat, c: Cursor): (r: Cursor) {
    match c
    case At(granularity, offset) =>
      Position(single, size, granularity, offset + Width(single, size, granularity))
    case Finished => Finished
  }

  /** The loop starts over on the rest after the deletion at `c` was accepted, with slightly larger windows. */
  function Adopt(c: Cursor): (r: Cursor) {
    match c
    case At(granularity, _) => At(Max(2, granularity - 1), 0)
    case Finished => Finished
  }

  /** ceil(size / granularity) */
  lemma WindowWidth(size: nat, granularity: nat)
    requires granularity > 0 && size > 0
    ensures (size + granularity - 1) / granularity >= 1
    ensures granularity >= size ==> (size + granularity - 1) / granularity == 1
  {
  }
}
