/** End to end: whole frames, sent once each in any interleaving and read in any chunks, are all marked. */
module Delivery {
  import opened Bytes
  import opened Frames
  import opened FrameStream

  /** The ranges the command line admits. */
  predicate ValidOptions(o: Options) {
    1 <= o.writers <= MAX_WRITERS && 1 <= o.messages <= MAX_MESSAGES && HEADER_SIZE <= o.size <= MAX_MESSAGE_SIZE
  }

  datatype Message = Message(writer: nat, sequence: nat)

  predicate InRange(o: Options, m: Message) {
    m.writer < o.writers && m.sequence < o.messages
  }

  /** Every message of every writer is sent exactly once. */
  predicate SentOnce(o: Options, order: seq<Message>) {
    && (forall k :: 0 <= k < |order| ==> InRange(o, order[k]))
    && (forall a, b :: 0 <= a < b < |order| ==> order[a] != order[b])
  }

  ghost predicate SentAll(o: Options, order: seq<Message>) {
    SentOnce(o, order) && forall m | InRange(o, m) :: m in order
  }

  function Stream(o: Options, order: seq<Message>): (r: seq<byte>)
    requires ValidOptions(o) && forall k :: 0 <= k < |order| ==> InRange(o, order[k])
  {
    if order == [] then []
    else assert InRange(o, order[0]); Built(o.size, order[0].writer, order[0].sequence) + Stream(o, order[1..])
  }

  lemma {:induction false} StreamSnoc(o: Options, order: seq<Message>, m: Message)
    requires ValidOptions(o) && InRange(o, m) && forall k :: 0 <= k < |order| ==> InRange(o, order[k])
    ensures Stream(o, order + [m]) == Stream(o, order) + Built(o.size, m.writer, m.sequence)
    decreases |order|
  {
    hide Built;
    var f := Built(o.size, m.writer, m.sequence);
    if order == [] {
      assert [m][1..] == [] && f + [] == [] + f;
    } else {
      assert (order + [m])[1..] == order[1..] + [m];
      StreamSnoc(o, order[1..], m);
    }
  }

  function Intact(m: Message): (r: Header) {
    Header(m.writer, m.sequence, true)
  }

  function Headers(order: seq<Message>): (h: seq<Header>)
    ensures |h| == |order|
  {
    if order == [] then [] else [Intact(order[0])] + Headers(order[1..])
  }

  /** A built frame at the head of a stream is recognised whole and intact. */
  lemma BuiltIsWhole(o: Options, m: Message, rest: seq<byte>)
    requires ValidOptions(o) && InRange(o, m)
    ensures HeadOf(o.size, Built(o.size, m.writer, m.sequence) + rest) == Whole(Intact(m))
  {
    var f := Built(o.size, m.writer, m.sequence);
    BuiltReadsBack(o.size, m.writer, m.sequence);
    WholeHead(o.size, f, m);
    HeadIsStable(o.size, f, rest);
  }

  lemma WholeHead(size: nat, f: seq<byte>, m: Message)
    requires HEADER_SIZE <= size == |f| <= MAX_MESSAGE_SIZE
    requires f[..4] == Magic() && GetBe32(f, 4) == m.writer && GetBe32(f, 8) == m.sequence
    requires GetBe32(f, 12) == size - HEADER_SIZE
    requires GetBe32(f, 16) == Checksum(m.writer, m.sequence, f[HEADER_SIZE..])
    ensures HeadOf(size, f) == Whole(Intact(m))
  {
    assert f[HEADER_SIZE..size] == f[HEADER_SIZE..];
  }

  lemma {:induction false} ScanOfStream(o: Options, order: seq<Message>)
    requires ValidOptions(o) && forall k :: 0 <= k < |order| ==> InRange(o, order[k])
    ensures Scan(o.size, Stream(o, order)).0 == Headers(order) && Scan(o.size, Stream(o, order)).1 == []
  {
    if order == [] {
    } else {
      var f, rest := Built(o.size, order[0].writer, order[0].sequence), Stream(o, order[1..]);
      BuiltIsWhole(o, order[0], rest);
      assert (f + rest)[o.size..] == rest;
      ScanOfStream(o, order[1..]);
    }
  }

  // ---------------------------------------------------------------- slots

  /** Row `a` of a table with rows of `m` slots ends before row `b` begins. */
  lemma {:induction false} RowsBelow(a: nat, b: nat, m: nat)
    requires a < b
    ensures a * m + m <= b * m
  {
    if a + 1 < b {
      RowsBelow(a, b - 1, m);
    }
    assert b * m == (b - 1) * m + m;
  }

  lemma SlotInRange(o: Options, m: Message)
    requires InRange(o, m)
    ensures Slot(o, Intact(m)) < o.writers * o.messages
  {
    RowsBelow(m.writer, o.writers, o.messages);
  }

  /** No two messages share a slot. */
  lemma SlotsDiffer(o: Options, m: Message, n: Message)
    requires InRange(o, m) && InRange(o, n) && m != n
    ensures Slot(o, Intact(m)) != Slot(o, Intact(n))
  {
    if m.writer < n.writer {
      RowsBelow(m.writer, n.writer, o.messages);
    } else if n.writer < m.writer {
      RowsBelow(n.writer, m.writer, o.messages);
    }
  }

  /** Every slot belongs to a message. */
  lemma SlotIsReached(o: Options, slot: nat) returns (m: Message)
    requires slot < o.writers * o.messages
    ensures InRange(o, m) && Slot(o, Intact(m)) == slot
  {
    var d := slot / o.messages;
    m := Message(d, slot % o.messages);
    assert slot == d * o.messages + slot % o.messages;
    assert (o.writers - d) * o.messages > 0;
  }

  predicate Unmarked(o: Options, seen: seq<bool>, order: seq<Message>) {
    && |seen| == o.writers * o.messages
    && forall k :: 0 <= k < |order| ==> Slot(o, Intact(order[k])) < |seen| && !seen[Slot(o, Intact(order[k]))]
  }

  lemma RestStaysUnmarked(o: Options, seen: seq<bool>, order: seq<Message>)
    requires SentOnce(o, order) && order != [] && Unmarked(o, seen, order)
    ensures Acceptable(o, seen, Intact(order[0])) && SentOnce(o, order[1..])
    ensures Unmarked(o, Mark(o, seen, Intact(order[0])), order[1..])
  {
    forall k | 0 <= k < |order| - 1
      ensures Slot(o, Intact(order[1..][k])) != Slot(o, Intact(order[0]))
    {
      SlotsDiffer(o, order[0], order[k + 1]);
    }
  }

  lemma {:induction false} StreamIsClean(o: Options, order: seq<Message>, seen: seq<bool>)
    requires ValidOptions(o) && SentOnce(o, order) && Unmarked(o, seen, order)
    ensures Clean(o, Stream(o, order), seen)
    decreases |order|
  {
    if order == [] {
    } else {
      var f, rest := Built(o.size, order[0].writer, order[0].sequence), Stream(o, order[1..]);
      BuiltIsWhole(o, order[0], rest);
      assert (f + rest)[o.size..] == rest;
      RestStaysUnmarked(o, seen, order);
      StreamIsClean(o, order[1..], Mark(o, seen, Intact(order[0])));
    }
  }

  /** Considering the sent frames marks their slots and no other, counting each. */
  lemma {:induction false} ConsumeMarks(o: Options, p: Progress, order: seq<Message>)
    requires SentOnce(o, order) && Unmarked(o, p.seen, order)
    ensures var r := Consume(o, p, Headers(order));
            && |r.seen| == |p.seen| && r.validated == p.validated + |order|
            && r.accepted == p.accepted + Headers(order)
            && (forall k :: 0 <= k < |p.seen| && p.seen[k] ==> r.seen[k])
            && forall m :: m in order ==> Slot(o, Intact(m)) < |r.seen| && r.seen[Slot(o, Intact(m))]
    decreases |order|
  {
    if order == [] {
    } else {
      var h, q := Intact(order[0]), Consider(o, p, Intact(order[0]));
      RestStaysUnmarked(o, p.seen, order);
      assert Headers(order)[1..] == Headers(order[1..]);
      assert Headers(order) == [h] + Headers(order[1..]);
      Associative(p.accepted, [h], Headers(order[1..]));
      ConsumeMarks(o, q, order[1..]);
      assert q.seen[Slot(o, h)];
      assert forall m :: m in order ==> m == order[0] || m in order[1..];
    }
  }

  lemma MessageCount(o: Options, order: seq<Message>)
    requires SentAll(o, order)
    ensures |order| == o.writers * o.messages
  {
    var slots := seq(|order|, k requires 0 <= k < |order| => Slot(o, Intact(order[k])) as int);
    forall a, b | 0 <= a < b < |slots| ensures slots[a] != slots[b] {
      SlotsDiffer(o, order[a], order[b]);
    }
    DistinctCardinality(slots);
    forall x ensures x in slots <==> x in LowInts(o.writers * o.messages) {
      if 0 <= x < o.writers * o.messages {
        var m := SlotIsReached(o, x);
        var k :| 0 <= k < |order| && order[k] == m;
        assert slots[k] == x;
      }
      if x in slots {
        var k :| 0 <= k < |slots| && slots[k] == x;
        SlotInRange(o, order[k]);
      }
    }
    assert (set x | x in slots) == LowInts(o.writers * o.messages);
  }

  function AllMarks(n: nat, mark: bool): (s: seq<bool>)
    ensures |s| == n
  {
    seq(n, _ => mark)
  }

  lemma NothingLeft(size: nat, s: seq<byte>)
    requires Scan(size, s).0 == [] && Scan(size, s).1 == []
    ensures s == []
  {
    if s != [] {
      TailIsNonempty(size, s);
    }
  }

  lemma {:induction false} TailIsNonempty(size: nat, s: seq<byte>)
    requires s != [] && Scan(size, s).0 == []
    ensures Scan(size, s).1 != []
    decreases |s|
  {
    if HeadOf(size, s).Stray? {
      TailIsNonempty(size, s[1..]);
    }
  }

  lemma StreamVerdicts(o: Options, p: Progress, order: seq<Message>, chunks: seq<seq<byte>>)
    requires ValidOptions(o) && SentOnce(o, order) && Joined(chunks) == Stream(o, order)
    requires p.buffer == [] && Unmarked(o, p.seen, order)
    ensures var r := Feed(o, p, chunks);
            r.buffer == [] && r.failures == p.failures && SameVerdicts(r, Consume(o, p, Headers(order)))
  {
    assert [] + Joined(chunks) == Joined(chunks);
    FeedFollowsScan(o, p, chunks);
    ScanOfStream(o, order);
    StreamIsClean(o, order, p.seen);
    FeedCountsUnclean(o, p, chunks);
    NothingLeft(o.size, Feed(o, p, chunks).buffer);
  }

  /** Any interleaving of all frames, read in any chunks, ends with every slot marked, every frame accepted once and
      in the order of the stream, no failure and an empty buffer. */
  lemma EveryFrameArrives(o: Options, order: seq<Message>, chunks: seq<seq<byte>>)
    requires ValidOptions(o) && SentAll(o, order) && Joined(chunks) == Stream(o, order)
    ensures Feed(o, Fresh(AllMarks(o.writers * o.messages, false)), chunks)
         == Progress([], AllMarks(o.writers * o.messages, true), o.writers * o.messages, 0, Headers(order))
  {
    hide Feed, Consume, Headers, Slot, SentOnce, Stream, AllMarks, Joined;
    var p := Fresh(AllMarks(o.writers * o.messages, false));
    assert [] + Headers(order) == Headers(order);
    NothingMarked(o, order);
    StreamVerdicts(o, p, order, chunks);
    ConsumeMarks(o, p, order);
    MessageCount(o, order);
    EverythingMarked(o, order, Feed(o, p, chunks).seen);
  }

  lemma NothingMarked(o: Options, order: seq<Message>)
    requires SentOnce(o, order)
    ensures Unmarked(o, AllMarks(o.writers * o.messages, false), order)
  {
    forall k | 0 <= k < |order| ensures Slot(o, Intact(order[k])) < o.writers * o.messages {
      SlotInRange(o, order[k]);
    }
  }

  lemma EverythingMarked(o: Options, order: seq<Message>, seen: seq<bool>)
    requires SentAll(o, order) && |seen| == o.writers * o.messages
    requires forall m :: m in order ==> Slot(o, Intact(m)) < |seen| && seen[Slot(o, Intact(m))]
    ensures seen == AllMarks(|seen|, true)
  {
    forall slot | 0 <= slot < |seen| ensures seen[slot] {
      var m := SlotIsReached(o, slot);
    }
  }
}
