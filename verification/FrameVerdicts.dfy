/** Which frames the validator of userspace/concurrent_test.c accepts, said in terms of the bytes of the stream. */
module FrameVerdicts {
  import opened Bytes
  import opened Frames
  import opened FrameStream
  import opened Delivery

  /** A frame of the expected size stands at `at`: the magic "SCF1" and a length field that says so. */
  predicate FrameAt(size: nat, s: seq<byte>, at: nat) {
    && HEADER_SIZE <= size && at + size <= |s| && s[at..at + 4] == [83, 67, 70, 49]
    && GetBe32(s, at + 12) == size - HEADER_SIZE <= MAX_MESSAGE_SIZE
  }

  /** The writer and the sequence number that its header names. */
  function NamedAt(size: nat, s: seq<byte>, at: nat): (m: Message)
    requires FrameAt(size, s, at)
  {
    Message(GetBe32(s, at + 4), GetBe32(s, at + 8))
  }

  /** Its checksum field is the checksum of its payload. */
  predicate IntactAt(size: nat, s: seq<byte>, at: nat)
    requires FrameAt(size, s, at)
  {
    GetBe32(s, at + 16) == Checksum(GetBe32(s, at + 4), GetBe32(s, at + 8), s[at + HEADER_SIZE..at + size])
  }

  /** Where a scan from left to right finds frames, stepping over the frames that it finds. */
  function Positions(size: nat, s: seq<byte>, from: nat): (ps: seq<nat>)
    ensures forall i :: 0 <= i < |ps| ==> FrameAt(size, s, ps[i])
    decreases |s| - from
  {
    if size < HEADER_SIZE || from + size > |s| then []
    else if FrameAt(size, s, from) then [from] + Positions(size, s, from + size)
    else Positions(size, s, from + 1)
  }

  function HeaderAt(size: nat, s: seq<byte>, at: nat): (h: Header)
    requires FrameAt(size, s, at)
  {
    Header(NamedAt(size, s, at).writer, NamedAt(size, s, at).sequence, IntactAt(size, s, at))
  }

  function HeadersAt(size: nat, s: seq<byte>, ps: seq<nat>): (hs: seq<Header>)
    requires forall i :: 0 <= i < |ps| ==> FrameAt(size, s, ps[i])
    ensures |hs| == |ps|
  {
    seq(|ps|, i requires 0 <= i < |ps| => HeaderAt(size, s, ps[i]))
  }

  // ---------------------------------------------------------------- the scan finds them

  lemma {:induction false} ShortScan(size: nat, s: seq<byte>)
    requires |s| < size || size < HEADER_SIZE
    ensures Scan(size, s).0 == []
    decreases |s|
  {
    hide HeaderOf, GoodLength;
    if HeadOf(size, s).Stray? {
      ShortScan(size, s[1..]);
    }
  }

  lemma FieldInTail(s: seq<byte>, from: nat, at: nat)
    requires from + at + 4 <= |s|
    ensures GetBe32(s[from..], at) == GetBe32(s, from + at)
  {
  }

  /** The head of a tail is whole exactly when a frame stands there. */
  lemma HeadIsFrame(size: nat, s: seq<byte>, from: nat)
    requires HEADER_SIZE <= size && from + size <= |s|
    ensures HeadOf(size, s[from..]).Whole? <==> FrameAt(size, s, from)
    ensures HeadOf(size, s[from..]) != Undecided
    ensures FrameAt(size, s, from) ==> HeadOf(size, s[from..]).header == HeaderAt(size, s, from)
  {
    hide Checksum;
    var t := s[from..];
    assert t[..4] == s[from..from + 4];
    FieldInTail(s, from, 4);
    FieldInTail(s, from, 8);
    FieldInTail(s, from, 12);
    FieldInTail(s, from, 16);
    assert t[HEADER_SIZE..size] == s[from + HEADER_SIZE..from + size];
  }

  lemma {:induction false} ScanFindsFrames(size: nat, s: seq<byte>, from: nat)
    requires from <= |s|
    ensures Scan(size, s[from..]).0 == HeadersAt(size, s, Positions(size, s, from))
    decreases |s| - from
  {
    hide HeadOf, FrameAt, HeaderAt;
    if size < HEADER_SIZE || from + size > |s| {
      ShortScan(size, s[from..]);
    } else {
      HeadIsFrame(size, s, from);
      if FrameAt(size, s, from) {
        assert s[from..][size..] == s[from + size..];
        ScanFindsFrames(size, s, from + size);
      } else {
        assert s[from..][1..] == s[from + 1..];
        ScanFindsFrames(size, s, from + 1);
      }
    }
  }

  // ---------------------------------------------------------------- the first intact frame of each slot wins

  predicate AllFrames(size: nat, s: seq<byte>, ps: seq<nat>) {
    forall i :: 0 <= i < |ps| ==> FrameAt(size, s, ps[i])
  }

  /** Frame `i` of the scan is intact and names the message `m`. */
  predicate Claims(size: nat, s: seq<byte>, ps: seq<nat>, i: nat, m: Message)
    requires AllFrames(size, s, ps)
  {
    i < |ps| && IntactAt(size, s, ps[i]) && NamedAt(size, s, ps[i]) == m
  }

  /** It is the first to claim a legal message. */
  predicate Wins(o: Options, s: seq<byte>, ps: seq<nat>, i: nat)
    requires AllFrames(o.size, s, ps)
  {
    && i < |ps| && InRange(o, NamedAt(o.size, s, ps[i])) && Claims(o.size, s, ps, i, NamedAt(o.size, s, ps[i]))
    && forall j: nat :: j < i ==> !Claims(o.size, s, ps, j, NamedAt(o.size, s, ps[i]))
  }

  /** The messages that the winners among the first `n` frames name, in stream order. */
  function Winners(o: Options, s: seq<byte>, ps: seq<nat>, n: nat): (ms: seq<Message>)
    requires AllFrames(o.size, s, ps) && n <= |ps|
  {
    if n == 0 then []
    else Winners(o, s, ps, n - 1) + if Wins(o, s, ps, n - 1) then [NamedAt(o.size, s, ps[n - 1])] else []
  }

  /** A message is among the winners exactly when it is legal and some intact frame claims it, and only once. */
  lemma {:induction false} WinnersExactly(o: Options, s: seq<byte>, ps: seq<nat>, n: nat)
    requires AllFrames(o.size, s, ps) && n <= |ps|
    ensures forall m :: m in Winners(o, s, ps, n) <==>
                          InRange(o, m) && exists j: nat :: j < n && Claims(o.size, s, ps, j, m)
    ensures SentOnce(o, Winners(o, s, ps, n))
  {
    hide IntactAt, NamedAt, FrameAt, InRange;
    if n == 0 {
    } else {
      WinnersExactly(o, s, ps, n - 1);
      var before, all, m := Winners(o, s, ps, n - 1), Winners(o, s, ps, n), NamedAt(o.size, s, ps[n - 1]);
      assert forall x :: x in all <==> x in before || (Wins(o, s, ps, n - 1) && x == m);
      forall x | Claims(o.size, s, ps, n - 1, x) && InRange(o, x) && x !in before ensures Wins(o, s, ps, n - 1) {
      }
      forall k | 0 <= k < |before| ensures before[k] in before {
      }
    }
  }

  /** What considering the first `n` frames has led to. */
  ghost predicate Judged(o: Options, s: seq<byte>, ps: seq<nat>, n: nat, r: Progress)
    requires AllFrames(o.size, s, ps) && n <= |ps|
  {
    && |r.seen| == o.writers * o.messages && r.accepted == Headers(Winners(o, s, ps, n))
    && r.validated == |r.accepted| && r.failures + r.validated == n
    && forall m :: InRange(o, m) ==>
         Slot(o, Intact(m)) < |r.seen|
         && (r.seen[Slot(o, Intact(m))] <==> exists j: nat :: j < n && Claims(o.size, s, ps, j, m))
  }

  lemma {:induction false} HeadersSnoc(order: seq<Message>, m: Message)
    ensures Headers(order + [m]) == Headers(order) + [Intact(m)]
    decreases |order|
  {
    if order == [] {
      assert [] + [m] == [m] && [m][1..] == [];
      assert Headers([m]) == [Intact(m)] + Headers([]);
    } else {
      assert (order + [m])[1..] == order[1..] + [m];
      HeadersSnoc(order[1..], m);
      Associative([Intact(order[0])], Headers(order[1..]), [Intact(m)]);
    }
  }

  /** Considering one more frame: it is accepted exactly when it wins, and counted as a failure otherwise. */
  lemma JudgedStep(o: Options, s: seq<byte>, ps: seq<nat>, n: nat, p: Progress)
    requires AllFrames(o.size, s, ps) && n < |ps| && Judged(o, s, ps, n, p)
    ensures Judged(o, s, ps, n + 1, Consider(o, p, HeaderAt(o.size, s, ps[n])))
  {
    hide FrameAt, IntactAt, NamedAt, Headers, Slot, Winners;
    var h, m := HeaderAt(o.size, s, ps[n]), NamedAt(o.size, s, ps[n]);
    var r := Consider(o, p, h);
    WinnersExactly(o, s, ps, n);
    WinnerIsAcceptable(o, s, ps, n, p);
    WinnersSnoc(o, s, ps, n);
    HeadersSnoc(Winners(o, s, ps, n), m);
    assert Winners(o, s, ps, n) + [] == Winners(o, s, ps, n);
    assert r.accepted == Headers(Winners(o, s, ps, n + 1)) && r.failures + r.validated == n + 1;
    forall x | InRange(o, x)
      ensures Slot(o, Intact(x)) < |r.seen|
      ensures r.seen[Slot(o, Intact(x))] <==> exists j: nat :: j < n + 1 && Claims(o.size, s, ps, j, x)
    {
      assert Slot(o, Intact(x)) < |p.seen|;
      if Wins(o, s, ps, n) {
        assert r.seen == p.seen[Slot(o, Intact(m)) := true] && Claims(o.size, s, ps, n, m);
        if x != m {
          SlotsDiffer(o, x, m);
          assert !Claims(o.size, s, ps, n, x);
        }
      } else if Claims(o.size, s, ps, n, x) {
        var j: nat :| j < n && Claims(o.size, s, ps, j, x);
      }
      assert (exists j: nat :: j < n + 1 && Claims(o.size, s, ps, j, x))
        <==> (exists j: nat :: j < n && Claims(o.size, s, ps, j, x)) || Claims(o.size, s, ps, n, x);
    }
  }

  lemma WinnersSnoc(o: Options, s: seq<byte>, ps: seq<nat>, n: nat)
    requires AllFrames(o.size, s, ps) && n < |ps|
    ensures Winners(o, s, ps, n + 1)
         == Winners(o, s, ps, n) + if Wins(o, s, ps, n) then [NamedAt(o.size, s, ps[n])] else []
  {
  }

  lemma SameSlot(o: Options, h: Header, g: Header)
    requires h.writer == g.writer && h.sequence == g.sequence
    ensures Slot(o, h) == Slot(o, g)
  {
  }

  lemma WinnerIsAcceptable(o: Options, s: seq<byte>, ps: seq<nat>, n: nat, p: Progress)
    requires AllFrames(o.size, s, ps) && n < |ps| && Judged(o, s, ps, n, p)
    ensures Acceptable(o, p.seen, HeaderAt(o.size, s, ps[n])) <==> Wins(o, s, ps, n)
    ensures var h, m := HeaderAt(o.size, s, ps[n]), NamedAt(o.size, s, ps[n]);
            Wins(o, s, ps, n) ==> h == Intact(m) && Slot(o, h) == Slot(o, Intact(m))
  {
    hide FrameAt, NamedAt, IntactAt, Headers, Winners, Slot;
    var m, h := NamedAt(o.size, s, ps[n]), HeaderAt(o.size, s, ps[n]);
    SameSlot(o, h, Intact(m));
    if InRange(o, m) {
      assert p.seen[Slot(o, Intact(m))] <==> exists j: nat :: j < n && Claims(o.size, s, ps, j, m);
    }
  }

  lemma {:induction false} AllJudged(o: Options, s: seq<byte>, ps: seq<nat>, n: nat)
    requires AllFrames(o.size, s, ps) && n <= |ps|
    ensures Judged(o, s, ps, n, Consume(o, Fresh(AllMarks(o.writers * o.messages, false)),
                                        HeadersAt(o.size, s, ps)[..n]))
  {
    hide FrameAt, HeaderAt, IntactAt, NamedAt, Consider;
    var hs, p := HeadersAt(o.size, s, ps), Fresh(AllMarks(o.writers * o.messages, false));
    if n == 0 {
      assert hs[..0] == [];
      forall m | InRange(o, m) ensures Slot(o, Intact(m)) < o.writers * o.messages {
        SlotInRange(o, m);
      }
    } else {
      AllJudged(o, s, ps, n - 1);
      assert hs[..n] == hs[..n - 1] + [hs[n - 1]];
      ConsumeConcat(o, p, hs[..n - 1], [hs[n - 1]]);
      var q := Consume(o, p, hs[..n - 1]);
      assert Consume(o, q, [hs[n - 1]]) == Consider(o, q, hs[n - 1]) by {
        assert [hs[n - 1]][1..] == [];
      }
      JudgedStep(o, s, ps, n - 1, q);
    }
  }

  // ---------------------------------------------------------------- no frame goes uncounted

  /** Every frame in the buffer is validated or counted as a failure. */
  lemma {:induction false} DrainJudgesAll(o: Options, p: Progress)
    ensures var r := Drain(o, p);
            r.failures + r.validated >= p.failures + p.validated + |Scan(o.size, p.buffer).0|
    decreases |p.buffer|
  {
    hide Consider, HeaderOf, GoodLength, FindMagic;
    var b := p.buffer;
    if |b| < HEADER_SIZE {
      ShortScanFindsNothing(o.size, b);
    } else if b[..4] != Magic() {
      var at := FindMagic(b, 1);
      NoMagicAtHead(b);
      assert forall k :: 0 <= k < at ==> !MagicAt(b, k);
      if at == |b| {
        ScanSkips(o.size, b, |b| - 3);
        ShortScanFindsNothing(o.size, b[|b| - 3..]);
      } else {
        ScanSkips(o.size, b, at);
        DrainJudgesAll(o, p.(buffer := b[at..], failures := p.failures + 1));
      }
    } else {
      match HeadOf(o.size, b)
      case Undecided =>
      case Stray => DrainJudgesAll(o, p.(buffer := b[1..], failures := p.failures + 1));
      case Whole(h) =>
        ConsiderJudges(o, p, h);
        DrainJudgesAll(o, Consider(o, p, h).(buffer := b[o.size..]));
    }
  }

  lemma ConsiderJudges(o: Options, p: Progress, h: Header)
    ensures Consider(o, p, h).failures + Consider(o, p, h).validated == p.failures + p.validated + 1
  {
  }

  lemma {:induction false} FeedJudgesAll(o: Options, p: Progress, chunks: seq<seq<byte>>)
    requires Scan(o.size, p.buffer).0 == []
    ensures var r := Feed(o, p, chunks);
            r.failures + r.validated >= p.failures + p.validated + |Scan(o.size, p.buffer + Joined(chunks)).0|
    decreases |chunks|
  {
    hide Drain, Scan;
    if chunks == [] {
      assert p.buffer + [] == p.buffer;
    } else {
      var start := p.(buffer := p.buffer + chunks[0]);
      var next, rest := Append(o, p, chunks[0]), Joined(chunks[1..]);
      Associative(p.buffer, chunks[0], rest);
      DrainFollowsScan(o, start);
      DrainJudgesAll(o, start);
      FeedJudgesAll(o, next, chunks[1..]);
      ScansChain(o.size, start.buffer, next.buffer, rest);
    }
  }

  /** A stream of whole frames and nothing else. */
  predicate Packed(size: nat, s: seq<byte>)
    decreases |s|
  {
    s == [] || (FrameAt(size, s, 0) && Packed(size, s[size..]))
  }

  /** On such a stream each turn of the loop judges one frame. */
  lemma {:induction false} DrainIsThrifty(o: Options, p: Progress, t: seq<byte>)
    requires Packed(o.size, p.buffer + t)
    ensures var r := Drain(o, p);
            && (r.failures + r.validated) * o.size + |r.buffer| == (p.failures + p.validated) * o.size + |p.buffer|
            && Packed(o.size, r.buffer + t)
    decreases |p.buffer|
  {
    hide Consider, HeaderOf, GoodLength, FrameAt, HeadOf;
    var b := p.buffer;
    if |b| >= HEADER_SIZE {
      PackedHead(o.size, b, t);
      if HeadOf(o.size, b).Whole? {
        var h := HeadOf(o.size, b).header;
        var q := Consider(o, p, h).(buffer := b[o.size..]);
        DropOfConcat(b, t, o.size);
        ConsiderJudges(o, p, h);
        TurnOnHead(o, p, HeadOf(o.size, b));
        DrainIsThrifty(o, q, t);
        assert (p.failures + p.validated + 1) * o.size == (p.failures + p.validated) * o.size + o.size;
      } else {
        TurnOnHead(o, p, HeadOf(o.size, b));
      }
    }
  }

  lemma PackedHead(size: nat, b: seq<byte>, t: seq<byte>)
    requires Packed(size, b + t) && |b| >= HEADER_SIZE
    ensures b[..4] == Magic() && !HeadOf(size, b).Stray?
    ensures HeadOf(size, b).Whole? ==> size <= |b| && Packed(size, (b + t)[size..])
  {
    hide HeaderOf, HeaderAt;
    assert (b + t)[0..] == b + t;
    HeadIsFrame(size, b + t, 0);
    assert b[..4] == (b + t)[0..4];
    if HeadOf(size, b) != Undecided {
      HeadIsStable(size, b, t);
    }
  }

  lemma {:induction false} FeedIsThrifty(o: Options, p: Progress, chunks: seq<seq<byte>>)
    requires Packed(o.size, p.buffer + Joined(chunks))
    ensures var r := Feed(o, p, chunks);
            (r.failures + r.validated) * o.size + |r.buffer|
            == (p.failures + p.validated) * o.size + |p.buffer| + |Joined(chunks)|
    decreases |chunks|
  {
    hide Drain, Packed;
    if chunks == [] {
    } else {
      var start, rest := p.(buffer := p.buffer + chunks[0]), Joined(chunks[1..]);
      Associative(p.buffer, chunks[0], rest);
      DrainIsThrifty(o, start, rest);
      FeedIsThrifty(o, Append(o, p, chunks[0]), chunks[1..]);
    }
  }

  /** How many frames such a stream holds. */
  lemma {:induction false} PackedPositions(size: nat, s: seq<byte>, from: nat)
    requires from <= |s| && Packed(size, s[from..]) && HEADER_SIZE <= size
    ensures |Positions(size, s, from)| * size == |s| - from
    decreases |s| - from
  {
    hide FrameAt;
    if from < |s| {
      FrameInTail(size, s, from);
      assert s[from..][size..] == s[from + size..];
      PackedPositions(size, s, from + size);
      var n := |Positions(size, s, from)|;
      assert n * size == (n - 1) * size + size;
    }
  }

  lemma FrameInTail(size: nat, s: seq<byte>, from: nat)
    requires from <= |s| && FrameAt(size, s[from..], 0)
    ensures FrameAt(size, s, from)
  {
    FieldInTail(s, from, 12);
    assert s[from..][0..4] == s[from..from + 4];
  }

  // ---------------------------------------------------------------- the verdicts

  /** For every stream and every way of reading it: the accepted frames are, in stream order, the first intact frame of
      each legal message; each is counted once and exactly their slots are marked; every other frame is counted as a
      failure, and nothing else is when the stream consists of whole frames. */
  lemma VerdictsExactly(o: Options, chunks: seq<seq<byte>>)
    ensures var s, r := Joined(chunks), Feed(o, Fresh(AllMarks(o.writers * o.messages, false)), chunks);
            var ps := Positions(o.size, s, 0);
            && r.accepted == Headers(Winners(o, s, ps, |ps|)) && r.validated == |r.accepted|
            && |r.seen| == o.writers * o.messages
            && (forall m :: InRange(o, m) ==>
                  Slot(o, Intact(m)) < |r.seen|
                  && (r.seen[Slot(o, Intact(m))] <==> exists j: nat :: j < |ps| && Claims(o.size, s, ps, j, m)))
            && r.failures >= |ps| - r.validated
            && (Packed(o.size, s) && s != [] ==> r.failures == |ps| - r.validated)
  {
    hide Feed, Consume, Joined, Positions, Scan, Winners, Claims, HeadersAt, Slot, Packed, Headers;
    var p, s := Fresh(AllMarks(o.writers * o.messages, false)), Joined(chunks);
    var ps := Positions(o.size, s, 0);
    assert [] + s == s && s[0..] == s;
    assert Scan(o.size, []).0 == [] by {
      ShortScanFindsNothing(o.size, []);
    }
    FeedFollowsScan(o, p, chunks);
    ScanFindsFrames(o.size, s, 0);
    AllJudged(o, s, ps, |ps|);
    assert HeadersAt(o.size, s, ps)[..|ps|] == HeadersAt(o.size, s, ps);
    FeedJudgesAll(o, p, chunks);
    if Packed(o.size, s) && s != [] {
      PackedCounts(o, p, chunks);
    }
  }

  lemma PackedCounts(o: Options, p: Progress, chunks: seq<seq<byte>>)
    requires p.buffer == [] && p.failures == p.validated == 0 && Joined(chunks) != []
    requires Packed(o.size, Joined(chunks))
    ensures Feed(o, p, chunks).failures + Feed(o, p, chunks).validated <= |Positions(o.size, Joined(chunks), 0)|
  {
    hide Feed, Joined, Positions;
    var r, s := Feed(o, p, chunks), Joined(chunks);
    assert [] + s == s && s[0..] == s;
    FeedIsThrifty(o, p, chunks);
    PackedPositions(o.size, s, 0);
    NotMore(r.failures + r.validated, |Positions(o.size, s, 0)|, o.size, |r.buffer|);
  }

  lemma NotMore(a: nat, b: nat, size: nat, extra: nat)
    requires a * size + extra == b * size && size > 0
    ensures a <= b
  {
    if a > b {
      RowsBelow(b, a, size);
    }
  }

  /** What one turn of the validator's loop drops is an accepted frame, or it is counted as exactly one failure: a frame
      that is not accepted, the byte of a header with a bad length, or everything up to the next magic. */
  lemma EveryDropCounts(o: Options, p: Progress)
    requires 0 < o.size
    ensures var q := Turn(o, p).0;
            && (q.buffer == p.buffer ==> q == p && !Turn(o, p).1)
            && (q.buffer != p.buffer ==>
                  && |q.buffer| < |p.buffer| && HEADER_SIZE <= |p.buffer|
                  && (q.validated - p.validated) + (q.failures - p.failures) == 1
                  && |q.accepted| - |p.accepted| == q.validated - p.validated >= 0)
  {
    hide FindMagic, HeaderOf, GoodLength, Acceptable;
  }
}
