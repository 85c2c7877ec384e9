/** The resynchronising frame validator of userspace/concurrent_test.c as a function of its buffer, and
    why its verdicts do not depend on how reads cut the stream. */
module FrameStream {
  import opened Bytes
  import opened Frames

  datatype Options = Options(writers: nat, messages: nat, size: nat)

  /** The validator's state: unconsumed bytes, the mark of every (writer, sequence) slot, two counters, and the
      accepted frames in the order they were accepted. */
  datatype Progress = Progress(buffer: seq<byte>, seen: seq<bool>, validated: nat, failures: nat,
                               accepted: seq<Header>)

  /** The state before the first read. */
  function Fresh(seen: seq<bool>): (r: Progress) {
    Progress([], seen, 0, 0, [])
  }

  predicate MagicAt(s: seq<byte>, at: nat) {
    at + 4 <= |s| && s[at..at + 4] == Magic()
  }

  /** The first magic at position `from` or later, or the length when there is none. */
  function FindMagic(s: seq<byte>, from: nat): (at: nat)
    requires from <= |s|
    ensures from <= at <= |s|
    ensures forall k :: from <= k < at ==> !MagicAt(s, k)
    ensures at < |s| ==> MagicAt(s, at)
    decreases |s| - from
  {
    if from + 4 > |s| then |s|
    else if MagicAt(s, from) then from
    else FindMagic(s, from + 1)
  }

  /** A complete frame as the validator looks at it. */
  datatype Header = Header(writer: nat, sequence: nat, intact: bool)

  function HeaderOf(size: nat, s: seq<byte>): (r: Header)
    requires HEADER_SIZE <= size <= |s| && size < 0x1_0000_0000
  {
    var w, q := GetBe32(s, 4), GetBe32(s, 8);
    Header(w, q, Checksum(w, q, s[HEADER_SIZE..size]) == GetBe32(s, 16))
  }

  predicate GoodLength(size: nat, s: seq<byte>)
    requires HEADER_SIZE <= |s|
  {
    GetBe32(s, 12) <= MAX_MESSAGE_SIZE && GetBe32(s, 12) + HEADER_SIZE == size
  }

  function Slot(o: Options, h: Header): (r: nat) {
    h.writer * o.messages + h.sequence
  }

  predicate Acceptable(o: Options, seen: seq<bool>, h: Header) {
    && h.writer < o.writers && h.sequence < o.messages
    && Slot(o, h) < |seen| && !seen[Slot(o, h)] && h.intact
  }

  function Mark(o: Options, seen: seq<bool>, h: Header): (r: seq<bool>)
    requires Acceptable(o, seen, h)
    ensures |r| == |seen|
  {
    seen[Slot(o, h) := true]
  }

  /** Mark the frame's slot, or count a failure. */
  function Consider(o: Options, p: Progress, h: Header): (r: Progress)
    ensures r.buffer == p.buffer && |r.seen| == |p.seen|
    ensures r.failures == p.failures || r.failures == p.failures + 1
  {
    if Acceptable(o, p.seen, h)
    then p.(seen := Mark(o, p.seen, h), validated := p.validated + 1, accepted := p.accepted + [h])
    else p.(failures := p.failures + 1)
  }

  /** What the bytes at the head of `s` are: not decidable yet, a byte to step over, or a whole frame. */
  datatype Head = Undecided | Stray | Whole(header: Header)

  function HeadOf(size: nat, s: seq<byte>): (h: Head)
    ensures h.Whole? ==> HEADER_SIZE <= size <= |s|
    ensures h.Stray? ==> 4 <= |s|
  {
    if |s| < 4 then Undecided
    else if s[..4] != Magic() then Stray
    else if |s| < HEADER_SIZE then Undecided
    else if !GoodLength(size, s) then Stray
    else if |s| < size then Undecided
    else Whole(HeaderOf(size, s))
  }

  /** More input never changes a decided head. */
  lemma HeadIsStable(size: nat, s: seq<byte>, t: seq<byte>)
    requires HeadOf(size, s) != Undecided
    ensures HeadOf(size, s + t) == HeadOf(size, s)
  {
    var all := s + t;
    assert all[..4] == s[..4];
    if s[..4] == Magic() {
      LengthIsStable(size, s, t);
      if GoodLength(size, s) {
        HeaderIsStable(size, s, t);
        assert HeadOf(size, all) == Whole(HeaderOf(size, all));
      }
    }
  }

  lemma LengthIsStable(size: nat, s: seq<byte>, t: seq<byte>)
    requires HEADER_SIZE <= |s|
    ensures GoodLength(size, s + t) == GoodLength(size, s)
  {
    FieldIsStable(s, t, 12);
  }

  lemma HeaderIsStable(size: nat, s: seq<byte>, t: seq<byte>)
    requires HEADER_SIZE <= size <= |s| && size < 0x1_0000_0000
    ensures HeaderOf(size, s + t) == HeaderOf(size, s)
  {
    FieldIsStable(s, t, 4);
    FieldIsStable(s, t, 8);
    FieldIsStable(s, t, 16);
    assert (s + t)[HEADER_SIZE..size] == s[HEADER_SIZE..size];
  }

  lemma FieldIsStable(s: seq<byte>, t: seq<byte>, at: nat)
    requires at + 4 <= |s|
    ensures GetBe32(s + t, at) == GetBe32(s, at)
  {
  }

  /** One turn of the validator's loop, and whether another one follows. */
  function Turn(o: Options, p: Progress): (r: (Progress, bool))
    ensures |r.0.seen| == |p.seen| && r.0.failures >= p.failures
    ensures r.1 ==> |r.0.buffer| < |p.buffer|
  {
    var b := p.buffer;
    if |b| < HEADER_SIZE then (p, false)
    else if b[..4] != Magic() then
      var at := FindMagic(b, 1);
      if at == |b| then (p.(buffer := b[|b| - 3..], failures := p.failures + 1), false)
      else (p.(buffer := b[at..], failures := p.failures + 1), true)
    else
      match HeadOf(o.size, b)
      case Stray => (p.(buffer := b[1..], failures := p.failures + 1), true)
      case Undecided => (p, false)
      case Whole(h) => (Consider(o, p, h).(buffer := b[o.size..]), true)
  }

  lemma TurnOnHead(o: Options, p: Progress, head: Head)
    requires HEADER_SIZE <= |p.buffer| && p.buffer[..4] == Magic() && head == HeadOf(o.size, p.buffer)
    ensures head.Stray? ==> Turn(o, p) == (p.(failures := p.failures + 1).(buffer := p.buffer[1..]), true)
    ensures head.Undecided? ==> Turn(o, p) == (p, false)
    ensures head.Whole? ==> Turn(o, p) == (Consider(o, p, head.header).(buffer := p.buffer[o.size..]), true)
  {
  }

  /** The validator's loop: what it leaves when it runs out of decidable input. */
  function Drain(o: Options, p: Progress): (r: Progress)
    ensures |r.seen| == |p.seen| && r.failures >= p.failures
    decreases |p.buffer|
  {
    var (q, more) := Turn(o, p);
    if more then Drain(o, q) else q
  }

  function Append(o: Options, p: Progress, chunk: seq<byte>): (r: Progress) {
    Drain(o, p.(buffer := p.buffer + chunk))
  }

  function Feed(o: Options, p: Progress, chunks: seq<seq<byte>>): (r: Progress)
    ensures r.failures >= p.failures
    decreases |chunks|
  {
    if chunks == [] then p else Feed(o, Append(o, p, chunks[0]), chunks[1..])
  }

  function Joined(chunks: seq<seq<byte>>): (r: seq<byte>) {
    if chunks == [] then [] else chunks[0] + Joined(chunks[1..])
  }

  lemma {:induction false} JoinedConcat(a: seq<seq<byte>>, b: seq<seq<byte>>)
    ensures Joined(a + b) == Joined(a) + Joined(b)
    decreases |a|
  {
    if a == [] {
      assert a + b == b;
    } else {
      assert (a + b)[1..] == a[1..] + b;
      JoinedConcat(a[1..], b);
    }
  }

  lemma {:induction false} FeedConcat(o: Options, p: Progress, a: seq<seq<byte>>, b: seq<seq<byte>>)
    ensures Feed(o, p, a + b) == Feed(o, Feed(o, p, a), b)
    decreases |a|
  {
    hide Append;
    if a == [] {
      assert a + b == b;
    } else {
      assert (a + b)[1..] == a[1..] + b;
      FeedConcat(o, Append(o, p, a[0]), a[1..], b);
    }
  }

  lemma OneRead(o: Options, p: Progress, a: seq<byte>)
    ensures Joined([a]) == a && Feed(o, p, [a]) == Append(o, p, a)
  {
    hide Drain;
    assert [a][1..] == [] && a + [] == a;
  }

  // ---------------------------------------------------------------- the reference scanner

  /** Byte-by-byte scan: the complete well-sized frames it steps over and the undecided tail. */
  function Scan(size: nat, s: seq<byte>): (r: (seq<Header>, seq<byte>))
    decreases |s|
  {
    match HeadOf(size, s)
    case Undecided => ([], s)
    case Stray => Scan(size, s[1..])
    case Whole(h) => var later := Scan(size, s[size..]); ([h] + later.0, later.1)
  }

  /** Considering frames one after the other, without any buffer. */
  function Consume(o: Options, p: Progress, headers: seq<Header>): (r: Progress)
    ensures r.buffer == p.buffer
    decreases |headers|
  {
    if headers == [] then p else Consume(o, Consider(o, p, headers[0]), headers[1..])
  }

  predicate SameVerdicts(p: Progress, q: Progress) {
    p.seen == q.seen && p.validated == q.validated && p.accepted == q.accepted
  }

  lemma Associative<T>(a: seq<T>, b: seq<T>, c: seq<T>)
    ensures a + (b + c) == (a + b) + c
  {
  }

  lemma DropOfConcat<T>(s: seq<T>, t: seq<T>, k: nat)
    requires k <= |s|
    ensures (s + t)[k..] == s[k..] + t
  {
  }

  /** The scan is incremental: what it left undecided and more input give the rest. */
  lemma {:induction false} ScanContinues(size: nat, s: seq<byte>, t: seq<byte>)
    ensures var first := Scan(size, s);
            var second := Scan(size, first.1 + t);
            Scan(size, s + t).0 == first.0 + second.0 && Scan(size, s + t).1 == second.1
    decreases |s|
  {
    match HeadOf(size, s)
    case Undecided =>
      assert [] + Scan(size, s + t).0 == Scan(size, s + t).0;
    case Stray =>
      HeadIsStable(size, s, t);
      DropOfConcat(s, t, 1);
      ScanContinues(size, s[1..], t);
    case Whole(h) =>
      HeadIsStable(size, s, t);
      DropOfConcat(s, t, size);
      ScanContinues(size, s[size..], t);
      var later := Scan(size, s[size..]);
      var second := Scan(size, later.1 + t);
      Associative([h], later.0, second.0);
  }

  /** Bytes before the next magic are stepped over, as long as three bytes stay. */
  lemma {:induction false} ScanSkips(size: nat, s: seq<byte>, k: nat)
    requires k + 3 <= |s| && forall j :: 0 <= j < k ==> !MagicAt(s, j)
    ensures Scan(size, s) == Scan(size, s[k..])
    decreases k
  {
    if k == 0 {
    } else {
      assert !MagicAt(s, 0);
      var t := s[1..];
      forall j | 0 <= j < k - 1 ensures !MagicAt(t, j) {
        assert !MagicAt(s, j + 1);
        assert j + 4 <= |t| ==> t[j..j + 4] == s[j + 1..j + 5];
      }
      ScanSkips(size, t, k - 1);
      assert t[k - 1..] == s[k..];
    }
  }

  lemma {:induction false} ShortScanFindsNothing(size: nat, s: seq<byte>)
    requires |s| < HEADER_SIZE
    ensures Scan(size, s).0 == []
    decreases |s|
  {
    if 4 <= |s| {
      ShortScanFindsNothing(size, s[1..]);
    }
  }

  lemma {:induction false} ConsumeIgnoresFailures(o: Options, p: Progress, q: Progress, headers: seq<Header>)
    requires SameVerdicts(p, q)
    ensures SameVerdicts(Consume(o, p, headers), Consume(o, q, headers))
    decreases |headers|
  {
    if headers == [] {
    } else {
      ConsumeIgnoresFailures(o, Consider(o, p, headers[0]), Consider(o, q, headers[0]), headers[1..]);
    }
  }

  /** Continuing from `q` after stepping over stray bytes of `p` is following the scan of `p`. */
  ghost predicate Follows(o: Options, p: Progress, r: Progress) {
    var scan := Scan(o.size, p.buffer);
    && SameVerdicts(r, Consume(o, p, scan.0))
    && Scan(o.size, r.buffer).0 == [] && Scan(o.size, r.buffer).1 == scan.1
  }

  lemma FollowsAfterStray(o: Options, p: Progress, q: Progress, r: Progress)
    requires SameVerdicts(p, q) && Scan(o.size, p.buffer) == Scan(o.size, q.buffer) && Follows(o, q, r)
    ensures Follows(o, p, r)
  {
    ConsumeIgnoresFailures(o, p, q, Scan(o.size, p.buffer).0);
  }

  lemma FollowsAfterWhole(o: Options, p: Progress, q: Progress, r: Progress)
    requires HeadOf(o.size, p.buffer).Whole?
    requires q == Consider(o, p, HeadOf(o.size, p.buffer).header).(buffer := p.buffer[o.size..])
    requires Follows(o, q, r)
    ensures Follows(o, p, r)
  {
    var h, later := HeadOf(o.size, p.buffer).header, Scan(o.size, q.buffer);
    assert ([h] + later.0)[1..] == later.0;
    ConsumeIgnoresFailures(o, Consider(o, p, h), q, later.0);
  }

  /** Stopping where the scan finds nothing. */
  lemma FollowsByStopping(o: Options, p: Progress, r: Progress)
    requires SameVerdicts(p, r) && Scan(o.size, p.buffer).0 == []
    requires Scan(o.size, r.buffer) == Scan(o.size, p.buffer)
    ensures Follows(o, p, r)
  {
  }

  lemma NoMagicAtHead(b: seq<byte>)
    requires 4 <= |b| && b[..4] != Magic()
    ensures !MagicAt(b, 0)
  {
  }

  /** The validator's loop marks what the scanner finds and leaves a buffer that scans to the same tail. */
  lemma {:induction false} DrainFollowsScan(o: Options, p: Progress)
    ensures Follows(o, p, Drain(o, p))
    decreases |p.buffer|
  {
    hide Follows, Consume, Consider, HeaderOf, GoodLength, FindMagic;
    var b, r := p.buffer, Drain(o, p);
    if |b| < HEADER_SIZE {
      ShortScanFindsNothing(o.size, b);
      FollowsByStopping(o, p, r);
    } else if b[..4] != Magic() {
      var at := FindMagic(b, 1);
      NoMagicAtHead(b);
      assert forall k :: 0 <= k < at ==> !MagicAt(b, k);
      if at == |b| {
        ScanSkips(o.size, b, |b| - 3);
        ShortScanFindsNothing(o.size, b[|b| - 3..]);
        FollowsByStopping(o, p, r);
      } else {
        var q := p.(buffer := b[at..], failures := p.failures + 1);
        ScanSkips(o.size, b, at);
        DrainFollowsScan(o, q);
        FollowsAfterStray(o, p, q, r);
      }
    } else {
      match HeadOf(o.size, b)
      case Undecided =>
        FollowsByStopping(o, p, r);
      case Stray =>
        var q := p.(buffer := b[1..], failures := p.failures + 1);
        DrainFollowsScan(o, q);
        FollowsAfterStray(o, p, q, r);
      case Whole(h) =>
        var q := Consider(o, p, h).(buffer := b[o.size..]);
        DrainFollowsScan(o, q);
        FollowsAfterWhole(o, p, q, r);
    }
  }

  lemma {:induction false} ConsumeConcat(o: Options, p: Progress, a: seq<Header>, b: seq<Header>)
    ensures Consume(o, p, a + b) == Consume(o, Consume(o, p, a), b)
    decreases |a|
  {
    if a == [] {
      assert a + b == b;
    } else {
      assert (a + b)[1..] == a[1..] + b;
      ConsumeConcat(o, Consider(o, p, a[0]), a[1..], b);
    }
  }

  /** Feeding chunks marks exactly the frames of the whole stream, in stream order. */
  lemma {:induction false} FeedFollowsScan(o: Options, p: Progress, chunks: seq<seq<byte>>)
    requires Scan(o.size, p.buffer).0 == []
    ensures var scan := Scan(o.size, p.buffer + Joined(chunks));
            && SameVerdicts(Feed(o, p, chunks), Consume(o, p, scan.0))
            && Scan(o.size, Feed(o, p, chunks).buffer).0 == []
            && Scan(o.size, Feed(o, p, chunks).buffer).1 == scan.1
    decreases |chunks|
  {
    if chunks == [] {
      assert p.buffer + [] == p.buffer;
    } else {
      var start := p.(buffer := p.buffer + chunks[0]);
      var next, rest := Append(o, p, chunks[0]), Joined(chunks[1..]);
      assert p.buffer + Joined(chunks) == start.buffer + rest;
      DrainFollowsScan(o, start);
      FeedFollowsScan(o, next, chunks[1..]);
      ScansChain(o.size, start.buffer, next.buffer, rest);
      var now, later := Scan(o.size, start.buffer).0, Scan(o.size, next.buffer + rest).0;
      ConsumeConcat(o, p, now, later);
      ConsumeIgnoresFailures(o, p, start, now);
      ConsumeIgnoresFailures(o, next, Consume(o, p, now), later);
    }
  }

  /** Two buffers that scan to the same tail are continued alike. */
  lemma ScansChain(size: nat, s: seq<byte>, left: seq<byte>, t: seq<byte>)
    requires Scan(size, left).0 == [] && Scan(size, left).1 == Scan(size, s).1
    ensures Scan(size, s + t).0 == Scan(size, s).0 + Scan(size, left + t).0
    ensures Scan(size, s + t).1 == Scan(size, left + t).1
  {
    var first, second := Scan(size, s), Scan(size, left + t);
    var direct := Scan(size, first.1 + t);
    ScanContinues(size, s, t);
    ScanContinues(size, left, t);
    assert second.0 == [] + direct.0 == direct.0;
    assert second.1 == direct.1;
  }

  /** Chunk independence, for every stream and every two ways of cutting it. */
  lemma ChunkingDoesNotMatter(o: Options, seen: seq<bool>, one: seq<seq<byte>>, two: seq<seq<byte>>)
    requires Joined(one) == Joined(two)
    ensures SameVerdicts(Feed(o, Fresh(seen), one), Feed(o, Fresh(seen), two))
  {
    FeedFollowsScan(o, Fresh(seen), one);
    FeedFollowsScan(o, Fresh(seen), two);
  }

  // ---------------------------------------------------------------- failure counting

  /** No byte of `s` up to the undecided tail makes the validator complain. */
  predicate Clean(o: Options, s: seq<byte>, seen: seq<bool>)
    decreases |s|
  {
    |s| < HEADER_SIZE
    || match HeadOf(o.size, s)
       case Undecided => true
       case Stray => false
       case Whole(h) => Acceptable(o, seen, h) && Clean(o, s[o.size..], Mark(o, seen, h))
  }

  lemma {:induction false} DrainCountsUnclean(o: Options, p: Progress)
    ensures Drain(o, p).failures == p.failures <==> Clean(o, p.buffer, p.seen)
    decreases |p.buffer|
  {
    if HEADER_SIZE <= |p.buffer| && HeadOf(o.size, p.buffer).Whole? {
      DrainCountsUnclean(o, Consider(o, p, HeadOf(o.size, p.buffer).header).(buffer := p.buffer[o.size..]));
    }
  }

  lemma {:induction false} CleanContinues(o: Options, p: Progress, t: seq<byte>)
    ensures Clean(o, p.buffer + t, p.seen) <==>
              Clean(o, p.buffer, p.seen) && Clean(o, Drain(o, p).buffer + t, Drain(o, p).seen)
    decreases |p.buffer|
  {
    var b := p.buffer;
    if HEADER_SIZE <= |b| && HeadOf(o.size, b) != Undecided {
      HeadIsStable(o.size, b, t);
      if HeadOf(o.size, b).Whole? {
        DropOfConcat(b, t, o.size);
        CleanContinues(o, Consider(o, p, HeadOf(o.size, b).header).(buffer := b[o.size..]), t);
      }
    }
  }

  /** Whether any failure is counted depends on the stream alone. */
  lemma {:induction false} FeedCountsUnclean(o: Options, p: Progress, chunks: seq<seq<byte>>)
    requires Clean(o, p.buffer, p.seen)
    ensures Feed(o, p, chunks).failures == p.failures <==> Clean(o, p.buffer + Joined(chunks), p.seen)
    decreases |chunks|
  {
    if chunks == [] {
      assert p.buffer + [] == p.buffer;
    } else {
      var start := p.(buffer := p.buffer + chunks[0]);
      var next := Append(o, p, chunks[0]);
      Associative(p.buffer, chunks[0], Joined(chunks[1..]));
      DrainCountsUnclean(o, start);
      CleanContinues(o, start, Joined(chunks[1..]));
      if Clean(o, start.buffer, p.seen) {
        CleanContinues(o, start, []);
        assert start.buffer + [] == start.buffer && next.buffer + [] == next.buffer;
        FeedCountsUnclean(o, next, chunks[1..]);
      }
    }
  }

  /** How many failures are counted does depend on the chunks: forty stray bytes count once when they
      arrive together and twice when they arrive in two halves. */
  lemma FailureCountDependsOnChunks(o: Options, seen: seq<bool>)
    ensures Joined([Zeros(20) + Zeros(20)]) == Joined([Zeros(20), Zeros(20)])
    ensures Feed(o, Fresh(seen), [Zeros(20) + Zeros(20)]).failures == 1
    ensures Feed(o, Fresh(seen), [Zeros(20), Zeros(20)]).failures == 2
  {
    var p := Fresh(seen);
    var one: seq<seq<byte>> := [Zeros(20) + Zeros(20)];
    var two: seq<seq<byte>> := [Zeros(20), Zeros(20)];
    assert one[1..] == [] && two[1..] == [Zeros(20)];
    assert Joined(two[1..]) == Zeros(20) && Joined(one) == Zeros(20) + Zeros(20);
    ZerosAppend(o, p, 0, 40);
    assert Zeros(40) == Zeros(20) + Zeros(20);
    ZerosAppend(o, p, 0, 20);
    ZerosAppend(o, Append(o, p, Zeros(20)), 3, 20);
    assert Feed(o, p, one) == Append(o, p, one[0]);
    assert Feed(o, p, two) == Append(o, Append(o, p, two[0]), two[1]);
  }

  function Zeros(n: nat): (s: seq<byte>)
    ensures |s| == n
  {
    seq(n, _ => 0)
  }

  lemma ZerosAppend(o: Options, p: Progress, held: nat, n: nat)
    requires p.buffer == Zeros(held) && HEADER_SIZE <= held + n
    ensures Append(o, p, Zeros(n)) == p.(buffer := Zeros(3), failures := p.failures + 1)
  {
    assert p.buffer + Zeros(n) == Zeros(held + n);
    ZerosHaveNoMagic(held + n);
    assert Zeros(held + n)[held + n - 3..] == Zeros(3);
  }

  lemma ZerosHaveNoMagic(n: nat)
    requires HEADER_SIZE <= n
    ensures Zeros(n)[..4] != Magic() && FindMagic(Zeros(n), 1) == n
  {
    var s := Zeros(n);
    forall at: nat | at + 4 <= n ensures !MagicAt(s, at) {
      assert s[at..at + 4][0] == 0;
    }
    assert !MagicAt(s, 0);
  }
}
