/** Exactly when the failure counter of userspace/concurrent_test.c does not depend on how reads cut the stream. */
module FailureCount {
  import opened Bytes
  import opened Frames
  import opened FrameStream

  /** A read that ends with the first complete header keeps the bytes from here on. */
  const KEPT_FROM := HEADER_SIZE - 3

  /** Decided from the bytes alone: every run of stray bytes either meets the next magic within one header, or lies so
      close to the end of the stream that it cannot be counted twice. */
  predicate Steady(size: nat, s: seq<byte>)
    decreases |s|
  {
    |s| < HEADER_SIZE
    || match HeadOf(size, s)
       case Undecided => true
       case Whole(_) => Steady(size, s[size..])
       case Stray =>
         if s[..4] == Magic() then Steady(size, s[1..])
         else
           var at := FindMagic(s, 1);
           (at <= KEPT_FROM || |s| < KEPT_FROM + HEADER_SIZE) && Steady(size, s[at..])
  }

  /** The counter after the rest `s` of the stream has arrived at once. */
  function AtOnce(o: Options, p: Progress, s: seq<byte>): (r: nat) {
    Drain(o, p.(buffer := s)).failures
  }

  // ---------------------------------------------------------------- one turn of the loop

  /** How far one turn that is followed by another gets. */
  function Advance(size: nat, s: seq<byte>): (k: nat)
    ensures k <= |s|
  {
    if |s| < HEADER_SIZE then 0
    else
      match HeadOf(size, s)
      case Undecided => 0
      case Whole(_) => size
      case Stray =>
        if s[..4] == Magic() then 1
        else if FindMagic(s, 1) == |s| then 0 else FindMagic(s, 1)
  }

  function Judged(o: Options, p: Progress, s: seq<byte>): (r: Progress) {
    var head := HeadOf(o.size, s);
    if head.Whole? then Consider(o, p, head.header) else p.(failures := p.failures + 1)
  }

  /** Nothing but stray bytes, and no magic among them. */
  predicate Hopeless(s: seq<byte>) {
    HEADER_SIZE <= |s| && s[..4] != Magic() && FindMagic(s, 1) == |s|
  }

  lemma TurnAdvances(o: Options, p: Progress, s: seq<byte>)
    ensures var q := p.(buffer := s);
            if Advance(o.size, s) > 0
            then Turn(o, q) == (Judged(o, p, s).(buffer := s[Advance(o.size, s)..]), true)
            else
              Turn(o, q) == (if Hopeless(s) then q.(buffer := s[|s| - 3..], failures := p.failures + 1) else q, false)
  {
    hide HeadOf, FindMagic, Consider;
    if HEADER_SIZE <= |s| {
      if s[..4] == Magic() {
        TurnOnHead(o, p.(buffer := s), HeadOf(o.size, s));
        if HeadOf(o.size, s).Whole? {
          WholeIsLong(o.size, s);
          ConsiderIgnoresBuffer(o, p, s, HeadOf(o.size, s).header);
        }
      } else {
        NoMagicIsStray(o.size, s);
      }
    }
  }

  lemma NoMagicIsStray(size: nat, s: seq<byte>)
    requires HEADER_SIZE <= |s| && s[..4] != Magic()
    ensures HeadOf(size, s) == Stray
  {
  }

  lemma WholeIsLong(size: nat, s: seq<byte>)
    requires HeadOf(size, s).Whole?
    ensures HEADER_SIZE <= size <= |s|
  {
  }

  lemma ConsiderIgnoresBuffer(o: Options, p: Progress, s: seq<byte>, h: Header)
    ensures Consider(o, p.(buffer := s), h) == Consider(o, p, h).(buffer := s)
  {
  }

  lemma DrainAdvances(o: Options, p: Progress, s: seq<byte>)
    ensures var q := p.(buffer := s);
            if Advance(o.size, s) > 0
            then Drain(o, q) == Drain(o, Judged(o, p, s).(buffer := s[Advance(o.size, s)..]))
            else Drain(o, q) == if Hopeless(s) then q.(buffer := s[|s| - 3..], failures := p.failures + 1) else q
  {
    hide Turn, Advance, Judged, Hopeless;
    TurnAdvances(o, p, s);
  }

  lemma {:induction false} DrainStops(o: Options, p: Progress)
    ensures Drain(o, Drain(o, p)) == Drain(o, p)
    decreases |p.buffer|
  {
    hide Advance, Judged;
    var b := p.buffer;
    DrainAdvances(o, p, b);
    if Advance(o.size, b) > 0 {
      DrainStops(o, Judged(o, p, b).(buffer := b[Advance(o.size, b)..]));
    } else if Hopeless(b) {
      DrainAdvances(o, Drain(o, p), b[|b| - 3..]);
      assert Advance(o.size, b[|b| - 3..]) == 0 by {
        ShortStays(o.size, b[|b| - 3..]);
      }
    }
  }

  lemma ShortStays(size: nat, s: seq<byte>)
    requires |s| < HEADER_SIZE
    ensures Advance(size, s) == 0 && !Hopeless(s) && Steady(size, s)
  {
  }

  // ---------------------------------------------------------------- more input

  lemma {:induction false} MagicIsStable(b: seq<byte>, t: seq<byte>, from: nat)
    requires from <= |b|
    ensures if FindMagic(b, from) < |b| then FindMagic(b + t, from) == FindMagic(b, from)
            else FindMagic(b + t, from) >= |b| - 3
    decreases |b| - from
  {
    if from + 4 <= |b| {
      assert (b + t)[from..from + 4] == b[from..from + 4];
      if !MagicAt(b, from) {
        MagicIsStable(b, t, from + 1);
      }
    }
  }

  /** A turn that is followed by another is the same when more input is there. */
  lemma AdvanceIsStable(o: Options, p: Progress, b: seq<byte>, t: seq<byte>)
    requires Advance(o.size, b) > 0
    ensures Advance(o.size, b + t) == Advance(o.size, b) && Judged(o, p, b + t) == Judged(o, p, b)
    ensures (b + t)[Advance(o.size, b)..] == b[Advance(o.size, b)..] + t
  {
    HeadIsStable(o.size, b, t);
    MagicIsStable(b, t, 1);
    DropOfConcat(b, t, Advance(o.size, b));
    assert (b + t)[..4] == b[..4];
  }

  /** A turn is also the same when only one header of input beyond it is there. */
  lemma AdvanceOnPrefix(o: Options, p: Progress, b: seq<byte>, t: seq<byte>)
    requires Advance(o.size, b + t) > 0 && Advance(o.size, b + t) + HEADER_SIZE <= |b|
    ensures Advance(o.size, b) > 0
  {
    assert (b + t)[..4] == b[..4];
    MagicIsStable(b, t, 1);
    if b[..4] == Magic() {
      LengthIsStable(o.size, b, t);
    }
  }

  /** What Steady asks of a turn, in the terms of Advance. */
  lemma SteadyUnfolds(size: nat, s: seq<byte>)
    requires Steady(size, s)
    ensures Advance(size, s) > 0 ==> Steady(size, s[Advance(size, s)..])
    ensures HEADER_SIZE <= |s| && s[..4] != Magic() ==>
      FindMagic(s, 1) <= KEPT_FROM || |s| < KEPT_FROM + HEADER_SIZE
  {
  }

  // ---------------------------------------------------------------- steady streams

  /** On a steady stream, draining what has arrived before the rest arrives changes nothing. */
  lemma {:induction false} DrainingEarly(o: Options, p: Progress, t: seq<byte>)
    requires Steady(o.size, p.buffer + t)
    ensures var r := Drain(o, p);
            Steady(o.size, r.buffer + t) && AtOnce(o, r, r.buffer + t) == AtOnce(o, p, p.buffer + t)
    decreases |p.buffer|
  {
    hide Steady, Advance, Judged, Drain, Hopeless;
    var b := p.buffer;
    DrainAdvances(o, p, b);
    if Advance(o.size, b) > 0 {
      var q := Judged(o, p, b).(buffer := b[Advance(o.size, b)..]);
      AdvanceIsStable(o, p, b, t);
      SteadyUnfolds(o.size, b + t);
      DrainAdvances(o, p, b + t);
      DrainingEarly(o, q, t);
    } else if Hopeless(b) {
      KeepingThree(o, p, t);
    }
  }

  lemma KeepingThree(o: Options, p: Progress, t: seq<byte>)
    requires Steady(o.size, p.buffer + t) && Hopeless(p.buffer)
    ensures var kept := p.buffer[|p.buffer| - 3..] + t;
            && Steady(o.size, kept)
            && AtOnce(o, p.(failures := p.failures + 1), kept) == AtOnce(o, p, p.buffer + t)
  {
    hide Steady, Drain, HeadOf, FindMagic;
    var b := p.buffer;
    var s, kept := b + t, b[|b| - 3..] + t;
    var at := FindMagic(s, 1);
    assert s[..4] == b[..4];
    NoMagicIsStray(o.size, s);
    SteadyUnfolds(o.size, s);
    MagicIsStable(b, t, 1);
    DropOfConcat(b, t, |b| - 3);
    DrainAdvances(o, p, s);
    if at == |b| - 3 {
      assert Advance(o.size, s) == at;
    } else {
      ShortStays(o.size, kept);
      DrainAdvances(o, p.(failures := p.failures + 1), kept);
      if at < |s| {
        ShortStays(o.size, s[at..]);
        DrainAdvances(o, p.(failures := p.failures + 1), s[at..]);
      }
    }
  }

  /** A steady stream is counted as if it had arrived at once, whatever the reads were. */
  lemma {:induction false} SteadyCount(o: Options, p: Progress, chunks: seq<seq<byte>>)
    requires Drain(o, p) == p && Steady(o.size, p.buffer + Joined(chunks))
    ensures Feed(o, p, chunks).failures == AtOnce(o, p, p.buffer + Joined(chunks))
    decreases |chunks|
  {
    hide Steady, Drain;
    if chunks == [] {
      assert p.buffer + [] == p.buffer;
    } else {
      var start, rest := p.(buffer := p.buffer + chunks[0]), Joined(chunks[1..]);
      Associative(p.buffer, chunks[0], rest);
      DrainingEarly(o, start, rest);
      DrainStops(o, start);
      SteadyCount(o, Drain(o, start), chunks[1..]);
    }
  }

  // ---------------------------------------------------------------- other streams

  function OneMore(p: Progress): (r: Progress) {
    p.(failures := p.failures + 1)
  }

  /** Failures that were counted before are carried along. */
  lemma {:induction false} OneFailureMore(o: Options, p: Progress, s: seq<byte>)
    ensures Drain(o, OneMore(p).(buffer := s)) == OneMore(Drain(o, p.(buffer := s)))
    decreases |s|
  {
    hide Drain, Advance, Hopeless, HeadOf;
    DrainAdvances(o, p, s);
    DrainAdvances(o, OneMore(p), s);
    if Advance(o.size, s) > 0 {
      assert Judged(o, OneMore(p), s) == OneMore(Judged(o, p, s));
      OneFailureMore(o, Judged(o, p, s), s[Advance(o.size, s)..]);
    }
  }

  lemma OneCountMore(o: Options, p: Progress, s: seq<byte>)
    ensures AtOnce(o, OneMore(p), s) == AtOnce(o, p, s) + 1
  {
    hide Drain;
    OneFailureMore(o, p, s);
  }

  lemma {:induction false} MagicFromLater(s: seq<byte>, from: nat, later: nat)
    requires from <= later <= |s| && later <= FindMagic(s, from)
    ensures FindMagic(s, later) == FindMagic(s, from)
    decreases later - from
  {
    if from < later {
      MagicFromLater(s, from + 1, later);
    }
  }

  lemma {:induction false} MagicInTail(s: seq<byte>, k: nat, from: nat)
    requires k + from <= |s|
    ensures FindMagic(s[k..], from) == FindMagic(s, k + from) - k
    decreases |s| - from
  {
    if k + from + 4 <= |s| {
      assert s[k..][from..from + 4] == s[k + from..k + from + 4];
      MagicInTail(s, k, from + 1);
    }
  }

  /** The loop gets through the bytes `b` to the head of `y`: every turn on the way ends within `b`. */
  predicate Leads(size: nat, b: seq<byte>, y: seq<byte>)
    decreases |b|
  {
    b == [] || (0 < Advance(size, b + y) <= |b| && Leads(size, b[Advance(size, b + y)..], y))
  }

  /** The state at the head of `y`. */
  function Through(o: Options, p: Progress, b: seq<byte>, y: seq<byte>): (r: Progress)
    requires Leads(o.size, b, y)
    decreases |b|
  {
    if b == [] then p else Through(o, Judged(o, p, b + y), b[Advance(o.size, b + y)..], y)
  }

  /** The loop gets there as soon as one header of `y` has arrived. */
  lemma {:induction false} DrainThrough(o: Options, p: Progress, b: seq<byte>, y: seq<byte>, n: nat)
    requires Leads(o.size, b, y) && HEADER_SIZE <= n <= |y|
    ensures Drain(o, p.(buffer := b + y[..n])) == Drain(o, Through(o, p, b, y).(buffer := y[..n]))
    decreases |b|
  {
    hide Drain, Judged, Advance;
    if b == [] {
      assert b + y[..n] == y[..n];
    } else {
      var a, z := Advance(o.size, b + y), b + y[..n];
      assert b + y == z + y[n..];
      AdvanceOnPrefix(o, p, z, y[n..]);
      AdvanceIsStable(o, p, z, y[n..]);
      DropOfConcat(b, y[..n], a);
      DrainAdvances(o, p, z);
      DrainThrough(o, Judged(o, p, b + y), b[a..], y, n);
    }
  }

  /** A stray run of more than a header with more than a header of input behind it: it can be counted twice. */
  predicate LongRun(y: seq<byte>) {
    KEPT_FROM + HEADER_SIZE <= |y| && y[..4] != Magic() && KEPT_FROM < FindMagic(y, 1)
  }

  /** What a stream that is not steady, but is so after its first turn, begins with. */
  lemma UnsteadyHead(size: nat, s: seq<byte>)
    requires !Steady(size, s) && (Advance(size, s) > 0 ==> Steady(size, s[Advance(size, s)..]))
    ensures LongRun(s)
  {
  }

  /** Every unsteady stream leads to a long run. */
  lemma {:induction false} UnsteadyReaches(size: nat, s: seq<byte>) returns (h: nat)
    requires !Steady(size, s)
    ensures h + KEPT_FROM + HEADER_SIZE <= |s| && Leads(size, s[..h], s[h..]) && LongRun(s[h..])
    decreases |s|
  {
    hide Advance, Steady, FindMagic;
    var a := Advance(size, s);
    if a > 0 && !Steady(size, s[a..]) {
      var m := UnsteadyReaches(size, s[a..]);
      h := a + m;
      LaterHead(s, a, m);
    } else {
      h := 0;
      assert s[..0] == [] && s[0..] == s;
      UnsteadyHead(size, s);
    }
  }

  lemma LaterHead(s: seq<byte>, a: nat, m: nat)
    requires a + m <= |s|
    ensures s[..a + m] + s[a + m..] == s && s[..a + m][a..] == s[a..][..m] && s[a + m..] == s[a..][m..]
  {
  }

  /** Every other stream has a cut that counts one failure more: one header behind the start of a long stray run. */
  lemma UnsteadyCut(o: Options, p: Progress, s: seq<byte>) returns (n: nat)
    requires !Steady(o.size, s)
    ensures HEADER_SIZE <= n <= |s|
    ensures var r := Drain(o, p.(buffer := s[..n]));
            AtOnce(o, r, r.buffer + s[n..]) == AtOnce(o, p, s) + 1
  {
    hide Drain, Leads, Through, LongRun, Steady;
    var h := UnsteadyReaches(o.size, s);
    var b, y := s[..h], s[h..];
    n := h + HEADER_SIZE;
    assert s[..n] == b + y[..HEADER_SIZE] && s == b + y[..|y|] && y[..|y|] == y && s[n..] == y[HEADER_SIZE..];
    DrainThrough(o, p, b, y, HEADER_SIZE);
    DrainThrough(o, p, b, y, |y|);
    CutAgain(o, Through(o, p, b, y), y);
  }

  /** A read that ends with the first header of a long run counts it and keeps three bytes. */
  lemma CutRun(o: Options, p: Progress, y: seq<byte>)
    requires LongRun(y)
    ensures Drain(o, p.(buffer := y[..HEADER_SIZE])) == OneMore(p).(buffer := y[..HEADER_SIZE][KEPT_FROM..])
  {
    hide Drain, HeadOf, FindMagic;
    var b, t := y[..HEADER_SIZE], y[HEADER_SIZE..];
    assert y == b + t && b[..4] == y[..4];
    MagicIsStable(b, t, 1);
    NoMagicIsStray(o.size, b);
    DrainAdvances(o, p, b);
  }

  lemma CutAgain(o: Options, p: Progress, y: seq<byte>)
    requires LongRun(y)
    ensures var r := Drain(o, p.(buffer := y[..HEADER_SIZE]));
            AtOnce(o, r, r.buffer + y[HEADER_SIZE..]) == AtOnce(o, p, y) + 1
  {
    hide Drain, FindMagic;
    CutRun(o, p, y);
    assert y[..HEADER_SIZE][KEPT_FROM..] + y[HEADER_SIZE..] == y[KEPT_FROM..];
    RunAgain(o, p, y, KEPT_FROM);
  }

  lemma RunCounts(o: Options, p: Progress, s: seq<byte>)
    requires HEADER_SIZE <= |s| && s[..4] != Magic()
    ensures var q, at := p.(failures := p.failures + 1), FindMagic(s, 1);
            AtOnce(o, p, s) == if at == |s| then q.failures else AtOnce(o, q, s[at..])
  {
    hide Drain, HeadOf, FindMagic;
    NoMagicIsStray(o.size, s);
    DrainAdvances(o, p, s);
  }

  /** A run of stray bytes that is cut before its magic counts a second time. */
  lemma RunAgain(o: Options, p: Progress, s: seq<byte>, k: nat)
    requires k + HEADER_SIZE <= |s| && s[..4] != Magic() && k < FindMagic(s, 1)
    ensures AtOnce(o, OneMore(p), s[k..]) == AtOnce(o, p, s) + 1
  {
    hide AtOnce, FindMagic;
    var at, kept, q := FindMagic(s, 1), s[k..], OneMore(p);
    RestOfRun(s, k);
    RunCounts(o, p, s);
    RunCounts(o, q, kept);
    if at < |s| {
      assert kept[at - k..] == s[at..];
      OneCountMore(o, q, s[at..]);
    }
  }

  lemma RestOfRun(s: seq<byte>, k: nat)
    requires k + HEADER_SIZE <= |s| && s[..4] != Magic() && k < FindMagic(s, 1)
    ensures s[k..][..4] != Magic() && FindMagic(s[k..], 1) == FindMagic(s, 1) - k
  {
    hide FindMagic, MagicAt, Magic;
    if k == 0 {
      assert s[0..] == s;
    } else {
      NoMagicThere(s, k);
      MagicFromLater(s, 1, k + 1);
      MagicInTail(s, k, 1);
    }
  }

  lemma NoMagicThere(s: seq<byte>, k: nat)
    requires k + 4 <= |s| && !MagicAt(s, k)
    ensures s[k..][..4] != Magic()
  {
    assert s[k..][..4] == s[k..k + 4];
  }

  /** Long enough a read of a long run counts it once; cut behind its first header it counts once more, and the rest
      finds the same state. */
  lemma RunInTwo(o: Options, p: Progress, y: seq<byte>)
    requires LongRun(y) && |y| == KEPT_FROM + HEADER_SIZE
    ensures Drain(o, OneMore(p).(buffer := y[KEPT_FROM..])) == OneMore(Drain(o, p.(buffer := y)))
  {
    hide Drain, HeadOf, FindMagic;
    var at, kept, q := FindMagic(y, 1), y[KEPT_FROM..], OneMore(p);
    RestOfRun(y, KEPT_FROM);
    NoMagicIsStray(o.size, y);
    NoMagicIsStray(o.size, kept);
    DrainAdvances(o, p, y);
    DrainAdvances(o, q, kept);
    if at < |y| {
      assert kept[at - KEPT_FROM..] == y[at..];
      OneFailureMore(o, q, y[at..]);
    } else {
      assert kept[|kept| - 3..] == y[|y| - 3..];
    }
  }

  // ---------------------------------------------------------------- reads of a limited size

  /** A reader passes on between one byte and `limit` bytes at a time. */
  predicate Reads(chunks: seq<seq<byte>>, limit: nat) {
    forall c :: c in chunks ==> 0 < |c| <= limit
  }

  function Singly(s: seq<byte>): (chunks: seq<seq<byte>>)
    ensures Joined(chunks) == s && Reads(chunks, 1)
  {
    if s == [] then [] else assert s == [s[0]] + s[1..]; [[s[0]]] + Singly(s[1..])
  }

  lemma {:induction false} FeedCarries(o: Options, p: Progress, chunks: seq<seq<byte>>)
    ensures Feed(o, OneMore(p), chunks) == OneMore(Feed(o, p, chunks))
    decreases |chunks|
  {
    hide Drain;
    if chunks == [] {
    } else {
      OneFailureMore(o, p, p.buffer + chunks[0]);
      FeedCarries(o, Append(o, p, chunks[0]), chunks[1..]);
    }
  }

  /** Draining what has arrived early does not lead past the head of `y`. */
  lemma {:induction false} EarlyLeads(o: Options, p: Progress, x: seq<byte>, y: seq<byte>)
    requires Leads(o.size, p.buffer + x, y) && HEADER_SIZE <= |y|
    ensures Leads(o.size, Drain(o, p).buffer + x, y)
    decreases |p.buffer|
  {
    hide Drain, Advance, Judged, Hopeless;
    var b := p.buffer;
    DrainAdvances(o, p, b);
    Associative(b, x, y);
    if Advance(o.size, b) > 0 {
      AdvanceIsStable(o, p, b, x + y);
      DropOfConcat(b, x, Advance(o.size, b));
      EarlyLeads(o, Judged(o, p, b).(buffer := b[Advance(o.size, b)..]), x, y);
    } else if Hopeless(b) {
      KeptLeads(o.size, b, x, y);
    }
  }

  lemma KeptLeads(size: nat, b: seq<byte>, x: seq<byte>, y: seq<byte>)
    requires Leads(size, b + x, y) && HEADER_SIZE <= |y| && Hopeless(b)
    ensures Leads(size, b[|b| - 3..] + x, y)
  {
    hide Advance, FindMagic;
    var k := |b| - 3;
    var at := Advance(size, b + x + y);
    Associative(b, x, y);
    Associative(b[k..], x, y);
    KeptAdvance(size, b, x + y);
    DropOfConcat(b, x, k);
    if k < at {
      assert (b + x)[at..] == (b[k..] + x)[at - k..];
    }
  }

  /** The turn that ends a stray run ends at the same magic when only the last three bytes of the run were kept. */
  lemma KeptAdvance(size: nat, b: seq<byte>, t: seq<byte>)
    requires Hopeless(b) && HEADER_SIZE <= |t| && Advance(size, b + t) > 0
    ensures |b| - 3 <= Advance(size, b + t)
    ensures |b| - 3 < Advance(size, b + t) ==> Advance(size, b[|b| - 3..] + t) == Advance(size, b + t) - (|b| - 3)
  {
    hide HeadOf, FindMagic;
    var s, k := b + t, |b| - 3;
    assert s[..4] == b[..4] && s[k..] == b[k..] + t;
    MagicIsStable(b, t, 1);
    NoMagicIsStray(size, s);
    if k < FindMagic(s, 1) {
      RestOfRun(s, k);
      NoMagicIsStray(size, s[k..]);
    }
  }

  lemma {:induction false} FeedLeads(o: Options, p: Progress, chunks: seq<seq<byte>>, y: seq<byte>)
    requires Leads(o.size, p.buffer + Joined(chunks), y) && HEADER_SIZE <= |y|
    ensures Leads(o.size, Feed(o, p, chunks).buffer, y)
    decreases |chunks|
  {
    hide Drain, Leads;
    if chunks == [] {
      assert p.buffer + [] == p.buffer;
    } else {
      var start, rest := p.(buffer := p.buffer + chunks[0]), Joined(chunks[1..]);
      Associative(p.buffer, chunks[0], rest);
      EarlyLeads(o, start, rest, y);
      FeedLeads(o, Drain(o, start), chunks[1..], y);
    }
  }

  /** The same bytes in one read and in two reads, wherever the loop had got to before them. */
  lemma OneOrTwo(o: Options, p: Progress, y: seq<byte>)
    requires Leads(o.size, p.buffer, y) && LongRun(y)
    ensures var n := KEPT_FROM + HEADER_SIZE;
            Feed(o, p, [y[..HEADER_SIZE], y[HEADER_SIZE..n]]) == OneMore(Feed(o, p, [y[..n]]))
  {
    hide Drain, Leads, Through, Feed, FindMagic;
    var n := KEPT_FROM + HEADER_SIZE;
    var q := Through(o, p, p.buffer, y);
    DrainThrough(o, p, p.buffer, y, HEADER_SIZE);
    DrainThrough(o, p, p.buffer, y, n);
    RunInParts(o, q, y);
    TwoAppends(o, p, y[..HEADER_SIZE], y[HEADER_SIZE..n]);
    OneRead(o, p, y[..n]);
  }

  lemma RunInParts(o: Options, p: Progress, y: seq<byte>)
    requires LongRun(y)
    ensures var n, r := KEPT_FROM + HEADER_SIZE, Drain(o, p.(buffer := y[..HEADER_SIZE]));
            Drain(o, r.(buffer := r.buffer + y[HEADER_SIZE..n])) == OneMore(Drain(o, p.(buffer := y[..n])))
  {
    hide Drain, FindMagic;
    var n := KEPT_FROM + HEADER_SIZE;
    ShortRun(y);
    CutRun(o, p, y);
    RunInTwo(o, p, y[..n]);
    assert y[..HEADER_SIZE][KEPT_FROM..] + y[HEADER_SIZE..n] == y[..n][KEPT_FROM..];
  }

  lemma ShortRun(y: seq<byte>)
    requires LongRun(y)
    ensures LongRun(y[..KEPT_FROM + HEADER_SIZE])
  {
    var run := y[..KEPT_FROM + HEADER_SIZE];
    assert y == run + y[|run|..] && run[..4] == y[..4];
    MagicIsStable(run, y[|run|..], 1);
  }

  lemma TwoAppends(o: Options, p: Progress, a: seq<byte>, b: seq<byte>)
    ensures Feed(o, p, [a, b]) == Append(o, Append(o, p, a), b)
  {
    hide Append;
    assert [a, b][1..] == [b];
    OneRead(o, Append(o, p, a), b);
  }

  /** Every unsteady stream can be read in two ways, both in small reads, that differ by one failure. */
  lemma UnsteadyReads(o: Options, seen: seq<bool>, s: seq<byte>, limit: nat)
    returns (one: seq<seq<byte>>, two: seq<seq<byte>>)
    requires !Steady(o.size, s) && KEPT_FROM + HEADER_SIZE <= limit
    ensures Reads(one, limit) && Reads(two, limit) && Joined(one) == s && Joined(two) == s
    ensures Feed(o, Fresh(seen), two).failures == Feed(o, Fresh(seen), one).failures + 1
  {
    hide Feed, Leads, LongRun, Joined, Steady, OneMore, Reads, Singly;
    var h := UnsteadyReaches(o.size, s);
    var y, n, p := s[h..], KEPT_FROM + HEADER_SIZE, Fresh(seen);
    var before, after := Singly(s[..h]), Singly(y[n..]);
    var whole, parts := [y[..n]], [y[..HEADER_SIZE], y[HEADER_SIZE..n]];
    one, two := before + (whole + after), before + (parts + after);
    JoinedParts(s, h, n);
    Threefold(before, whole, after, limit);
    Threefold(before, parts, after, limit);
    SmallReads(s[..h], y, y[n..], limit);
    FeedThreefold(o, p, before, whole, after);
    FeedThreefold(o, p, before, parts, after);
    var q := Feed(o, p, before);
    assert [] + s[..h] == s[..h];
    FeedLeads(o, p, before, y);
    OneOrTwo(o, q, y);
    FeedCarries(o, Feed(o, q, whole), after);
    CountsOneMore(Feed(o, Feed(o, q, whole), after));
  }

  lemma CountsOneMore(p: Progress)
    ensures OneMore(p).failures == p.failures + 1
  {
  }

  lemma SmallReads(x: seq<byte>, y: seq<byte>, z: seq<byte>, limit: nat)
    requires KEPT_FROM + HEADER_SIZE <= limit && KEPT_FROM + HEADER_SIZE <= |y|
    ensures var n := KEPT_FROM + HEADER_SIZE;
            Reads([y[..n]], limit) && Reads([y[..HEADER_SIZE], y[HEADER_SIZE..n]], limit)
    ensures Reads(Singly(x), limit) && Reads(Singly(z), limit)
  {
    hide Singly;
  }

  lemma Threefold(a: seq<seq<byte>>, b: seq<seq<byte>>, c: seq<seq<byte>>, limit: nat)
    ensures Joined(a + (b + c)) == Joined(a) + (Joined(b) + Joined(c))
    ensures Reads(a, limit) && Reads(b, limit) && Reads(c, limit) ==> Reads(a + (b + c), limit)
  {
    hide Joined;
    JoinedConcat(a, b + c);
    JoinedConcat(b, c);
  }

  lemma FeedThreefold(o: Options, p: Progress, a: seq<seq<byte>>, b: seq<seq<byte>>, c: seq<seq<byte>>)
    ensures Feed(o, p, a + (b + c)) == Feed(o, Feed(o, Feed(o, p, a), b), c)
  {
    hide Feed;
    FeedConcat(o, p, a, b + c);
    FeedConcat(o, Feed(o, p, a), b, c);
  }

  lemma JoinedParts(s: seq<byte>, h: nat, n: nat)
    requires HEADER_SIZE <= n && h + n <= |s|
    ensures var y := s[h..];
            && Joined([y[..n]]) == y[..n] && Joined([y[..HEADER_SIZE], y[HEADER_SIZE..n]]) == y[..n]
            && s[..h] + (y[..n] + y[n..]) == s
  {
    var y := s[h..];
    var parts := [y[..HEADER_SIZE], y[HEADER_SIZE..n]];
    var last := [y[HEADER_SIZE..n]];
    assert parts[1..] == last && |last[1..]| == 0 && |[y[..n]][1..]| == 0;
    assert y[..HEADER_SIZE] + (y[HEADER_SIZE..n] + []) == y[..n];
  }

  // ---------------------------------------------------------------- the smallest count

  /** Draining before the rest has arrived never counts fewer failures. */
  lemma {:induction false} EarlyIsNotFewer(o: Options, p: Progress, t: seq<byte>)
    ensures AtOnce(o, Drain(o, p), Drain(o, p).buffer + t) >= AtOnce(o, p, p.buffer + t)
    decreases |p.buffer|
  {
    hide Advance, Judged, Drain, Hopeless;
    var b := p.buffer;
    DrainAdvances(o, p, b);
    if Advance(o.size, b) > 0 {
      AdvanceIsStable(o, p, b, t);
      DrainAdvances(o, p, b + t);
      EarlyIsNotFewer(o, Judged(o, p, b).(buffer := b[Advance(o.size, b)..]), t);
    } else if Hopeless(b) {
      KeepingIsNotFewer(o, p, t);
    }
  }

  lemma KeepingIsNotFewer(o: Options, p: Progress, t: seq<byte>)
    requires Hopeless(p.buffer)
    ensures AtOnce(o, p.(failures := p.failures + 1), p.buffer[|p.buffer| - 3..] + t) >= AtOnce(o, p, p.buffer + t)
  {
    hide Drain, HeadOf, FindMagic;
    var b, q := p.buffer, p.(failures := p.failures + 1);
    var s, k := b + t, |b| - 3;
    var at := FindMagic(s, 1);
    assert s[..4] == b[..4];
    MagicIsStable(b, t, 1);
    DropOfConcat(b, t, k);
    if k < at && k + HEADER_SIZE <= |s| {
      RunAgain(o, p, s, k);
    } else {
      NoMagicIsStray(o.size, s);
      DrainAdvances(o, p, s);
      if k < at {
        ShortStays(o.size, s[k..]);
        ShortStays(o.size, s[at..]);
        DrainAdvances(o, q, s[k..]);
        DrainAdvances(o, q, s[at..]);
      }
    }
  }

  /** However the reads cut a stream, they count at least what one read would have counted. */
  lemma {:induction false} AtOnceIsFewest(o: Options, p: Progress, chunks: seq<seq<byte>>)
    requires Drain(o, p) == p
    ensures Feed(o, p, chunks).failures >= AtOnce(o, p, p.buffer + Joined(chunks))
    decreases |chunks|
  {
    hide Drain;
    if chunks == [] {
      assert p.buffer + [] == p.buffer;
    } else {
      var start, rest := p.(buffer := p.buffer + chunks[0]), Joined(chunks[1..]);
      Associative(p.buffer, chunks[0], rest);
      EarlyIsNotFewer(o, start, rest);
      DrainStops(o, start);
      AtOnceIsFewest(o, Drain(o, start), chunks[1..]);
    }
  }

  // ---------------------------------------------------------------- the condition is exact

  /** Every two ways of cutting the stream count the same number of failures. */
  ghost predicate CutsAgree(o: Options, seen: seq<bool>, s: seq<byte>) {
    forall one, two :: Joined(one) == s && Joined(two) == s ==>
      Feed(o, Fresh(seen), one).failures == Feed(o, Fresh(seen), two).failures
  }

  /** The failure counter is independent of the reads for the steady streams and for no others. */
  lemma SteadyIsExact(o: Options, seen: seq<bool>, s: seq<byte>)
    ensures Steady(o.size, s) <==> CutsAgree(o, seen, s)
  {
    hide Steady, Feed, Drain;
    var p := Fresh(seen);
    if Steady(o.size, s) {
      forall chunks | Joined(chunks) == s ensures Feed(o, p, chunks).failures == AtOnce(o, p, s) {
        StartsEmpty(o, seen, s);
        SteadyCount(o, p, chunks);
      }
    } else {
      var n := UnsteadyCut(o, p, s);
      TwoReads(o, p, s, n);
    }
  }

  /** Every two ways of reading the stream with reads of at most `limit` bytes count the same number of failures. */
  ghost predicate ReadsAgree(o: Options, seen: seq<bool>, s: seq<byte>, limit: nat) {
    forall one, two :: Reads(one, limit) && Reads(two, limit) && Joined(one) == s && Joined(two) == s ==>
      Feed(o, Fresh(seen), one).failures == Feed(o, Fresh(seen), two).failures
  }

  /** The same holds of reads that are limited to READ_CHUNK_SIZE bytes, or to any size from 37 bytes up. */
  lemma SteadyIsExactForReads(o: Options, seen: seq<bool>, s: seq<byte>, limit: nat)
    requires KEPT_FROM + HEADER_SIZE <= limit
    ensures Steady(o.size, s) <==> ReadsAgree(o, seen, s, limit)
    ensures Steady(o.size, s) <==> ReadsAgree(o, seen, s, READ_CHUNK_SIZE)
  {
    hide Steady, Feed, Reads;
    SteadyIsExact(o, seen, s);
    if !Steady(o.size, s) {
      var _, _ := UnsteadyReads(o, seen, s, limit);
      var _, _ := UnsteadyReads(o, seen, s, READ_CHUNK_SIZE);
    }
  }

  lemma StartsEmpty(o: Options, seen: seq<bool>, s: seq<byte>)
    ensures Drain(o, Fresh(seen)) == Fresh(seen) && Fresh(seen).buffer + s == s
  {
  }

  lemma TwoReads(o: Options, p: Progress, s: seq<byte>, n: nat)
    requires n <= |s| && p.buffer == []
    ensures Joined([s]) == s && Joined([s[..n], s[n..]]) == s
    ensures Feed(o, p, [s]).failures == AtOnce(o, p, s)
    ensures var r := Drain(o, p.(buffer := s[..n]));
            Feed(o, p, [s[..n], s[n..]]).failures == AtOnce(o, r, r.buffer + s[n..])
  {
    hide Drain;
    assert [] + s == s && [] + s[..n] == s[..n];
    assert [s[..n], s[n..]][1..] == [s[n..]];
    OneRead(o, p, s);
    OneRead(o, Append(o, p, s[..n]), s[n..]);
  }
}
