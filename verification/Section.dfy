/** The copy loops of `Device` are critical sections of the step system `Protocol`: with the spans the ring buffer
    offers and the same failing copies, the steps move the same bytes and log the event the call reports. */
module Section {
  import opened Bytes
  import opened Protocol
  import Device
  import S = Serial

  ghost predicate Executes(s: State, t: nat, actions: seq<Action>)
    decreases |actions|
  {
    actions != [] ==> Enables(s, t, actions[0]) && Executes(Do(s, t, actions[0]), t, actions[1..])
  }

  ghost function After(s: State, t: nat, actions: seq<Action>): (r: State)
    requires Executes(s, t, actions)
    decreases |actions|
  {
    if actions == [] then s else After(Do(s, t, actions[0]), t, actions[1..])
  }

  /** The copies of one loop: a first span of `first` bytes, then the rest unless a copy fell short. */
  function Copies(fits: nat, first: nat, fault: nat -> nat): (actions: seq<Action>)
    requires first <= fits
  {
    var missing := Min(fault(0), first);
    if missing > 0 || first == fits then [CopySpan(first, missing)]
    else [CopySpan(first, 0), CopySpan(fits - first, Min(fault(1), fits - first))]
  }

  function Whole(fits: nat, first: nat, fault: nat -> nat): (r: seq<Action>)
    requires first <= fits
  {
    [Decide] + Copies(fits, first, fault) + [Finish]
  }

  lemma RunThree(s: State, t: nat, a: Action, b: Action, c: Action)
    requires Enables(s, t, a) && Enables(Do(s, t, a), t, b) && Enables(Do(Do(s, t, a), t, b), t, c)
    ensures Executes(s, t, [a, b, c]) && After(s, t, [a, b, c]) == Do(Do(Do(s, t, a), t, b), t, c)
  {
    hide Do, Enables;
    assert [a, b, c][1..] == [b, c] && [b, c][1..] == [c] && [c][1..] == [];
    var s2 := Do(Do(s, t, a), t, b);
    assert Executes(s2, t, [c]) && After(s2, t, [c]) == Do(s2, t, c);
    assert Executes(Do(s, t, a), t, [b, c]) && After(Do(s, t, a), t, [b, c]) == After(s2, t, [c]);
  }

  lemma RunFour(s: State, t: nat, a: Action, b: Action, c: Action, d: Action)
    requires Enables(s, t, a) && Enables(Do(s, t, a), t, b) && Enables(Do(Do(s, t, a), t, b), t, c)
    requires Enables(Do(Do(Do(s, t, a), t, b), t, c), t, d)
    ensures Executes(s, t, [a, b, c, d]) && After(s, t, [a, b, c, d]) == Do(Do(Do(Do(s, t, a), t, b), t, c), t, d)
  {
    hide Do, Enables;
    RunThree(Do(s, t, a), t, b, c, d);
    assert [a, b, c, d][1..] == [b, c, d];
  }

  // ---------------------------------------------------------------- single steps

  lemma Begin(s: State, t: nat, c: Call)
    requires t < |s.threads| && s.threads[t] == Deciding(c) && Ready(s.q, c)
    requires if c.ReadCall? then s.q.bytes != [] else !s.q.closing
    ensures Enables(s, t, Decide) && Do(s, t, Decide) == s.(threads := s.threads[t := Copying(c, [], false)])
  {
  }

  lemma Copy(s: State, t: nat, c: Call, moved: seq<byte>, chunk: nat, missing: nat)
    requires t < |s.threads| && s.threads[t] == Copying(c, moved, false)
    requires 0 < chunk <= Fits(s.q, c, |moved|) && missing <= chunk
    ensures Enables(s, t, CopySpan(chunk, missing))
    ensures Do(s, t, CopySpan(chunk, missing)) == DoCopySpan(s, t, c, moved, chunk, missing)
  {
  }

  function Left(s: State, t: nat, c: Call, moved: seq<byte>, failed: bool): (r: State)
    requires t < |s.threads|
  {
    s.(owner := None, log := s.log + [FinishEvent(c, moved, failed)],
       threads := s.threads[t := if moved == [] then Idle else Adding(SideOf(c), |moved|)])
  }

  lemma End(s: State, t: nat, c: Call, moved: seq<byte>, failed: bool)
    requires t < |s.threads| && s.threads[t] == Copying(c, moved, failed)
    requires failed || Fits(s.q, c, |moved|) == 0
    ensures Enables(s, t, Finish) && Do(s, t, Finish) == Left(s, t, c, moved, failed)
  {
  }

  lemma Overwrite(threads: seq<Thread>, t: nat, x: Thread, y: Thread)
    requires t < |threads|
    ensures threads[t := x][t := y] == threads[t := y]
  {
  }

  /** What a section looks like after copies that moved `n` bytes in all. */
  function Progress(s: State, t: nat, c: Call, n: nat, failed: bool): (r: State)
    requires t < |s.threads| && n <= Fits(s.q, c, 0)
    ensures |r.threads| == |s.threads| && r.threads[t].Copying? && r.threads[t].call == c
    ensures |r.threads[t].moved| == n && r.threads[t].failed == failed
  {
    var moved := if c.ReadCall? then s.q.bytes[..n] else c.request[..n];
    var rest := if c.ReadCall? then s.q.bytes[n..] else s.q.bytes + moved;
    s.(q := s.q.(bytes := rest), threads := s.threads[t := Copying(c, moved, failed)])
  }

  lemma FirstCopy(s: State, t: nat, c: Call, chunk: nat, missing: nat)
    requires t < |s.threads| && chunk <= Fits(s.q, c, 0) && missing <= chunk
    ensures DoCopySpan(s.(threads := s.threads[t := Copying(c, [], false)]), t, c, [], chunk, missing)
            == Progress(s, t, c, chunk - missing, missing > 0)
  {
    var n := chunk - missing;
    var moved := if c.ReadCall? then s.q.bytes[..n] else c.request[..n];
    assert [] + moved == moved;
    Overwrite(s.threads, t, Copying(c, [], false), Copying(c, moved, missing > 0));
  }

  lemma SecondCopy(s: State, t: nat, c: Call, n: nat, chunk: nat, missing: nat)
    requires t < |s.threads| && n + chunk <= Fits(s.q, c, 0) && missing <= chunk
    ensures chunk <= Fits(Progress(s, t, c, n, false).q, c, n)
    ensures var p := Progress(s, t, c, n, false);
            DoCopySpan(p, t, c, p.threads[t].moved, chunk, missing)
            == Progress(s, t, c, n + chunk - missing, missing > 0)
  {
    if c.ReadCall? {
      SecondRead(s, t, c, n, chunk, missing);
    } else {
      SecondWrite(s, t, c, n, chunk, missing);
    }
  }

  lemma SecondRead(s: State, t: nat, c: Call, n: nat, chunk: nat, missing: nat)
    requires t < |s.threads| && n + chunk <= Fits(s.q, c, 0) && missing <= chunk && c.ReadCall?
    ensures chunk <= Fits(Progress(s, t, c, n, false).q, c, n)
    ensures var p := Progress(s, t, c, n, false);
            DoCopySpan(p, t, c, p.threads[t].moved, chunk, missing)
            == Progress(s, t, c, n + chunk - missing, missing > 0)
  {
    var q, more := s.q.bytes, chunk - missing;
    TwoParts(q, n, more);
    Overwrite(s.threads, t, Copying(c, q[..n], false), Copying(c, q[..n + more], missing > 0));
  }

  lemma SecondWrite(s: State, t: nat, c: Call, n: nat, chunk: nat, missing: nat)
    requires t < |s.threads| && n + chunk <= Fits(s.q, c, 0) && missing <= chunk && c.WriteCall?
    ensures chunk <= Fits(Progress(s, t, c, n, false).q, c, n)
    ensures var p := Progress(s, t, c, n, false);
            DoCopySpan(p, t, c, p.threads[t].moved, chunk, missing)
            == Progress(s, t, c, n + chunk - missing, missing > 0)
  {
    var request, more := c.request, chunk - missing;
    TwoSlices(s.q.bytes, request, n, more);
    Overwrite(s.threads, t, Copying(c, request[..n], false), Copying(c, request[..n + more], missing > 0));
  }

  lemma Finished(s: State, t: nat, c: Call, n: nat, failed: bool)
    requires t < |s.threads| && n <= Fits(s.q, c, 0) && (failed <==> n < Fits(s.q, c, 0))
    ensures failed || Fits(Progress(s, t, c, n, failed).q, c, n) == 0
    ensures var p := Progress(s, t, c, n, failed);
            Left(p, t, c, p.threads[t].moved, failed) == SectionOf(s, t, c, n)
  {
    var p := Progress(s, t, c, n, failed);
    var moved := p.threads[t].moved;
    Overwrite(s.threads, t, p.threads[t], if moved == [] then Idle else Adding(SideOf(c), |moved|));
  }

  // ---------------------------------------------------------------- whole sections

  /** The section of call `c` in state `s` that moves `n` bytes: they leave or enter the queue, one event says so. */
  function SectionOf(s: State, t: nat, c: Call, n: nat): (r: State)
    requires t < |s.threads| && n <= Fits(s.q, c, 0)
  {
    var moved := if c.ReadCall? then s.q.bytes[..n] else c.request[..n];
    var rest := if c.ReadCall? then s.q.bytes[n..] else s.q.bytes + moved;
    Left(s.(q := s.q.(bytes := rest)), t, c, moved, n < Fits(s.q, c, 0))
  }

  /** For every first span and every pattern of failing copies, the step system does in its critical section what the
      copy loops of the device do: `Device.Moves` bytes are moved, and the logged event tells what the call returns. */
  lemma SectionMatchesLoop(s: State, t: nat, c: Call, first: nat, fault: nat -> nat)
    requires t < |s.threads| && s.threads[t] == Deciding(c)
    requires (if c.ReadCall? then s.q.bytes != [] else !s.q.closing) && 0 < first <= Fits(s.q, c, 0)
    ensures var actions := Whole(Fits(s.q, c, 0), first, fault);
            && Executes(s, t, actions)
            && After(s, t, actions) == SectionOf(s, t, c, Device.Moves(Fits(s.q, c, 0), first, fault))
  {
    if Min(fault(0), first) > 0 || first == Fits(s.q, c, 0) {
      OneCopy(s, t, c, first, fault);
    } else {
      TwoCopies(s, t, c, first, fault);
    }
  }

  /** The event that the section logs is the event that the call's outcome stands for. */
  lemma LogsTheOutcome(s: State, t: nat, c: Call, first: nat, fault: nat -> nat, user: seq<byte>)
    requires t < |s.threads| && s.threads[t] == Deciding(c)
    requires (if c.ReadCall? then s.q.bytes != [] else !s.q.closing) && 0 < first <= Fits(s.q, c, 0)
    requires var n := Device.Moves(Fits(s.q, c, 0), first, fault);
             c.ReadCall? ==> n <= |user| && user[..n] == s.q.bytes[..n]
    ensures var fits := Fits(s.q, c, 0);
            var actions, o := Whole(fits, first, fault), Device.Transfer(Device.Moves(fits, first, fault), fits);
            && Executes(s, t, actions) && (c.ReadCall? ==> o.ret <= |user|)
            && After(s, t, actions).log == s.log + [
                 if c.ReadCall? then Device.ReadEvent(c.count, user, c.fileNonblock, o)
                 else Device.WriteEvent(c.request, c.fileNonblock, o)]
  {
    hide Executes, After, Whole;
    SectionMatchesLoop(s, t, c, first, fault);
  }

  /** A section that copies nothing ends with its readiness check: end of file, -EAGAIN and -ENODEV are logged as the
      event that the call's outcome stands for, and a call that waits has seen the generation of this section. */
  lemma DecideLogsTheOutcome(s: State, t: nat, c: Call, user: seq<byte>)
    requires t < |s.threads| && s.threads[t] == Deciding(c)
    requires if c.ReadCall? then s.q.bytes == [] else s.q.closing || s.q.Space() == 0
    ensures Enables(s, t, Decide)
    ensures var r := Do(s, t, Decide);
            var o := if c.ReadCall? then Device.EmptyRead(s.q, c.fileNonblock, s.generation)
                     else Device.BlockedWrite(s.q, c.fileNonblock, s.generation);
            && r.q == s.q && r.owner == None
            && match o
               case Wait(seen) => r.log == s.log && r.threads[t] == Testing(c, seen, false, false, Start)
               case Return(_, _) =>
                 && r.threads[t] == Idle
                 && r.log == s.log + [
                      if c.ReadCall? then Device.ReadEvent(c.count, user, c.fileNonblock, o)
                      else Device.WriteEvent(c.request, c.fileNonblock, o)]
  {
  }

  lemma OneCopy(s: State, t: nat, c: Call, first: nat, fault: nat -> nat)
    requires t < |s.threads| && s.threads[t] == Deciding(c)
    requires (if c.ReadCall? then s.q.bytes != [] else !s.q.closing) && 0 < first <= Fits(s.q, c, 0)
    requires Min(fault(0), first) > 0 || first == Fits(s.q, c, 0)
    ensures var actions := Whole(Fits(s.q, c, 0), first, fault);
            && Executes(s, t, actions)
            && After(s, t, actions) == SectionOf(s, t, c, Device.Moves(Fits(s.q, c, 0), first, fault))
  {
    hide Do, Enables, Executes, After, DoCopySpan, Left, SectionOf;
    var missing := Min(fault(0), first);
    Begin(s, t, c);
    FirstCopy(s, t, c, first, missing);
    Finished(s, t, c, first - missing, missing > 0);
    var s1 := Do(s, t, Decide);
    Copy(s1, t, c, [], first, missing);
    var s2 := Do(s1, t, CopySpan(first, missing));
    End(s2, t, c, s2.threads[t].moved, missing > 0);
    RunThree(s, t, Decide, CopySpan(first, missing), Finish);
    assert Whole(Fits(s.q, c, 0), first, fault) == [Decide, CopySpan(first, missing), Finish];
  }

  lemma TwoCopies(s: State, t: nat, c: Call, first: nat, fault: nat -> nat)
    requires t < |s.threads| && s.threads[t] == Deciding(c)
    requires (if c.ReadCall? then s.q.bytes != [] else !s.q.closing) && 0 < first < Fits(s.q, c, 0)
    requires Min(fault(0), first) == 0
    ensures var actions := Whole(Fits(s.q, c, 0), first, fault);
            && Executes(s, t, actions)
            && After(s, t, actions) == SectionOf(s, t, c, Device.Moves(Fits(s.q, c, 0), first, fault))
  {
    hide Do, Enables, Executes, After, DoCopySpan, Left, SectionOf, Progress;
    var fits := Fits(s.q, c, 0);
    var rest := fits - first;
    var failed := Min(fault(1), rest);
    Begin(s, t, c);
    FirstCopy(s, t, c, first, 0);
    var s1 := Do(s, t, Decide);
    Copy(s1, t, c, [], first, 0);
    SecondSpan(s, t, c, first, failed);
    RunFour(s, t, Decide, CopySpan(first, 0), CopySpan(rest, failed), Finish);
    assert Whole(fits, first, fault) == [Decide, CopySpan(first, 0), CopySpan(rest, failed), Finish];
  }

  /** The second copy of a loop and the end of the section. */
  lemma SecondSpan(s: State, t: nat, c: Call, first: nat, failed: nat)
    requires t < |s.threads| && 0 < first < Fits(s.q, c, 0) && failed <= Fits(s.q, c, 0) - first
    ensures var p := Progress(s, t, c, first, false);
            var last := CopySpan(Fits(s.q, c, 0) - first, failed);
            && Enables(p, t, last) && Enables(Do(p, t, last), t, Finish)
            && Do(Do(p, t, last), t, Finish) == SectionOf(s, t, c, Fits(s.q, c, 0) - failed)
  {
    hide Do, Enables, DoCopySpan, Left, SectionOf, Progress;
    var rest := Fits(s.q, c, 0) - first;
    var p := Progress(s, t, c, first, false);
    SecondCopy(s, t, c, first, rest, failed);
    Copy(p, t, c, p.threads[t].moved, rest, failed);
    var r := Progress(s, t, c, first + rest - failed, failed > 0);
    Finished(s, t, c, first + rest - failed, failed > 0);
    End(r, t, c, r.threads[t].moved, failed > 0);
  }

  lemma TwoParts(q: seq<byte>, a: nat, b: nat)
    requires a + b <= |q|
    ensures q[..a] + q[a..][..b] == q[..a + b] && q[a..][b..] == q[a + b..]
  {
  }

  lemma TwoSlices(q: seq<byte>, request: seq<byte>, a: nat, b: nat)
    requires a + b <= |request|
    ensures request[..a] + request[a..a + b] == request[..a + b]
    ensures q + request[..a] + request[a..a + b] == q + request[..a + b]
  {
  }

  // ---------------------------------------------------------------- every permitted event can happen

  /** The action with which a thread enters the driver so that it may log `e`. */
  function Entrance(e: S.Event): (a: Action) {
    match e
    case ReadDone(count, _, _) => BeginCall(ReadCall(count, true))
    case ReadFault(count) => BeginCall(ReadCall(count, true))
    case ReadAgain(count, nb) => BeginCall(ReadCall(count, nb))
    case ReadEof(count) => BeginCall(ReadCall(count, true))
    case WriteDone(request, _, _) => BeginCall(WriteCall(request, true))
    case WriteFault(request) => BeginCall(WriteCall(request, true))
    case WriteAgain(request, nb) => BeginCall(WriteCall(request, nb))
    case WriteClosed(request) => BeginCall(WriteCall(request, true))
    case Cleared => BeginControl(Clear)
    case Resized(requested) => BeginControl(Resize(requested))
    case ResizeRefused(requested, _) => BeginControl(Resize(requested))
    case ModeSet(nonblocking) => BeginControl(SetMode(nonblocking))
    case Closed => BeginControl(Shutdown)
  }

  /** The call asks for something; empty transfers return before they get to the mutex. */
  predicate Asks(e: S.Event) {
    match Entrance(e)
    case BeginCall(c) => Nonempty(c)
    case _ => true
  }

  /** What the thread does in its critical section to log `e`: one span that falls short where the event says so. */
  function Inside(q: S.Queue, e: S.Event): (actions: seq<Action>)
    requires S.Permitted(q, e) && Asks(e)
  {
    match e
    case ReadDone(count, data, _) =>
      var fits := Min(count, |q.bytes|); [Decide, CopySpan(fits, fits - |data|), Finish]
    case ReadFault(count) => var fits := Min(count, |q.bytes|); [Decide, CopySpan(fits, fits), Finish]
    case WriteDone(request, n, _) =>
      var fits := Min(|request|, q.Space()); [Decide, CopySpan(fits, fits - n), Finish]
    case WriteFault(request) => var fits := Min(|request|, q.Space()); [Decide, CopySpan(fits, fits), Finish]
    case ResizeRefused(_, _) => [Change(false)]
    case Cleared => [Change(true)]
    case Resized(_) => [Change(true)]
    case ModeSet(_) => [Change(true)]
    case Closed => [Change(true)]
    case _ => [Decide]
  }

  lemma RunOne(s: State, t: nat, a: Action)
    requires Enables(s, t, a)
    ensures Executes(s, t, [a]) && After(s, t, [a]) == Do(s, t, a)
  {
    hide Do, Enables;
    assert [a][1..] == [];
  }

  lemma RunFirst(s: State, t: nat, a: Action, rest: seq<Action>)
    requires Enables(s, t, a) && Executes(Do(s, t, a), t, rest)
    ensures Executes(s, t, [a] + rest) && After(s, t, [a] + rest) == After(Do(s, t, a), t, rest)
  {
    hide Do, Enables;
    assert ([a] + rest)[1..] == rest;
  }

  /** The thread has entered and holds the mutex. */
  function Entered(s: State, t: nat, e: S.Event): (r: State)
    requires t < |s.threads|
  {
    s.(owner := Some(t),
       threads := s.threads[t := match Entrance(e)
                                 case BeginCall(c) => Deciding(c)
                                 case BeginControl(control) => CtlHolding(control)
                                 case _ => Idle])
  }

  lemma Enters(s: State, t: nat, e: S.Event)
    requires t < |s.threads| && s.threads[t] == Idle && s.owner == None && S.Permitted(s.q, e) && Asks(e)
    ensures Enables(s, t, Entrance(e)) && Enables(Do(s, t, Entrance(e)), t, Acquire)
    ensures Do(Do(s, t, Entrance(e)), t, Acquire) == Entered(s, t, e)
  {
    var s1 := Do(s, t, Entrance(e));
    Overwrite(s.threads, t, s1.threads[t], Entered(s, t, e).threads[t]);
  }

  predicate Transfers(e: S.Event) {
    e.ReadDone? || e.ReadFault? || e.WriteDone? || e.WriteFault?
  }

  /** How many bytes the event moves. */
  function Amount(e: S.Event): (n: nat) {
    match e
    case ReadDone(_, data, _) => |data|
    case WriteDone(_, n, _) => n
    case _ => 0
  }

  lemma TransferHappens(s: State, t: nat, e: S.Event)
    requires t < |s.threads| && s.q.Valid() && S.Permitted(s.q, e) && Asks(e) && Transfers(e)
    ensures var d := Entered(s, t, e);
            && Executes(d, t, Inside(s.q, e))
            && After(d, t, Inside(s.q, e)).log == s.log + [e] && After(d, t, Inside(s.q, e)).q == S.After(s.q, e)
  {
    hide Do, Enables, Executes, After, Whole, SectionOf, Device.Moves, Entered, S.Permitted, S.After, Inside;
    var d, c := Entered(s, t, e), Entrance(e).call;
    var fits, n := Fits(s.q, c, 0), Amount(e);
    TransferFits(s, t, e);
    var fault: nat -> nat := k => fits - n;
    OneCopy(d, t, c, fits, fault);
    TransferInside(s.q, e, fault);
    TransferEnds(s, t, e);
  }

  lemma TransferFits(s: State, t: nat, e: S.Event)
    requires t < |s.threads| && s.q.Valid() && S.Permitted(s.q, e) && Asks(e) && Transfers(e)
    ensures var d, c := Entered(s, t, e), Entrance(e).call;
            && 0 < Fits(s.q, c, 0) && Amount(e) <= Fits(s.q, c, 0) && d.q == s.q
            && |d.threads| == |s.threads| && d.threads[t] == Deciding(c)
            && if c.ReadCall? then s.q.bytes != [] else !s.q.closing
  {
  }

  lemma TransferInside(q: S.Queue, e: S.Event, fault: nat -> nat)
    requires q.Valid() && S.Permitted(q, e) && Asks(e) && Transfers(e)
    requires var fits := Fits(q, Entrance(e).call, 0); 0 < fits && fault(0) == fits - Amount(e) >= 0
    ensures var fits := Fits(q, Entrance(e).call, 0);
            Whole(fits, fits, fault) == Inside(q, e) && Device.Moves(fits, fits, fault) == Amount(e)
  {
  }

  lemma TransferEnds(s: State, t: nat, e: S.Event)
    requires t < |s.threads| && s.q.Valid() && S.Permitted(s.q, e) && Asks(e) && Transfers(e)
    requires Amount(e) <= Fits(s.q, Entrance(e).call, 0)
    ensures var r := SectionOf(Entered(s, t, e), t, Entrance(e).call, Amount(e));
            r.log == s.log + [e] && r.q == S.After(s.q, e)
  {
  }

  lemma AnswerHappens(s: State, t: nat, e: S.Event)
    requires t < |s.threads| && s.q.Valid() && S.Permitted(s.q, e) && Asks(e) && !Transfers(e)
    ensures var d := Entered(s, t, e);
            && Executes(d, t, Inside(s.q, e))
            && After(d, t, Inside(s.q, e)).log == s.log + [e] && After(d, t, Inside(s.q, e)).q == S.After(s.q, e)
  {
    RunOne(Entered(s, t, e), t, Inside(s.q, e)[0]);
  }

  /** The sequential queue permits nothing that the driver cannot do: whenever the mutex is free, an idle thread can log
      every event that is permitted of a call that asks for something, and leaves the queue that follows it. */
  lemma PermittedHappens(s: State, t: nat, e: S.Event)
    requires t < |s.threads| && s.threads[t] == Idle && s.owner == None && s.q.Valid()
    requires S.Permitted(s.q, e) && Asks(e)
    ensures var actions := [Entrance(e)] + ([Acquire] + Inside(s.q, e));
            && Executes(s, t, actions)
            && After(s, t, actions).log == s.log + [e] && After(s, t, actions).q == S.After(s.q, e)
  {
    hide Do, Enables, S.Permitted, Asks, Inside, Entered;
    Enters(s, t, e);
    if Transfers(e) {
      TransferHappens(s, t, e);
    } else {
      AnswerHappens(s, t, e);
    }
    RunFirst(Do(s, t, Entrance(e)), t, Acquire, Inside(s.q, e));
    RunFirst(s, t, Entrance(e), [Acquire] + Inside(s.q, e));
  }
}
