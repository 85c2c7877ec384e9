/** Every run of the step system is a run of one sequential queue, in mutex order, and no byte is lost or
    counted twice. */
module Refinement {
  import opened Bytes
  import opened Serial
  import opened Protocol
  import W = Wakeups

  /** The queue as the log describes it, given what the owner of the mutex has moved but not yet logged. */
  predicate Explains(q: Queue, logged: Queue, th: Thread) {
    match th
    case Copying(ReadCall(count, _), moved, failed) =>
      && logged == q.(bytes := moved + q.bytes) && logged.bytes != [] && 0 < count
      && |moved| <= count && (failed ==> |moved| < Min(count, |logged.bytes|))
    case Copying(WriteCall(request, _), moved, failed) =>
      && logged == q.(bytes := logged.bytes) && q.bytes == logged.bytes + moved && !q.closing
      && |moved| <= |request| && moved == request[..|moved|] && 0 < logged.Space() && request != []
      && |moved| <= logged.Space() && (failed ==> |moved| < Min(|request|, logged.Space()))
    case _ => logged == q
  }

  /** The thread whose unlogged moves separate the device from the log. */
  function Owner(s: State): (r: Thread) {
    if s.owner.Some? && s.owner.value < |s.threads| then s.threads[s.owner.value] else Idle
  }

  predicate LogInv(start: Queue, s: State) {
    Explained(start, s.log) && Explains(s.q, Replay(start, s.log), Owner(s))
  }

  predicate CallInv(s: State) {
    forall t :: 0 <= t < |s.threads| ==> CallValid(s.threads[t])
  }

  predicate CallValid(th: Thread) {
    (th.Locking? || th.Deciding? || Waits(th) || th.Copying? ==> Nonempty(th.call)) && W.ControlValid(th)
  }

  lemma CallStep(s: State, t: nat, a: Action)
    requires CallInv(s) && Enables(s, t, a)
    ensures CallInv(Do(s, t, a))
  {
    var r := Do(s, t, a);
    assert CallValid(s.threads[t]);
    forall u | 0 <= u < |r.threads| ensures CallValid(r.threads[u]) {
      assert CallValid(s.threads[u]);
    }
  }

  // ---------------------------------------------------------------- one step against the log

  lemma DecideStep(start: Queue, s: State, t: nat)
    requires LogInv(start, s) && LockInv(s) && CallInv(s) && s.q.Valid() && Enables(s, t, Decide)
    ensures LogInv(start, Do(s, t, Decide))
  {
    hide Explained, Replay;
    var c, r := s.threads[t].call, Do(s, t, Decide);
    assert Owner(s) == s.threads[t] && CallValid(s.threads[t]);
    if r.log != s.log {
      ExplainedSnoc(start, s.log, r.log[|s.log|]);
    } else if c.ReadCall? {
      assert [] + s.q.bytes == s.q.bytes;
    } else {
      assert s.q.bytes + [] == s.q.bytes;
    }
  }

  /** Moving `n` more bytes keeps the explanation, whichever way they go. */
  lemma MoveOut(q: Queue, logged: Queue, count: nat, nb: bool, moved: seq<byte>, n: nat, failed: bool)
    requires Explains(q, logged, Copying(ReadCall(count, nb), moved, false))
    requires n <= Min(count - |moved|, |q.bytes|) && (failed ==> n < Min(count - |moved|, |q.bytes|))
    ensures Explains(q.(bytes := q.bytes[n..]), logged, Copying(ReadCall(count, nb), moved + q.bytes[..n], failed))
  {
    assert (moved + q.bytes[..n]) + q.bytes[n..] == moved + q.bytes;
  }

  lemma MoveIn(q: Queue, logged: Queue, request: seq<byte>, nb: bool, moved: seq<byte>, n: nat, failed: bool)
    requires Explains(q, logged, Copying(WriteCall(request, nb), moved, false))
    requires n <= Min(|request| - |moved|, q.Space()) && (failed ==> n < Min(|request| - |moved|, q.Space()))
    ensures var part := request[|moved|..|moved| + n];
            Explains(q.(bytes := q.bytes + part), logged, Copying(WriteCall(request, nb), moved + part, failed))
  {
    var part := request[|moved|..|moved| + n];
    assert request[..|moved| + n] == request[..|moved|] + part;
    assert (logged.bytes + moved) + part == logged.bytes + (moved + part);
  }

  lemma CopyStep(start: Queue, s: State, t: nat, chunk: nat, missing: nat)
    requires LogInv(start, s) && LockInv(s) && Enables(s, t, CopySpan(chunk, missing))
    ensures LogInv(start, Do(s, t, CopySpan(chunk, missing)))
  {
    hide Explained, Replay, Explains;
    var r := Do(s, t, CopySpan(chunk, missing));
    var th, n := s.threads[t], chunk - missing;
    assert Owner(s) == th && Owner(r) == r.threads[t];
    match th.call
    case ReadCall(count, nb) => MoveOut(s.q, Replay(start, s.log), count, nb, th.moved, n, missing > 0);
    case WriteCall(request, nb) => MoveIn(s.q, Replay(start, s.log), request, nb, th.moved, n, missing > 0);
  }

  lemma FinishStep(start: Queue, s: State, t: nat)
    requires LogInv(start, s) && LockInv(s) && s.q.Valid() && Enables(s, t, Finish)
    ensures LogInv(start, Do(s, t, Finish))
  {
    hide Explained, Replay;
    var r, th := Do(s, t, Finish), s.threads[t];
    var logged, e := Replay(start, s.log), FinishEvent(th.call, th.moved, th.failed);
    assert Owner(s) == th;
    if th.call.ReadCall? {
      assert logged.bytes[..|th.moved|] == th.moved && logged.bytes[|th.moved|..] == s.q.bytes;
    }
    ExplainedSnoc(start, s.log, e);
  }

  lemma ChangeStep(start: Queue, s: State, t: nat, granted: bool)
    requires LogInv(start, s) && LockInv(s) && CallInv(s) && Enables(s, t, Change(granted))
    ensures LogInv(start, Do(s, t, Change(granted)))
  {
    hide Explained, Replay;
    var r := Do(s, t, Change(granted));
    assert Owner(s) == s.threads[t] && CallValid(s.threads[t]);
    var e := r.log[|s.log|];
    assert Replay(start, s.log) == s.q && Permitted(s.q, e) && After(s.q, e) == r.q;
    ExplainedSnoc(start, s.log, e);
    assert !Owner(r).Copying?;
  }

  /** The other steps touch neither the queue nor the log. */
  lemma QuietStep(start: Queue, s: State, t: nat, a: Action)
    requires LogInv(start, s) && LockInv(s) && Enables(s, t, a)
    requires a != Decide && !a.CopySpan? && a != Finish && !a.Change?
    ensures LogInv(start, Do(s, t, a))
  {
    var r := Do(s, t, a);
    assert r.log == s.log && r.q == s.q;
    LockStep(s, t, a);
    if s.owner.Some? && s.owner.value < |s.threads| {
      var o := s.owner.value;
      assert InSection(s.threads[o]);
      assert o != t ==> r.threads[o] == s.threads[o];
    }
  }

  lemma LogStep(start: Queue, s: State, t: nat, a: Action)
    requires LogInv(start, s) && LockInv(s) && CallInv(s) && s.q.Valid() && Enables(s, t, a)
    ensures LogInv(start, Do(s, t, a))
  {
    match a
    case Decide => DecideStep(start, s, t);
    case CopySpan(chunk, missing) => CopyStep(start, s, t, chunk, missing);
    case Finish => FinishStep(start, s, t);
    case Change(granted) => ChangeStep(start, s, t, granted);
    case _ => QuietStep(start, s, t, a);
  }

  /** What every step keeps of the driver, the byte counters aside. */
  ghost predicate Sound(start: Queue, s: State) {
    W.Inv(s) && LogInv(start, s) && CallInv(s)
  }

  lemma SoundInit(s: State)
    requires Init(s)
    ensures Sound(s.q, s)
  {
  }

  lemma SoundStep(start: Queue, s: State, t: nat, a: Action)
    requires Sound(start, s) && Enables(s, t, a)
    ensures Sound(start, Do(s, t, a))
  {
    hide Do, Enables, LogInv, CallInv;
    W.StepInv(s, t, a);
    LogStep(start, s, t, a);
    CallStep(s, t, a);
  }

  // ---------------------------------------------------------------- counters

  /** Bytes a thread has moved on one side and not yet added to the total. */
  function Unadded(th: Thread, side: Side): (r: nat) {
    match th
    case Copying(call, moved, _) => if SideOf(call) == side then |moved| else 0
    case Adding(from, n) => if from == side then n else 0
    case _ => 0
  }

  function Pending(threads: seq<Thread>, side: Side): (r: nat) {
    if threads == [] then 0
    else Pending(threads[..|threads| - 1], side) + Unadded(threads[|threads| - 1], side)
  }

  lemma {:induction false} PendingUpdate(threads: seq<Thread>, t: nat, th: Thread, side: Side)
    requires t < |threads|
    ensures Pending(threads[t := th], side) + Unadded(threads[t], side) == Pending(threads, side) + Unadded(th, side)
  {
    var n := |threads| - 1;
    if t == n {
      assert threads[t := th][..n] == threads[..n];
    } else {
      assert threads[t := th][..n] == threads[..n][t := th];
      PendingUpdate(threads[..n], t, th, side);
    }
  }

  lemma {:induction false} PendingSame(a: seq<Thread>, b: seq<Thread>, side: Side)
    requires |a| == |b| && forall t :: 0 <= t < |a| ==> Unadded(a[t], side) == Unadded(b[t], side)
    ensures Pending(a, side) == Pending(b, side)
  {
    if a == [] {
    } else {
      PendingSame(a[..|a| - 1], b[..|b| - 1], side);
    }
  }

  /** Everything written is read, cleared or stored, once the bytes still to be counted are counted. */
  predicate CountInv(s: State) {
    s.totalWritten + s.lostWritten + Pending(s.threads, Writer)
    == s.totalRead + s.lostRead + Pending(s.threads, Reader) + s.cleared + |s.q.bytes|
  }

  lemma CountStep(s: State, t: nat, a: Action)
    requires CountInv(s) && Enables(s, t, a)
    ensures CountInv(Do(s, t, a))
  {
    hide Pending;
    var r := Do(s, t, a);
    if a == WakeUp && s.threads[t].sides != [] {
      PendingSame(r.threads, s.threads, Reader);
      PendingSame(r.threads, s.threads, Writer);
    } else {
      assert r.threads == s.threads[t := r.threads[t]];
      PendingUpdate(s.threads, t, r.threads[t], Reader);
      PendingUpdate(s.threads, t, r.threads[t], Writer);
      Balance(s, t, a);
    }
  }

  /** What a step adds to one side of the account it adds to the other. */
  lemma Balance(s: State, t: nat, a: Action)
    requires Enables(s, t, a) && (a == WakeUp ==> s.threads[t].sides == [])
    ensures var r := Do(s, t, a);
            (r.totalWritten + r.lostWritten + Unadded(r.threads[t], Writer))
            - (s.totalWritten + s.lostWritten + Unadded(s.threads[t], Writer))
            == (r.totalRead + r.lostRead + Unadded(r.threads[t], Reader) + r.cleared + |r.q.bytes|)
            - (s.totalRead + s.lostRead + Unadded(s.threads[t], Reader) + s.cleared + |s.q.bytes|)
  {
  }

  // ---------------------------------------------------------------- every run

  lemma {:induction false} InitPending(threads: seq<Thread>, side: Side)
    requires forall t :: 0 <= t < |threads| ==> threads[t] == Idle
    ensures Pending(threads, side) == 0
  {
    if threads == [] {
    } else {
      InitPending(threads[..|threads| - 1], side);
    }
  }

  lemma {:induction false} RunInv(states: seq<State>, steps: seq<Step>, k: nat)
    requires Run(states, steps) && k < |states|
    ensures LogInv(states[0].q, states[k]) && CallInv(states[k]) && CountInv(states[k])
  {
    if k == 0 {
      InitPending(states[0].threads, Reader);
      InitPending(states[0].threads, Writer);
    } else {
      var s, t, a := states[k - 1], steps[k - 1].thread, steps[k - 1].action;
      RunInv(states, steps, k - 1);
      W.RunInv(states, steps, k - 1);
      LogStep(states[0].q, s, t, a);
      CallStep(s, t, a);
      CountStep(s, t, a);
    }
  }

  /** Whenever the mutex is free, the device is what a sequential queue is after the logged events, all of
      them permitted; bytes come out in the order they went in. */
  lemma EveryRunIsSequential(states: seq<State>, steps: seq<Step>, k: nat)
    requires Run(states, steps) && k < |states| && states[k].owner == None
    ensures Explained(states[0].q, states[k].log) && Replay(states[0].q, states[k].log) == states[k].q
    ensures Accepted(states[k].log) == Delivered(states[k].log) + states[k].q.bytes
  {
    RunInv(states, steps, k);
    FifoLaw(states[0].q, states[k].log);
  }

  /** RESET_STATS of one side sets its visible total to zero and remembers what it forgets; the other total, the queue,
      the log and everybody's place stay as they are. */
  lemma ResetForgetsOneTotal(s: State, t: nat, side: Side)
    requires Enables(s, t, ResetTotal(side))
    ensures var r := Do(s, t, ResetTotal(side));
            && r.totalRead == (if side == Reader then 0 else s.totalRead)
            && r.totalWritten == (if side == Writer then 0 else s.totalWritten)
            && r.totalRead + r.lostRead == s.totalRead + s.lostRead
            && r.totalWritten + r.lostWritten == s.totalWritten + s.lostWritten
            && r.q == s.q && r.log == s.log && r.threads == s.threads && r.owner == s.owner
            && r.generation == s.generation && r.cleared == s.cleared
  {
  }

  /** Without RESET_STATS the visible totals account for every stored byte. */
  lemma TotalsAccountForBytes(states: seq<State>, steps: seq<Step>, k: nat)
    requires Run(states, steps) && k < |states|
    requires forall j :: 0 <= j < k ==> !steps[j].action.ResetTotal?
    ensures var s := states[k];
            s.totalWritten + Pending(s.threads, Writer) - (s.totalRead + Pending(s.threads, Reader)) - s.cleared
            == |s.q.bytes|
  {
    RunInv(states, steps, k);
    NothingLost(states, steps, k);
  }

  lemma {:induction false} NothingLost(states: seq<State>, steps: seq<Step>, k: nat)
    requires Run(states, steps) && k < |states|
    requires forall j :: 0 <= j < k ==> !steps[j].action.ResetTotal?
    ensures states[k].lostRead == states[k].lostWritten == 0
  {
    if k == 0 {
    } else {
      NothingLost(states, steps, k - 1);
    }
  }
}
