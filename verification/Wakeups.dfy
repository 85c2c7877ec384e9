/** No lost wake-up: whatever a sleeping thread waits for, once it is there some thread owes it a wake-up. */
module Wakeups {
  import opened Limits
  import opened Serial
  import opened Protocol

  /** The thread has changed the device, or is in the middle of it, and will wake the queue of `side`. */
  predicate OwesWake(th: Thread, side: Side) {
    match th
    case Copying(call, moved, _) => moved != [] && side == Other(SideOf(call))
    case Adding(from, _) => side == Other(from)
    case Waking(sides) => side in sides
    case CtlChanged => true
    case CtlBumped => true
    case _ => false
  }

  ghost predicate Owed(threads: seq<Thread>, side: Side) {
    exists u :: 0 <= u < |threads| && OwesWake(threads[u], side)
  }

  /** The condition a waiter sleeps on. */
  predicate WaitCondition(q: Queue, generation: nat, side: Side, seen: nat) {
    q.closing || (if side == Reader then q.bytes != [] else q.capacity > |q.bytes|) || generation != seen
  }

  /** Some value that a probe relied on to call the condition false has changed for the better. */
  predicate Stale(q: Queue, p: Probe) {
    match p
    case Start => false
    case SawOpen => q.closing
    case SawEmpty => q.closing || q.bytes != []
    case SawCapacity(capacity) => q.capacity > capacity
    case SawStored(capacity, stored) => q.capacity > capacity || |q.bytes| < stored
    case SawFull(capacity, stored) => q.closing || capacity > stored || q.capacity > capacity || |q.bytes| < stored
  }

  /** Probes go with the side whose condition they read. */
  predicate ProbeFits(c: Call, p: Probe) {
    match p
    case Start => true
    case SawOpen => c.ReadCall?
    case SawEmpty => c.ReadCall?
    case _ => c.WriteCall?
  }

  /** A waiter on the queue that nobody has woken although there is something to see. */
  predicate Uneasy(q: Queue, generation: nat, th: Thread) {
    match th
    case Asleep(call, seen) => WaitCondition(q, generation, SideOf(call), seen)
    case Testing(call, _, queued, woken, probe) => queued && !woken && Stale(q, probe)
    case _ => false
  }

  ghost predicate WakeInv(s: State) {
    forall t :: 0 <= t < |s.threads| && Uneasy(s.q, s.generation, s.threads[t]) ==>
      Owed(s.threads, SideOf(s.threads[t].call))
  }

  /** Capacities are range-checked before the mutex is taken. */
  predicate ControlInv(s: State) {
    forall t :: 0 <= t < |s.threads| ==> ControlValid(s.threads[t])
  }

  predicate ControlValid(th: Thread) {
    (th.CtlLocking? || th.CtlHolding?) && th.control.Resize? ==> CapacityValid(th.control.requested)
  }

  /** Waiters belong to blocking calls and have seen no generation from the future. */
  predicate WaiterInv(s: State) {
    forall t :: 0 <= t < |s.threads| && Waits(s.threads[t]) ==>
      && s.threads[t].seen <= s.generation && !s.threads[t].call.fileNonblock
      && (s.threads[t].Testing? ==> ProbeFits(s.threads[t].call, s.threads[t].probe))
  }

  /** A waiter that has seen the current generation decided to wait under the current mode, unless a mode
      change is in progress. */
  ghost predicate ModeInv(s: State) {
    s.q.nonblock && (exists t :: 0 <= t < |s.threads| && Current(s, t)) ==>
      exists u :: 0 <= u < |s.threads| && s.threads[u] == CtlChanged
  }

  ghost predicate Inv(s: State) {
    LockInv(s) && s.q.Valid() && ControlInv(s) && WaiterInv(s) && ModeInv(s) && WakeInv(s)
  }

  lemma InitInv(s: State)
    requires Init(s)
    ensures Inv(s)
  {
  }

  lemma WaiterStep(s: State, t: nat, a: Action)
    requires WaiterInv(s) && Enables(s, t, a)
    ensures WaiterInv(Do(s, t, a))
  {
    var r := Do(s, t, a);
    forall u | 0 <= u < |r.threads| && Waits(r.threads[u])
      ensures r.threads[u].seen <= r.generation && !r.threads[u].call.fileNonblock
      ensures r.threads[u].Testing? ==> ProbeFits(r.threads[u].call, r.threads[u].probe)
    {
      if u != t {
        assert Waits(s.threads[u]);
      }
    }
  }

  lemma QueueStep(s: State, t: nat, a: Action)
    requires s.q.Valid() && ControlInv(s) && Enables(s, t, a)
    ensures Do(s, t, a).q.Valid() && ControlInv(Do(s, t, a))
  {
    var r := Do(s, t, a);
    assert ControlValid(s.threads[t]);
    forall u | 0 <= u < |r.threads| ensures ControlValid(r.threads[u]) {
      assert ControlValid(s.threads[u]);
    }
  }

  // ---------------------------------------------------------------- the wake-up argument

  /** A thread that owes a wake-up keeps owing it until it performs it. */
  lemma DebtStays(s: State, t: nat, a: Action, side: Side)
    requires Enables(s, t, a) && OwesWake(s.threads[t], side)
    requires a == WakeUp ==> s.threads[t].sides[0] != side
    ensures OwesWake(Do(s, t, a).threads[t], side)
  {
  }

  /** The device has become better for waiters of `side`. */
  predicate Improves(s: State, r: State, side: Side) {
    || (r.q.closing && !s.q.closing)
    || r.generation != s.generation
    || (side == Reader && r.q.bytes != [] && s.q.bytes == [])
    || (side == Writer && (r.q.capacity > s.q.capacity || |r.q.bytes| < |s.q.bytes|))
  }

  /** Whoever improves the device for a side owes it a wake-up from that moment on. */
  lemma ImprovementIsOwed(s: State, t: nat, a: Action, side: Side)
    requires Enables(s, t, a) && Improves(s, Do(s, t, a), side)
    ensures OwesWake(Do(s, t, a).threads[t], side)
  {
  }

  /** Without an improvement nobody becomes uneasy. */
  lemma NoImprovementNoUnease(s: State, r: State, th: Thread)
    requires Waits(th) && !Improves(s, r, SideOf(th.call)) && Uneasy(r.q, r.generation, th)
    requires th.Testing? ==> ProbeFits(th.call, th.probe)
    ensures Uneasy(s.q, s.generation, th)
  {
  }

  /** Reading one more field leaves a thread uneasy only if it was so before. */
  lemma ReadingKeepsEase(s: State, t: nat)
    requires Enables(s, t, ReadField) && ProbeFits(s.threads[t].call, s.threads[t].probe)
    requires Uneasy(s.q, s.generation, Do(s, t, ReadField).threads[t])
    ensures Uneasy(s.q, s.generation, s.threads[t])
  {
  }

  lemma OwedBy(threads: seq<Thread>, u: nat, side: Side)
    requires u < |threads| && OwesWake(threads[u], side)
    ensures Owed(threads, side)
  {
  }

  /** A debt to a side survives every step but the wake-up of that side. */
  lemma DebtsSurvive(s: State, t: nat, a: Action, side: Side)
    requires Enables(s, t, a) && Owed(s.threads, side)
    requires a == WakeUp && s.threads[t].sides != [] ==> s.threads[t].sides[0] != side
    ensures Owed(Do(s, t, a).threads, side)
  {
    var u :| 0 <= u < |s.threads| && OwesWake(s.threads[u], side);
    var r := Do(s, t, a);
    if u == t {
      DebtStays(s, t, a, side);
    } else {
      assert r.threads[u] == s.threads[u];
    }
    OwedBy(r.threads, u, side);
  }

  lemma WakeStep(s: State, t: nat, a: Action)
    requires WakeInv(s) && WaiterInv(s) && Enables(s, t, a)
    ensures WakeInv(Do(s, t, a))
  {
    var r := Do(s, t, a);
    forall u | 0 <= u < |r.threads| && Uneasy(r.q, r.generation, r.threads[u])
      ensures Owed(r.threads, SideOf(r.threads[u].call))
    {
      WakeStepAt(s, t, a, u);
    }
  }

  lemma WakeStepAt(s: State, t: nat, a: Action, u: nat)
    requires WakeInv(s) && WaiterInv(s) && Enables(s, t, a) && u < |s.threads|
    requires var r := Do(s, t, a); Uneasy(r.q, r.generation, r.threads[u])
    ensures var r := Do(s, t, a); Owed(r.threads, SideOf(r.threads[u].call))
  {
    var r := Do(s, t, a);
    var side := SideOf(r.threads[u].call);
    if Improves(s, r, side) {
      ImprovementIsOwed(s, t, a, side);
      OwedBy(r.threads, t, side);
    } else {
      if u == t {
        UneasyActor(s, t, a);
      } else {
        UneasyBystander(s, t, a, u);
      }
      DebtsSurvive(s, t, a, side);
    }
  }

  lemma UneasyActor(s: State, t: nat, a: Action)
    requires WakeInv(s) && WaiterInv(s) && Enables(s, t, a)
    requires var r := Do(s, t, a); Uneasy(r.q, r.generation, r.threads[t])
    ensures a == ReadField && SideOf(s.threads[t].call) == SideOf(Do(s, t, a).threads[t].call)
    ensures Owed(s.threads, SideOf(s.threads[t].call))
  {
    assert a == ReadField;
    ReadingKeepsEase(s, t);
  }

  /** A thread that waits through somebody else's step unwoken was uneasy before it, on another queue than
      the one being woken. */
  lemma UneasyBystander(s: State, t: nat, a: Action, u: nat)
    requires WakeInv(s) && WaiterInv(s) && Enables(s, t, a) && u < |s.threads| && u != t
    requires var r := Do(s, t, a);
             Uneasy(r.q, r.generation, r.threads[u]) && !Improves(s, r, SideOf(r.threads[u].call))
    ensures SideOf(s.threads[u].call) == SideOf(Do(s, t, a).threads[u].call)
    ensures Owed(s.threads, SideOf(s.threads[u].call))
    ensures a == WakeUp && s.threads[t].sides != [] ==> s.threads[t].sides[0] != SideOf(s.threads[u].call)
  {
    var r := Do(s, t, a);
    if a == WakeUp && s.threads[t].sides != [] {
      assert r.threads[u] == Woken(s.threads[u], s.threads[t].sides[0]);
    }
    assert r.threads[u] == s.threads[u];
    NoImprovementNoUnease(s, r, s.threads[u]);
  }

  // ---------------------------------------------------------------- the mode argument

  predicate Current(s: State, t: nat)
    requires t < |s.threads|
  {
    Waits(s.threads[t]) && s.threads[t].seen == s.generation
  }

  /** Only a readiness check under a blocking mode makes a thread a current waiter. */
  lemma CurrentWasCurrent(s: State, t: nat, a: Action, v: nat)
    requires WaiterInv(s) && Enables(s, t, a) && v < |s.threads| && Current(Do(s, t, a), v)
    ensures a != BumpGeneration
    ensures Current(s, v) || (v == t && a == Decide && !s.q.nonblock)
  {
    var r := Do(s, t, a);
    if v != t {
      assert Waits(s.threads[v]) && r.threads[v].seen == s.threads[v].seen;
    }
  }

  lemma ModeStep(s: State, t: nat, a: Action)
    requires ModeInv(s) && WaiterInv(s) && Enables(s, t, a)
    ensures ModeInv(Do(s, t, a))
  {
    var r := Do(s, t, a);
    if r.q.nonblock && exists v :: 0 <= v < |r.threads| && Current(r, v) {
      var v :| 0 <= v < |r.threads| && Current(r, v);
      CurrentWasCurrent(s, t, a, v);
      if r.threads[t] != CtlChanged {
        assert r.q.nonblock == s.q.nonblock && Current(s, v);
        var u :| 0 <= u < |s.threads| && s.threads[u] == CtlChanged;
        assert u != t && r.threads[u] == CtlChanged;
      }
    }
  }

  // ---------------------------------------------------------------- every run

  lemma StepInv(s: State, t: nat, a: Action)
    requires Inv(s) && Enables(s, t, a)
    ensures Inv(Do(s, t, a))
  {
    LockStep(s, t, a);
    WaiterStep(s, t, a);
    QueueStep(s, t, a);
    WakeStep(s, t, a);
    ModeStep(s, t, a);
  }

  lemma {:induction false} RunInv(states: seq<State>, steps: seq<Step>, k: nat)
    requires Run(states, steps) && k < |states|
    ensures Inv(states[k])
  {
    if k == 0 {
      InitInv(states[0]);
    } else {
      RunInv(states, steps, k - 1);
      StepInv(states[k - 1], steps[k - 1].thread, steps[k - 1].action);
    }
  }

  /** In every state of every run, a thread asleep although its wait condition holds coexists with a thread
      that has made the change and still owes the wake-up of that queue. */
  lemma NoLostWakeup(states: seq<State>, steps: seq<Step>, k: nat, t: nat)
    requires Run(states, steps) && k < |states| && t < |states[k].threads| && states[k].threads[t].Asleep?
    requires var s := states[k];
             WaitCondition(s.q, s.generation, SideOf(s.threads[t].call), s.threads[t].seen)
    ensures Owed(states[k].threads, SideOf(states[k].threads[t].call))
  {
    RunInv(states, steps, k);
    assert Uneasy(states[k].q, states[k].generation, states[k].threads[t]);
  }

  /** No wake-up is pending anywhere. */
  ghost predicate Settled(s: State) {
    forall u, side :: 0 <= u < |s.threads| ==> !OwesWake(s.threads[u], side)
  }

  predicate AsleepOn(s: State, t: nat, side: Side) {
    t < |s.threads| && s.threads[t].Asleep? && SideOf(s.threads[t].call) == side
  }

  /** Once no wake-up is owed: no reader sleeps over stored bytes, no writer over free space, nobody under
      the global NONBLOCK mode or after shutdown, and readers and writers are never asleep together. */
  lemma SettledSleepers(states: seq<State>, steps: seq<Step>, k: nat, t: nat, side: Side)
    requires Run(states, steps) && k < |states| && Settled(states[k]) && AsleepOn(states[k], t, side)
    ensures var q := states[k].q;
            && (side == Reader ==> q.bytes == [])
            && (side == Writer ==> |q.bytes| == q.capacity)
            && !q.nonblock && !q.closing
    ensures forall u: nat :: !AsleepOn(states[k], u, Other(side))
  {
    var s := states[k];
    RunInv(states, steps, k);
    SleeperIsJustified(s, t);
    forall u: nat ensures !AsleepOn(s, u, Other(side)) {
      if u < |s.threads| && s.threads[u].Asleep? {
        SleeperIsJustified(s, u);
      }
    }
  }

  lemma SettledOwesNothing(s: State, side: Side)
    requires Settled(s)
    ensures !Owed(s.threads, side)
    ensures forall u :: 0 <= u < |s.threads| ==> s.threads[u] != CtlChanged
  {
    assert forall u :: 0 <= u < |s.threads| ==> !OwesWake(s.threads[u], side);
  }

  lemma SleeperIsJustified(s: State, t: nat)
    requires Inv(s) && Settled(s) && t < |s.threads| && s.threads[t].Asleep?
    ensures !WaitCondition(s.q, s.generation, SideOf(s.threads[t].call), s.threads[t].seen)
    ensures !s.q.nonblock
  {
    SettledOwesNothing(s, SideOf(s.threads[t].call));
    assert !Uneasy(s.q, s.generation, s.threads[t]);
    assert Current(s, t);
  }
}
