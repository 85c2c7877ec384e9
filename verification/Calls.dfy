/** What becomes of every system call in kernel/ringbuf_char.c, blocking ones included: it is answered by exactly one
    event or given up to a signal before it did anything, and once the device is ready for it, it finishes. */
module Calls {
  import opened Bytes
  import opened Serial
  import opened Protocol
  import opened Refinement
  import W = Wakeups

  /** What a thread was asked to do: the action with which it entered the driver. */
  predicate Job(a: Action) {
    a.BeginCall? || a.BeginControl?
  }

  /** The thread is somewhere between entering the driver for `job` and the end of its critical section. */
  predicate Engaged(th: Thread, job: Action) {
    match job
    case BeginCall(c) =>
      (th.Locking? || th.Deciding? || th.Preparing? || th.Testing? || th.Asleep? || th.Copying?) && th.call == c
    case BeginControl(control) => (th.CtlLocking? || th.CtlHolding?) && th.control == control
    case _ => false
  }

  /** The event answers the job. */
  predicate Answers(job: Action, e: Event) {
    match job
    case BeginCall(ReadCall(count, nb)) =>
      || (e.ReadDone? && e.count == count && 0 < |e.data| <= count)
      || e == ReadFault(count) || e == ReadAgain(count, nb) || e == ReadEof(count)
    case BeginCall(WriteCall(request, nb)) =>
      || (e.WriteDone? && e.request == request && 0 < e.n <= |request|)
      || e == WriteFault(request) || e == WriteAgain(request, nb) || e == WriteClosed(request)
    case BeginControl(Clear) => e == Cleared
    case BeginControl(Resize(requested)) => e == Resized(requested) || (e.ResizeRefused? && e.requested == requested)
    case BeginControl(SetMode(nonblocking)) => e == ModeSet(nonblocking)
    case BeginControl(Shutdown) => e == Closed
    case _ => false
  }

  predicate LogsOne(s: State, r: State) {
    |r.log| == |s.log| + 1 && r.log[..|s.log|] == s.log
  }

  // ---------------------------------------------------------------- one step

  /** Entering the driver. */
  lemma BeginStep(s: State, t: nat, job: Action)
    requires Enables(s, t, job) && Job(job)
    ensures Engaged(Do(s, t, job).threads[t], job) && Do(s, t, job).log == s.log
  {
  }

  /** The thread that acts goes on with its job, gives it up to a signal with nothing moved, or answers it. */
  lemma ActorStep(start: Queue, s: State, t: nat, a: Action, job: Action)
    requires Sound(start, s) && Enables(s, t, a) && Engaged(s.threads[t], job)
    ensures var r := Do(s, t, a);
            if a == Interrupt then !s.threads[t].Copying? && r == s.(threads := s.threads[t := Idle])
            else if r.log == s.log then Engaged(r.threads[t], job)
            else LogsOne(s, r) && Answers(job, r.log[|s.log|]) && Served(r.threads[t])
  {
    hide Explained, Replay;
    assert InSection(s.threads[t]) ==> Owner(s) == s.threads[t];
  }

  /** Nobody else takes a thread from its job, whoever wakes it. */
  lemma BystanderStep(s: State, t: nat, a: Action, u: nat, job: Action)
    requires Enables(s, t, a) && u < |s.threads| && u != t && Engaged(s.threads[u], job)
    ensures Engaged(Do(s, t, a).threads[u], job)
  {
    if a == WakeUp && s.threads[t].sides != [] {
      assert Do(s, t, a).threads[u] == Woken(s.threads[u], s.threads[t].sides[0]);
    }
  }

  /** Whatever step is made, a thread that has a job keeps it, or the step is its own and it gives the job up to a
      signal with nothing moved, or answers it with the one event that the step logs. */
  lemma EveryStep(start: Queue, s: State, t: nat, a: Action, u: nat, job: Action)
    requires Sound(start, s) && Enables(s, t, a) && u < |s.threads| && Engaged(s.threads[u], job)
    ensures var r := Do(s, t, a);
            || (Engaged(r.threads[u], job) && (u == t ==> r.log == s.log && a != Interrupt))
            || (u == t && a == Interrupt && r == s.(threads := s.threads[u := Idle]) && !s.threads[u].Copying?)
            || (u == t && a != Interrupt && LogsOne(s, r) && Answers(job, r.log[|s.log|]) && Served(r.threads[u]))
  {
    hide Do, Enables, Sound, Answers, LogsOne;
    if u == t {
      ActorStep(start, s, t, a, job);
    } else {
      BystanderStep(s, t, a, u, job);
    }
  }

  /** A thread without a job stays so until it begins one, and whoever else acts. */
  lemma ServedStays(s: State, t: nat, a: Action, u: nat)
    requires Enables(s, t, a) && u < |s.threads| && Served(s.threads[u]) && (u == t ==> !Begins(a))
    ensures Served(Do(s, t, a).threads[u]) && (u == t ==> Do(s, t, a).log == s.log && a != Interrupt)
  {
    hide Do;
    if u == t {
      ServedStep(s, t, a);
    } else {
      OthersStay(s, t, a, u);
    }
  }

  /** A signal ends every wait, for the mutex or in a wait queue, and changes nothing but the thread; whoever holds the
      mutex, or does not wait yet, is not disturbed. */
  lemma SignalsEndWaits(s: State, t: nat)
    requires t < |s.threads| && LockInv(s)
    ensures var th := s.threads[t];
            && (Enables(s, t, Interrupt) <==> th.Locking? || th.Preparing? || th.Asleep? || (th.Testing? && th.queued))
            && (Enables(s, t, Interrupt) ==> s.owner != Some(t) && exists job :: Job(job) && Engaged(th, job))
            && (Enables(s, t, Interrupt) ==>
                  var r := Do(s, t, Interrupt);
                  && r.threads[t] == Idle && r.q == s.q && r.log == s.log && r.generation == s.generation
                  && r.owner == s.owner && forall u :: 0 <= u < |s.threads| && u != t ==> r.threads[u] == s.threads[u])
  {
    if Enables(s, t, Interrupt) {
      assert Engaged(s.threads[t], BeginCall(s.threads[t].call));
    }
  }

  /** The step wakes the queue of this side. */
  predicate WakesQueue(s: State, t: nat, a: Action, side: Side)
    requires t < |s.threads|
  {
    a == WakeUp && s.threads[t].Waking? && s.threads[t].sides != [] && s.threads[t].sides[0] == side
  }

  /** A sleeper goes on just when its own queue is woken, and then tests its condition anew; a waiter that is on the
      queue and not yet asleep remembers such a wake-up. Whatever else others do leaves it where it is. */
  lemma SleepEndsExactly(s: State, t: nat, a: Action, u: nat)
    requires Enables(s, t, a) && u < |s.threads| && u != t && Waits(s.threads[u])
    ensures var th, r := s.threads[u], Do(s, t, a).threads[u];
            if !WakesQueue(s, t, a, SideOf(th.call)) then r == th
            else match th
                 case Asleep(c, seen) => r == Preparing(c, seen)
                 case Testing(c, seen, queued, woken, probe) => r == Testing(c, seen, queued, woken || queued, probe)
                 case _ => r == th
  {
    if a == WakeUp && s.threads[t].sides != [] {
      assert Do(s, t, a).threads[u] == Woken(s.threads[u], s.threads[t].sides[0]);
    }
  }

  /** The wait ends with a reason that was seen, and nobody falls asleep without having enqueued itself, or after a
      wake-up: reading on for bytes, shutdown and a new generation, writing for free space, shutdown and the same. */
  lemma WaitEndsWithReason(s: State, t: nat)
    requires t < |s.threads| && s.threads[t].Testing? && Enables(s, t, ReadField)
    requires W.ProbeFits(s.threads[t].call, s.threads[t].probe)
    ensures var th, r := s.threads[t], Do(s, t, ReadField).threads[t];
            var sawSpace := th.probe.SawStored? && th.probe.capacity > th.probe.stored;
            && (r.Locking? ==>
                  || s.q.closing || s.generation != th.seen || (th.call.ReadCall? && s.q.bytes != []) || sawSpace)
            && (r.Asleep? ==>
                  th.queued && !th.woken && s.generation == th.seen && (th.probe.SawEmpty? || th.probe.SawFull?))
            && (r.Preparing? ==> (!th.queued || th.woken) && s.generation == th.seen)
            && (r.Testing? ==> ToRead(r.probe) < ToRead(th.probe) && r == th.(probe := r.probe))
            && !r.Idle? && Do(s, t, ReadField) == s.(threads := s.threads[t := r])
  {
  }

  // ---------------------------------------------------------------- every run

  /** Thread `u` entered the driver for `job` in step `b` and has begun nothing since, up to state `k`. */
  predicate Began(steps: seq<Step>, u: nat, b: nat, k: nat, job: Action) {
    && b < k <= |steps| && Job(job) && steps[b] == Step(u, job)
    && forall j :: b < j < k && steps[j].thread == u ==> !Begins(steps[j].action)
  }

  /** What the thread has logged in steps `b` to `k - 1`. */
  function LoggedBy(states: seq<State>, steps: seq<Step>, u: nat, b: nat, k: nat): (events: seq<Event>)
    requires |states| == |steps| + 1 && k <= |steps|
    decreases k
  {
    if k <= b then []
    else
      LoggedBy(states, steps, u, b, k - 1)
      + if steps[k - 1].thread == u && |states[k].log| > |states[k - 1].log|
        then states[k].log[|states[k - 1].log|..] else []
  }

  predicate Interrupted(steps: seq<Step>, u: nat, b: nat, k: nat)
    requires k <= |steps|
  {
    exists j :: b <= j < k && steps[j] == Step(u, Interrupt)
  }

  /** What is known about the job in state `k`. */
  predicate Known(states: seq<State>, steps: seq<Step>, u: nat, b: nat, k: nat, job: Action)
    requires |states| == |steps| + 1 && k <= |steps| && u < |states[k].threads|
  {
    var events, th := LoggedBy(states, steps, u, b, k), states[k].threads[u];
    if Engaged(th, job) then events == [] && !Interrupted(steps, u, b, k)
    else Served(th) && if Interrupted(steps, u, b, k) then events == [] else |events| == 1 && Answers(job, events[0])
  }

  /** Every call that was begun is still under way and unanswered, or was given up to a signal and will never be
      answered, or has been answered by exactly one event. */
  lemma {:induction false} OneAnswer(states: seq<State>, steps: seq<Step>, u: nat, b: nat, k: nat, job: Action)
    requires Run(states, steps) && Began(steps, u, b, k, job)
    ensures u < |states[k].threads| && Known(states, steps, u, b, k, job)
    decreases k
  {
    hide Do, Enables, Sound, Engaged, Answers, Served, Begins, Known;
    if k == b + 1 {
      FirstStep(states, steps, u, b, job);
    } else {
      OneAnswer(states, steps, u, b, k - 1, job);
      NextStep(states, steps, u, b, k, job);
    }
  }

  lemma FirstStep(states: seq<State>, steps: seq<Step>, u: nat, b: nat, job: Action)
    requires Run(states, steps) && Began(steps, u, b, b + 1, job)
    ensures u < |states[b + 1].threads| && Known(states, steps, u, b, b + 1, job)
  {
    hide Do, Engaged;
    assert steps[b] == Step(u, job);
    BeginStep(states[b], u, job);
    assert LoggedBy(states, steps, u, b, b) == [];
    assert states[b + 1].log == states[b].log;
  }

  lemma RunSound(states: seq<State>, steps: seq<Step>, k: nat)
    requires Run(states, steps) && k < |states|
    ensures Sound(states[0].q, states[k])
  {
    hide Run;
    Refinement.RunInv(states, steps, k);
    W.RunInv(states, steps, k);
  }

  /** One step more, by whichever thread. */
  lemma NextStep(states: seq<State>, steps: seq<Step>, u: nat, b: nat, k: nat, job: Action)
    requires Run(states, steps) && b + 1 < k <= |steps| && u < |states[k - 1].threads|
    requires steps[k - 1].thread == u ==> !Begins(steps[k - 1].action)
    requires Known(states, steps, u, b, k - 1, job)
    ensures u < |states[k].threads| && Known(states, steps, u, b, k, job)
  {
    hide Do, Enables, Sound, Answers, Begins;
    var s, t, a := states[k - 1], steps[k - 1].thread, steps[k - 1].action;
    var th := s.threads[u];
    RunSound(states, steps, k - 1);
    if Engaged(th, job) {
      EveryStep(states[0].q, s, t, a, u, job);
      assert steps[k - 1] == Step(t, a);
    } else {
      ServedStays(s, t, a, u);
    }
  }

  // ---------------------------------------------------------------- nobody is stuck

  /** What the thread does when it is scheduled, with no signal and no failing user copy. */
  function OwnStep(s: State, t: nat): (a: Action)
    requires t < |s.threads|
  {
    match s.threads[t]
    case Locking(_) => Acquire
    case Deciding(_) => Decide
    case Preparing(_, _) => Prepare
    case Testing(_, _, _, _, _) => ReadField
    case Copying(c, moved, failed) =>
      if failed || Fits(s.q, c, |moved|) <= 0 then Finish else CopySpan(Fits(s.q, c, |moved|), 0)
    case Adding(_, _) => AddTotal
    case Waking(_) => WakeUp
    case CtlLocking(_) => Acquire
    case CtlHolding(_) => Change(true)
    case CtlChanged => BumpGeneration
    case CtlBumped => Release
    case _ => Interrupt
  }

  /** The thread alone is scheduled, until it has left the driver, cannot go on, or has made `n` steps. */
  function Alone(s: State, t: nat, n: nat): (r: State)
    requires t < |s.threads|
    ensures |r.threads| == |s.threads|
    decreases n
  {
    if n == 0 || s.threads[t] == Idle || s.threads[t].Asleep? || !Enables(s, t, OwnStep(s, t)) then s
    else Alone(Do(s, t, OwnStep(s, t)), t, n - 1)
  }

  /** The readiness check would not let the call wait. */
  predicate Answerable(s: State, c: Call) {
    Ready(s.q, c) || c.fileNonblock || s.q.nonblock
  }

  /** How many own steps a thread that need not wait is at most away from leaving the driver. */
  function Distance(s: State, th: Thread): (n: nat) {
    match th
    case Idle => 0
    case Asleep(_, _) => 0
    case Waking(sides) => |sides| + 1
    case Adding(_, _) => 3
    case Copying(c, moved, failed) => if failed || Fits(s.q, c, |moved|) <= 0 then 4 else 5
    case Deciding(_) => 6
    case Locking(_) => 7
    case Testing(_, _, queued, woken, probe) => (if queued && !woken then 7 else 12) + ToRead(probe)
    case Preparing(_, _) => 12
    case CtlBumped => 4
    case CtlChanged => 5
    case CtlHolding(_) => 6
    case CtlLocking(_) => 7
  }

  function ToRead(p: Probe): (n: nat)
    ensures 1 <= n <= 4
  {
    match p
    case Start => 4
    case SawOpen => 3
    case SawEmpty => 2
    case SawCapacity(_) => 3
    case SawStored(_, _) => 2
    case SawFull(_, _) => 1
  }

  /** Nothing keeps the thread in the driver: the mutex is free for it, its call need not wait, and a wait that it is
      in has something to see that it will not overlook. */
  predicate Unhindered(s: State, t: nat)
    requires t < |s.threads|
  {
    var th := s.threads[t];
    && (s.owner == None || s.owner == Some(t)) && (InSection(th) <==> s.owner == Some(t))
    && (th.Locking? || th.Deciding? || Waits(th) ==> Answerable(s, th.call))
    && (Waits(th) ==>
          && !W.Uneasy(s.q, s.generation, th) && !th.Asleep?
          && (th.Testing? ==> W.ProbeFits(th.call, th.probe))
          && W.WaitCondition(s.q, s.generation, SideOf(th.call), th.seen))
    && (th.Waking? ==> |th.sides| <= 2)
  }

  lemma WaiterLeadsOut(s: State, t: nat)
    requires t < |s.threads| && Unhindered(s, t) && Waits(s.threads[t])
    ensures var a := OwnStep(s, t);
            && a != Interrupt && Enables(s, t, a) && Unhindered(Do(s, t, a), t)
            && Distance(Do(s, t, a), Do(s, t, a).threads[t]) < Distance(s, s.threads[t])
  {
  }

  lemma CopierLeadsOut(s: State, t: nat)
    requires t < |s.threads| && Unhindered(s, t) && s.threads[t].Copying?
    ensures var a := OwnStep(s, t);
            && a != Interrupt && Enables(s, t, a) && Unhindered(Do(s, t, a), t)
            && Distance(Do(s, t, a), Do(s, t, a).threads[t]) < Distance(s, s.threads[t])
  {
    hide W.Uneasy, W.WaitCondition, W.ProbeFits, ToRead;
  }

  lemma HolderLeadsOut(s: State, t: nat)
    requires t < |s.threads| && Unhindered(s, t) && !Waits(s.threads[t]) && !s.threads[t].Copying?
    requires s.threads[t] != Idle
    ensures var a := OwnStep(s, t);
            && a != Interrupt && Enables(s, t, a) && Unhindered(Do(s, t, a), t)
            && Distance(Do(s, t, a), Do(s, t, a).threads[t]) < Distance(s, s.threads[t])
  {
    hide W.Uneasy, W.WaitCondition, W.ProbeFits, ToRead;
  }

  lemma OwnStepLeadsOut(s: State, t: nat)
    requires t < |s.threads| && Unhindered(s, t) && s.threads[t] != Idle
    ensures var a := OwnStep(s, t);
            && a != Interrupt && Enables(s, t, a) && Unhindered(Do(s, t, a), t)
            && Distance(Do(s, t, a), Do(s, t, a).threads[t]) < Distance(s, s.threads[t])
  {
    hide Do, Enables, Unhindered, OwnStep, Distance, Waits;
    if Waits(s.threads[t]) {
      WaiterLeadsOut(s, t);
    } else if s.threads[t].Copying? {
      CopierLeadsOut(s, t);
    } else {
      HolderLeadsOut(s, t);
    }
  }

  /** An idle thread may begin any call that transfers something, and any control operation that is in range. */
  lemma AnyoneMayBegin(s: State, t: nat, c: Call, control: Control, side: Side)
    requires t < |s.threads| && s.threads[t] == Idle
    requires match c case ReadCall(count, _) => count > 0 case WriteCall(request, _) => |request| > 0
    requires control.Resize? ==> 256 <= control.requested <= 65536
    ensures Enables(s, t, BeginCall(c)) && Enables(s, t, BeginControl(control)) && Enables(s, t, ResetTotal(side))
  {
  }

  /** A thread that neither sleeps nor waits for the mutex can go on at once, and without a fault; a copy may also be
      cut short anywhere, and memory may be refused. */
  lemma ThreadGoesOn(s: State, t: nat)
    requires t < |s.threads| && s.threads[t] != Idle && !s.threads[t].Asleep?
    requires s.threads[t].Locking? || s.threads[t].CtlLocking? ==> s.owner == None
    ensures var a := OwnStep(s, t);
            && Enables(s, t, a) && a != Interrupt && !Begins(a)
            && (a.CopySpan? ==> a.missing == 0) && (a.Change? ==> a.granted)
    ensures OwnStep(s, t).CopySpan? ==>
      forall chunk: nat, missing: nat | 0 < chunk <= OwnStep(s, t).chunk && missing <= chunk ::
        Enables(s, t, CopySpan(chunk, missing))
    ensures s.threads[t].CtlHolding? ==> Enables(s, t, Change(false))
  {
  }

  /** There is no deadlock: as long as a thread is in the driver and not asleep, some thread can go on. */
  lemma SomeoneGoesOn(s: State, t: nat) returns (u: nat)
    requires LockInv(s) && t < |s.threads| && s.threads[t] != Idle && !s.threads[t].Asleep?
    ensures u < |s.threads| && s.threads[u] != Idle && !s.threads[u].Asleep?
    ensures var a := OwnStep(s, u);
            && Enables(s, u, a) && a != Interrupt && !Begins(a)
            && (a.CopySpan? ==> a.missing == 0) && (a.Change? ==> a.granted)
  {
    hide Enables, OwnStep, Begins;
    u := if s.owner.Some? then s.owner.value else t;
    assert s.owner.Some? ==> InSection(s.threads[u]);
    ThreadGoesOn(s, u);
  }

  /** An unhindered thread leaves the driver by its own steps alone, with its job answered once. */
  lemma {:induction false} LeavesAlone(start: Queue, s: State, t: nat, n: nat, job: Action)
    requires Sound(start, s) && t < |s.threads| && Unhindered(s, t) && Distance(s, s.threads[t]) <= n
    requires Engaged(s.threads[t], job) || Served(s.threads[t])
    ensures var r := Alone(s, t, n);
            && r.threads[t] == Idle
            && if Engaged(s.threads[t], job) then LogsOne(s, r) && Answers(job, r.log[|s.log|]) else r.log == s.log
    decreases n
  {
    hide Do, Enables, Sound, Unhindered, OwnStep, Answers;
    if s.threads[t] != Idle {
      var a := OwnStep(s, t);
      OwnStepLeadsOut(s, t);
      SoundStep(start, s, t, a);
      NotAsleep(s, t);
      if Engaged(s.threads[t], job) {
        ActorStep(start, s, t, a, job);
      } else {
        OwnStepGoesOn(s, t);
        ServedStays(s, t, a, t);
      }
      LeavesAlone(start, Do(s, t, a), t, n - 1, job);
    }
  }

  lemma NotAsleep(s: State, t: nat)
    requires t < |s.threads| && Unhindered(s, t)
    ensures !s.threads[t].Asleep?
    ensures s.threads[t] != Idle ==> Distance(s, s.threads[t]) > 0
  {
  }

  lemma OwnStepGoesOn(s: State, t: nat)
    requires t < |s.threads|
    ensures !Begins(OwnStep(s, t))
  {
  }

  /** In every reachable state, whoever is in the driver with the mutex free for it and a call that need not wait can
      leave alone, in at most 16 steps and with its job answered, unless it waits and its queue is owed a wake-up. */
  lemma NobodyIsStuck(states: seq<State>, steps: seq<Step>, k: nat, t: nat, job: Action)
    requires Run(states, steps) && k < |states| && t < |states[k].threads| && Engaged(states[k].threads[t], job)
    requires states[k].owner == None || states[k].owner == Some(t)
    requires job.BeginCall? && !states[k].threads[t].Copying? ==> Answerable(states[k], job.call)
    ensures var s, r := states[k], Alone(states[k], t, 16);
            || (r.threads[t] == Idle && LogsOne(s, r) && Answers(job, r.log[|s.log|]))
            || (Waits(s.threads[t]) && W.Owed(s.threads, SideOf(job.call)))
  {
    hide Alone, Answers, LogsOne, Do, Enables;
    var s, th := states[k], states[k].threads[t];
    RunSound(states, steps, k);
    if Waits(th) && W.Uneasy(s.q, s.generation, th) {
      assert W.Owed(s.threads, SideOf(th.call));
    } else {
      ReadyWaiter(s, t);
      LeavesAlone(states[0].q, s, t, 16, job);
    }
  }

  /** A waiter whose call need not wait any more has something to see. */
  lemma ReadyWaiter(s: State, t: nat)
    requires W.Inv(s) && t < |s.threads| && (s.owner == None || s.owner == Some(t)) && !Served(s.threads[t])
    requires Waits(s.threads[t]) ==> !W.Uneasy(s.q, s.generation, s.threads[t])
    requires s.threads[t].Locking? || s.threads[t].Deciding? || Waits(s.threads[t]) ==> Answerable(s, s.threads[t].call)
    ensures Unhindered(s, t)
  {
    hide W.WakeInv;
    forall u | 0 <= u < |s.threads| ensures s.threads[u] != CtlChanged {
      assert InSection(s.threads[u]) <==> s.owner == Some(u);
    }
    var th := s.threads[t];
    if Waits(th) && th.seen == s.generation {
      assert W.Current(s, t);
    }
  }
}
