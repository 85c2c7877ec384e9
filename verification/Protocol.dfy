/** kernel/ringbuf_char.c as a step system over any number of threads. The wait conditions are read without
    the mutex, field by field; everything else changes the device only while its mutex is held. */
module Protocol {
  import opened Bytes
  import opened Limits
  import opened Serial

  datatype Side = Reader | Writer

  function Other(side: Side): (r: Side) {
    if side == Reader then Writer else Reader
  }

  datatype Call =
    | ReadCall(count: nat, fileNonblock: bool)
    | WriteCall(request: seq<byte>, fileNonblock: bool)

  function SideOf(c: Call): (r: Side) {
    if c.ReadCall? then Reader else Writer
  }

  datatype Control = Clear | Resize(requested: nat) | SetMode(nonblocking: bool) | Shutdown

  /** How far a thread is in evaluating its wait condition, with the values it has read. */
  datatype Probe =
    | Start
    | SawOpen
    | SawEmpty
    | SawCapacity(capacity: nat)
    | SawStored(capacity: nat, stored: nat)
    | SawFull(capacity: nat, stored: nat)

  /** Where a thread is.
      Locking: waits for the mutex.  Deciding: holds it, before the readiness check.
      Preparing: inside wait_event, about to enqueue itself.  Testing: evaluates the wait condition, first
      off the queue, then on it; `woken` records a wake-up received meanwhile.  Asleep: has called schedule.
      Copying: holds the mutex in the copy loop.  Adding, Waking: unlocked, still owes the counter update
      and the wake-ups.  Ctl...: a control operation before, in and after its change. */
  datatype Thread =
    | Idle
    | Locking(call: Call)
    | Deciding(call: Call)
    | Preparing(call: Call, seen: nat)
    | Testing(call: Call, seen: nat, queued: bool, woken: bool, probe: Probe)
    | Asleep(call: Call, seen: nat)
    | Copying(call: Call, moved: seq<byte>, failed: bool)
    | Adding(side: Side, n: nat)
    | Waking(sides: seq<Side>)
    | CtlLocking(control: Control)
    | CtlHolding(control: Control)
    | CtlChanged
    | CtlBumped

  /** `log` lists the events of finished critical sections; `cleared`, `lostRead` and `lostWritten` remember
      what CLEAR and RESET_STATS forget. */
  datatype State = State(q: Queue, generation: nat, owner: Option<nat>, threads: seq<Thread>, log: seq<Event>,
                         totalRead: nat, totalWritten: nat, cleared: nat, lostRead: nat, lostWritten: nat)

  datatype Action =
    | BeginCall(call: Call)
    | BeginControl(control: Control)
    | ResetTotal(side: Side)
    | Interrupt
    | Acquire
    | Decide
    | CopySpan(chunk: nat, missing: nat)
    | Finish
    | AddTotal
    | WakeUp
    | Prepare
    | ReadField
    | Change(granted: bool)
    | BumpGeneration
    | Release

  predicate Init(s: State) {
    && s.q.Valid() && s.q.bytes == [] && !s.q.closing && s.owner == None && s.log == []
    && s.totalRead == s.totalWritten == s.cleared == s.lostRead == s.lostWritten == 0
    && forall t :: 0 <= t < |s.threads| ==> s.threads[t] == Idle
  }

  // ---------------------------------------------------------------- steps

  predicate Nonempty(c: Call) {
    if c.ReadCall? then 0 < c.count else c.request != []
  }

  /** The readiness check of the retry loop. */
  predicate Ready(q: Queue, c: Call) {
    q.closing || (if c.ReadCall? then q.bytes != [] else 0 < q.Space())
  }

  /** How many more bytes the copy loop of a call may move. */
  function Fits(q: Queue, c: Call, moved: nat): (r: int) {
    if c.ReadCall? then Min(c.count - moved, |q.bytes|) else Min(|c.request| - moved, q.Space())
  }

  /** One read of the wait condition: the condition holds, it is still undecided, or all of it was false. */
  datatype Reading = Holds | Continue(probe: Probe) | AllFalse

  function Read(s: State, c: Call, seen: nat, p: Probe): (r: Reading) {
    match p
    case Start =>
      if c.WriteCall? then Continue(SawCapacity(s.q.capacity))
      else if s.q.closing then Holds else Continue(SawOpen)
    case SawOpen => if s.q.bytes != [] then Holds else Continue(SawEmpty)
    case SawEmpty => if s.generation != seen then Holds else AllFalse
    case SawCapacity(capacity) => Continue(SawStored(capacity, |s.q.bytes|))
    case SawStored(capacity, stored) =>
      if s.q.closing || capacity > stored then Holds else Continue(SawFull(capacity, stored))
    case SawFull(_, _) => if s.generation != seen then Holds else AllFalse
  }

  /** The state of a thread whose wait condition was read once more. Off the queue a false condition leads
      to enqueueing; on the queue it leads to sleep, unless a wake-up came in between. */
  function AfterReading(th: Thread, r: Reading): (out: Thread)
    requires th.Testing?
  {
    match r
    case Holds => Locking(th.call)
    case Continue(p) => th.(probe := p)
    case AllFalse =>
      if !th.queued || th.woken then Preparing(th.call, th.seen) else Asleep(th.call, th.seen)
  }

  /** wake_up_interruptible on one queue: every waiter there becomes runnable. */
  function Woken(th: Thread, side: Side): (r: Thread) {
    match th
    case Asleep(call, seen) => if SideOf(call) == side then Preparing(call, seen) else th
    case Testing(call, _, queued, _, _) => if queued && SideOf(call) == side then th.(woken := true) else th
    case _ => th
  }

  function WakeAll(threads: seq<Thread>, side: Side): (r: seq<Thread>)
    ensures |r| == |threads|
    ensures forall t :: 0 <= t < |threads| ==> r[t] == Woken(threads[t], side)
  {
    seq(|threads|, t requires 0 <= t < |threads| => Woken(threads[t], side))
  }

  predicate Waits(th: Thread) {
    th.Preparing? || th.Testing? || th.Asleep?
  }

  predicate Enables(s: State, t: nat, a: Action) {
    && t < |s.threads|
    && var th := s.threads[t];
       match a
       case BeginCall(call) => th == Idle && Nonempty(call)
       case BeginControl(control) => th == Idle && (control.Resize? ==> CapacityValid(control.requested))
       case ResetTotal(_) => th == Idle
       case Interrupt => th.Locking? || th.Preparing? || (th.Testing? && th.queued) || th.Asleep?
       case Acquire => s.owner == None && (th.Locking? || th.CtlLocking?)
       case Decide => th.Deciding?
       case CopySpan(chunk, missing) =>
         th.Copying? && !th.failed && 0 < chunk <= Fits(s.q, th.call, |th.moved|) && missing <= chunk
       case Finish => th.Copying? && (th.failed || Fits(s.q, th.call, |th.moved|) <= 0)
       case AddTotal => th.Adding?
       case WakeUp => th.Waking?
       case Prepare => th.Preparing?
       case ReadField => th.Testing?
       case Change(_) => th.CtlHolding?
       case BumpGeneration => th.CtlChanged?
       case Release => th.CtlBumped?
  }

  function Goes(s: State, t: nat, th: Thread): (r: State)
    requires t < |s.threads|
  {
    s.(threads := s.threads[t := th])
  }

  function Leaves(s: State, t: nat, e: Event, th: Thread): (r: State)
    requires t < |s.threads|
  {
    s.(threads := s.threads[t := th], owner := None, log := s.log + [e])
  }

  /** The outcome of the readiness check, made with the mutex held. */
  function DoDecide(s: State, t: nat, c: Call): (r: State)
    requires t < |s.threads|
  {
    if Ready(s.q, c) then
      if c.ReadCall? && s.q.bytes == [] then Leaves(s, t, ReadEof(c.count), Idle)
      else if c.WriteCall? && s.q.closing then Leaves(s, t, WriteClosed(c.request), Idle)
      else Goes(s, t, Copying(c, [], false))
    else if c.fileNonblock || s.q.nonblock then
      Leaves(s, t,
             if c.ReadCall? then ReadAgain(c.count, c.fileNonblock) else WriteAgain(c.request, c.fileNonblock),
             Idle)
    else s.(threads := s.threads[t := Testing(c, s.generation, false, false, Start)], owner := None)
  }

  /** One span: bytes leave or enter the buffer as soon as they are copied, visible to the wait conditions. */
  function DoCopySpan(s: State, t: nat, c: Call, moved: seq<byte>, chunk: nat, missing: nat): (r: State)
    requires t < |s.threads| && chunk <= Fits(s.q, c, |moved|) && missing <= chunk
  {
    var n := chunk - missing;
    if c.ReadCall? then
      s.(q := s.q.(bytes := s.q.bytes[n..]),
         threads := s.threads[t := Copying(c, moved + s.q.bytes[..n], missing > 0)])
    else
      s.(q := s.q.(bytes := s.q.bytes + c.request[|moved|..|moved| + n]),
         threads := s.threads[t := Copying(c, moved + c.request[|moved|..|moved| + n], missing > 0)])
  }

  function FinishEvent(c: Call, moved: seq<byte>, failed: bool): (r: Event) {
    match c
    case ReadCall(count, _) => if moved == [] then ReadFault(count) else ReadDone(count, moved, failed)
    case WriteCall(request, _) => if moved == [] then WriteFault(request) else WriteDone(request, |moved|, failed)
  }

  function DoChange(s: State, t: nat, c: Control, granted: bool): (r: State)
    requires t < |s.threads|
  {
    var changed := Goes(s, t, CtlChanged);
    match c
    case Clear =>
      changed.(q := s.q.(bytes := []), cleared := s.cleared + |s.q.bytes|, log := s.log + [Cleared])
    case Resize(requested) =>
      if requested < |s.q.bytes| then Leaves(s, t, ResizeRefused(requested, EMSGSIZE), Idle)
      else if !granted then Leaves(s, t, ResizeRefused(requested, ENOMEM), Idle)
      else changed.(q := s.q.(capacity := requested), log := s.log + [Resized(requested)])
    case SetMode(nonblocking) =>
      changed.(q := s.q.(nonblock := nonblocking), log := s.log + [ModeSet(nonblocking)])
    case Shutdown => changed.(q := s.q.(closing := true), log := s.log + [Closed])
  }

  function Do(s: State, t: nat, a: Action): (r: State)
    requires Enables(s, t, a)
    ensures |r.threads| == |s.threads|
  {
    var th := s.threads[t];
    match a
    case BeginCall(call) => Goes(s, t, Locking(call))
    case BeginControl(control) => Goes(s, t, CtlLocking(control))
    case ResetTotal(side) =>
      if side == Reader then s.(totalRead := 0, lostRead := s.lostRead + s.totalRead)
      else s.(totalWritten := 0, lostWritten := s.lostWritten + s.totalWritten)
    case Interrupt => Goes(s, t, Idle)
    case Acquire =>
      Goes(s, t, if th.Locking? then Deciding(th.call) else CtlHolding(th.control)).(owner := Some(t))
    case Decide => DoDecide(s, t, th.call)
    case CopySpan(chunk, missing) => DoCopySpan(s, t, th.call, th.moved, chunk, missing)
    case Finish =>
      Leaves(s, t, FinishEvent(th.call, th.moved, th.failed),
             if th.moved == [] then Idle else Adding(SideOf(th.call), |th.moved|))
    case AddTotal =>
      var u := Goes(s, t, Waking([Other(th.side)]));
      if th.side == Reader then u.(totalRead := s.totalRead + th.n) else u.(totalWritten := s.totalWritten + th.n)
    case WakeUp =>
      if th.sides == [] then Goes(s, t, Idle)
      else s.(threads := WakeAll(s.threads, th.sides[0])[t := Waking(th.sides[1..])])
    case Prepare => Goes(s, t, Testing(th.call, th.seen, true, false, Start))
    case ReadField => Goes(s, t, AfterReading(th, Read(s, th.call, th.seen, th.probe)))
    case Change(granted) => DoChange(s, t, th.control, granted)
    case BumpGeneration => Goes(s, t, CtlBumped).(generation := s.generation + 1)
    case Release => Goes(s, t, Waking([Reader, Writer])).(owner := None)
  }

  // ---------------------------------------------------------------- threads on their way out

  /** The effect of the call is logged; what is left are counters, wake-ups and the unlock. */
  predicate Served(th: Thread) {
    th.Idle? || th.Adding? || th.Waking? || th.CtlChanged? || th.CtlBumped?
  }

  /** Steps with which a thread starts something new. */
  predicate Begins(a: Action) {
    a.BeginCall? || a.BeginControl? || a.ResetTotal?
  }

  /** A served thread logs nothing more. */
  lemma ServedStep(s: State, t: nat, a: Action)
    requires Enables(s, t, a) && !Begins(a) && Served(s.threads[t])
    ensures Do(s, t, a).log == s.log && Served(Do(s, t, a).threads[t])
  {
  }

  /** Threads that do not wait are not touched by the steps of others. */
  lemma OthersStay(s: State, t: nat, a: Action, u: nat)
    requires Enables(s, t, a) && u < |s.threads| && u != t && !Waits(s.threads[u])
    ensures Do(s, t, a).threads[u] == s.threads[u]
  {
  }

  // ---------------------------------------------------------------- runs

  datatype Step = Step(thread: nat, action: Action)

  ghost predicate Run(states: seq<State>, steps: seq<Step>) {
    && |states| == |steps| + 1 && Init(states[0])
    && forall k :: 0 <= k < |steps| ==>
         && Enables(states[k], steps[k].thread, steps[k].action)
         && states[k + 1] == Do(states[k], steps[k].thread, steps[k].action)
  }

  /** Threads that hold the mutex. */
  predicate InSection(th: Thread) {
    th.Deciding? || th.Copying? || th.CtlHolding? || th.CtlChanged? || th.CtlBumped?
  }

  /** Mutual exclusion: the owner is the one thread inside a critical section. */
  predicate LockInv(s: State) {
    && (s.owner.Some? ==> s.owner.value < |s.threads|)
    && forall t :: 0 <= t < |s.threads| ==> (InSection(s.threads[t]) <==> s.owner == Some(t))
  }

  lemma LockStep(s: State, t: nat, a: Action)
    requires LockInv(s) && Enables(s, t, a)
    ensures LockInv(Do(s, t, a))
  {
    var r := Do(s, t, a);
    forall u | 0 <= u < |r.threads| && u != t ensures InSection(r.threads[u]) <==> InSection(s.threads[u]) {
    }
  }
}
