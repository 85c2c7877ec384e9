/** The writer and reader threads of userspace/concurrent_test.c over the step system of the driver. Writers send whole
    frames under one lock, readers read and validate under another; a test fails only when a call or an allocation
    does, and it passes exactly when the readers got everything. */
module LoadTest {
  import opened Bytes
  import opened Frames
  import opened FrameStream
  import opened Delivery
  import C = Calls
  import P = Protocol
  import R = Refinement
  import S = Serial
  import W = Wakeups

  /** Bystanders issue control operations other than CLEAR. */
  datatype Role = Writer(id: nat) | Reader | Bystander

  datatype Test = Test(o: Options, start: S.Queue, roles: seq<Role>) {
    /** The device starts empty; every writer number belongs to one thread. */
    ghost predicate Valid() {
      && ValidOptions(o) && start.bytes == []
      && (forall i :: 0 <= i < |roles| && roles[i].Writer? ==> roles[i].id < o.writers)
      && (forall i, j :: 0 <= i < j < |roles| && roles[i].Writer? && roles[j].Writer? ==> roles[i].id != roles[j].id)
      && forall w: nat :: w < o.writers ==> Writer(w) in roles
    }
  }

  /** Between: holds no lock; a writer has sent `next` frames.  Writing: holds the write lock, `sent` bytes of the frame
      are accepted.  Reading, Holding, Leaving: hold the read lock, before and after a read and after its validation.
      Broken: holds a lock, its call has failed.  Reporting, Stopped: unlocked, before and after counting that. */
  datatype Phase =
    | Between(next: nat)
    | Writing(next: nat, sent: nat)
    | Reading
    | Holding(data: seq<byte>)
    | Leaving
    | Broken
    | Reporting
    | Stopped

  /** Thread `t` of the test is thread `t` of the driver. `order` lists the frames that were begun and `fed` the reads
      that were validated; `errors` are the failures counted outside the validator; `starved` remembers an allocation
      that failed. */
  datatype State = State(driver: P.State, phases: seq<Phase>, writeLock: Option<nat>, readLock: Option<nat>,
                         stop: bool, errors: nat, starved: bool, completed: nat,
                         progress: Progress, order: seq<Message>, fed: seq<seq<byte>>)

  datatype Action =
    | Lock(i: nat)
    | Call(i: nat)
    | Control(i: nat, control: P.Control)
    | Inner(i: nat, action: P.Action)
    | Validate(i: nat, granted: bool)
    | Unlock(i: nat)
    | Cancel(i: nat)
    | Report(i: nat)

  function Empty(o: Options): (p: Progress) {
    Fresh(AllMarks(o.writers * o.messages, false))
  }

  predicate Init(test: Test, s: State) {
    && P.Init(s.driver) && s.driver.q == test.start
    && |s.phases| == |s.driver.threads| == |test.roles|
    && (forall i :: 0 <= i < |s.phases| ==> s.phases[i] == Between(0))
    && s.writeLock == None && s.readLock == None && !s.stop && s.errors == 0 && !s.starved && s.completed == 0
    && s.progress == Empty(test.o) && s.order == [] && s.fed == []
  }

  predicate Shaped(test: Test, s: State) {
    |s.phases| == |s.driver.threads| == |test.roles|
  }

  /** What is left of a frame. */
  function Rest(o: Options, writer: nat, next: nat, sent: nat): (r: seq<byte>) {
    if ValidOptions(o) && InRange(o, Message(writer, next)) && sent <= o.size
    then Built(o.size, writer, next)[sent..] else []
  }

  /** The system call a thread makes; all descriptors are nonblocking. */
  function CallOf(test: Test, role: Role, phase: Phase): (c: P.Call) {
    if role.Writer? && phase.Writing? then P.WriteCall(Rest(test.o, role.id, phase.next, phase.sent), true)
    else P.ReadCall(READ_CHUNK_SIZE, true)
  }

  /** A thread that may make a system call now. */
  predicate WantsCall(test: Test, phase: Phase) {
    phase.Reading? || (phase.Writing? && phase.sent < test.o.size)
  }

  predicate Enables(test: Test, s: State, a: Action)
    requires Shaped(test, s)
  {
    && a.i < |s.phases|
    && var phase, idle := s.phases[a.i], s.driver.threads[a.i] == P.Idle;
       match a
       case Lock(i) =>
         && idle && phase.Between?
         && (match test.roles[i]
             case Writer(_) => phase.next < test.o.messages && s.writeLock == None
             case Reader => s.readLock == None
             case Bystander => false)
       case Call(i) =>
         WantsCall(test, phase) && P.Enables(s.driver, i, P.BeginCall(CallOf(test, test.roles[i], phase)))
       case Control(i, control) =>
         test.roles[i].Bystander? && control != P.Clear && P.Enables(s.driver, i, P.BeginControl(control))
       case Inner(i, action) => !P.Begins(action) && P.Enables(s.driver, i, action)
       case Validate(i, _) => idle && phase.Holding?
       case Unlock(_) => idle && (phase.Leaving? || phase.Broken? || (phase.Writing? && phase.sent == test.o.size))
       case Cancel(_) => idle && s.stop && phase.Writing? && phase.sent < test.o.size
       case Report(_) => phase.Reporting?
  }

  /** What the result of its call means to a thread. */
  function Heard(phase: Phase, e: S.Event): (r: Phase) {
    match e
    case WriteDone(_, n, _) => if phase.Writing? then phase.(sent := phase.sent + n) else phase
    case ReadDone(_, data, _) => if phase.Reading? then Holding(data) else phase
    case WriteFault(_) => if phase.Writing? then Broken else phase
    case WriteClosed(_) => if phase.Writing? then Broken else phase
    case ReadFault(_) => if phase.Reading? then Broken else phase
    case ReadAgain(_, _) => if phase.Reading? then Leaving else phase
    case ReadEof(_) => if phase.Reading? then Leaving else phase
    case _ => phase
  }

  function Do(test: Test, s: State, a: Action): (r: State)
    requires Shaped(test, s) && Enables(test, s, a)
  {
    var i, phase := a.i, s.phases[a.i];
    match a
    case Lock(_) =>
      if test.roles[i].Writer? then
        s.(phases := s.phases[i := Writing(phase.next, 0)], writeLock := Some(i),
           order := s.order + [Message(test.roles[i].id, phase.next)])
      else s.(phases := s.phases[i := Reading], readLock := Some(i))
    case Call(_) => s.(driver := P.Do(s.driver, i, P.BeginCall(CallOf(test, test.roles[i], phase))))
    case Control(_, control) => s.(driver := P.Do(s.driver, i, P.BeginControl(control)))
    case Inner(_, action) =>
      var next := s.(driver := P.Do(s.driver, i, action));
      if |next.driver.log| > |s.driver.log|
      then next.(phases := s.phases[i := Heard(phase, next.driver.log[|s.driver.log|])]) else next
    case Validate(_, granted) =>
      var left := s.(phases := s.phases[i := Leaving]);
      if granted then left.(progress := Append(test.o, s.progress, phase.data), fed := s.fed + [phase.data])
      else left.(errors := s.errors + 1, stop := true, starved := true)
    case Unlock(_) =>
      var free := if test.roles[i].Writer? then s.(writeLock := None) else s.(readLock := None);
      if phase.Writing? then free.(phases := s.phases[i := Between(phase.next + 1)], completed := s.completed + 1)
      else free.(phases := s.phases[i := if phase.Leaving? then Between(0) else Reporting])
    case Cancel(_) => s.(phases := s.phases[i := Broken])
    case Report(_) => s.(phases := s.phases[i := Stopped], errors := s.errors + 1, stop := true)
  }

  ghost predicate Run(test: Test, states: seq<State>, actions: seq<Action>) {
    && |states| == |actions| + 1 && Init(test, states[0])
    && forall k :: 0 <= k < |actions| ==>
         && Shaped(test, states[k]) && Enables(test, states[k], actions[k])
         && states[k + 1] == Do(test, states[k], actions[k])
  }

  // ---------------------------------------------------------------- threads and locks

  /** The thread is on its way to the critical section of call `c`. */
  predicate Serves(th: P.Thread, c: P.Call) {
    (th.Locking? || th.Deciding? || th.Copying?) && th.call == c
  }

  /** On its way to a control operation that is not CLEAR. */
  predicate Controls(th: P.Thread) {
    (th.CtlLocking? || th.CtlHolding?) && th.control != P.Clear
  }

  /** Events of control operations other than CLEAR. */
  predicate Neutral(e: S.Event) {
    e.Resized? || e.ResizeRefused? || e.ModeSet? || e.Closed?
  }

  /** A nonblocking call goes on, is interrupted before it did anything, or logs its one event. */
  lemma ServingStep(start: S.Queue, d: P.State, t: nat, a: P.Action, c: P.Call)
    requires R.Sound(start, d) && P.Enables(d, t, a) && !P.Begins(a) && Serves(d.threads[t], c) && c.fileNonblock
    ensures var r := P.Do(d, t, a);
            if |r.log| > |d.log|
            then C.LogsOne(d, r) && C.Answers(P.BeginCall(c), r.log[|d.log|]) && P.Served(r.threads[t])
            else r.log == d.log && (Serves(r.threads[t], c) || r.threads[t] == P.Idle)
  {
    hide R.Sound, C.Answers;
    C.ActorStep(start, d, t, a, P.BeginCall(c));
    NeverWaits(d, t, a);
  }

  /** A nonblocking call does not start to wait. */
  lemma NeverWaits(d: P.State, t: nat, a: P.Action)
    requires P.Enables(d, t, a) && (d.threads[t].Locking? || d.threads[t].Deciding? || d.threads[t].Copying?)
    requires d.threads[t].call.fileNonblock
    ensures !P.Waits(P.Do(d, t, a).threads[t])
  {
  }

  lemma ControlStep(d: P.State, t: nat, a: P.Action)
    requires P.Enables(d, t, a) && !P.Begins(a) && Controls(d.threads[t])
    ensures var r := P.Do(d, t, a);
            if |r.log| > |d.log| then C.LogsOne(d, r) && Neutral(r.log[|d.log|]) && P.Served(r.threads[t])
            else r.log == d.log && Controls(r.threads[t])
  {
  }

  /** What a thread is doing in the driver, and which lock it holds. */
  predicate Linked(test: Test, s: State, i: nat)
    requires Shaped(test, s) && i < |s.phases|
  {
    var role, phase, th := test.roles[i], s.phases[i], s.driver.threads[i];
    && (|| P.Served(th) || (Controls(th) && role.Bystander?)
        || (WantsCall(test, phase) && Serves(th, CallOf(test, role, phase))))
    && (s.writeLock == Some(i) <==> role.Writer? && (phase.Writing? || phase.Broken?))
    && (s.readLock == Some(i) <==>
          role.Reader? && (phase.Reading? || phase.Holding? || phase.Leaving? || phase.Broken?))
    && match phase
       case Between(next) => role.Writer? ==> next <= test.o.messages
       case Writing(next, sent) => role.Writer? && next < test.o.messages && sent <= test.o.size
       case Reading => role.Reader?
       case Holding(_) => role.Reader?
       case Leaving => role.Reader?
       case _ => !role.Bystander?
  }

  predicate AllLinked(test: Test, s: State)
    requires Shaped(test, s)
  {
    && (s.writeLock.Some? ==> s.writeLock.value < |s.phases|)
    && (s.readLock.Some? ==> s.readLock.value < |s.phases|)
    && forall i: nat :: i < |s.phases| ==> Linked(test, s, i)
  }

  lemma LinkedDoesNotWait(test: Test, s: State, i: nat)
    requires Shaped(test, s) && i < |s.phases| && Linked(test, s, i)
    ensures !P.Waits(s.driver.threads[i])
  {
  }

  /** What a step inside the driver logs, and what the thread makes of it. */
  ghost predicate Hears(test: Test, s: State, n: State, i: nat)
    requires Shaped(test, s) && i < |s.phases|
  {
    var role, phase := test.roles[i], s.phases[i];
    if |n.driver.log| > |s.driver.log| then
      && C.LogsOne(s.driver, n.driver)
      && var e := n.driver.log[|s.driver.log|];
         && n == s.(driver := n.driver, phases := s.phases[i := Heard(phase, e)])
         && if WantsCall(test, phase) then C.Answers(P.BeginCall(CallOf(test, role, phase)), e)
            else Neutral(e) && role.Bystander?
    else n == s.(driver := n.driver) && n.driver.log == s.driver.log
  }

  lemma InnerHears(test: Test, s: State, i: nat, a: P.Action)
    requires Shaped(test, s) && AllLinked(test, s) && R.Sound(test.start, s.driver)
    requires Enables(test, s, Inner(i, a))
    ensures Hears(test, s, Do(test, s, Inner(i, a)), i) && Linked(test, Do(test, s, Inner(i, a)), i)
  {
    hide P.Do, P.Enables, R.Sound, P.Begins, Built;
    var role, phase, th := test.roles[i], s.phases[i], s.driver.threads[i];
    assert Linked(test, s, i);
    if P.Served(th) {
      P.ServedStep(s.driver, i, a);
    } else if Controls(th) {
      ControlStep(s.driver, i, a);
    } else {
      ServingStep(test.start, s.driver, i, a, CallOf(test, role, phase));
    }
  }

  /** The driver part and the links of the other threads. */
  lemma InnerLinks(test: Test, s: State, i: nat, a: P.Action, n: State)
    requires Shaped(test, s) && AllLinked(test, s) && i < |s.phases| && P.Enables(s.driver, i, a)
    requires n.driver == P.Do(s.driver, i, a) && n.writeLock == s.writeLock && n.readLock == s.readLock
    requires Shaped(test, n) && (forall u: nat :: u < |s.phases| && u != i ==> n.phases[u] == s.phases[u])
    requires Linked(test, n, i)
    ensures AllLinked(test, n)
  {
    hide P.Do, P.Enables, P.Served, Serves, Controls, CallOf, WantsCall;
    forall u: nat | u < |n.phases| ensures Linked(test, n, u) {
      assert Linked(test, s, u);
      if u != i {
        LinkedDoesNotWait(test, s, u);
        P.OthersStay(s.driver, i, a, u);
      }
    }
  }

  lemma Entering(d: P.State, i: nat, a: P.Action)
    requires P.Enables(d, i, a) && (a.BeginCall? || a.BeginControl?)
    ensures P.Do(d, i, a).log == d.log
    ensures P.Do(d, i, a).threads[i] == if a.BeginCall? then P.Locking(a.call) else P.CtlLocking(a.control)
  {
  }

  /** A thread that has nothing to do with a step is linked as before. */
  lemma StillLinked(test: Test, s: State, n: State, u: nat)
    requires Shaped(test, s) && Shaped(test, n) && u < |s.phases| && Linked(test, s, u)
    requires n.phases[u] == s.phases[u] && n.driver.threads[u] == s.driver.threads[u]
    requires (n.writeLock == Some(u) <==> s.writeLock == Some(u)) && (n.readLock == Some(u) <==> s.readLock == Some(u))
    ensures Linked(test, n, u)
  {
  }

  /** Taking and releasing locks, validating and counting: the driver is left alone. */
  lemma OutsideLinks(test: Test, s: State, a: Action)
    requires Shaped(test, s) && AllLinked(test, s) && Enables(test, s, a) && !a.Call? && !a.Control? && !a.Inner?
    ensures Shaped(test, Do(test, s, a)) && AllLinked(test, Do(test, s, a))
    ensures Do(test, s, a).driver == s.driver
  {
    hide Linked, Do, Enables;
    var n, i := Do(test, s, a), a.i;
    OutsideLink(test, s, a);
    forall u: nat | u < |n.phases| ensures Linked(test, n, u) {
      if u != i {
        StillLinked(test, s, n, u);
      }
    }
  }

  /** Only thread `i` takes or releases the lock. */
  predicate Moved(before: Option<nat>, after: Option<nat>, i: nat) {
    before == after || (before == None && after == Some(i)) || (before == Some(i) && after == None)
  }

  lemma OutsideLink(test: Test, s: State, a: Action)
    requires Shaped(test, s) && AllLinked(test, s) && Enables(test, s, a) && !a.Call? && !a.Control? && !a.Inner?
    ensures var n, i := Do(test, s, a), a.i;
            && i < |s.phases| && Shaped(test, n) && n.driver == s.driver && Linked(test, n, i)
            && n.phases == s.phases[i := n.phases[i]]
            && Moved(s.writeLock, n.writeLock, i) && Moved(s.readLock, n.readLock, i)
  {
    hide CallOf, Serves, Controls, Append;
    assert Linked(test, s, a.i);
  }

  lemma LinkStep(test: Test, s: State, a: Action)
    requires Shaped(test, s) && AllLinked(test, s) && R.Sound(test.start, s.driver) && Enables(test, s, a)
    ensures Shaped(test, Do(test, s, a)) && AllLinked(test, Do(test, s, a))
    ensures R.Sound(test.start, Do(test, s, a).driver)
  {
    hide P.Do, P.Enables, R.Sound, CallOf, P.Begins, Heard, AllLinked;
    var n, i := Do(test, s, a), a.i;
    match a
    case Call(_) => BeginLinks(test, s, i, P.BeginCall(CallOf(test, test.roles[i], s.phases[i])), n);
    case Control(_, control) => BeginLinks(test, s, i, P.BeginControl(control), n);
    case Inner(_, action) =>
      InnerHears(test, s, i, action);
      InnerLinks(test, s, i, action, n);
      R.SoundStep(test.start, s.driver, i, action);
    case _ => OutsideLinks(test, s, a);
  }

  lemma BeginLinks(test: Test, s: State, i: nat, a: P.Action, n: State)
    requires Shaped(test, s) && AllLinked(test, s) && R.Sound(test.start, s.driver) && i < |s.phases|
    requires P.Enables(s.driver, i, a) && n == s.(driver := P.Do(s.driver, i, a))
    requires || (WantsCall(test, s.phases[i]) && a == P.BeginCall(CallOf(test, test.roles[i], s.phases[i])))
             || (test.roles[i].Bystander? && a.BeginControl? && a.control != P.Clear)
    ensures AllLinked(test, n) && R.Sound(test.start, n.driver) && n.driver.log == s.driver.log
  {
    hide P.Do, P.Enables, R.Sound, CallOf;
    assert Linked(test, s, i);
    Entering(s.driver, i, a);
    InnerLinks(test, s, i, a, n);
    R.SoundStep(test.start, s.driver, i, a);
  }

  // ---------------------------------------------------------------- while nothing has failed

  predicate Failed(phase: Phase) {
    phase.Broken? || phase.Reporting? || phase.Stopped?
  }

  predicate Untroubled(s: State) {
    s.errors == 0 && forall i: nat :: i < |s.phases| ==> !Failed(s.phases[i])
  }

  /** The events of calls that return an error other than -EAGAIN. */
  predicate Fails(e: S.Event) {
    e.WriteFault? || e.WriteClosed? || e.ReadFault?
  }

  /** A call has failed, or an allocation. */
  ghost predicate Excuse(s: State) {
    s.starved || exists k: nat :: k < |s.driver.log| && Fails(s.driver.log[k])
  }

  /** The other threads are told to stop just when a failure has been counted. */
  predicate Counted(s: State) {
    (s.stop <==> s.errors > 0) && forall i: nat :: i < |s.phases| && s.phases[i].Stopped? ==> s.errors > 0
  }

  /** What the holder of the write lock still has to send of the frame it has begun. */
  function Unsent(test: Test, s: State): (r: seq<byte>)
    requires Shaped(test, s)
  {
    if s.writeLock.Some? && s.writeLock.value < |s.phases| then UnsentOf(test, s, s.writeLock.value) else []
  }

  function UnsentOf(test: Test, s: State, i: nat): (r: seq<byte>)
    requires Shaped(test, s) && i < |s.phases|
  {
    if test.roles[i].Writer? && s.phases[i].Writing?
    then Rest(test.o, test.roles[i].id, s.phases[i].next, s.phases[i].sent) else []
  }

  /** What the holder of the read lock has read and not validated. */
  function Pending(s: State): (r: seq<byte>) {
    if s.readLock.Some? && s.readLock.value < |s.phases| && s.phases[s.readLock.value].Holding?
    then s.phases[s.readLock.value].data else []
  }

  /** How many frames a writer has begun. */
  function Begun(phase: Phase): (n: nat) {
    match phase
    case Between(next) => next
    case Writing(next, _) => next + 1
    case _ => 0
  }

  /** The frames begun so far: each writer's in sequence, none twice. */
  ghost predicate Orderly(test: Test, s: State)
    requires Shaped(test, s)
  {
    && SentOnce(test.o, s.order)
    && (forall i: nat, k: nat :: i < |s.phases| && test.roles[i].Writer? ==>
          (Message(test.roles[i].id, k) in s.order <==> k < Begun(s.phases[i])))
    && s.completed + (if s.writeLock.Some? then 1 else 0) == |s.order|
  }

  /** The device accepted the frames in the order in which they were begun, without what is still to be sent. */
  ghost predicate Sent(test: Test, s: State)
    requires Shaped(test, s) && ValidOptions(test.o) && SentOnce(test.o, s.order)
  {
    S.Accepted(s.driver.log) + Unsent(test, s) == Stream(test.o, s.order)
  }

  /** The validator was fed what the device delivered, without what is still to be validated. */
  ghost predicate Got(test: Test, s: State) {
    && S.Delivered(s.driver.log) == Joined(s.fed) + Pending(s)
    && s.progress == Feed(test.o, Empty(test.o), s.fed)
  }

  ghost predicate Story(test: Test, s: State)
    requires Shaped(test, s) && ValidOptions(test.o)
  {
    Orderly(test, s) && Sent(test, s) && Got(test, s)
  }

  ghost predicate Inv(test: Test, s: State) {
    && test.Valid() && Shaped(test, s) && R.Sound(test.start, s.driver) && AllLinked(test, s)
    && Counted(s) && (Untroubled(s) <==> !Excuse(s)) && (Untroubled(s) ==> Story(test, s))
  }

  // ---------------------------------------------------------------- trouble has a reason

  lemma ExcuseStays(s: State, n: State)
    requires Excuse(s) && s.driver.log <= n.driver.log && (s.starved ==> n.starved)
    ensures Excuse(n)
  {
    if !s.starved {
      var k: nat :| k < |s.driver.log| && Fails(s.driver.log[k]);
      assert Fails(n.driver.log[k]);
    }
  }

  lemma TroubleStep(test: Test, s: State, a: Action)
    requires Inv(test, s) && Enables(test, s, a)
    ensures var n := Do(test, s, a);
            Counted(n) && (Untroubled(n) <==> !Excuse(n)) && (Untroubled(n) ==> Untroubled(s))
  {
    hide P.Do, P.Enables, R.Sound, CallOf, P.Begins, Story, Excuse, Append, Linked, C.Answers, WantsCall;
    var n, i := Do(test, s, a), a.i;
    assert Linked(test, s, i);
    match a
    case Inner(_, action) =>
      InnerHears(test, s, i, action);
      InnerTrouble(test, s, n, i);
    case Call(_) =>
      BeginLinks(test, s, i, P.BeginCall(CallOf(test, test.roles[i], s.phases[i])), n);
      SameTrouble(s, n);
    case Control(_, control) =>
      BeginLinks(test, s, i, P.BeginControl(control), n);
      SameTrouble(s, n);
    case _ =>
      OutsideTrouble(test, s, a);
  }

  lemma SameTrouble(s: State, n: State)
    requires n == s.(driver := n.driver) && n.driver.log == s.driver.log
    requires Counted(s) && (Untroubled(s) <==> !Excuse(s))
    ensures Counted(n) && (Untroubled(n) <==> !Excuse(n)) && (Untroubled(n) <==> Untroubled(s))
  {
  }

  lemma InnerTrouble(test: Test, s: State, n: State, i: nat)
    requires Shaped(test, s) && i < |s.phases| && Linked(test, s, i) && Hears(test, s, n, i)
    requires Counted(s) && (Untroubled(s) <==> !Excuse(s))
    ensures Counted(n) && (Untroubled(n) <==> !Excuse(n)) && (Untroubled(n) ==> Untroubled(s))
  {
    hide Serves, Controls, Excuse, Rest;
    if |n.driver.log| > |s.driver.log| {
      var e := n.driver.log[|s.driver.log|];
      assert n.phases[i] == Heard(s.phases[i], e);
      assert Fails(e) <==> Failed(n.phases[i]) && !Failed(s.phases[i]);
      if !Untroubled(s) {
        ExcuseStays(s, n);
        TroubleStays(s, n, i);
      } else {
        OneMoreEvent(s, n);
        assert forall j: nat :: j < |s.phases| && j != i ==> !Failed(n.phases[j]);
      }
    } else {
      SameTrouble(s, n);
    }
  }

  lemma OneMoreEvent(s: State, n: State)
    requires C.LogsOne(s.driver, n.driver) && n.starved == s.starved && !Excuse(s)
    ensures Excuse(n) <==> Fails(n.driver.log[|s.driver.log|])
  {
    forall k: nat | k < |s.driver.log| ensures !Fails(n.driver.log[k]) {
      assert n.driver.log[k] == s.driver.log[k];
    }
  }

  lemma TroubleStays(s: State, n: State, i: nat)
    requires !Untroubled(s) && n.errors >= s.errors && i < |s.phases| == |n.phases|
    requires forall j: nat :: j < |s.phases| && j != i ==> n.phases[j] == s.phases[j]
    requires Failed(s.phases[i]) ==> Failed(n.phases[i]) || n.errors > 0
    ensures !Untroubled(n)
  {
    if n.errors == 0 {
      var j: nat :| j < |s.phases| && Failed(s.phases[j]);
      assert Failed(n.phases[j]);
    }
  }

  lemma OutsideTrouble(test: Test, s: State, a: Action)
    requires Shaped(test, s) && Enables(test, s, a) && !a.Call? && !a.Control? && !a.Inner?
    requires Counted(s) && (Untroubled(s) <==> !Excuse(s))
    ensures var n := Do(test, s, a);
            Counted(n) && (Untroubled(n) <==> !Excuse(n)) && (Untroubled(n) ==> Untroubled(s))
  {
    hide Append, Fails;
    var n, i := Do(test, s, a), a.i;
    if !Untroubled(s) {
      ExcuseStays(s, n);
      TroubleStays(s, n, i);
    } else {
      assert !Failed(s.phases[i]);
      assert !n.starved ==> forall j: nat :: j < |n.phases| ==> !Failed(n.phases[j]);
    }
  }

  // ---------------------------------------------------------------- what threads ask for and count

  /** A writer asks to send all that is left of its frame, a reader asks for up to 4096 bytes; neither would block. */
  lemma CallsAskFor(test: Test, s: State, i: nat)
    requires test.Valid() && Shaped(test, s) && Enables(test, s, Call(i)) && Linked(test, s, i)
    ensures var phase, th := s.phases[i], Do(test, s, Call(i)).driver.threads[i];
            && (phase.Writing? ==>
                  && test.roles[i].Writer? && phase.sent < test.o.size
                  && var frame := Built(test.o.size, test.roles[i].id, phase.next);
                     th == P.Locking(P.WriteCall(frame[phase.sent..], true)))
            && (!phase.Writing? ==> phase.Reading? && th == P.Locking(P.ReadCall(4096, true)))
  {
    if s.phases[i].Writing? {
      assert InRange(test.o, Message(test.roles[i].id, s.phases[i].next));
    }
  }

  /** The step logs a write that accepted bytes of the frame that thread `u` is sending; how many. */
  function Heeded(test: Test, s: State, a: Action, u: nat): (n: nat)
    requires Shaped(test, s) && Enables(test, s, a)
  {
    var log, was := Do(test, s, a).driver.log, |s.driver.log|;
    if a.Inner? && a.i == u && was < |log| && log[was].WriteDone? then log[was].n else 0
  }

  /** What a writer has sent is what the device has accepted; a frame is completed just when all of it is accepted, and
      given up only after a failed call or when the others were told to stop. Every failure is counted once, and from
      then on everybody is told to stop. */
  lemma CountsStep(test: Test, s: State, a: Action, u: nat)
    requires test.Valid() && Shaped(test, s) && AllLinked(test, s) && R.Sound(test.start, s.driver)
    requires Enables(test, s, a) && u < |s.phases| && s.phases[u].Writing?
    ensures var n, before := Do(test, s, a), s.phases[u];
            match n.phases[u]
            case Writing(next, sent) => next == before.next && sent == before.sent + Heeded(test, s, a, u)
            case Between(next) =>
              a == Unlock(u) && before.sent == test.o.size && next == before.next + 1 && n.completed == s.completed + 1
            case Broken =>
              || (a == Cancel(u) && s.stop && before.sent < test.o.size)
              || (a.Inner? && a.i == u && |n.driver.log| > |s.driver.log| && Fails(n.driver.log[|s.driver.log|]))
            case _ => false
  {
    hide P.Do, P.Enables, R.Sound, Built, CallOf, C.Answers, WantsCall, Serves;
    assert Linked(test, s, u);
    if a.Inner? && a.i == u {
      InnerHears(test, s, u, a.action);
    }
  }

  lemma FailuresStep(test: Test, s: State, a: Action)
    requires Shaped(test, s) && Enables(test, s, a)
    ensures var n := Do(test, s, a);
            var fails := a.Report? || (a.Validate? && !a.granted);
            && n.errors == s.errors + (if fails then 1 else 0) && (n.stop <==> s.stop || fails)
            && n.completed == s.completed + (if a.Unlock? && s.phases[a.i].Writing? then 1 else 0)
            && (a.Report? <==> n.phases[a.i].Stopped? && !s.phases[a.i].Stopped?)
  {
    hide P.Do, P.Enables;
  }

  // ---------------------------------------------------------------- the story goes on

  lemma WriteLockStory(test: Test, s: State, n: State, i: nat)
    requires test.Valid() && Shaped(test, s) && Shaped(test, n) && Story(test, s) && i < |s.phases|
    requires test.roles[i].Writer? && s.phases[i].Between? && s.phases[i].next < test.o.messages && s.writeLock == None
    requires n == s.(phases := s.phases[i := Writing(s.phases[i].next, 0)], writeLock := Some(i),
                     order := s.order + [Message(test.roles[i].id, s.phases[i].next)])
    requires s.readLock != Some(i)
    ensures Story(test, n)
  {
    hide Feed, Joined, S.Accepted, S.Delivered, Orderly, Stream, SentOnce, Built, Rest, InRange, Test.Valid;
    var m := Message(test.roles[i].id, s.phases[i].next);
    BeginOrderly(test, s, n, i, m);
    BegunIsSent(test, s.order, m, S.Accepted(s.driver.log));
    assert Pending(n) == Pending(s);
  }

  lemma BegunIsSent(test: Test, order: seq<Message>, m: Message, accepted: seq<byte>)
    requires ValidOptions(test.o) && SentOnce(test.o, order) && SentOnce(test.o, order + [m]) && InRange(test.o, m)
    requires accepted + [] == Stream(test.o, order)
    ensures accepted + Rest(test.o, m.writer, m.sequence, 0) == Stream(test.o, order + [m])
  {
    hide Built;
    StreamSnoc(test.o, order, m);
    var f := Built(test.o.size, m.writer, m.sequence);
    assert f[0..] == f && accepted + [] == accepted;
  }

  lemma BeginOrderly(test: Test, s: State, n: State, i: nat, m: Message)
    requires test.Valid() && Shaped(test, s) && Shaped(test, n) && Orderly(test, s) && i < |s.phases|
    requires test.roles[i].Writer? && s.phases[i].Between? && s.phases[i].next < test.o.messages
    requires m == Message(test.roles[i].id, s.phases[i].next) && s.writeLock == None && n.writeLock.Some?
    requires n.phases == s.phases[i := Writing(s.phases[i].next, 0)] && n.order == s.order + [m]
    requires n.completed == s.completed
    ensures Orderly(test, n) && InRange(test.o, m) && SentOnce(test.o, s.order) && SentOnce(test.o, n.order)
    ensures ValidOptions(test.o)
  {
    assert m in s.order <==> s.phases[i].next < Begun(s.phases[i]);
    forall u: nat, k: nat | u < |n.phases| && test.roles[u].Writer?
      ensures Message(test.roles[u].id, k) in n.order <==> k < Begun(n.phases[u])
    {
      assert Message(test.roles[u].id, k) in s.order <==> k < Begun(s.phases[u]);
      assert Message(test.roles[u].id, k) in n.order <==>
          Message(test.roles[u].id, k) in s.order || Message(test.roles[u].id, k) == m;
      if u < i {
        assert test.roles[u].id != test.roles[i].id;
      } else if i < u {
        assert test.roles[i].id != test.roles[u].id;
      }
    }
  }

  /** A step that begins no frame and completes none. */
  lemma SameOrder(test: Test, s: State, n: State)
    requires Shaped(test, s) && Shaped(test, n) && Orderly(test, s)
    requires n.order == s.order && n.completed == s.completed && n.writeLock == s.writeLock
    requires forall i :: 0 <= i < |s.phases| && test.roles[i].Writer? ==> Begun(n.phases[i]) == Begun(s.phases[i])
    ensures Orderly(test, n)
  {
    hide SentOnce;
    forall u: nat, k: nat | u < |n.phases| && test.roles[u].Writer?
      ensures Message(test.roles[u].id, k) in n.order <==> k < Begun(n.phases[u])
    {
      assert Message(test.roles[u].id, k) in s.order <==> k < Begun(s.phases[u]);
    }
  }

  /** A step that changes neither the log nor what is begun, unsent, fed or pending. */
  lemma SameStory(test: Test, s: State, n: State)
    requires Shaped(test, s) && Shaped(test, n) && ValidOptions(test.o) && Story(test, s) && Orderly(test, n)
    requires n.order == s.order && n.fed == s.fed && n.progress == s.progress && n.driver.log == s.driver.log
    requires Unsent(test, n) == Unsent(test, s) && Pending(n) == Pending(s)
    ensures Story(test, n)
  {
    hide Feed, Joined, S.Accepted, S.Delivered, Stream, Orderly, Unsent, Pending;
  }

  lemma ReadLockStory(test: Test, s: State, n: State, i: nat)
    requires Shaped(test, s) && Shaped(test, n) && ValidOptions(test.o) && Story(test, s) && i < |s.phases|
    requires !test.roles[i].Writer? && s.readLock == None
    requires n == s.(phases := s.phases[i := Reading], readLock := Some(i))
    ensures Story(test, n)
  {
    hide Feed, Joined, S.Accepted, S.Delivered, Stream;
    SameOrder(test, s, n);
    SameStory(test, s, n);
  }

  lemma FrameDone(test: Test, s: State, n: State, i: nat)
    requires Shaped(test, s) && Shaped(test, n) && ValidOptions(test.o) && Story(test, s) && i < |s.phases|
    requires test.roles[i].Writer? && s.phases[i].Writing? && s.phases[i].sent == test.o.size
    requires s.writeLock == Some(i) && s.readLock != Some(i)
    requires n == s.(phases := s.phases[i := Between(s.phases[i].next + 1)], writeLock := None,
                     completed := s.completed + 1)
    ensures Story(test, n)
  {
    hide Feed, Joined, S.Accepted, S.Delivered, Stream, SentOnce, Built, Sent, Got;
    forall u: nat, k: nat | u < |n.phases| && test.roles[u].Writer?
      ensures Message(test.roles[u].id, k) in n.order <==> k < Begun(n.phases[u])
    {
      assert Message(test.roles[u].id, k) in s.order <==> k < Begun(s.phases[u]);
    }
    SameStory(test, s, n);
  }

  lemma ReadUnlockStory(test: Test, s: State, n: State, i: nat)
    requires Shaped(test, s) && Shaped(test, n) && ValidOptions(test.o) && Story(test, s) && i < |s.phases|
    requires test.roles[i].Reader? && s.phases[i].Leaving? && s.readLock == Some(i) && s.writeLock != Some(i)
    requires n == s.(phases := s.phases[i := Between(0)], readLock := None)
    ensures Story(test, n)
  {
    hide Feed, Joined, S.Accepted, S.Delivered, Stream;
    SameOrder(test, s, n);
    SameStory(test, s, n);
  }

  lemma ValidateStory(test: Test, s: State, n: State, i: nat)
    requires Shaped(test, s) && Shaped(test, n) && ValidOptions(test.o) && Story(test, s) && i < |s.phases|
    requires test.roles[i].Reader? && s.phases[i].Holding? && s.readLock == Some(i) && s.writeLock != Some(i)
    requires n == s.(phases := s.phases[i := Leaving], progress := Append(test.o, s.progress, s.phases[i].data),
                     fed := s.fed + [s.phases[i].data])
    ensures Story(test, n)
  {
    hide Feed, Joined, S.Accepted, S.Delivered, Append, Stream;
    var data := s.phases[i].data;
    SameOrder(test, s, n);
    assert Unsent(test, n) == Unsent(test, s);
    JoinedConcat(s.fed, [data]);
    OneRead(test.o, Feed(test.o, Empty(test.o), s.fed), data);
    FeedConcat(test.o, Empty(test.o), s.fed, [data]);
    assert Joined(s.fed) + data + [] == Joined(s.fed) + data;
  }

  lemma BeginStory(test: Test, s: State, n: State)
    requires Shaped(test, s) && ValidOptions(test.o) && Story(test, s)
    requires n == s.(driver := n.driver) && n.driver.log == s.driver.log && |n.driver.threads| == |s.driver.threads|
    ensures Story(test, n)
  {
    hide Feed, Joined, S.Accepted, S.Delivered, Stream;
    SameOrder(test, s, n);
    assert Unsent(test, n) == Unsent(test, s) && Pending(n) == Pending(s);
  }

  lemma LogGrows(log: seq<S.Event>, longer: seq<S.Event>)
    requires |longer| == |log| + 1 && longer[..|log|] == log && longer[|log|] != S.Cleared
    ensures var e := longer[|log|];
            && S.Accepted(longer) == S.Accepted(log)
                                     + (if e.WriteDone? && e.n <= |e.request| then e.request[..e.n] else [])
            && S.Delivered(longer) == S.Delivered(log) + (if e.ReadDone? then e.data else [])
  {
  }

  lemma FrameAdvances(o: Options, writer: nat, next: nat, sent: nat, n: nat, accepted: seq<byte>)
    requires ValidOptions(o) && InRange(o, Message(writer, next)) && sent + n <= o.size
    ensures var rest := Rest(o, writer, next, sent);
            accepted + rest[..n] + Rest(o, writer, next, sent + n) == accepted + rest
  {
    hide Built;
    var f := Built(o.size, writer, next);
    assert f[sent..] == f[sent..][..n] + f[sent + n..];
  }

  lemma WriterHeard(test: Test, s: State, n: State, i: nat)
    requires test.Valid() && Shaped(test, s) && Shaped(test, n) && Story(test, s) && i < |s.phases|
    requires Linked(test, s, i) && s.phases[i].Writing? && WantsCall(test, s.phases[i])
    requires Hears(test, s, n, i) && |n.driver.log| > |s.driver.log| && !Failed(n.phases[i])
    ensures Story(test, n)
  {
    hide Feed, Joined, S.Accepted, S.Delivered, Stream, SentOnce, Built, Serves, Controls;
    var e, phase, log := n.driver.log[|s.driver.log|], s.phases[i], s.driver.log;
    LogGrows(log, n.driver.log);
    SameOrder(test, s, n);
    assert Pending(n) == Pending(s);
    var id := test.roles[i].id;
    if e.WriteDone? {
      FrameAdvances(test.o, id, phase.next, phase.sent, e.n, S.Accepted(log));
    } else {
      assert S.Accepted(log) + [] == S.Accepted(log);
    }
    assert S.Delivered(log) + [] == S.Delivered(log);
  }

  lemma ReaderHeard(test: Test, s: State, n: State, i: nat)
    requires test.Valid() && Shaped(test, s) && Shaped(test, n) && Story(test, s) && i < |s.phases|
    requires Linked(test, s, i) && s.phases[i].Reading?
    requires Hears(test, s, n, i) && |n.driver.log| > |s.driver.log| && !Failed(n.phases[i])
    ensures Story(test, n)
  {
    hide Feed, Joined, S.Accepted, S.Delivered, Stream, SentOnce, Serves, Controls;
    var e, log := n.driver.log[|s.driver.log|], s.driver.log;
    LogGrows(log, n.driver.log);
    SameOrder(test, s, n);
    assert Unsent(test, n) == Unsent(test, s);
    assert S.Accepted(log) + [] == S.Accepted(log) && S.Delivered(log) + [] == S.Delivered(log);
    assert Joined(s.fed) + [] + Pending(n) == Joined(s.fed) + Pending(n);
  }

  lemma NeutralStory(test: Test, s: State, n: State)
    requires Shaped(test, s) && Shaped(test, n) && ValidOptions(test.o) && Story(test, s)
    requires C.LogsOne(s.driver, n.driver) && Neutral(n.driver.log[|s.driver.log|]) && n == s.(driver := n.driver)
    ensures Story(test, n)
  {
    hide Feed, Joined, S.Accepted, S.Delivered, Stream;
    var log := s.driver.log;
    LogGrows(log, n.driver.log);
    SameOrder(test, s, n);
    assert Unsent(test, n) == Unsent(test, s) && Pending(n) == Pending(s);
    assert S.Accepted(log) + [] == S.Accepted(log) && S.Delivered(log) + [] == S.Delivered(log);
  }

  lemma InnerStory(test: Test, s: State, n: State, i: nat)
    requires test.Valid() && Shaped(test, s) && Shaped(test, n) && Story(test, s) && i < |s.phases|
    requires Linked(test, s, i) && Hears(test, s, n, i) && !Failed(n.phases[i])
    ensures Story(test, n)
  {
    hide Story, Linked, C.Answers;
    if |n.driver.log| <= |s.driver.log| {
      BeginStory(test, s, n);
    } else if s.phases[i].Reading? {
      ReaderHeard(test, s, n, i);
    } else if WantsCall(test, s.phases[i]) {
      WriterHeard(test, s, n, i);
    } else {
      assert Heard(s.phases[i], n.driver.log[|s.driver.log|]) == s.phases[i];
      assert n.phases == s.phases;
      NeutralStory(test, s, n);
    }
  }

  lemma StoryStep(test: Test, s: State, a: Action)
    requires Inv(test, s) && Enables(test, s, a) && Shaped(test, Do(test, s, a))
    requires Untroubled(s) && Untroubled(Do(test, s, a))
    ensures Story(test, Do(test, s, a))
  {
    hide P.Do, P.Enables, R.Sound, CallOf, P.Begins, Story, Append, Hears, Controls, Serves, Test.Valid;
    var n, i := Do(test, s, a), a.i;
    assert test.Valid() && Linked(test, s, i) && !Failed(s.phases[i]) && !Failed(n.phases[i]);
    OptionsAreValid(test);
    match a
    case Lock(_) =>
      if test.roles[i].Writer? {
        WriteLockStory(test, s, n, i);
      } else {
        ReadLockStory(test, s, n, i);
      }
    case Call(_) =>
      BeginLinks(test, s, i, P.BeginCall(CallOf(test, test.roles[i], s.phases[i])), n);
      BeginStory(test, s, n);
    case Control(_, control) =>
      BeginLinks(test, s, i, P.BeginControl(control), n);
      BeginStory(test, s, n);
    case Inner(_, action) =>
      InnerHears(test, s, i, action);
      InnerStory(test, s, n, i);
    case Validate(_, _) => ValidateStory(test, s, n, i);
    case Unlock(_) =>
      if s.phases[i].Writing? {
        FrameDone(test, s, n, i);
      } else {
        ReadUnlockStory(test, s, n, i);
      }
    case _ =>
  }

  lemma OptionsAreValid(test: Test)
    requires test.Valid()
    ensures ValidOptions(test.o)
  {
  }

  // ---------------------------------------------------------------- every run

  lemma InitEstablishes(test: Test, s: State)
    requires test.Valid() && Init(test, s)
    ensures Inv(test, s)
  {
    hide R.Sound;
    R.SoundInit(s.driver);
    forall i: nat | i < |s.phases| ensures Linked(test, s, i) {
    }
    assert Untroubled(s);
    assert Orderly(test, s) && Sent(test, s) && Got(test, s);
  }

  lemma StepKeeps(test: Test, s: State, a: Action)
    requires Inv(test, s) && Enables(test, s, a)
    ensures Inv(test, Do(test, s, a))
  {
    hide Do, Enables, R.Sound, AllLinked, Story, Untroubled, Excuse, Test.Valid;
    LinkStep(test, s, a);
    TroubleStep(test, s, a);
    OptionsAreValid(test);
    if Untroubled(Do(test, s, a)) {
      StoryStep(test, s, a);
    }
  }

  lemma {:induction false} RunKeeps(test: Test, states: seq<State>, actions: seq<Action>, k: nat)
    requires test.Valid() && Run(test, states, actions) && k < |states|
    ensures Inv(test, states[k])
  {
    hide Do, Enables, Inv, Test.Valid;
    if k == 0 {
      InitEstablishes(test, states[0]);
    } else {
      RunKeeps(test, states, actions, k - 1);
      StepKeeps(test, states[k - 1], actions[k - 1]);
    }
  }

  // ---------------------------------------------------------------- what the test reports

  /** Reads that make up a beginning of the frame stream count no failure. */
  lemma BeginningIsClean(o: Options, order: seq<Message>, chunks: seq<seq<byte>>, rest: seq<byte>)
    requires ValidOptions(o) && SentOnce(o, order) && Joined(chunks) + rest == Stream(o, order)
    ensures Feed(o, Empty(o), chunks).failures == 0
  {
    hide Feed, Stream, Joined, SentOnce, AllMarks;
    var p := Empty(o);
    NothingMarked(o, order);
    StreamIsClean(o, order, p.seen);
    CleanContinues(o, p.(buffer := Joined(chunks)), rest);
    assert [] + Joined(chunks) == Joined(chunks);
    FeedCountsUnclean(o, p, chunks);
  }

  /** What the device has taken is what it has delivered and what it stores. */
  lemma DeviceIsFifo(test: Test, s: State)
    requires Inv(test, s)
    ensures S.Explained(test.start, s.driver.log)
    ensures S.Accepted(s.driver.log) == S.Delivered(s.driver.log) + S.Replay(test.start, s.driver.log).bytes
  {
    hide Story, AllLinked;
    S.FifoLaw(test.start, s.driver.log);
  }

  /** What was begun is what was validated, what is held back on the way, and what the device stores. */
  lemma StreamParts(test: Test, s: State)
    requires Inv(test, s) && Untroubled(s) && S.Explained(test.start, s.driver.log)
    ensures ValidOptions(test.o) && SentOnce(test.o, s.order)
    ensures Joined(s.fed) + (Pending(s) + S.Replay(test.start, s.driver.log).bytes + Unsent(test, s))
         == Stream(test.o, s.order)
  {
    hide R.Sound, AllLinked, Feed, Stream, Joined, S.Accepted, S.Delivered, S.Explained, S.Replay, SentOnce, Pending,
      Unsent, Untroubled;
    DeviceIsFifo(test, s);
    Regroup(Joined(s.fed), Pending(s), S.Replay(test.start, s.driver.log).bytes, Unsent(test, s));
  }

  lemma Regroup(a: seq<byte>, b: seq<byte>, c: seq<byte>, d: seq<byte>)
    ensures a + (b + c + d) == a + b + c + d
  {
  }

  lemma StoryIsClean(test: Test, s: State)
    requires Inv(test, s) && Untroubled(s)
    ensures s.progress.failures == 0
  {
    hide R.Sound, AllLinked, Feed, Stream, Joined, S.Accepted, S.Delivered, S.Explained, S.Replay, SentOnce, Pending,
      Unsent, Untroubled, Orderly;
    DeviceIsFifo(test, s);
    StreamParts(test, s);
    BeginningIsClean(test.o, s.order, s.fed,
                     Pending(s) + S.Replay(test.start, s.driver.log).bytes + Unsent(test, s));
  }

  /** In every state of every run, as long as no call and no allocation has failed, no failure is counted. */
  lemma NothingIsCounted(test: Test, states: seq<State>, actions: seq<Action>, k: nat)
    requires test.Valid() && Run(test, states, actions) && k < |states| && !Excuse(states[k])
    ensures states[k].progress.failures == 0 && states[k].errors == 0 && !states[k].stop
  {
    hide Excuse, Run, R.Sound, AllLinked, Story, Test.Valid;
    RunKeeps(test, states, actions, k);
    StoryIsClean(test, states[k]);
  }

  /** Every thread has left its loop. */
  predicate Finished(test: Test, s: State)
    requires Shaped(test, s)
  {
    forall i: nat :: i < |s.phases| ==>
      && s.driver.threads[i] == P.Idle
      && (s.phases[i].Stopped?
          || (s.phases[i].Between? && (test.roles[i].Writer? ==> s.phases[i].next == test.o.messages || s.stop)))
  }

  lemma ThreadMayCall(test: Test, s: State, i: nat)
    requires test.Valid() && Shaped(test, s) && i < |s.phases| && Linked(test, s, i)
    requires s.driver.threads[i] == P.Idle && WantsCall(test, s.phases[i])
    ensures Enables(test, s, Call(i))
  {
    if s.phases[i].Writing? {
      assert InRange(test.o, Message(test.roles[i].id, s.phases[i].next));
    }
  }

  /** A thread that holds a lock, or has one more thing to report, can go on. */
  lemma HolderGoesOn(test: Test, s: State, i: nat) returns (a: Action)
    requires test.Valid() && Shaped(test, s) && i < |s.phases| && Linked(test, s, i)
    requires s.driver.threads[i] == P.Idle && !s.phases[i].Between? && !s.phases[i].Stopped?
    ensures Enables(test, s, a)
  {
    hide CallOf, P.Enables, Built;
    match s.phases[i] {
      case Writing(_, sent) =>
        if sent < test.o.size {
          ThreadMayCall(test, s, i);
          a := Call(i);
        } else {
          a := Unlock(i);
        }
      case Reading =>
        ThreadMayCall(test, s, i);
        a := Call(i);
      case Holding(_) => a := Validate(i, true);
      case Leaving => a := Unlock(i);
      case Broken => a := Unlock(i);
      case Reporting => a := Report(i);
    }
  }

  /** A thread that waits for a lock can take it, or its holder can go on. */
  lemma WaiterGoesOn(test: Test, s: State, i: nat) returns (a: Action)
    requires test.Valid() && Shaped(test, s) && AllLinked(test, s) && i < |s.phases|
    requires (forall u: nat :: u < |s.phases| ==> s.driver.threads[u] == P.Idle)
    requires s.phases[i].Between? && test.roles[i].Writer? && s.phases[i].next < test.o.messages
    ensures Enables(test, s, a)
  {
    hide Linked;
    if s.writeLock == None {
      a := Lock(i);
    } else {
      var j := s.writeLock.value;
      assert Linked(test, s, j);
      LockIsUsed(test, s, j);
      a := HolderGoesOn(test, s, j);
    }
  }

  lemma LockIsUsed(test: Test, s: State, j: nat)
    requires Shaped(test, s) && j < |s.phases| && Linked(test, s, j) && s.writeLock == Some(j)
    ensures !s.phases[j].Between? && !s.phases[j].Stopped?
  {
  }

  /** The test never gets stuck: until every thread has left its loop, some thread can go on. */
  lemma TestGoesOn(test: Test, states: seq<State>, actions: seq<Action>, k: nat)
    requires test.Valid() && Run(test, states, actions) && k < |states|
    ensures Shaped(test, states[k]) && (!Finished(test, states[k]) ==> exists a :: Enables(test, states[k], a))
  {
    hide R.Sound, AllLinked, Story, Enables, Test.Valid;
    var s := states[k];
    RunKeeps(test, states, actions, k);
    if !Finished(test, s) {
      if i: nat :| i < |s.phases| && s.driver.threads[i] != P.Idle {
        var u := DriverGoesOn(test, s, i);
        assert Enables(test, s, Inner(u, C.OwnStep(s.driver, u)));
      } else {
        var i: nat :| i < |s.phases| && !s.phases[i].Stopped?
          && !(s.phases[i].Between? && (test.roles[i].Writer? ==> s.phases[i].next == test.o.messages || s.stop));
        var a := OutsideGoesOn(test, s, i);
      }
    }
  }

  lemma DriverGoesOn(test: Test, s: State, i: nat) returns (u: nat)
    requires Shaped(test, s) && AllLinked(test, s) && R.Sound(test.start, s.driver)
    requires i < |s.phases| && s.driver.threads[i] != P.Idle
    ensures u < |s.phases| && Enables(test, s, Inner(u, C.OwnStep(s.driver, u)))
  {
    hide P.Enables, C.OwnStep, P.Begins, W.WakeInv, R.LogInv, Linked;
    assert Linked(test, s, i);
    LinkedDoesNotWait(test, s, i);
    u := C.SomeoneGoesOn(s.driver, i);
  }

  lemma OutsideGoesOn(test: Test, s: State, i: nat) returns (a: Action)
    requires test.Valid() && Shaped(test, s) && AllLinked(test, s)
    requires forall u: nat :: u < |s.phases| ==> s.driver.threads[u] == P.Idle
    requires i < |s.phases| && !s.phases[i].Stopped?
    requires !(s.phases[i].Between? && (test.roles[i].Writer? ==> s.phases[i].next == test.o.messages || s.stop))
    ensures Enables(test, s, a)
  {
    hide Enables, Test.Valid;
    assert Linked(test, s, i);
    if s.phases[i].Between? {
      a := WaiterGoesOn(test, s, i);
    } else {
      a := HolderGoesOn(test, s, i);
    }
  }

  /** The failures reported at the end; leftover bytes are one more. */
  function Failures(s: State): (n: nat) {
    s.progress.failures + s.errors + if s.progress.buffer != [] then 1 else 0
  }

  /** The test exits with status 0. */
  predicate Passes(test: Test, s: State) {
    var expected := test.o.writers * test.o.messages;
    && s.completed == expected && s.progress.validated == expected
    && (forall slot :: 0 <= slot < |s.progress.seen| ==> s.progress.seen[slot]) && Failures(s) == 0
  }

  /** Whatever is left undecided in the stream at the end makes one failure more, and the test cannot pass. */
  lemma LeftoversAreFailures(test: Test, s: State)
    ensures s.progress.buffer != [] ==> !Passes(test, s) && Failures(s) == s.progress.failures + s.errors + 1
    ensures Failures(s) == 0 <==> s.progress.failures == 0 && s.errors == 0 && s.progress.buffer == []
  {
  }

  lemma FinishedIsQuiet(test: Test, s: State)
    requires Inv(test, s) && Untroubled(s) && Finished(test, s) && S.Explained(test.start, s.driver.log)
    ensures Pending(s) == [] && Unsent(test, s) == [] && s.writeLock == None && s.errors == 0
    ensures S.Replay(test.start, s.driver.log) == s.driver.q
  {
    hide Story, W.WakeInv, W.ModeInv, W.WaiterInv;
    forall i: nat | i < |s.phases| ensures s.writeLock != Some(i) && s.readLock != Some(i) {
      assert Linked(test, s, i) && !Failed(s.phases[i]);
    }
    assert R.Owner(s.driver) == P.Idle;
  }

  /** Every frame has been begun. */
  lemma FinishedSentAll(test: Test, s: State)
    requires Inv(test, s) && Untroubled(s) && Finished(test, s)
    ensures ValidOptions(test.o) && SentAll(test.o, s.order)
    ensures |s.order| == test.o.writers * test.o.messages
  {
    hide R.Sound, Sent, Got, AllLinked, SentOnce;
    forall m | InRange(test.o, m) ensures m in s.order {
      assert Writer(m.writer) in test.roles;
      var i :| 0 <= i < |test.roles| && test.roles[i] == Writer(m.writer);
      assert !Failed(s.phases[i]) && m == Message(test.roles[i].id, m.sequence);
    }
    MessageCount(test.o, s.order);
  }

  lemma {:induction false} StreamLength(o: Options, order: seq<Message>)
    requires ValidOptions(o) && forall k :: 0 <= k < |order| ==> InRange(o, order[k])
    ensures |Stream(o, order)| == |order| * o.size
    decreases |order|
  {
    hide Built;
    if order == [] {
    } else {
      StreamLength(o, order[1..]);
      assert |order| * o.size == (|order| - 1) * o.size + o.size;
    }
  }

  /** Every validated frame has cost its bytes. */
  lemma {:induction false} DrainPays(o: Options, p: Progress)
    ensures Drain(o, p).validated * o.size + |Drain(o, p).buffer| <= p.validated * o.size + |p.buffer|
    decreases |p.buffer|
  {
    var (q, more) := Turn(o, p);
    TurnPays(o, p);
    if more {
      DrainPays(o, q);
    }
  }

  lemma TurnPays(o: Options, p: Progress)
    ensures Turn(o, p).0.validated * o.size + |Turn(o, p).0.buffer| <= p.validated * o.size + |p.buffer|
  {
    hide FindMagic, HeaderOf, GoodLength;
    assert (p.validated + 1) * o.size == p.validated * o.size + o.size;
  }

  lemma {:induction false} FeedPays(o: Options, p: Progress, chunks: seq<seq<byte>>)
    ensures Feed(o, p, chunks).validated * o.size <= p.validated * o.size + |p.buffer| + |Joined(chunks)|
    decreases |chunks|
  {
    hide Drain;
    if chunks == [] {
    } else {
      DrainPays(o, p.(buffer := p.buffer + chunks[0]));
      FeedPays(o, Append(o, p, chunks[0]), chunks[1..]);
    }
  }

  /** The verdict is exact: a finished test passes if and only if no call and no allocation has failed and the readers
      have emptied the device. Then every frame of every writer was validated once, in the order in which the writers
      got the lock. */
  lemma VerdictIsExact(test: Test, states: seq<State>, actions: seq<Action>)
    requires test.Valid() && Run(test, states, actions)
    requires var s := states[|actions|]; Shaped(test, s) && Finished(test, s)
    ensures var s := states[|actions|];
            && (Passes(test, s) <==> !Excuse(s) && s.driver.q.bytes == [])
            && (Passes(test, s) ==> s.progress.accepted == Headers(s.order) && SentAll(test.o, s.order))
  {
    hide Excuse, Test.Valid, R.Sound, AllLinked, Feed, Stream, Joined, S.Explained, S.Replay, SentOnce, AllMarks,
      Unsent, Pending, Headers, Finished, Passes, Untroubled;
    var s := states[|actions|];
    RunKeeps(test, states, actions, |actions|);
    if Excuse(s) {
      TroubleIsReported(test, s);
    } else {
      assert S.Explained(test.start, s.driver.log) by {
        DeviceIsFifo(test, s);
      }
      StreamParts(test, s);
      FinishedIsQuiet(test, s);
      FinishedSentAll(test, s);
      Verdict(test, s);
    }
  }

  lemma TroubleIsReported(test: Test, s: State)
    requires Shaped(test, s) && Counted(s) && !Untroubled(s) && Finished(test, s)
    ensures !Passes(test, s)
  {
    forall i: nat | i < |s.phases| && Failed(s.phases[i]) ensures s.errors > 0 {
      assert s.phases[i].Stopped?;
    }
  }

  lemma Verdict(test: Test, s: State)
    requires ValidOptions(test.o) && SentAll(test.o, s.order) && |s.order| == test.o.writers * test.o.messages
    requires Joined(s.fed) + ([] + s.driver.q.bytes + []) == Stream(test.o, s.order)
    requires s.progress == Feed(test.o, Empty(test.o), s.fed) && s.errors == 0 && s.completed == |s.order|
    ensures Passes(test, s) <==> s.driver.q.bytes == []
    ensures Passes(test, s) ==> s.progress.accepted == Headers(s.order)
  {
    hide Feed, Stream, Joined, Headers;
    var q := s.driver.q.bytes;
    if q == [] {
      assert Joined(s.fed) + [] == Joined(s.fed);
      EveryFrameArrives(test.o, s.order, s.fed);
    } else if Passes(test, s) {
      StreamLength(test.o, s.order);
      FeedPays(test.o, Empty(test.o), s.fed);
      assert false;
    }
  }
}
