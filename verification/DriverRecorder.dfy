/** evaluate_concurrent of lab/concurrency.py against the driver itself: workers issue nonblocking system calls without
    faults, the driver executes them step by step with its mutex, and the recorder stamps and appends what they return.
    The driver is never accused. */
module DriverRecorder {
  import opened Bytes
  import opened Contract
  import opened Limits
  import C = Calls
  import Checker
  import History
  import P = Protocol
  import R = Recorder
  import S = Serial
  import Refinement

  /** `inside` names the operation for which each worker's thread is in the driver. */
  datatype State = State(clock: int, driver: P.State, inside: seq<Option<nat>>, phases: seq<R.Phase>, order: seq<nat>,
                         history: seq<History.Event>)

  datatype Action =
    | Tick(clock: int)
    | Invoke(i: nat)
    | Enter(i: nat)
    | Inner(t: nat, action: P.Action)
    | Instant(i: nat)
    | Return(i: nat)
    | Record(i: nat)

  // ---------------------------------------------------------------- system calls

  /** Operations that the driver answers without changing anything: empty transfers, a capacity that fails the range
      check, and the capacity query. */
  predicate Passive(op: Op) {
    match op
    case Write(data) => data == []
    case Read(count) => count == 0
    case Resize(capacity) => !CapacityValid(capacity)
    case Clear => false
    case Capacity => true
  }

  function PassiveAnswer(op: Op, q: S.Queue): (r: Result) {
    match op
    case Write(_) => Success(0)
    case Read(_) => SuccessData([])
    case Resize(_) => Failure(EINVAL)
    case Clear => Success(0)
    case Capacity => Success(q.capacity)
  }

  /** How a thread enters the driver for an operation. */
  function Entry(op: Op): (r: P.Action)
    requires !Passive(op)
  {
    match op
    case Write(data) => P.BeginCall(P.WriteCall(data, true))
    case Read(count) => P.BeginCall(P.ReadCall(count, true))
    case Resize(capacity) => P.BeginControl(P.Resize(capacity))
    case Clear => P.BeginControl(P.Clear)
  }

  /** The steps of a call that neither faults nor is interrupted. */
  predicate Faultless(a: P.Action) {
    match a
    case CopySpan(_, missing) => missing == 0
    case Change(granted) => granted
    case BeginCall(_) => false
    case BeginControl(_) => false
    case ResetTotal(_) => false
    case Interrupt => false
    case _ => true
  }

  lemma FaultlessGoesOn(a: P.Action)
    requires Faultless(a)
    ensures !P.Begins(a)
  {
  }

  /** What the system call returns for the event of its critical section. */
  function AnswerOf(e: S.Event): (r: Result) {
    match e
    case ReadDone(_, data, _) => SuccessData(data)
    case WriteDone(_, n, _) => Success(n)
    case ReadAgain(_, _) => Failure(EAGAIN)
    case WriteAgain(_, _) => Failure(EAGAIN)
    case ReadEof(_) => SuccessData([])
    case WriteClosed(_) => Failure(ENODEV)
    case ReadFault(_) => Failure(EFAULT)
    case WriteFault(_) => Failure(EFAULT)
    case ResizeRefused(_, code) => Failure(code)
    case _ => Success(0)
  }

  // ---------------------------------------------------------------- steps

  predicate Init(plan: R.Plan, s: State) {
    && plan.Valid() && 0 <= s.clock
    && P.Init(s.driver) && s.driver.q == Fresh(plan)
    && |s.driver.threads| == |s.inside| == plan.workers
    && (forall w :: 0 <= w < |s.inside| ==> s.inside[w] == None)
    && |s.phases| == |plan.operations| && (forall i :: 0 <= i < |s.phases| ==> s.phases[i] == R.Pending)
    && s.order == [] && s.history == []
  }

  function Fresh(plan: R.Plan): (r: S.Queue) {
    S.Queue([], plan.capacity, false, false)
  }

  /** The sizes that never change. */
  predicate Shaped(plan: R.Plan, s: State) {
    && plan.Valid() && |s.phases| == |plan.operations| && |s.driver.threads| == |s.inside| == plan.workers
    && forall i :: 0 <= i < |plan.owners| ==> 0 <= plan.owners[i] < |s.inside|
  }

  predicate Enables(plan: R.Plan, s: State, a: Action)
    requires Shaped(plan, s)
  {
    match a
    case Tick(clock) => s.clock <= clock
    case Invoke(i) =>
      && i < |s.phases| && s.phases[i] == R.Pending
      && forall j :: 0 <= j < i && plan.owners[j] == plan.owners[i] ==> s.phases[j].Returned? && s.phases[j].recorded
    case Enter(i) =>
      && i < |s.phases| && s.phases[i].Invoked? && s.inside[plan.owners[i]] == None
      && !Passive(plan.operations[i]) && P.Enables(s.driver, plan.owners[i], Entry(plan.operations[i]))
    case Inner(t, action) =>
      t < |s.inside| && s.inside[t].Some? && s.inside[t].value < |s.phases| && Faultless(action)
      && P.Enables(s.driver, t, action)
    case Instant(i) =>
      && i < |s.phases| && s.phases[i].Invoked? && s.inside[plan.owners[i]] == None
      && Passive(plan.operations[i]) && (plan.operations[i] == Capacity ==> s.driver.owner == None)
    case Return(i) => i < |s.phases| && s.phases[i].Applied? && s.driver.threads[plan.owners[i]] == P.Idle
    case Record(i) => i < |s.phases| && s.phases[i].Returned? && !s.phases[i].recorded
  }

  /** Operation `i` has taken effect and will return `answer`. */
  function Settle(s: State, i: nat, answer: Result): (r: State)
    requires i < |s.phases|
  {
    var started := if s.phases[i].Invoked? then s.phases[i].started else 0;
    s.(phases := s.phases[i := R.Applied(started, s.clock, answer)], order := s.order + [i])
  }

  function Do(plan: R.Plan, s: State, a: Action): (r: State)
    requires Shaped(plan, s) && Enables(plan, s, a)
  {
    match a
    case Tick(clock) => s.(clock := clock)
    case Invoke(i) => s.(phases := s.phases[i := R.Invoked(s.clock)])
    case Enter(i) =>
      s.(driver := P.Do(s.driver, plan.owners[i], Entry(plan.operations[i])),
         inside := s.inside[plan.owners[i] := Some(i)])
    case Inner(t, action) =>
      var next := s.(driver := P.Do(s.driver, t, action));
      if |next.driver.log| > |s.driver.log|
      then Settle(next, s.inside[t].value, AnswerOf(next.driver.log[|s.driver.log|])) else next
    case Instant(i) => Settle(s, i, PassiveAnswer(plan.operations[i], s.driver.q))
    case Return(i) =>
      var p := s.phases[i];
      s.(phases := s.phases[i := R.Returned(p.started, p.at, p.answer, s.clock, false)],
         inside := s.inside[plan.owners[i] := None])
    case Record(i) =>
      var p := s.phases[i];
      s.(phases := s.phases[i := p.(recorded := true)], history := s.history + [R.EventOf(plan, i, p)])
  }

  // ---------------------------------------------------------------- one event against the contract

  function ModelOf(q: S.Queue): (m: Model)
    requires q.Valid()
    ensures m.Valid()
  {
    Model(q.capacity, q.bytes)
  }

  /** The event that a faultless call for `op` logs. */
  predicate EventFor(op: Op, e: S.Event) {
    match op
    case Write(data) =>
      data != [] && ((e.WriteDone? && e.request == data && !e.faulted) || e == S.WriteAgain(data, true))
    case Read(count) =>
      0 < count && ((e.ReadDone? && e.count == count && !e.faulted) || e == S.ReadAgain(count, true))
    case Resize(capacity) => e == S.Resized(capacity) || e == S.ResizeRefused(capacity, EMSGSIZE)
    case Clear => e == S.Cleared
    case Capacity => false
  }

  /** A permitted event answers and changes the queue as the contract says. */
  lemma EventIsContract(q: S.Queue, op: Op, e: S.Event)
    requires q.Valid() && S.Permitted(q, e) && EventFor(op, e)
    ensures Apply(ModelOf(q), op).0 == ModelOf(S.After(q, e)) && Apply(ModelOf(q), op).1 == AnswerOf(e)
  {
  }

  lemma PassiveIsContract(q: S.Queue, op: Op)
    requires q.Valid() && Passive(op)
    ensures Apply(ModelOf(q), op).0 == ModelOf(q) && Apply(ModelOf(q), op).1 == PassiveAnswer(op, q)
  {
    assert q.bytes[0..] == q.bytes && q.bytes[..0] == [];
    assert q.bytes + [] == q.bytes;
  }

  // ---------------------------------------------------------------- the thread inside the driver

  /** The thread is on its way to the critical section of `op`. */
  predicate Serves(th: P.Thread, op: Op) {
    && !Passive(op)
    && match th
       case Locking(c) => Entry(op) == P.BeginCall(c)
       case Deciding(c) => Entry(op) == P.BeginCall(c)
       case Copying(c, _, failed) => Entry(op) == P.BeginCall(c) && !failed
       case CtlLocking(k) => Entry(op) == P.BeginControl(k)
       case CtlHolding(k) => Entry(op) == P.BeginControl(k)
       case _ => false
  }

  ghost predicate DriverInv(plan: R.Plan, d: P.State) {
    Refinement.Sound(Fresh(plan), d) && !d.q.closing && !d.q.nonblock
  }

  lemma DriverStep(plan: R.Plan, d: P.State, t: nat, a: P.Action)
    requires DriverInv(plan, d) && P.Enables(d, t, a)
    requires a.Change? ==> d.threads[t].control.Clear? || d.threads[t].control.Resize?
    ensures DriverInv(plan, P.Do(d, t, a))
  {
    FlagsStay(d, t, a);
    hide P.Do, P.Enables, Refinement.Sound;
    Refinement.SoundStep(Fresh(plan), d, t, a);
  }

  lemma FlagsStay(d: P.State, t: nat, a: P.Action)
    requires P.Enables(d, t, a)
    requires a.Change? ==> d.threads[t].control.Clear? || d.threads[t].control.Resize?
    ensures P.Do(d, t, a).q.closing == d.q.closing && P.Do(d, t, a).q.nonblock == d.q.nonblock
  {
  }

  /** A step of a thread that serves `op` goes on serving it, or logs the one event of `op`. */
  lemma ServingStep(plan: R.Plan, d: P.State, t: nat, a: P.Action, op: Op)
    requires DriverInv(plan, d) && P.Enables(d, t, a) && Faultless(a) && Serves(d.threads[t], op)
    ensures var r := P.Do(d, t, a);
            if |r.log| > |d.log|
            then P.Served(r.threads[t]) && |r.log| == |d.log| + 1 && r.log[..|d.log|] == d.log
                 && EventFor(op, r.log[|d.log|])
            else r.log == d.log && Serves(r.threads[t], op)
  {
  }

  // ---------------------------------------------------------------- what the recorder sees

  /** The queue as the log describes it; unlogged copies of the mutex owner are not in it. */
  ghost function Logged(plan: R.Plan, s: State): (q: S.Queue)
    requires plan.Valid() && S.Explained(Fresh(plan), s.driver.log)
    ensures q.Valid()
  {
    S.Replay(Fresh(plan), s.driver.log)
  }

  /** The state of a recorder in front of an atomic device: every operation takes effect when it is logged. */
  ghost function Abs(plan: R.Plan, s: State): (r: R.State)
    requires plan.Valid() && S.Explained(Fresh(plan), s.driver.log)
  {
    R.State(s.clock, ModelOf(Logged(plan, s)), s.phases, s.order, s.history)
  }

  predicate LinkedAt(plan: R.Plan, s: State, w: nat)
    requires Shaped(plan, s) && w < |s.inside|
  {
    match s.inside[w]
    case None => s.driver.threads[w] == P.Idle
    case Some(i) =>
      && i < |s.phases| && plan.owners[i] == w
      && (|| (P.Served(s.driver.threads[w]) && s.phases[i].Applied?)
          || (Serves(s.driver.threads[w], plan.operations[i]) && s.phases[i].Invoked?))
  }

  predicate Linked(plan: R.Plan, s: State)
    requires Shaped(plan, s)
  {
    forall w: nat :: w < |s.inside| ==> LinkedAt(plan, s, w)
  }

  ghost predicate Inv(plan: R.Plan, s: State) {
    && Shaped(plan, s) && DriverInv(plan, s.driver) && S.Explained(Fresh(plan), s.driver.log)
    && Linked(plan, s) && R.Inv(plan, Abs(plan, s))
  }

  lemma InitEstablishes(plan: R.Plan, s: State)
    requires Init(plan, s)
    ensures Inv(plan, s)
  {
    Refinement.SoundInit(s.driver);
    forall i | 0 <= i < |plan.owners| ensures 0 <= plan.owners[i] < |s.inside| {
      assert plan.owners[i] in plan.owners;
    }
    R.InitEstablishes(plan, Abs(plan, s));
  }

  /** The step that a recorder in front of an atomic device takes at the same time, if any: an operation is applied when
      it is logged. */
  function MirrorOf(plan: R.Plan, s: State, a: Action): (r: Option<R.Action>)
    requires Shaped(plan, s) && Enables(plan, s, a)
  {
    match a
    case Tick(clock) => Some(R.Tick(clock))
    case Invoke(i) => Some(R.Invoke(i))
    case Return(i) => Some(R.Return(i))
    case Record(i) => Some(R.Record(i))
    case Instant(i) => Some(R.ApplyLocked(i))
    case Enter(_) => None
    case Inner(t, action) =>
      if |P.Do(s.driver, t, action).log| > |s.driver.log| then Some(R.ApplyLocked(s.inside[t].value)) else None
  }

  /** The recorder in front of an atomic device goes along: by this step, or without one. */
  ghost predicate Mirrors(plan: R.Plan, s: State, n: State, step: Option<R.Action>)
    requires plan.Valid() && S.Explained(Fresh(plan), s.driver.log) && S.Explained(Fresh(plan), n.driver.log)
    requires |s.phases| == |plan.operations|
  {
    match step
    case None => Abs(plan, n) == Abs(plan, s)
    case Some(r) => R.Enables(plan, Abs(plan, s), r) && Abs(plan, n) == R.Do(plan, Abs(plan, s), r)
  }

  /** The steps of the recorder alone. */
  lemma RecorderStep(plan: R.Plan, s: State, a: Action)
    requires Inv(plan, s) && Enables(plan, s, a) && (a.Tick? || a.Invoke? || a.Return? || a.Record?)
    ensures Inv(plan, Do(plan, s, a)) && Mirrors(plan, s, Do(plan, s, a), MirrorOf(plan, s, a))
  {
    hide DriverInv, R.Inv, R.EventOf;
    var r := match a
      case Tick(clock) => R.Tick(clock)
      case Invoke(i) => R.Invoke(i)
      case Return(i) => R.Return(i)
      case Record(i) => R.Record(i);
    R.StepKeeps(plan, Abs(plan, s), r);
    var n := Do(plan, s, a);
    forall w: nat | w < |n.inside| ensures LinkedAt(plan, n, w) {
      assert LinkedAt(plan, s, w);
    }
  }

  lemma EnterStep(plan: R.Plan, s: State, i: nat)
    requires Inv(plan, s) && Enables(plan, s, Enter(i))
    ensures Inv(plan, Do(plan, s, Enter(i))) && Mirrors(plan, s, Do(plan, s, Enter(i)), None)
  {
    hide DriverInv, R.Inv;
    var n, t, a := Do(plan, s, Enter(i)), plan.owners[i], Entry(plan.operations[i]);
    DriverStep(plan, s.driver, t, a);
    Entering(s.driver, t, plan.operations[i]);
    forall w: nat | w < |n.inside| ensures LinkedAt(plan, n, w) {
      assert LinkedAt(plan, s, w);
      if w != t {
        P.OthersStay(s.driver, t, a, w);
      }
    }
  }

  lemma Entering(d: P.State, t: nat, op: Op)
    requires !Passive(op) && P.Enables(d, t, Entry(op))
    ensures P.Do(d, t, Entry(op)).log == d.log && Serves(P.Do(d, t, Entry(op)).threads[t], op)
  {
  }

  /** An operation that settles with the contract's answer is an atomic step of the recorded device. */
  lemma Settles(plan: R.Plan, s: State, n: State, i: nat, answer: Result)
    requires Inv(plan, s) && i < |s.phases| && s.phases[i].Invoked?
    requires Shaped(plan, n) && DriverInv(plan, n.driver) && S.Explained(Fresh(plan), n.driver.log)
    requires Apply(ModelOf(Logged(plan, s)), plan.operations[i]).0 == ModelOf(Logged(plan, n))
    requires Apply(ModelOf(Logged(plan, s)), plan.operations[i]).1 == answer
    requires n == Settle(s, i, answer).(driver := n.driver) && Linked(plan, n)
    ensures Inv(plan, n) && Mirrors(plan, s, n, Some(R.ApplyLocked(i)))
  {
    hide DriverInv, R.Inv, Apply, Linked, Logged;
    R.StepKeeps(plan, Abs(plan, s), R.ApplyLocked(i));
    assert R.Do(plan, Abs(plan, s), R.ApplyLocked(i)) == Abs(plan, n);
  }

  /** The capacity of the device is always the logged one. */
  lemma LoggedCapacity(plan: R.Plan, s: State)
    requires Inv(plan, s)
    ensures Logged(plan, s).capacity == s.driver.q.capacity
  {
    hide R.Inv, Linked, S.Explained, S.Replay;
  }

  lemma InstantStep(plan: R.Plan, s: State, i: nat)
    requires Inv(plan, s) && Enables(plan, s, Instant(i))
    ensures Inv(plan, Do(plan, s, Instant(i))) && Mirrors(plan, s, Do(plan, s, Instant(i)), Some(R.ApplyLocked(i)))
  {
    hide DriverInv, R.Inv, Apply, Logged, Serves, S.Explained, Abs;
    var n := Do(plan, s, Instant(i));
    PassiveIsContract(Logged(plan, s), plan.operations[i]);
    LoggedCapacity(plan, s);
    forall w: nat | w < |n.inside| ensures LinkedAt(plan, n, w) {
      assert LinkedAt(plan, s, w);
    }
    assert Logged(plan, n) == Logged(plan, s) by {
      SameLog(plan, s, n);
    }
    Settles(plan, s, n, i, PassiveAnswer(plan.operations[i], s.driver.q));
  }

  lemma SameLog(plan: R.Plan, s: State, n: State)
    requires plan.Valid() && S.Explained(Fresh(plan), s.driver.log) && n.driver.log == s.driver.log
    ensures Logged(plan, n) == Logged(plan, s)
  {
  }

  /** The links survive a step inside the driver. */
  lemma InnerLinks(plan: R.Plan, s: State, t: nat, a: P.Action)
    requires Inv(plan, s) && Enables(plan, s, Inner(t, a))
    ensures Linked(plan, Do(plan, s, Inner(t, a)))
    ensures var d, r := s.driver, P.Do(s.driver, t, a);
            var i := s.inside[t].value;
            if |r.log| > |d.log|
            then s.phases[i].Invoked? && |r.log| == |d.log| + 1 && r.log[..|d.log|] == d.log
                 && EventFor(plan.operations[i], r.log[|d.log|])
            else r.log == d.log
  {
    hide R.Inv, Abs, S.Explained, DriverInv, P.Do, P.Enables, EventFor, Serves, P.Served, Faultless;
    var n, i := Do(plan, s, Inner(t, a)), s.inside[t].value;
    assert LinkedAt(plan, s, t);
    if s.phases[i].Applied? {
      FaultlessGoesOn(a);
      P.ServedStep(s.driver, t, a);
    } else {
      ServingStep(plan, s.driver, t, a, plan.operations[i]);
    }
    forall w: nat | w < |n.inside| ensures LinkedAt(plan, n, w) {
      assert LinkedAt(plan, s, w);
      if w != t {
        LinkedDoesNotWait(plan, s, w);
        P.OthersStay(s.driver, t, a, w);
      }
    }
  }

  lemma LinkedDoesNotWait(plan: R.Plan, s: State, w: nat)
    requires Shaped(plan, s) && w < |s.inside| && LinkedAt(plan, s, w)
    ensures !P.Waits(s.driver.threads[w])
    ensures s.inside[w].Some? ==> plan.owners[s.inside[w].value] == w
  {
  }

  /** One more logged event. */
  lemma LoggedGrows(plan: R.Plan, s: State, n: State)
    requires plan.Valid() && S.Explained(Fresh(plan), s.driver.log) && S.Explained(Fresh(plan), n.driver.log)
    requires |n.driver.log| == |s.driver.log| + 1 && n.driver.log[..|s.driver.log|] == s.driver.log
    ensures var e := n.driver.log[|s.driver.log|];
            S.Permitted(Logged(plan, s), e) && Logged(plan, n) == S.After(Logged(plan, s), e)
  {
  }

  lemma InnerStep(plan: R.Plan, s: State, t: nat, a: P.Action)
    requires Inv(plan, s) && Enables(plan, s, Inner(t, a))
    ensures Inv(plan, Do(plan, s, Inner(t, a)))
    ensures Mirrors(plan, s, Do(plan, s, Inner(t, a)), MirrorOf(plan, s, Inner(t, a)))
  {
    hide R.Inv, Apply, Logged, P.Do, P.Enables, EventFor, Serves, P.Served, Faultless, Linked, LinkedAt, AnswerOf,
      ModelOf;
    var n, i := Do(plan, s, Inner(t, a)), s.inside[t].value;
    InnerLinks(plan, s, t, a);
    InnerDriver(plan, s, t, a);
    if |n.driver.log| > |s.driver.log| {
      LoggedGrows(plan, s, n);
      EventIsContract(Logged(plan, s), plan.operations[i], n.driver.log[|s.driver.log|]);
      Settles(plan, s, n, i, AnswerOf(n.driver.log[|s.driver.log|]));
    } else {
      SameLog(plan, s, n);
    }
  }

  lemma InnerDriver(plan: R.Plan, s: State, t: nat, a: P.Action)
    requires Inv(plan, s) && Enables(plan, s, Inner(t, a))
    ensures DriverInv(plan, P.Do(s.driver, t, a)) && S.Explained(Fresh(plan), P.Do(s.driver, t, a).log)
  {
    hide R.Inv, P.Do, DriverInv;
    assert LinkedAt(plan, s, t);
    DriverStep(plan, s.driver, t, a);
    assert S.Explained(Fresh(plan), P.Do(s.driver, t, a).log) by {
      DriverIsLogged(plan, P.Do(s.driver, t, a));
    }
  }

  lemma DriverIsLogged(plan: R.Plan, d: P.State)
    requires DriverInv(plan, d)
    ensures S.Explained(Fresh(plan), d.log)
  {
  }

  /** Every step keeps the invariant, and is a step, or none, of the recorder in front of an atomic device. */
  lemma StepKeeps(plan: R.Plan, s: State, a: Action)
    requires Inv(plan, s) && Enables(plan, s, a)
    ensures Inv(plan, Do(plan, s, a)) && Mirrors(plan, s, Do(plan, s, a), MirrorOf(plan, s, a))
  {
    hide Inv, Mirrors;
    match a
    case Enter(i) => EnterStep(plan, s, i);
    case Inner(t, action) => InnerStep(plan, s, t, action);
    case Instant(i) => InstantStep(plan, s, i);
    case _ => RecorderStep(plan, s, a);
  }

  // ---------------------------------------------------------------- every run

  ghost predicate Run(plan: R.Plan, states: seq<State>, actions: seq<Action>) {
    && |states| == |actions| + 1 && Init(plan, states[0])
    && forall k :: 0 <= k < |actions| ==>
         && Shaped(plan, states[k]) && Enables(plan, states[k], actions[k])
         && states[k + 1] == Do(plan, states[k], actions[k])
  }

  lemma {:induction false} RunKeeps(plan: R.Plan, states: seq<State>, actions: seq<Action>, k: nat)
    requires Run(plan, states, actions) && k < |states|
    ensures Inv(plan, states[k])
  {
    if k == 0 {
      InitEstablishes(plan, states[0]);
    } else {
      RunKeeps(plan, states, actions, k - 1);
      StepKeeps(plan, states[k - 1], actions[k - 1]);
    }
  }

  /** A run never gets stuck: until every operation is recorded, some thread or worker can go on. */
  lemma RunGoesOn(plan: R.Plan, states: seq<State>, actions: seq<Action>, k: nat)
    requires Run(plan, states, actions) && k < |states|
    ensures Shaped(plan, states[k])
    ensures !Completed(states[k]) ==> exists a: Action :: !a.Tick? && Enables(plan, states[k], a)
  {
    hide Enables, DriverInv, R.Inv, Linked, S.Explained;
    var s := states[k];
    RunKeeps(plan, states, actions, k);
    if !Completed(s) {
      if t: nat :| t < |s.driver.threads| && s.driver.threads[t] != P.Idle {
        var a := DriverGoesOn(plan, s, t);
      } else {
        var i: nat :| i < |s.phases| && !(s.phases[i].Returned? && s.phases[i].recorded);
        var first := FirstUnrecorded(s, i);
        var a := WorkerGoesOn(plan, s, first);
      }
    }
  }

  lemma {:induction false} FirstUnrecorded(s: State, i: nat) returns (first: nat)
    requires i < |s.phases| && !(s.phases[i].Returned? && s.phases[i].recorded)
    ensures first <= i && !(s.phases[first].Returned? && s.phases[first].recorded)
    ensures forall j :: 0 <= j < first ==> s.phases[j].Returned? && s.phases[j].recorded
  {
    if j: nat :| j < i && !(s.phases[j].Returned? && s.phases[j].recorded) {
      first := FirstUnrecorded(s, j);
    } else {
      first := i;
    }
  }

  lemma DriverGoesOn(plan: R.Plan, s: State, t: nat) returns (a: Action)
    requires Inv(plan, s) && t < |s.driver.threads| && s.driver.threads[t] != P.Idle
    ensures !a.Tick? && Enables(plan, s, a)
  {
    hide R.Inv, S.Explained, P.Enables, C.OwnStep;
    assert LinkedAt(plan, s, t);
    LinkedDoesNotWait(plan, s, t);
    var u := C.SomeoneGoesOn(s.driver, t);
    assert LinkedAt(plan, s, u);
    a := Inner(u, C.OwnStep(s.driver, u));
  }

  lemma WorkerGoesOn(plan: R.Plan, s: State, i: nat) returns (a: Action)
    requires Inv(plan, s) && i < |s.phases| && !(s.phases[i].Returned? && s.phases[i].recorded)
    requires forall j :: 0 <= j < i ==> s.phases[j].Returned? && s.phases[j].recorded
    requires forall t: nat :: t < |s.driver.threads| ==> s.driver.threads[t] == P.Idle
    ensures !a.Tick? && Enables(plan, s, a)
  {
    hide R.Inv, S.Explained;
    var w := plan.owners[i];
    assert LinkedAt(plan, s, w);
    match s.phases[i] {
      case Pending => a := Invoke(i);
      case Invoked(_) =>
        if s.inside[w].Some? {
          a := Return(s.inside[w].value);
        } else {
          NobodyOwns(plan, s);
          a := if Passive(plan.operations[i]) then Instant(i) else Enter(i);
        }
      case Applied(_, _, _) => a := Return(i);
      case Returned(_, _, _, _, _) => a := Record(i);
    }
  }

  lemma NobodyOwns(plan: R.Plan, s: State)
    requires DriverInv(plan, s.driver)
    requires forall t: nat :: t < |s.driver.threads| ==> s.driver.threads[t] == P.Idle
    ensures s.driver.owner == None
  {
  }

  /** The steps that the recorder in front of an atomic device takes during the first `k` steps. */
  ghost function Mirrored(plan: R.Plan, states: seq<State>, actions: seq<Action>, k: nat): (steps: seq<R.Action>)
    requires Run(plan, states, actions) && k <= |actions|
  {
    if k == 0 then []
    else
      Mirrored(plan, states, actions, k - 1)
      + match MirrorOf(plan, states[k - 1], actions[k - 1]) case Some(r) => [r] case None => []
  }

  /** Every run against the driver refines a run against an atomic device: the same operations are invoked, return and
      are recorded at the same times, each takes effect at once when it is logged, and the histories are the same. */
  lemma {:induction false} RunIsAtomic(plan: R.Plan, states: seq<State>, actions: seq<Action>, k: nat)
    returns (atomic: seq<R.State>)
    requires Run(plan, states, actions) && k <= |actions|
    ensures S.Explained(Fresh(plan), states[k].driver.log)
    ensures R.Run(plan, atomic, Mirrored(plan, states, actions, k))
    ensures atomic[|atomic| - 1] == Abs(plan, states[k])
  {
    hide Abs, R.Do, R.Enables, Do, Enables, DriverInv, Linked;
    RunKeeps(plan, states, actions, k);
    if k == 0 {
      atomic := [Abs(plan, states[0])];
      StartsAtomic(plan, states[0]);
    } else {
      atomic := RunIsAtomic(plan, states, actions, k - 1);
      RunKeeps(plan, states, actions, k - 1);
      var step := MirrorOf(plan, states[k - 1], actions[k - 1]);
      StepKeeps(plan, states[k - 1], actions[k - 1]);
      if step.Some? {
        AtomicRunGrows(plan, atomic, Mirrored(plan, states, actions, k - 1), step.value, Abs(plan, states[k]));
        atomic := atomic + [Abs(plan, states[k])];
      } else {
        assert Mirrored(plan, states, actions, k) == Mirrored(plan, states, actions, k - 1);
      }
    }
  }

  lemma StartsAtomic(plan: R.Plan, s: State)
    requires Init(plan, s) && S.Explained(Fresh(plan), s.driver.log)
    ensures R.Init(plan, Abs(plan, s))
  {
  }

  lemma AtomicRunGrows(plan: R.Plan, atomic: seq<R.State>, steps: seq<R.Action>, r: R.Action, next: R.State)
    requires R.Run(plan, atomic, steps) && |atomic[|steps|].phases| == |plan.operations|
    requires R.Enables(plan, atomic[|steps|], r) && next == R.Do(plan, atomic[|steps|], r)
    ensures R.Run(plan, atomic + [next], steps + [r])
  {
    hide R.Do, R.Enables, R.Init;
  }

  /** A recorded event tells what happened: which operation, by which worker, at which place of its program, the clock
      when it was invoked, what an atomic device answered when it was logged, and the clock when it returned. */
  lemma HistoryIsTruthful(plan: R.Plan, states: seq<State>, actions: seq<Action>, e: History.Event)
    requires Run(plan, states, actions) && e in states[|actions|].history
    ensures exists atomic ::
      && R.Run(plan, atomic, Mirrored(plan, states, actions, |actions|))
      && R.Truthful(plan, atomic, Mirrored(plan, states, actions, |actions|), e)
  {
    hide R.Truthful, R.Run, Run;
    var atomic := RunIsAtomic(plan, states, actions, |actions|);
    var steps := Mirrored(plan, states, actions, |actions|);
    assert |atomic| == |steps| + 1 by {
      RunShape(plan, atomic, steps);
    }
    R.HistoryIsTruthful(plan, atomic, steps, e);
  }

  lemma RunShape(plan: R.Plan, atomic: seq<R.State>, steps: seq<R.Action>)
    requires R.Run(plan, atomic, steps)
    ensures |atomic| == |steps| + 1
  {
  }

  /** All calls have returned and are recorded. */
  predicate Completed(s: State) {
    forall i :: 0 <= i < |s.phases| ==> s.phases[i].Returned? && s.phases[i].recorded
  }

  /** Every completed run of the recorder against the driver passes or exhausts the search budget: however the threads
      interleave inside the driver, it is never called a failure and its capture is never invalid. */
  lemma DriverIsNeverAccused(plan: R.Plan, states: seq<State>, actions: seq<Action>, budget: int)
    requires Run(plan, states, actions) && Completed(states[|actions|]) && 1 <= budget <= Checker.MAX_BUDGET
    ensures var v := Checker.Check(plan.capacity, states[|actions|].history, |plan.operations|, budget);
            v.Pass? || v.Exhausted?
  {
    var s := states[|actions|];
    RunKeeps(plan, states, actions, |actions|);
    R.CompletedIsNeverAccused(plan, Abs(plan, s), budget);
  }
}
