/** evaluate_concurrent of lab/concurrency.py as a step system: workers invoke, the lock-protected
    simulator applies, workers stamp and append. A correct atomic device is never accused. */
module Recorder {
  import opened Bytes
  import opened Contract
  import opened Backends
  import opened History
  import opened Search
  import opened Checker
  import opened Trim

  /** A scenario with its worker assignment. */
  datatype Plan = Plan(capacity: nat, operations: seq<Op>, owners: seq<int>, workers: int) {
    /** What validate_worker_plan demands. */
    predicate Valid() {
      && ValidScenario(capacity, operations)
      && 2 <= workers <= 4 && 1 <= |operations| <= MAX_HISTORY
      && |owners| == |operations| && forall w :: w in owners ==> 0 <= w < workers
    }

    /** The position of operation `i` in its worker's program. */
    function Position(i: nat): (r: nat)
      requires Valid()
      requires i < |owners|
    {
      CountOwner(owners[..i], owners[i])
    }
  }

  function CountOwner(owners: seq<int>, w: int): (r: nat) {
    if owners == [] then 0
    else CountOwner(owners[..|owners| - 1], w) + if owners[|owners| - 1] == w then 1 else 0
  }

  lemma {:induction false} CountGrows(owners: seq<int>, i: nat, j: nat)
    requires i < j <= |owners|
    ensures CountOwner(owners[..i], owners[i]) < CountOwner(owners[..j], owners[i])
  {
    assert owners[..j][..j - 1] == owners[..j - 1];
    if i < j - 1 {
      CountGrows(owners, i, j - 1);
    }
  }

  lemma {:induction false} CountHasPreimage(owners: seq<int>, n: nat, w: int, q: nat) returns (j: nat)
    requires n <= |owners| && q < CountOwner(owners[..n], w)
    ensures j < n && owners[j] == w && CountOwner(owners[..j], w) == q
  {
    assert owners[..n][..n - 1] == owners[..n - 1];
    if q < CountOwner(owners[..n - 1], w) {
      j := CountHasPreimage(owners, n - 1, w, q);
    } else {
      j := n - 1;
    }
  }

  /** How far one operation has come. `at` is the clock when the device applied it. */
  datatype Phase =
    | Pending
    | Invoked(started: int)
    | Applied(started: int, at: int, answer: Result)
    | Returned(started: int, at: int, answer: Result, finished: int, recorded: bool)

  datatype State = State(clock: int, device: Model, phases: seq<Phase>, order: seq<nat>, history: seq<Event>)

  datatype Action = Tick(clock: int) | Invoke(i: nat) | ApplyLocked(i: nat) | Return(i: nat) | Record(i: nat)

  function EventOf(plan: Plan, i: nat, p: Phase): (r: Event)
    requires plan.Valid() && i < |plan.operations| && p.Returned?
  {
    Event(i, Call(plan.owners[i], plan.Position(i), p.started, p.finished, plan.operations[i], Some(p.answer)))
  }

  predicate Init(plan: Plan, s: State) {
    && plan.Valid() && 0 <= s.clock && s.device == Model(plan.capacity, [])
    && |s.phases| == |plan.operations| && (forall i :: 0 <= i < |s.phases| ==> s.phases[i] == Pending)
    && s.order == [] && s.history == []
  }

  predicate MayInvoke(plan: Plan, s: State, i: nat)
    requires |s.phases| == |plan.owners|
  {
    && i < |s.phases| && s.phases[i] == Pending
    && forall j :: 0 <= j < i && plan.owners[j] == plan.owners[i] ==> s.phases[j].Returned? && s.phases[j].recorded
  }

  /** A worker's next call waits until its previous event is appended; the clock never goes back. */
  predicate Enables(plan: Plan, s: State, a: Action)
    requires plan.Valid() && |s.phases| == |plan.operations|
  {
    match a
    case Tick(clock) => s.clock <= clock
    case Invoke(i) => MayInvoke(plan, s, i)
    case ApplyLocked(i) => i < |s.phases| && s.phases[i].Invoked? && s.device.Valid()
    case Return(i) => i < |s.phases| && s.phases[i].Applied?
    case Record(i) => i < |s.phases| && s.phases[i].Returned? && !s.phases[i].recorded
  }

  function Do(plan: Plan, s: State, a: Action): (r: State)
    requires plan.Valid() && |s.phases| == |plan.operations| && Enables(plan, s, a)
  {
    match a
    case Tick(clock) => s.(clock := clock)
    case Invoke(i) => s.(phases := s.phases[i := Invoked(s.clock)])
    case ApplyLocked(i) =>
      var (after, answer) := Behaviour(NoFault, s.device, plan.operations[i]);
      s.(device := after, phases := s.phases[i := Applied(s.phases[i].started, s.clock, answer)],
         order := s.order + [i])
    case Return(i) =>
      var p := s.phases[i];
      s.(phases := s.phases[i := Returned(p.started, p.at, p.answer, s.clock, false)])
    case Record(i) =>
      var p := s.phases[i];
      s.(phases := s.phases[i := p.(recorded := true)], history := s.history + [EventOf(plan, i, p)])
  }

  // ---------------------------------------------------------------- invariant

  predicate TookEffect(p: Phase) {
    p.Applied? || p.Returned?
  }

  function At(p: Phase): (r: int) {
    if TookEffect(p) then p.at else 0
  }

  function AnswerOf(p: Phase): (r: Option<Result>) {
    if TookEffect(p) then Some(p.answer) else None
  }

  predicate InRange(order: seq<nat>, n: nat) {
    forall k :: 0 <= k < |order| ==> order[k] < n
  }

  function Program(operations: seq<Op>, order: seq<nat>): (ops: seq<Op>)
    requires InRange(order, |operations|)
    ensures |ops| == |order|
  {
    seq(|order|, k requires 0 <= k < |order| => operations[order[k]])
  }

  predicate Timed(clock: int, p: Phase) {
    match p
    case Pending => true
    case Invoked(started) => 0 <= started <= clock
    case Applied(started, at, _) => 0 <= started <= at <= clock
    case Returned(started, at, _, finished, _) => 0 <= started <= at <= finished <= clock
  }

  /** The order in which the device applied the calls: by clock, and by program within a worker. */
  predicate OrderInv(owners: seq<int>, phases: seq<Phase>, order: seq<nat>)
    requires |phases| == |owners|
  {
    && InRange(order, |phases|)
    && (forall k :: 0 <= k < |order| ==> TookEffect(phases[order[k]]))
    && (forall i :: 0 <= i < |phases| && TookEffect(phases[i]) ==> i in order)
    && (forall a, b :: 0 <= a < b < |order| ==> InTurn(owners, phases, order[a], order[b]))
  }

  predicate InTurn(owners: seq<int>, phases: seq<Phase>, i: nat, j: nat)
    requires i < |phases| == |owners| && j < |phases|
  {
    i != j && At(phases[i]) <= At(phases[j]) && (owners[i] == owners[j] ==> i < j)
  }

  predicate DeviceInv(plan: Plan, device: Model, phases: seq<Phase>, order: seq<nat>)
    requires plan.Valid() && |phases| == |plan.operations| && InRange(order, |phases|)
  {
    var ops := Program(plan.operations, order);
    && device == Final(Start(plan.capacity), ops)
    && forall k :: 0 <= k < |order| ==> AnswerOf(phases[order[k]]) == Some(Answers(Start(plan.capacity), ops)[k])
  }

  predicate WorkerInv(plan: Plan, s: State)
    requires |s.phases| == |plan.operations| == |plan.owners|
  {
    && (forall i :: 0 <= i < |s.phases| ==> Timed(s.clock, s.phases[i]))
    && (forall i, j :: 0 <= i < j < |s.phases| && plan.owners[i] == plan.owners[j] && s.phases[j] != Pending ==>
          s.phases[i].Returned? && s.phases[i].recorded && s.phases[i].finished <= s.phases[j].started)
  }

  ghost predicate HistoryInv(plan: Plan, s: State)
    requires plan.Valid() && |s.phases| == |plan.operations|
  {
    && (forall e :: e in s.history ==> IsRecorded(plan, s.phases, e))
    && (forall i :: 0 <= i < |s.phases| && s.phases[i].Returned? && s.phases[i].recorded ==>
          EventOf(plan, i, s.phases[i]) in s.history)
    && (forall a, b :: 0 <= a < b < |s.history| ==> s.history[a].index != s.history[b].index)
  }

  predicate IsRecorded(plan: Plan, phases: seq<Phase>, e: Event)
    requires plan.Valid() && |phases| == |plan.operations|
  {
    && 0 <= e.index < |phases| && phases[e.index].Returned? && phases[e.index].recorded
    && e == EventOf(plan, e.index, phases[e.index])
  }

  ghost predicate Inv(plan: Plan, s: State) {
    && plan.Valid() && |s.phases| == |plan.operations| && 0 <= s.clock
    && WorkerInv(plan, s) && OrderInv(plan.owners, s.phases, s.order)
    && DeviceInv(plan, s.device, s.phases, s.order) && HistoryInv(plan, s)
  }

  lemma InitEstablishes(plan: Plan, s: State)
    requires Init(plan, s)
    ensures Inv(plan, s)
  {
  }

  lemma WorkerStep(plan: Plan, s: State, a: Action)
    requires Inv(plan, s) && Enables(plan, s, a)
    ensures WorkerInv(plan, Do(plan, s, a))
  {
    hide OrderInv, DeviceInv, HistoryInv, Apply;
  }

  lemma OrderFrame(owners: seq<int>, p: seq<Phase>, q: seq<Phase>, order: seq<nat>)
    requires |p| == |q| == |owners| && OrderInv(owners, p, order)
    requires forall i :: 0 <= i < |p| ==> TookEffect(p[i]) == TookEffect(q[i]) && At(p[i]) == At(q[i])
    ensures OrderInv(owners, q, order)
  {
    forall x, y | 0 <= x < y < |order| ensures InTurn(owners, q, order[x], order[y]) {
      assert InTurn(owners, p, order[x], order[y]);
    }
  }

  lemma OrderGrows(owners: seq<int>, p: seq<Phase>, order: seq<nat>, i: nat, applied: Phase)
    requires |p| == |owners| && OrderInv(owners, p, order) && i < |p|
    requires applied.Applied? && !TookEffect(p[i])
    requires forall k :: 0 <= k < |order| ==> At(p[order[k]]) <= applied.at
    requires forall k :: 0 <= k < |order| && owners[order[k]] == owners[i] ==> order[k] < i
    ensures OrderInv(owners, p[i := applied], order + [i])
  {
    var q, longer := p[i := applied], order + [i];
    forall x, y | 0 <= x < y < |longer| ensures InTurn(owners, q, longer[x], longer[y]) {
      if y < |order| {
        assert InTurn(owners, p, order[x], order[y]);
      }
    }
    forall k | 0 <= k < |q| && TookEffect(q[k]) ensures k in longer {
      assert k == i || k in order;
    }
  }

  lemma OrderStep(plan: Plan, s: State, a: Action)
    requires Inv(plan, s) && Enables(plan, s, a)
    ensures var t := Do(plan, s, a); OrderInv(plan.owners, t.phases, t.order)
  {
    var t := Do(plan, s, a);
    if a.ApplyLocked? {
      forall k | 0 <= k < |s.order|
        ensures At(s.phases[s.order[k]]) <= s.clock
        ensures plan.owners[s.order[k]] == plan.owners[a.i] ==> s.order[k] < a.i
      {
        assert Timed(s.clock, s.phases[s.order[k]]);
      }
      OrderGrows(plan.owners, s.phases, s.order, a.i, t.phases[a.i]);
    } else {
      OrderFrame(plan.owners, s.phases, t.phases, s.order);
    }
  }

  lemma DeviceStep(plan: Plan, s: State, a: Action)
    requires Inv(plan, s) && Enables(plan, s, a)
    ensures var t := Do(plan, s, a);
            InRange(t.order, |t.phases|) && DeviceInv(plan, t.device, t.phases, t.order)
  {
    hide Apply, HistoryInv, WorkerInv;
    var t := Do(plan, s, a);
    var ops := Program(plan.operations, s.order);
    if a.ApplyLocked? {
      OneMore(Start(plan.capacity), ops, plan.operations[a.i]);
      assert Program(plan.operations, t.order) == ops + [plan.operations[a.i]];
    }
    forall k | 0 <= k < |s.order| ensures AnswerOf(t.phases[s.order[k]]) == AnswerOf(s.phases[s.order[k]]) {
    }
  }

  lemma HistoryStep(plan: Plan, s: State, a: Action)
    requires Inv(plan, s) && Enables(plan, s, a)
    ensures HistoryInv(plan, Do(plan, s, a))
  {
    hide Apply, OrderInv, DeviceInv;
    var t := Do(plan, s, a);
    if a.Record? {
      assert forall e :: e in t.history <==> e in s.history || e == EventOf(plan, a.i, s.phases[a.i]);
      assert forall k :: 0 <= k < |s.history| ==> s.history[k] in s.history;
    }
  }

  lemma StepKeeps(plan: Plan, s: State, a: Action)
    requires Inv(plan, s) && Enables(plan, s, a)
    ensures Inv(plan, Do(plan, s, a))
  {
    WorkerStep(plan, s, a);
    OrderStep(plan, s, a);
    DeviceStep(plan, s, a);
    HistoryStep(plan, s, a);
  }

  // ---------------------------------------------------------------- completed runs

  ghost predicate Run(plan: Plan, states: seq<State>, actions: seq<Action>) {
    && |states| == |actions| + 1 && Init(plan, states[0])
    && forall k :: 0 <= k < |actions| ==>
         |states[k].phases| == |plan.operations| && Enables(plan, states[k], actions[k])
         && states[k + 1] == Do(plan, states[k], actions[k])
  }

  predicate Completed(s: State) {
    forall i :: 0 <= i < |s.phases| ==> s.phases[i].Returned? && s.phases[i].recorded
  }

  lemma {:induction false} RunKeeps(plan: Plan, states: seq<State>, actions: seq<Action>, k: nat)
    requires Run(plan, states, actions) && k < |states|
    ensures Inv(plan, states[k])
  {
    if k == 0 {
      InitEstablishes(plan, states[0]);
    } else {
      RunKeeps(plan, states, actions, k - 1);
      StepKeeps(plan, states[k - 1], actions[k - 1]);
    }
  }

  /** What is known of operation `i` is what happened to it in the first `k` steps: when it was invoked, what the device
      answered when it was applied, and when it returned, in this order. */
  ghost predicate Happened(plan: Plan, states: seq<State>, actions: seq<Action>, k: nat, i: nat, p: Phase)
    requires Run(plan, states, actions) && k < |states| && i < |plan.operations|
  {
    match p
    case Pending => true
    case Invoked(started) => exists a: nat :: a < k && InvokedAt(states, actions, a, i, started)
    case Applied(started, at, answer) =>
      exists a: nat, b: nat ::
        a < b < k && InvokedAt(states, actions, a, i, started) && AppliedAt(plan, states, actions, b, i, at, answer)
    case Returned(started, at, answer, finished, _) =>
      exists a: nat, b: nat, c: nat ::
        a < b < c < k && InvokedAt(states, actions, a, i, started) && AppliedAt(plan, states, actions, b, i, at, answer)
        && ReturnedAt(states, actions, c, i, finished)
  }

  predicate InvokedAt(states: seq<State>, actions: seq<Action>, a: nat, i: nat, started: int)
    requires a < |actions| < |states|
  {
    actions[a] == Invoke(i) && started == states[a].clock
  }

  predicate AppliedAt(plan: Plan, states: seq<State>, actions: seq<Action>, b: nat, i: nat, at: int, answer: Result)
    requires b < |actions| < |states| && i < |plan.operations|
  {
    && actions[b] == ApplyLocked(i) && at == states[b].clock && states[b].device.Valid()
    && Apply(states[b].device, plan.operations[i]) == (states[b + 1].device, answer)
  }

  predicate ReturnedAt(states: seq<State>, actions: seq<Action>, c: nat, i: nat, finished: int)
    requires c < |actions| < |states|
  {
    actions[c] == Return(i) && finished == states[c].clock
  }

  lemma {:induction false} PhasesHappened(plan: Plan, states: seq<State>, actions: seq<Action>, k: nat, i: nat)
    requires Run(plan, states, actions) && k < |states| && i < |plan.operations|
    requires |states[k].phases| == |plan.operations|
    ensures Happened(plan, states, actions, k, i, states[k].phases[i])
  {
    hide Apply;
    if k == 0 {
    } else {
      var s, act := states[k - 1], actions[k - 1];
      PhasesHappened(plan, states, actions, k - 1, i);
      PhaseHappens(plan, states, actions, k - 1, i);
    }
  }

  lemma PhaseHappens(plan: Plan, states: seq<State>, actions: seq<Action>, k: nat, i: nat)
    requires Run(plan, states, actions) && k < |actions| && i < |plan.operations|
    requires Happened(plan, states, actions, k, i, states[k].phases[i])
    ensures |states[k + 1].phases| == |plan.operations|
    ensures Happened(plan, states, actions, k + 1, i, states[k + 1].phases[i])
  {
    hide Apply;
    var p, q := states[k].phases[i], states[k + 1].phases[i];
    if p != q {
      match actions[k] {
        case Tick(_) =>
        case Invoke(_) => assert InvokedAt(states, actions, k, i, q.started);
        case ApplyLocked(_) =>
          var a: nat :| a < k && InvokedAt(states, actions, a, i, p.started);
          assert AppliedAt(plan, states, actions, k, i, q.at, q.answer);
        case Return(_) =>
          assert ReturnedAt(states, actions, k, i, q.finished);
        case Record(_) =>
      }
    }
  }

  /** How many of the earlier operations belong to the same worker. */
  function Earlier(owners: seq<int>, i: nat): (s: set<int>)
    requires i < |owners|
  {
    set j | 0 <= j < i && owners[j] == owners[i]
  }

  lemma {:induction false} CountIsCardinality(owners: seq<int>, n: nat, w: int)
    requires n <= |owners|
    ensures CountOwner(owners[..n], w) == |set j | 0 <= j < n && owners[j] == w|
  {
    if n == 0 {
    } else {
      CountIsCardinality(owners, n - 1, w);
      assert owners[..n][..n - 1] == owners[..n - 1];
      var before := set j | 0 <= j < n - 1 && owners[j] == w;
      assert (set j | 0 <= j < n && owners[j] == w) == before + if owners[n - 1] == w then {n - 1} else {};
    }
  }

  /** A recorded event tells what happened: which operation, by which worker, at which place of its program, the clock
      when it was invoked, the answer of the device when it was applied, and the clock when it returned. */
  ghost predicate Truthful(plan: Plan, states: seq<State>, actions: seq<Action>, e: Event)
    requires Run(plan, states, actions)
  {
    && 0 <= e.index < |plan.operations| == |plan.owners|
    && e.call.operation == plan.operations[e.index] && e.call.worker == plan.owners[e.index]
    && e.call.sequence == |Earlier(plan.owners, e.index)|
    && exists a: nat, b: nat, c: nat, at: int, answer: Result ::
         && a < b < c < |actions| && InvokedAt(states, actions, a, e.index, e.call.started)
         && AppliedAt(plan, states, actions, b, e.index, at, answer) && e.call.actual == Some(answer)
         && ReturnedAt(states, actions, c, e.index, e.call.finished)
  }

  lemma HistoryIsTruthful(plan: Plan, states: seq<State>, actions: seq<Action>, e: Event)
    requires Run(plan, states, actions) && e in states[|actions|].history
    ensures Truthful(plan, states, actions, e)
  {
    hide Apply;
    RunKeeps(plan, states, actions, |actions|);
    var phases := states[|actions|].phases;
    assert IsRecorded(plan, phases, e);
    PhasesHappened(plan, states, actions, |actions|, e.index);
    CountIsCardinality(plan.owners, e.index, plan.owners[e.index]);
    var p := phases[e.index];
    var a: nat, b: nat, c: nat :|
      a < b < c < |actions| && InvokedAt(states, actions, a, e.index, p.started)
      && AppliedAt(plan, states, actions, b, e.index, p.at, p.answer)
      && ReturnedAt(states, actions, c, e.index, p.finished);
    assert InvokedAt(states, actions, a, e.index, e.call.started)
           && AppliedAt(plan, states, actions, b, e.index, p.at, p.answer)
           && ReturnedAt(states, actions, c, e.index, e.call.finished);
  }

  /** A run never gets stuck: until every operation is recorded, the first unfinished one of its worker can go on. */
  lemma RecorderGoesOn(plan: Plan, states: seq<State>, actions: seq<Action>, k: nat, i: nat)
    requires Run(plan, states, actions) && k < |states|
    requires i < |plan.operations| && |states[k].phases| == |plan.operations|
    requires !(states[k].phases[i].Returned? && states[k].phases[i].recorded)
    requires forall j :: 0 <= j < i && plan.owners[j] == plan.owners[i] ==>
               states[k].phases[j].Returned? && states[k].phases[j].recorded
    ensures Enables(plan, states[k], match states[k].phases[i]
                                     case Pending => Invoke(i)
                                     case Invoked(_) => ApplyLocked(i)
                                     case Applied(_, _, _) => Return(i)
                                     case Returned(_, _, _, _, _) => Record(i))
  {
    hide OrderInv, HistoryInv, WorkerInv, Apply;
    RunKeeps(plan, states, actions, k);
  }

  lemma PositionsDiffer(plan: Plan, i: nat, j: nat)
    requires plan.Valid() && i < j < |plan.owners| && plan.owners[i] == plan.owners[j]
    ensures plan.Position(i) < plan.Position(j)
  {
    CountGrows(plan.owners, i, j);
  }

  lemma CompletedLength(plan: Plan, s: State)
    requires Inv(plan, s) && Completed(s)
    ensures |s.history| == |plan.operations|
  {
    var n, indexes := |plan.operations|, IndexesOf(s.history);
    forall x ensures x in indexes <==> 0 <= x < n {
      if 0 <= x < n {
        var e := EventOf(plan, x, s.phases[x]);
        var k :| 0 <= k < |s.history| && s.history[k] == e;
        assert indexes[k] == x;
      }
      if x in indexes {
        var k :| 0 <= k < |indexes| && indexes[k] == x;
        assert IsRecorded(plan, s.phases, s.history[k]);
      }
    }
    DistinctCardinality(indexes);
    assert (set x | x in indexes) == LowInts(n);
  }

  lemma CompletedIsWellFormed(plan: Plan, s: State)
    requires Inv(plan, s) && Completed(s)
    ensures WellFormed(s.history)
  {
    var h := s.history;
    forall e | e in h ensures WellFormedEvent(e) {
      assert IsRecorded(plan, s.phases, e) && Timed(s.clock, s.phases[e.index]);
      assert plan.owners[e.index] in plan.owners;
    }
    forall a, b | 0 <= a < b < |h| && h[a].call.worker == h[b].call.worker
      ensures h[a].call.sequence != h[b].call.sequence
    {
      assert IsRecorded(plan, s.phases, h[a]) && IsRecorded(plan, s.phases, h[b]);
      PositionsDiffer(plan, Min(h[a].index, h[b].index), Max(h[a].index, h[b].index));
    }
  }

  lemma CompletedHasNoGaps(plan: Plan, s: State)
    requires Inv(plan, s) && Completed(s)
    ensures NoGaps(s.history)
  {
    forall e, q | e in s.history && 0 <= q < e.call.sequence ensures HasCall(s.history, e.call.worker, q) {
      assert IsRecorded(plan, s.phases, e);
      var j := CountHasPreimage(plan.owners, e.index, plan.owners[e.index], q);
      assert EventOf(plan, j, s.phases[j]) in s.history;
    }
  }

  lemma CompletedIntervals(plan: Plan, s: State)
    requires Inv(plan, s) && Completed(s)
    ensures ValidIntervals(Calls(s.history))
  {
    forall c | c in Calls(s.history) ensures c.started <= c.finished {
      var x :| x in s.history && x.call == c;
      assert IsRecorded(plan, s.phases, x) && Timed(s.clock, s.phases[x.index]);
    }
    forall f, e | f in Calls(s.history) && e in Calls(s.history) && SameWorkerBefore(f, e)
      ensures f.finished <= e.started
    {
      var x :| x in s.history && x.call == f;
      var y :| y in s.history && y.call == e;
      ProgramOrderSeparates(plan, s, x, y);
    }
  }

  lemma ProgramOrderSeparates(plan: Plan, s: State, x: Event, y: Event)
    requires Inv(plan, s) && IsRecorded(plan, s.phases, x) && IsRecorded(plan, s.phases, y)
    requires SameWorkerBefore(x.call, y.call)
    ensures x.call.finished <= y.call.started
  {
    if y.index < x.index {
      PositionsDiffer(plan, y.index, x.index);
    }
  }

  /** A completed capture passes every validation. */
  lemma CompletedIsValidated(plan: Plan, s: State)
    requires Inv(plan, s) && Completed(s)
    ensures |s.history| == |plan.operations| && Validated(plan.capacity, s.history)
  {
    var h := s.history;
    CompletedLength(plan, s);
    CompletedIsWellFormed(plan, s);
    CompletedHasNoGaps(plan, s);
    CompletedIntervals(plan, s);
    forall e | e in h ensures 0 <= e.index < |h| {
      assert IsRecorded(plan, s.phases, e);
    }
    forall op | op in OperationsOf(h) ensures ValidOp(op) {
      var k :| 0 <= k < |h| && OperationsOf(h)[k] == op;
      assert IsRecorded(plan, s.phases, h[k]);
      assert plan.operations[h[k].index] in plan.operations;
    }
  }

  /** The calls in the order the device applied them. */
  function AppliedOrder(plan: Plan, s: State): (calls: seq<Call>)
    requires plan.Valid() && |s.phases| == |plan.operations| && Completed(s) && InRange(s.order, |s.phases|)
    ensures |calls| == |s.order|
  {
    seq(|s.order|, k requires 0 <= k < |s.order| => EventOf(plan, s.order[k], s.phases[s.order[k]]).call)
  }

  lemma AppliedCalls(plan: Plan, s: State)
    requires Inv(plan, s) && Completed(s)
    ensures forall c :: c in Calls(s.history) <==> c in AppliedOrder(plan, s)
  {
    var order := AppliedOrder(plan, s);
    forall c | c in Calls(s.history) ensures c in order {
      var e :| e in s.history && e.call == c;
      assert IsRecorded(plan, s.phases, e);
      var k :| 0 <= k < |s.order| && s.order[k] == e.index;
      assert order[k] == c;
    }
    forall c | c in order ensures c in Calls(s.history) {
      var k :| 0 <= k < |order| && order[k] == c;
      assert EventOf(plan, s.order[k], s.phases[s.order[k]]) in s.history;
    }
  }

  lemma AppliedInTurn(plan: Plan, s: State, a: nat, b: nat)
    requires Inv(plan, s) && Completed(s) && a < b < |s.order|
    ensures AppliedOrder(plan, s)[a] != AppliedOrder(plan, s)[b]
    ensures !Before(AppliedOrder(plan, s)[b], AppliedOrder(plan, s)[a])
  {
    var i, j := s.order[a], s.order[b];
    assert InTurn(plan.owners, s.phases, i, j);
    assert Timed(s.clock, s.phases[i]) && Timed(s.clock, s.phases[j]);
    if plan.owners[i] == plan.owners[j] {
      PositionsDiffer(plan, i, j);
    }
  }

  lemma {:induction false} OperationsAt(order: seq<Call>, k: nat)
    requires k < |order|
    ensures Operations(order)[k] == order[k].operation
  {
    if k == 0 {
    } else {
      OperationsAt(order[1..], k - 1);
    }
  }

  /** The apply order explains a completed capture. */
  lemma AppliedOrderExplains(plan: Plan, s: State)
    requires Inv(plan, s) && Completed(s)
    ensures Explains(Start(plan.capacity), Calls(s.history), AppliedOrder(plan, s))
  {
    var order := AppliedOrder(plan, s);
    AppliedCalls(plan, s);
    forall a, b | 0 <= a < b < |order| ensures order[a] != order[b] && !Before(order[b], order[a]) {
      AppliedInTurn(plan, s, a, b);
    }
    forall k | 0 <= k < |order| ensures Operations(order)[k] == Program(plan.operations, s.order)[k] {
      OperationsAt(order, k);
    }
    assert Operations(order) == Program(plan.operations, s.order);
    forall k | 0 <= k < |order|
      ensures order[k].actual == Some(Answers(Start(plan.capacity), Operations(order))[k])
    {
      assert order[k].actual == AnswerOf(s.phases[s.order[k]]);
    }
  }

  /** Every completed run against the fault-free simulator passes or exhausts the search budget: it is
      never called a failure and never an invalid capture. */
  lemma AtomicDeviceIsNeverAccused(plan: Plan, states: seq<State>, actions: seq<Action>, budget: int)
    requires Run(plan, states, actions) && Completed(states[|actions|]) && 1 <= budget <= MAX_BUDGET
    ensures var v := Check(plan.capacity, states[|actions|].history, |plan.operations|, budget);
            v.Pass? || v.Exhausted?
  {
    RunKeeps(plan, states, actions, |actions|);
    CompletedIsNeverAccused(plan, states[|actions|], budget);
  }

  lemma CompletedIsNeverAccused(plan: Plan, s: State, budget: int)
    requires Inv(plan, s) && Completed(s) && 1 <= budget <= MAX_BUDGET
    ensures var v := Check(plan.capacity, s.history, |plan.operations|, budget); v.Pass? || v.Exhausted?
  {
    CompletedIsValidated(plan, s);
    CheckIsVerdict(plan.capacity, s.history, budget);
    AppliedOrderExplains(plan, s);
    VerdictIsExact(s.history, plan.capacity, budget);
  }
}
