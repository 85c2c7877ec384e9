/** evaluate and reduce_scenario of lab/runner.py: running a scenario against the contract, and deleting from a
    failing one. */
module Runner {
  import opened Bytes
  import opened Selection
  import opened Contract
  import opened Limits
  import opened Backends

  /** Devices as the factory makes them. A run has a number, so that repeated runs may differ; the answer to an
      operation depends on the operations issued so far. None stands for an exception. */
  datatype Factory = Factory(opens: (int, int) -> bool, respond: (int, int, seq<Op>) -> Option<Result>)

  datatype Kind = WriteKind | ReadKind | ResizeKind | ClearKind | CapacityKind

  function KindOf(op: Op): (r: Kind) {
    match op
    case Write(_) => WriteKind
    case Read(_) => ReadKind
    case Resize(_) => ResizeKind
    case Clear => ClearKind
    case Capacity => CapacityKind
  }

  datatype Field = Ret | Errno | Data

  /** The fields in which two answers differ. */
  function Differing(expected: Result, actual: Result): (fields: set<Field>)
    ensures fields == {} <==> expected == actual
  {
    (if expected.ret != actual.ret then {Ret} else {})
    + (if expected.errno != actual.errno then {Errno} else {})
    + (if expected.data != actual.data then {Data} else {})
  }

  datatype Signature = Signature(operation: Kind, fields: set<Field>, expectedErrno: int, actualErrno: int)

  datatype Entry = Entry(index: nat, operation: Op, expected: Result, actual: Result)

  datatype Status = Pass | Fail | Inconclusive

  datatype Evaluation = Evaluation(status: Status, history: seq<Entry>, failureIndex: Option<nat>,
                                   signature: Option<Signature>)

  /** One run of one factory on one scenario. */
  datatype Run = Run(factory: Factory, number: int, capacity: int, operations: seq<Op>)
  {
    predicate Valid() {
      ValidScenario(capacity, operations)
    }

    function Expected(i: nat): (r: Result)
      requires Valid() && i < |operations|
    {
      Answers(Start(capacity), operations)[i]
    }

    function Actual(i: nat): (r: Option<Result>)
      requires i < |operations|
    {
      factory.respond(number, capacity, operations[..i + 1])
    }

    predicate Agrees(i: nat)
      requires Valid() && i < |operations|
    {
      Actual(i) == Some(Expected(i))
    }

    /** The first operation from `i` on whose answer is not the contract's. */
    function StopsAt(i: nat): (k: nat)
      requires Valid() && i <= |operations|
      ensures i <= k <= |operations|
      ensures forall j: nat :: i <= j < k ==> Agrees(j)
      ensures k < |operations| ==> !Agrees(k)
      decreases |operations| - i
    {
      if i == |operations| || !Agrees(i) then i else StopsAt(i + 1)
    }

    function EntryAt(i: nat): (r: Entry)
      requires Valid() && i < |operations|
    {
      var answer := if Actual(i).Some? then Actual(i).value else Failure(0);
      Entry(i, operations[i], Expected(i), answer)
    }

    function HistoryTo(n: nat): (h: seq<Entry>)
      requires Valid() && n <= |operations|
      ensures |h| == n
    {
      seq(n, i requires 0 <= i < n => EntryAt(i))
    }

    function SignatureAt(i: nat): (r: Signature)
      requires Valid() && i < |operations| && Actual(i).Some?
    {
      var actual := Actual(i).value;
      Signature(KindOf(operations[i]), Differing(Expected(i), actual), Expected(i).errno, actual.errno)
    }

    function Outcome(): (r: Evaluation)
      requires Valid()
    {
      var k := StopsAt(0);
      if !factory.opens(number, capacity) then Evaluation(Inconclusive, [], None, None)
      else if k == |operations| then Evaluation(Pass, HistoryTo(k), None, None)
      else if Actual(k).None? then Evaluation(Inconclusive, HistoryTo(k), None, None)
      else Evaluation(Fail, HistoryTo(k + 1), Some(k), Some(SignatureAt(k)))
    }

    /** The failure that a reduction has to preserve. */
    predicate Shows(signature: Signature)
      requires Valid()
    {
      Outcome().status == Fail && Outcome().signature == Some(signature)
    }
  }

  // ---------------------------------------------------------------- what an evaluation reports

  /** What the contract answers at position `i`, and what the device answered. */
  function Due(run: Run, i: nat): (r: Result)
    requires run.Valid() && i < |run.operations|
  {
    Answers(Start(run.capacity), run.operations)[i]
  }

  function Given(run: Run, i: nat): (r: Option<Result>)
    requires i < |run.operations|
  {
    run.factory.respond(run.number, run.capacity, run.operations[..i + 1])
  }

  predicate KeptUpTo(run: Run, k: nat)
    requires run.Valid() && k <= |run.operations|
  {
    run.factory.opens(run.number, run.capacity) && forall i: nat :: i < k ==> Given(run, i) == Some(Due(run, i))
  }

  /** The device breaks the contract at position `k` and not before. */
  predicate BreaksAt(run: Run, k: nat)
    requires run.Valid()
  {
    k < |run.operations| && KeptUpTo(run, k) && Given(run, k).Some? && Given(run, k).value != Due(run, k)
  }

  /** The entries are the operations with both answers, in order. */
  predicate Records(run: Run, h: seq<Entry>)
    requires run.Valid()
  {
    |h| <= |run.operations| && forall i: nat :: i < |h| ==>
      && h[i].index == i && h[i].operation == run.operations[i]
      && h[i].expected == Due(run, i) && Some(h[i].actual) == Given(run, i)
  }

  /** Pass: every answer is the contract's. Fail: one is the first that is not. Otherwise the device or one of its
      answers was not to be had. The history records what was seen, the failing answer included. */
  lemma OutcomeExactly(run: Run)
    requires run.Valid()
    ensures var o, n := run.Outcome(), |run.operations|;
            && (o.status == Pass <==> KeptUpTo(run, n))
            && (o.status == Fail <==> o.failureIndex.Some? && BreaksAt(run, o.failureIndex.value))
            && (o.failureIndex.Some? <==> o.status == Fail) && (o.signature.Some? <==> o.status == Fail)
            && Records(run, o.history)
            && (o.status == Pass ==> |o.history| == n)
            && (o.status == Fail ==> |o.history| == o.failureIndex.value + 1)
            && (o.status == Inconclusive <==>
                  || !run.factory.opens(run.number, run.capacity)
                  || (|o.history| < n && KeptUpTo(run, |o.history|) && Given(run, |o.history|) == None))
            && (o.status == Inconclusive && !run.factory.opens(run.number, run.capacity) ==> o.history == [])
  {
    hide Answers, Run.StopsAt;
    var k, o := run.StopsAt(0), run.Outcome();
    forall i: nat | i < k ensures Given(run, i) == Some(Due(run, i)) {
      assert run.Agrees(i);
    }
    if k < |run.operations| {
      assert !run.Agrees(k) && Given(run, k) != Some(Due(run, k));
    }
    forall i: nat | i < |o.history| ensures o.history[i] == run.EntryAt(i) && Given(run, i).Some? {
    }
    if o.status == Pass || o.status == Fail {
      assert KeptUpTo(run, k);
    }
  }

  predicate SameKind(a: Op, b: Op) {
    && (a.Write? <==> b.Write?) && (a.Read? <==> b.Read?) && (a.Resize? <==> b.Resize?)
    && (a.Clear? <==> b.Clear?) && (a.Capacity? <==> b.Capacity?)
  }

  /** A signature names the operation that failed, the components in which the answers differ, and both error codes. */
  predicate Names(s: Signature, op: Op, expected: Result, actual: Result) {
    && (s.operation == WriteKind <==> op.Write?) && (s.operation == ReadKind <==> op.Read?)
    && (s.operation == ResizeKind <==> op.Resize?) && (s.operation == ClearKind <==> op.Clear?)
    && (s.operation == CapacityKind <==> op.Capacity?)
    && (Ret in s.fields <==> expected.ret != actual.ret) && (Errno in s.fields <==> expected.errno != actual.errno)
    && (Data in s.fields <==> expected.data != actual.data)
    && s.expectedErrno == expected.errno && s.actualErrno == actual.errno
  }

  lemma SignatureExactly(run: Run)
    requires run.Valid() && run.Outcome().status == Fail
    ensures var o := run.Outcome();
            && o.failureIndex.Some? && o.signature.Some? && BreaksAt(run, o.failureIndex.value)
            && var k := o.failureIndex.value;
               Names(o.signature.value, run.operations[k], Due(run, k), Given(run, k).value)
  {
    OutcomeExactly(run);
  }

  /** Two runs fail alike: at operations of one kind, in the same components, with the same error codes. */
  ghost predicate FailAlike(a: Run, b: Run)
    requires a.Valid() && b.Valid()
  {
    exists i: nat, j: nat :: BreaksAt(a, i) && BreaksAt(b, j) && AlikeAt(a, i, b, j)
  }

  predicate AlikeAt(a: Run, i: nat, b: Run, j: nat)
    requires a.Valid() && b.Valid() && BreaksAt(a, i) && BreaksAt(b, j)
  {
    var due, given, due', given' := Due(a, i), Given(a, i).value, Due(b, j), Given(b, j).value;
    && SameKind(a.operations[i], b.operations[j])
    && (due.ret != given.ret <==> due'.ret != given'.ret)
    && (due.errno != given.errno <==> due'.errno != given'.errno)
    && (due.data != given.data <==> due'.data != given'.data)
    && due.errno == due'.errno && given.errno == given'.errno
  }

  lemma BreaksOnce(run: Run, i: nat, j: nat)
    requires run.Valid() && BreaksAt(run, i) && BreaksAt(run, j)
    ensures i == j
  {
  }

  lemma AlikeMeansFailing(a: Run, b: Run)
    requires a.Valid() && b.Valid() && FailAlike(a, b)
    ensures a.Outcome().status == Fail && b.Outcome().status == Fail
  {
    var i: nat, j: nat :| BreaksAt(a, i) && BreaksAt(b, j) && AlikeAt(a, i, b, j);
    BreakingFails(a, i);
    BreakingFails(b, j);
  }

  lemma BreakingFails(run: Run, k: nat)
    requires run.Valid() && BreaksAt(run, k)
    ensures run.Outcome().status == Fail && run.Outcome().failureIndex == Some(k)
  {
    hide Answers;
    forall i: nat | i < k ensures run.Agrees(i) {
      assert Given(run, i) == Some(Due(run, i));
    }
    assert !run.Agrees(k);
    StopsThere(run, k);
  }

  /** Equal signatures mean that the runs fail alike, and the other way round. */
  lemma SameSignature(a: Run, b: Run)
    requires a.Valid() && b.Valid() && a.Outcome().status == Fail && b.Outcome().status == Fail
    ensures a.Outcome().signature == b.Outcome().signature <==> FailAlike(a, b)
  {
    hide BreaksAt, Run.Outcome;
    SignatureExactly(a);
    SignatureExactly(b);
    var i, j := a.Outcome().failureIndex.value, b.Outcome().failureIndex.value;
    var s, t := a.Outcome().signature.value, b.Outcome().signature.value;
    forall i': nat, j': nat | BreaksAt(a, i') && BreaksAt(b, j') ensures i' == i && j' == j {
      BreaksOnce(a, i, i');
      BreaksOnce(b, j, j');
    }
    if AlikeAt(a, i, b, j) {
      forall f ensures f in s.fields <==> f in t.fields {
        assert f == Ret || f == Errno || f == Data;
      }
      assert s.fields == t.fields && s.operation == t.operation;
    }
  }

  lemma NothingYet(run: Run)
    requires run.Valid()
    ensures run.HistoryTo(0) == [] && Final(Start(run.capacity), run.operations[..0]) == Start(run.capacity)
  {
  }

  lemma HistoryGrows(run: Run, i: nat)
    requires run.Valid() && i < |run.operations| && run.Actual(i).Some?
    ensures run.HistoryTo(i + 1)
         == run.HistoryTo(i) + [Entry(i, run.operations[i], run.Expected(i), run.Actual(i).value)]
  {
  }

  /** `evaluate`: steps a reference model beside the device and stops at the first difference. None stands for the
      ValueError of an invalid scenario. */
  method Evaluate(factory: Factory, number: int, capacity: int, operations: seq<Op>) returns (e: Option<Evaluation>)
    ensures e.Some? <==> ValidScenario(capacity, operations)
    ensures e.Some? ==> e.value == Run(factory, number, capacity, operations).Outcome()
  {
    hide Apply, Answers, Final, Run.HistoryTo, Run.EntryAt;
    if !ValidScenario(capacity, operations) {
      return None;
    }
    ghost var run := Run(factory, number, capacity, operations);
    var history: seq<Entry> := [];
    if !factory.opens(number, capacity) {
      return Some(Evaluation(Inconclusive, [], None, None));
    }
    var model := new ReferenceModel(capacity);
    NothingYet(run);
    for index := 0 to |operations|
      invariant model.State().Valid() && model.State() == Final(Start(capacity), operations[..index])
      invariant history == run.HistoryTo(index) && run.StopsAt(0) == run.StopsAt(index)
      invariant fresh(model)
    {
      var op := operations[index];
      NextAnswer(Start(capacity), operations, index);
      var expected := model.Step(op);
      var actual := factory.respond(number, capacity, operations[..index + 1]);
      if actual.None? {
        return Some(Evaluation(Inconclusive, history, None, None));
      }
      var fields := Differing(expected, actual.value);
      history := history + [Entry(index, op, expected, actual.value)];
      HistoryGrows(run, index);
      if fields != {} {
        var signature := Signature(KindOf(op), fields, expected.errno, actual.value.errno);
        return Some(Evaluation(Fail, history, Some(index), Some(signature)));
      }
    }
    e := Some(Evaluation(Pass, history, None, None));
  }

  /** The answer at position `i` is the model's answer in the state the earlier operations leave. */
  lemma {:induction false} NextAnswer(m: Model, ops: seq<Op>, i: nat)
    requires m.Valid() && i < |ops|
    ensures Final(m, ops[..i + 1]) == Apply(Final(m, ops[..i]), ops[i]).0
    ensures Answers(m, ops)[i] == Apply(Final(m, ops[..i]), ops[i]).1
    ensures Answers(m, ops)[i] == Answers(m, ops[..i + 1])[i]
    decreases i
  {
    if i == 0 {
      assert ops[..1][1..] == [];
    } else {
      NextAnswer(Apply(m, ops[0]).0, ops[1..], i - 1);
      assert ops[..i][1..] == ops[1..][..i - 1];
      assert ops[..i + 1][1..] == ops[1..][..i];
    }
  }

  // ---------------------------------------------------------------- devices that keep the contract

  /** Every answer is the contract's. */
  ghost predicate Faithful(f: Factory) {
    && (forall number, capacity :: f.opens(number, capacity))
    && forall number, capacity, ops ::
         MIN_CAPACITY <= capacity <= MAX_CAPACITY && ops != []
         ==> f.respond(number, capacity, ops) == Some(Answers(Start(capacity), ops)[|ops| - 1])
  }

  lemma FaithfulAlwaysPasses(run: Run)
    requires run.Valid() && Faithful(run.factory)
    ensures run.Outcome().status == Pass && |run.Outcome().history| == |run.operations|
  {
    forall i: nat | i < |run.operations| ensures run.Agrees(i) {
      NextAnswer(Start(run.capacity), run.operations, i);
    }
  }

  function Simulated(fault: Fault): (r: Factory) {
    Factory((number, capacity) => true,
            (number, capacity, ops: seq<Op>) =>
              if MIN_CAPACITY <= capacity <= MAX_CAPACITY && ops != []
              then Some(Observed(fault, Start(capacity), ops)[|ops| - 1]) else None)
  }

  /** The simulator without a fault passes every scenario. */
  lemma FaultFreeSimulatorPasses(number: int, capacity: int, operations: seq<Op>)
    requires ValidScenario(capacity, operations)
    ensures Run(Simulated(NoFault), number, capacity, operations).Outcome().status == Pass
  {
    var f := Simulated(NoFault);
    forall number, capacity, ops: seq<Op> | MIN_CAPACITY <= capacity <= MAX_CAPACITY && ops != []
      ensures f.respond(number, capacity, ops) == Some(Answers(Start(capacity), ops)[|ops| - 1])
    {
      FaultFreeAgrees(Start(capacity), ops);
    }
    FaithfulAlwaysPasses(Run(f, number, capacity, operations));
  }

  // ---------------------------------------------------------------- reduction

  ghost predicate Deterministic(f: Factory) {
    && (forall n1, n2, capacity :: f.opens(n1, capacity) == f.opens(n2, capacity))
    && forall n1, n2, capacity, ops :: f.respond(n1, capacity, ops) == f.respond(n2, capacity, ops)
  }

  lemma ValidPart(capacity: int, operations: seq<Op>, part: seq<Op>)
    requires ValidScenario(capacity, operations) && 1 <= |part| <= |operations|
    requires forall op :: op in part ==> op in operations
    ensures ValidScenario(capacity, part)
  {
  }

  /** A deterministic device repeats its failure when the run is cut right after it, or anywhere later. */
  lemma TruncationKeepsFailure(run: Run, n: nat, number: int)
    requires run.Valid() && Deterministic(run.factory) && run.Outcome().status == Fail
    requires run.Outcome().failureIndex.value < n <= |run.operations|
    ensures var cut := Run(run.factory, number, run.capacity, run.operations[..n]);
            cut.Valid() && cut.Outcome().status == Fail
            && cut.Outcome().failureIndex == run.Outcome().failureIndex
            && cut.Outcome().signature == run.Outcome().signature
  {
    var k := run.StopsAt(0);
    var cut := Run(run.factory, number, run.capacity, run.operations[..n]);
    ValidPart(run.capacity, run.operations, run.operations[..n]);
    forall i: nat | i <= k ensures cut.Actual(i) == run.Actual(i) && cut.Expected(i) == run.Expected(i) {
      assert run.operations[..n][..i + 1] == run.operations[..i + 1];
      NextAnswer(Start(run.capacity), run.operations, i);
      NextAnswer(Start(run.capacity), run.operations[..n], i);
    }
    forall i: nat | i < k ensures cut.Agrees(i) {
      assert run.Agrees(i);
    }
    assert !run.Agrees(k);
    StopsThere(cut, k);
  }

  lemma StopsThere(run: Run, k: nat)
    requires run.Valid() && k < |run.operations|
    requires (forall i: nat :: i < k ==> run.Agrees(i)) && !run.Agrees(k)
    ensures run.StopsAt(0) == k
  {
  }

  /** The fixed inputs of one reduction. */
  datatype Goal = Goal(factory: Factory, capacity: int, signature: Signature)
  {
    predicate Meets(operations: seq<Op>, number: int) {
      ValidScenario(capacity, operations) && Run(factory, number, capacity, operations).Shows(signature)
    }

    /** Deleting operation `o` alone was tried in one of the first `runs` candidate runs and lost the failure; an only
        operation is never tried. */
    ghost predicate Needed(operations: seq<Op>, o: nat, runs: int)
      requires o < |operations|
    {
      |operations| > 1 ==> exists number :: 1 <= number <= runs && !Meets(Deleted(operations, o, 1), number)
    }

    ghost predicate NeededUpTo(operations: seq<Op>, count: nat, runs: int) {
      forall o: nat :: o < count && o < |operations| ==> Needed(operations, o, runs)
    }

    /** Without any one of the operations no run shows the failure, whatever its number. */
    ghost predicate Irreducible(operations: seq<Op>) {
      forall o: nat, number :: o < |operations| && |operations| > 1 ==> !Meets(Deleted(operations, o, 1), number)
    }

    /** No single remaining operation can go. */
    ghost predicate OneMinimal(operations: seq<Op>, runs: int) {
      NeededUpTo(operations, |operations|, runs)
    }
  }

  /** A candidate meets the goal exactly when its run fails like the original one. */
  lemma MeetsIsAlike(original: Run, goal: Goal, operations: seq<Op>, number: int)
    requires original.Valid() && original.Outcome().status == Fail && ValidScenario(goal.capacity, operations)
    requires original.Outcome().signature == Some(goal.signature)
    ensures goal.Meets(operations, number)
            <==> FailAlike(original, Run(goal.factory, number, goal.capacity, operations))
  {
    hide FailAlike, Run.Outcome;
    var run := Run(goal.factory, number, goal.capacity, operations);
    if run.Outcome().status == Fail {
      SameSignature(original, run);
    } else if FailAlike(original, run) {
      AlikeMeansFailing(original, run);
    }
  }

  /** For a deterministic device one run says it all. */
  lemma DeterministicNeeded(goal: Goal, operations: seq<Op>, number: int)
    requires Deterministic(goal.factory)
    ensures goal.Meets(operations, number) == goal.Meets(operations, 0)
  {
    if ValidScenario(goal.capacity, operations) {
      var a := Run(goal.factory, number, goal.capacity, operations);
      var b := Run(goal.factory, 0, goal.capacity, operations);
      forall i: nat | i < |operations| ensures a.Actual(i) == b.Actual(i) && a.Agrees(i) == b.Agrees(i) {
      }
      SameStop(a, b, 0);
    }
  }

  /** For a deterministic device one refusal of each deletion shows that none can ever succeed. */
  lemma MinimalIsIrreducible(goal: Goal, operations: seq<Op>, runs: int)
    requires Deterministic(goal.factory) && goal.OneMinimal(operations, runs)
    ensures goal.Irreducible(operations)
  {
    hide Goal.Meets, Deterministic;
    forall o: nat, number | o < |operations| && |operations| > 1
      ensures !goal.Meets(Deleted(operations, o, 1), number)
    {
      assert goal.Needed(operations, o, runs);
      var refused :| 1 <= refused <= runs && !goal.Meets(Deleted(operations, o, 1), refused);
      DeterministicNeeded(goal, Deleted(operations, o, 1), number);
      DeterministicNeeded(goal, Deleted(operations, o, 1), refused);
    }
  }

  lemma {:induction false} SameStop(a: Run, b: Run, i: nat)
    requires a.Valid() && b.Valid() && |a.operations| == |b.operations| && i <= |a.operations|
    requires forall j: nat :: j < |a.operations| ==> a.Agrees(j) == b.Agrees(j)
    ensures a.StopsAt(i) == b.StopsAt(i)
    decreases |a.operations| - i
  {
    if i < |a.operations| {
      SameStop(a, b, i + 1);
    }
  }

  /** What a deterministic 1-minimal failing list looks like: the failure is at its very end. */
  lemma MinimalFailsAtTheEnd(goal: Goal, operations: seq<Op>, number: int, runs: int)
    requires Deterministic(goal.factory) && goal.Meets(operations, number) && goal.OneMinimal(operations, runs)
    ensures Run(goal.factory, number, goal.capacity, operations).Outcome().failureIndex == Some(|operations| - 1)
  {
    var run := Run(goal.factory, number, goal.capacity, operations);
    var n := |operations| - 1;
    if run.StopsAt(0) < n {
      assert goal.Needed(operations, n, runs);
      assert Deleted(operations, n, 1) == operations[..n];
      var other :| 1 <= other <= runs && !goal.Meets(operations[..n], other);
      TruncationKeepsFailure(run, n, other);
      assert false;
    }
  }

  datatype Reduced = Reduced(operations: seq<Op>, attempts: nat, confirmed: bool, confirmation: Evaluation)

  // ---------------------------------------------------------------- the course of a reduction

  /** What the deletion loop has kept, and where it is. */
  datatype Stage = Stage(operations: seq<Op>, cursor: Cursor)
  {
    predicate Stopped() {
      |operations| <= 1 || cursor.Finished? || cursor.offset >= |operations|
    }

    /** The operations without the window that is next. */
    function Candidate(): (c: seq<Op>)
      requires !Stopped()
    {
      var end := cursor.offset + Width(false, |operations|, cursor.granularity);
      operations[..cursor.offset] + if end < |operations| then operations[end..] else []
    }
  }

  /** The stage after `n` candidates, each of which was evaluated once: run `n` is that of the n-th candidate. */
  function StageAfter(goal: Goal, whole: seq<Op>, n: nat): (s: Stage) {
    if n == 0 then Stage(whole, At(2, 0))
    else
      var before := StageAfter(goal, whole, n - 1);
      if before.Stopped() then before
      else if goal.Meets(before.Candidate(), n) then Stage(before.Candidate(), Adopt(before.cursor))
      else before.(cursor := Refuse(false, |before.operations|, before.cursor))
  }

  /** The loop had not stopped before candidate `n`. */
  predicate GoesOnTo(goal: Goal, whole: seq<Op>, n: nat) {
    forall k: nat :: k < n ==> !StageAfter(goal, whole, k).Stopped()
  }

  /** Exactly the candidates that the schedule names were evaluated, until it stopped or the budget ran out. */
  predicate FollowsSchedule(goal: Goal, whole: seq<Op>, budget: int, kept: seq<Op>, attempts: nat) {
    && GoesOnTo(goal, whole, attempts) && kept == StageAfter(goal, whole, attempts).operations
    && (attempts >= budget || StageAfter(goal, whole, attempts).Stopped())
  }

  lemma StartsAtHalves(goal: Goal, whole: seq<Op>)
    ensures GoesOnTo(goal, whole, 0) && StageAfter(goal, whole, 0) == Stage(whole, At(2, 0))
  {
  }

  /** The window at the cursor is a proper part of the operations, and deleting it makes the candidate. */
  lemma NextCandidate(operations: seq<Op>, granularity: nat, start: nat)
    requires |operations| > 1 && start < |operations| && granularity >= 2
    ensures var width := Width(false, |operations|, granularity);
            var s := Stage(operations, At(granularity, start));
            && width > 0 && !s.Stopped() && Deleted(operations, start, width) == s.Candidate() != []
  {
    hide Width;
    WidthIsPart(false, |operations|, granularity);
  }

  lemma StageMoves(goal: Goal, whole: seq<Op>, n: nat)
    requires GoesOnTo(goal, whole, n) && !StageAfter(goal, whole, n).Stopped()
    ensures var before := StageAfter(goal, whole, n);
            StageAfter(goal, whole, n + 1)
            == if goal.Meets(before.Candidate(), n + 1) then Stage(before.Candidate(), Adopt(before.cursor))
               else before.(cursor := Refuse(false, |before.operations|, before.cursor))
    ensures GoesOnTo(goal, whole, n + 1)
  {
    hide Goal.Meets, Adopt, Refuse, Width;
  }

  /** Evaluate a candidate and compare its failure with the original one. */
  method Try(goal: Goal, operations: seq<Op>, number: int) returns (matched: bool)
    requires ValidScenario(goal.capacity, operations)
    ensures matched == goal.Meets(operations, number)
  {
    var observed := Evaluate(goal.factory, number, goal.capacity, operations);
    matched := observed.value.status == Fail && observed.value.signature == Some(goal.signature);
  }

  /** The inner loop: delete each window of `chunk` operations until one deletion keeps the failure. */
  method TryDeletions(goal: Goal, operations: seq<Op>, chunk: nat, tried: nat, budget: int,
                      ghost whole: seq<Op>, ghost granularity: nat)
    returns (changed: bool, kept: seq<Op>, attempts: nat)
    requires ValidScenario(goal.capacity, operations) && chunk > 0 && tried < budget
    requires |operations| > 1 && granularity >= 2 && chunk == Width(false, |operations|, granularity)
    requires GoesOnTo(goal, whole, tried) && StageAfter(goal, whole, tried) == Stage(operations, At(granularity, 0))
    ensures tried <= attempts <= budget
    ensures changed ==> ValidScenario(goal.capacity, kept) && goal.Meets(kept, attempts)
    ensures changed ==> exists start: nat :: start < |operations| && kept == Deleted(operations, start, chunk)
    ensures !changed ==> kept == operations
    ensures GoesOnTo(goal, whole, attempts)
    ensures changed ==> StageAfter(goal, whole, attempts) == Stage(kept, At(Max(2, granularity - 1), 0))
    ensures !changed ==> StageAfter(goal, whole, attempts).operations == kept
    ensures !changed && attempts < budget ==>
      StageAfter(goal, whole, attempts).cursor == Position(false, |operations|, granularity, |operations|)
    ensures !changed && attempts < budget && chunk == 1 ==> goal.OneMinimal(operations, attempts)
  {
    hide Goal.Meets, Goal.NeededUpTo, ValidScenario, StageAfter, GoesOnTo, Width;
    changed, kept, attempts := false, operations, tried;
    NoneNeeded(goal, operations, tried);
    var start: nat := 0;
    while start < |operations|
      invariant tried <= attempts < budget && !changed && kept == operations && GoesOnTo(goal, whole, attempts)
      invariant StageAfter(goal, whole, attempts)
                == Stage(operations, Position(false, |operations|, granularity, start))
      invariant chunk == 1 ==> start <= |operations| && goal.NeededUpTo(operations, start, attempts)
    {
      var candidate := Deleted(operations, start, chunk);
      ghost var before := attempts;
      NextCandidate(operations, granularity, start);
      StageMoves(goal, whole, attempts);
      if candidate != [] {
        CandidateIsValid(goal.capacity, operations, start, chunk);
        attempts := attempts + 1;
        var matched := Try(goal, candidate, attempts);
        if matched {
          return true, candidate, attempts;
        }
        if attempts >= budget {
          return;
        }
      }
      if chunk == 1 {
        OneMoreNeeded(goal, operations, start, before, attempts);
      }
      start := start + chunk;
    }
  }

  lemma CandidateIsValid(capacity: int, operations: seq<Op>, start: nat, chunk: nat)
    requires ValidScenario(capacity, operations) && start <= |operations| && Deleted(operations, start, chunk) != []
    ensures ValidScenario(capacity, Deleted(operations, start, chunk))
  {
    ValidPart(capacity, operations, Deleted(operations, start, chunk));
  }

  lemma NoneNeeded(goal: Goal, operations: seq<Op>, runs: int)
    ensures goal.NeededUpTo(operations, 0, runs)
  {
  }

  lemma OneMoreNeeded(goal: Goal, operations: seq<Op>, o: nat, before: int, runs: int)
    requires o < |operations| && goal.NeededUpTo(operations, o, before) && 0 <= before <= runs
    requires Deleted(operations, o, 1) == []
             || (before < runs && !goal.Meets(Deleted(operations, o, 1), runs))
    ensures goal.NeededUpTo(operations, o + 1, runs)
  {
    hide Goal.Meets;
    forall p: nat | p < o + 1 && p < |operations| ensures goal.Needed(operations, p, runs) {
      assert p < o ==> goal.Needed(operations, p, before);
    }
  }

  /** `reduce_scenario`; None stands for its ValueError. */
  method ReduceScenario(factory: Factory, capacity: int, operations: seq<Op>, budget: int) returns (r: Option<Reduced>)
    ensures r.Some? <==> ValidScenario(capacity, operations)
                         && Run(factory, 0, capacity, operations).Outcome().status == Fail
    ensures r.Some? ==> Reduces(factory, capacity, operations, budget, r.value)
  {
    hide Part, Goal.NeededUpTo, Goal.Irreducible, Deterministic, Run.HistoryTo, Run.EntryAt, Differing, Run.SignatureAt,
      FollowsSchedule;
    var original := Evaluate(factory, 0, capacity, operations);
    if original.None? || original.value.status != Fail {
      return None;
    }
    ghost var run := Run(factory, 0, capacity, operations);
    var whole := operations[..original.value.failureIndex.value + 1];
    var goal := Goal(factory, capacity, original.value.signature.value);
    ValidPart(capacity, operations, whole);
    if Deterministic(factory) {
      TruncationKeepsFailure(run, |whole|, 0);
    }
    var kept, attempts := Shrink(goal, whole, budget);
    var confirmation := Evaluate(factory, attempts + 1, capacity, kept);
    PartMembers(kept, whole);
    if Deterministic(factory) {
      DeterministicNeeded(goal, kept, attempts + 1);
      if attempts < budget {
        MinimalIsIrreducible(goal, kept, attempts);
      }
    }
    var confirmed := confirmation.value.status == Fail && confirmation.value.signature == Some(goal.signature);
    MeetsIsAlike(run, goal, kept, attempts + 1);
    r := Some(Reduced(kept, attempts, confirmed, confirmation.value));
  }

  /** What a reduction delivers: part of the operations up to the failure, evaluated once more; for a deterministic
      device that confirmation succeeds; and no single operation can go unless the budget ran out. */
  ghost predicate Reduces(factory: Factory, capacity: int, operations: seq<Op>, budget: int, r: Reduced)
    requires ValidScenario(capacity, operations) && Run(factory, 0, capacity, operations).Outcome().status == Fail
  {
    var original := Run(factory, 0, capacity, operations).Outcome();
    var goal := Goal(factory, capacity, original.signature.value);
    && r.operations != [] && Part(r.operations, operations[..original.failureIndex.value + 1])
    && r.attempts <= Max(budget, 0) && ValidScenario(capacity, r.operations)
    && r.confirmation == Run(factory, r.attempts + 1, capacity, r.operations).Outcome()
    && r.confirmed == goal.Meets(r.operations, r.attempts + 1)
    && (r.confirmed <==> FailAlike(Run(factory, 0, capacity, operations),
                                   Run(factory, r.attempts + 1, capacity, r.operations)))
    && |r.operations| <= original.failureIndex.value + 1
    && (Deterministic(factory) ==> r.confirmed)
    && (Deterministic(factory) && r.attempts < budget ==> goal.Irreducible(r.operations))
    && (r.attempts < budget ==> goal.OneMinimal(r.operations, r.attempts))
    && FollowsSchedule(goal, operations[..original.failureIndex.value + 1], budget, r.operations, r.attempts)
  }

  /** The deletion loop. */
  method Shrink(goal: Goal, whole: seq<Op>, budget: int) returns (kept: seq<Op>, attempts: nat)
    requires ValidScenario(goal.capacity, whole) && (Deterministic(goal.factory) ==> goal.Meets(whole, 0))
    ensures ValidScenario(goal.capacity, kept) && Part(kept, whole) && attempts <= Max(budget, 0)
    ensures Deterministic(goal.factory) ==> goal.Meets(kept, 0)
    ensures attempts < budget ==> goal.OneMinimal(kept, attempts)
    ensures FollowsSchedule(goal, whole, budget, kept, attempts)
  {
    hide Goal.Meets, Part, Deterministic, GoesOnTo;
    kept, attempts := whole, 0;
    StartsAtHalves(goal, whole);
    PartOfItself(whole);
    var granularity := 2;
    while |kept| > 1 && attempts < budget
      invariant ValidScenario(goal.capacity, kept) && Part(kept, whole) && attempts <= Max(budget, 0)
      invariant Deterministic(goal.factory) ==> goal.Meets(kept, 0)
      invariant granularity >= 2 && GoesOnTo(goal, whole, attempts)
      invariant StageAfter(goal, whole, attempts).operations == kept
      invariant attempts < budget ==> StageAfter(goal, whole, attempts).cursor == At(granularity, 0)
      decreases |kept|, |kept| - granularity
    {
      var size := |kept|;
      var chunk := (size + granularity - 1) / granularity;
      WindowWidth(size, granularity);
      ghost var before := kept;
      var changed;
      changed, kept, attempts := TryDeletions(goal, kept, chunk, attempts, budget, whole, granularity);
      if changed {
        ghost var start: nat :| start < |before| && kept == Deleted(before, start, chunk);
        PartShrinks(before, whole, start, chunk);
        if Deterministic(goal.factory) {
          DeterministicNeeded(goal, kept, attempts);
        }
        granularity := Max(2, granularity - 1);
      } else {
        if granularity >= size {
          return;
        }
        granularity := Min(size, granularity * 2);
      }
    }
  }
}
