/** The lock-protected deque simulator of lab/backends.py, with its optional injected faults. */
module Backends {
  import opened Bytes
  import opened Contract
  import opened Limits

  datatype Fault = NoFault | FalseEof | ReverseRead | ResizeLoss

  function Reversed(s: seq<byte>): (r: seq<byte>)
    ensures |r| == |s|
  {
    if s == [] then [] else Reversed(s[1..]) + [s[0]]
  }

  /** What an injected fault does to the contract's answer; everything else is the contract. */
  function Behaviour(fault: Fault, m: Model, op: Op): (r: (Model, Result))
    requires m.Valid()
    ensures r.0.Valid()
  {
    var (m', answer) := Apply(m, op);
    match (fault, op)
    case (FalseEof, Read(count)) =>
      if count != 0 && m.data == [] then (m, SuccessData([])) else (m', answer)
    case (ReverseRead, Read(_)) =>
      if answer.data.Some? then (m', SuccessData(Reversed(answer.data.value))) else (m', answer)
    case (ResizeLoss, Resize(_)) =>
      if answer.errno == 0 then (m'.(data := []), answer) else (m', answer)
    case _ => (m', answer)
  }

  class SimulatedDevice {
    var capacity: nat
    var queue: seq<byte>
    const fault: Fault

    ghost function State(): (r: Model)
      reads this
    {
      Model(capacity, queue)
    }

    constructor (initial: nat, injected: Fault)
      requires MIN_CAPACITY <= initial <= MAX_CAPACITY
      ensures State() == Model(initial, []) && State().Valid() && fault == injected
    {
      capacity := initial;
      queue := [];
      fault := injected;
    }

    /** Appends byte by byte until the deque is full. */
    method AppendBytes(payload: seq<byte>) returns (transferred: nat)
      requires State().Valid()
      modifies this`queue
      ensures State().Valid()
      ensures transferred == Min(|payload|, capacity - |old(queue)|)
      ensures queue == old(queue) + payload[..transferred]
    {
      transferred := 0;
      while transferred < |payload|
        invariant transferred <= |payload| && |queue| <= capacity
        invariant queue == old(queue) + payload[..transferred]
      {
        if |queue| == capacity {
          break;
        }
        queue := queue + [payload[transferred]];
        transferred := transferred + 1;
      }
    }

    /** Pops byte by byte until `count` bytes are out or the deque is empty. */
    method PopBytes(count: nat) returns (values: seq<byte>)
      requires State().Valid()
      modifies this`queue
      ensures State().Valid()
      ensures |values| == Min(count, |old(queue)|)
      ensures old(queue) == values + queue
    {
      values := [];
      while |values| < count
        invariant |values| <= count && |queue| <= capacity
        invariant old(queue) == values + queue
      {
        if queue == [] {
          break;
        }
        values := values + [queue[0]];
        queue := queue[1..];
      }
    }

    method Step(op: Op) returns (r: Result)
      requires State().Valid()
      modifies this
      ensures State().Valid()
      ensures (State(), r) == Behaviour(fault, old(State()), op)
    {
      match op
      case Write(payload) =>
        if payload != [] && |queue| == capacity {
          return Failure(EAGAIN);
        }
        var transferred := AppendBytes(payload);
        r := Success(transferred);
      case Read(count) =>
        if count != 0 && queue == [] {
          if fault == FalseEof {
            return SuccessData([]);
          }
          return Failure(EAGAIN);
        }
        var values := PopBytes(count);
        assert values == old(queue)[..|values|];
        if fault == ReverseRead {
          values := Reversed(values);
        }
        r := SuccessData(values);
      case Resize(requested) =>
        if requested < 256 || requested > 65536 {
          return Failure(EINVAL);
        }
        if requested < |queue| {
          return Failure(EMSGSIZE);
        }
        capacity := requested;
        if fault == ResizeLoss {
          queue := [];
        }
        r := Success(0);
      case Clear =>
        queue := [];
        r := Success(0);
      case Capacity =>
        r := Success(capacity);
    }
  }

  /** The answers of a simulator, operation by operation. */
  function Observed(fault: Fault, m: Model, ops: seq<Op>): (rs: seq<Result>)
    requires m.Valid()
    ensures |rs| == |ops|
    decreases |ops|
  {
    if ops == [] then []
    else var (m', r) := Behaviour(fault, m, ops[0]); [r] + Observed(fault, m', ops[1..])
  }

  /** Without a fault the simulator is the contract on every operation list. */
  lemma {:induction false} FaultFreeAgrees(m: Model, ops: seq<Op>)
    requires m.Valid()
    ensures Observed(NoFault, m, ops) == Answers(m, ops)
    decreases |ops|
  {
    if ops == [] {
    } else {
      FaultFreeAgrees(Apply(m, ops[0]).0, ops[1..]);
    }
  }

  lemma {:induction false} ReversedHolds(s: seq<byte>, k: nat)
    requires k < |s|
    ensures Reversed(s)[k] == s[|s| - 1 - k]
  {
    if k == |s| - 1 {
    } else {
      ReversedHolds(s[1..], k);
    }
  }

  /** The simulator deviates from the contract here. */
  predicate Deviates(fault: Fault, m: Model, op: Op)
    requires m.Valid()
  {
    Behaviour(fault, m, op) != Apply(m, op)
  }

  /** What each fault does, and nothing else: `false-eof` turns EAGAIN on an empty queue into an end of file,
      `reverse-read` returns the oldest bytes back to front, `resize-loss` empties the queue when it is resized. */
  lemma FaultsExactly(fault: Fault, m: Model, op: Op)
    requires m.Valid()
    ensures var (after, answer) := Behaviour(fault, m, op);
            && (Deviates(fault, m, op) ==>
                  match fault
                  case NoFault => false
                  case FalseEof => op.Read? && op.count > 0 && m.data == []
                  case ReverseRead => op.Read? && op.count > 1 && |m.data| > 1
                  case ResizeLoss => op.Resize? && |m.data| <= op.capacity && m.data != [])
            && (fault == FalseEof && op.Read? && op.count > 0 && m.data == [] ==>
                  answer == Result(0, 0, Some([])) && after == m)
            && (fault == ReverseRead && op.Read? && op.count > 0 && m.data != [] ==>
                  && answer.errno == 0 && answer.data.Some? && answer.ret == |answer.data.value|
                  && answer.ret == (if op.count < |m.data| then op.count else |m.data|)
                  && (forall k :: 0 <= k < answer.ret ==> answer.data.value[k] == m.data[answer.ret - 1 - k])
                  && after == Model(m.capacity, m.data[answer.ret..]))
            && (fault == ResizeLoss && op.Resize? && 256 <= op.capacity <= 65536 && |m.data| <= op.capacity ==>
                  answer == Result(0, 0, None) && after == Model(op.capacity, []))
  {
    if fault == ReverseRead && op.Read? {
      var data := m.data[..Min(op.count, |m.data|)];
      forall k | 0 <= k < |data| ensures Reversed(data)[k] == m.data[|data| - 1 - k] {
        ReversedHolds(data, k);
      }
      if |data| <= 1 {
        assert Reversed(data) == data;
      }
    }
  }

  function Witness(fault: Fault): (r: seq<Op>) {
    match fault
    case NoFault => []
    case FalseEof => [Read(1)]
    case ReverseRead => [Write([1, 2]), Read(2)]
    case ResizeLoss => [Write([1]), Resize(256), Read(1)]
  }

  lemma EveryFaultIsVisible(fault: Fault)
    requires fault != NoFault
    ensures Observed(fault, Model(256, []), Witness(fault)) != Answers(Model(256, []), Witness(fault))
  {
    var m := Model(256, []);
    match fault
    case FalseEof =>
      assert Observed(fault, m, Witness(fault))[0] != Answers(m, Witness(fault))[0];
    case ReverseRead =>
      var m1 := Model(256, [1, 2]);
      assert Behaviour(fault, m, Write([1, 2])).0 == m1;
      assert Reversed([1, 2]) == [2, 1] by {
        assert [1, 2][1..] == [2];
        assert [2][1..] == [];
      }
      assert m1.data[..2] == [1, 2];
      assert Behaviour(fault, m1, Read(2)).1 == SuccessData([2, 1]);
      assert Apply(m1, Read(2)).1 == SuccessData([1, 2]);
      assert Witness(fault)[1..] == [Read(2)];
      assert Observed(fault, m1, [Read(2)])[0] != Answers(m1, [Read(2)])[0];
      assert Observed(fault, m, Witness(fault))[1] != Answers(m, Witness(fault))[1];
    case ResizeLoss =>
      var m1 := Model(256, [1]);
      assert Behaviour(fault, m, Write([1])).0 == m1;
      assert Witness(fault)[1..] == [Resize(256), Read(1)];
      assert [Resize(256), Read(1)][1..] == [Read(1)];
      assert Observed(fault, m, [Read(1)])[0] != Answers(m1, [Read(1)])[0];
      assert Observed(fault, m1, [Resize(256), Read(1)])[1] != Answers(m1, [Resize(256), Read(1)])[1];
      assert Observed(fault, m, Witness(fault))[2] != Answers(m, Witness(fault))[2];
  }
}
