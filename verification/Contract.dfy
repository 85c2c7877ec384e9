/** The sequential, nonblocking byte-stream contract of lab/contract.py. */
module Contract {
  import opened Bytes
  import opened Limits

  const MAX_OPERATIONS := 10000
  const MAX_TRANSFER := 4096

  datatype Op =
    | Write(data: seq<byte>)
    | Read(count: nat)
    | Resize(capacity: nat)
    | Clear
    | Capacity

  datatype Result = Result(ret: int, errno: int, data: Option<seq<byte>>)

  function Success(count: int): (r: Result) {
    Result(count, 0, None)
  }

  function SuccessData(data: seq<byte>): (r: Result) {
    Result(|data|, 0, Some(data))
  }

  function Failure(code: int): (r: Result) {
    Result(-1, code, None)
  }

  predicate ValidOp(op: Op) {
    match op
    case Write(data) => |data| <= MAX_TRANSFER
    case Read(count) => count <= MAX_TRANSFER
    case Resize(capacity) => capacity < 0x1_0000_0000_0000_0000
    case Clear => true
    case Capacity => true
  }

  predicate ValidScenario(capacity: int, operations: seq<Op>) {
    && MIN_CAPACITY <= capacity <= MAX_CAPACITY
    && 1 <= |operations| <= MAX_OPERATIONS
    && forall op :: op in operations ==> ValidOp(op)
  }

  datatype Model = Model(capacity: nat, data: seq<byte>) {
    predicate Valid() {
      MIN_CAPACITY <= capacity <= MAX_CAPACITY && |data| <= capacity
    }
  }

  /** A fresh queue. */
  function Start(capacity: int): (m: Model)
    requires MIN_CAPACITY <= capacity <= MAX_CAPACITY
    ensures m.Valid()
  {
    Model(capacity, [])
  }

  /** What one operation answers and what it leaves behind. */
  function Apply(m: Model, op: Op): (r: (Model, Result))
    requires m.Valid()
    ensures r.0.Valid()
  {
    match op
    case Write(payload) =>
      var count := Min(|payload|, m.capacity - |m.data|);
      if payload != [] && count == 0 then (m, Failure(EAGAIN))
      else (m.(data := m.data + payload[..count]), Success(count))
    case Read(wanted) =>
      var count := Min(wanted, |m.data|);
      if wanted != 0 && count == 0 then (m, Failure(EAGAIN))
      else (m.(data := m.data[count..]), SuccessData(m.data[..count]))
    case Resize(capacity) =>
      if !(MIN_CAPACITY <= capacity <= MAX_CAPACITY) then (m, Failure(EINVAL))
      else if capacity < |m.data| then (m, Failure(EMSGSIZE))
      else (m.(capacity := capacity), Success(0))
    case Clear => (m.(data := []), Success(0))
    case Capacity => (m, Success(m.capacity))
  }

  /** The answers to a whole operation list, in order. */
  function Answers(m: Model, ops: seq<Op>): (rs: seq<Result>)
    requires m.Valid()
    ensures |rs| == |ops|
    decreases |ops|
  {
    if ops == [] then []
    else var (m', r) := Apply(m, ops[0]); [r] + Answers(m', ops[1..])
  }

  /** The queue that a whole operation list leaves behind. */
  function Final(m: Model, ops: seq<Op>): (f: Model)
    requires m.Valid()
    ensures f.Valid()
    decreases |ops|
  {
    if ops == [] then m else Final(Apply(m, ops[0]).0, ops[1..])
  }

  /** One more operation at the end adds one answer and changes no earlier one. */
  lemma {:induction false} OneMore(m: Model, ops: seq<Op>, op: Op)
    requires m.Valid()
    ensures Final(m, ops + [op]) == Apply(Final(m, ops), op).0
    ensures Answers(m, ops + [op]) == Answers(m, ops) + [Apply(Final(m, ops), op).1]
    decreases |ops|
  {
    if ops != [] {
      OneMore(Apply(m, ops[0]).0, ops[1..], op);
      assert (ops + [op])[1..] == ops[1..] + [op];
    } else {
      assert (ops + [op])[1..] == [];
    }
  }

  class ReferenceModel {
    var capacity: nat
    var data: seq<byte>

    ghost function State(): (r: Model)
      reads this
    {
      Model(capacity, data)
    }

    constructor (initial: nat)
      requires MIN_CAPACITY <= initial <= MAX_CAPACITY
      ensures State() == Model(initial, []) && State().Valid()
    {
      capacity := initial;
      data := [];
    }

    method Step(op: Op) returns (r: Result)
      requires State().Valid()
      modifies this
      ensures (State(), r) == Apply(old(State()), op)
    {
      match op
      case Write(payload) =>
        var count := Min(|payload|, capacity - |data|);
        if payload != [] && count == 0 {
          return Failure(EAGAIN);
        }
        data := data + payload[..count];
        r := Success(count);
      case Read(wanted) =>
        var count := Min(wanted, |data|);
        if wanted != 0 && count == 0 {
          return Failure(EAGAIN);
        }
        var payload := data[..count];
        data := data[count..];
        r := SuccessData(payload);
      case Resize(requested) =>
        if !(MIN_CAPACITY <= requested <= MAX_CAPACITY) {
          return Failure(EINVAL);
        }
        if requested < |data| {
          return Failure(EMSGSIZE);
        }
        capacity := requested;
        r := Success(0);
      case Clear =>
        data := [];
        r := Success(0);
      case Capacity =>
        r := Success(capacity);
    }
  }
}
