/** The plain sequential queue that the device must look like, one event per completed critical section. */
module Serial {
  import opened Bytes
  import opened Limits

  datatype Queue = Queue(bytes: seq<byte>, capacity: nat, nonblock: bool, closing: bool) {
    predicate Valid() {
      CapacityValid(capacity) && |bytes| <= capacity
    }

    function Space(): (r: int) {
      capacity - |bytes|
    }
  }

  /** `faulted` marks a transfer that a failing user copy cut short; `fileNonblock` is the O_NONBLOCK flag. */
  datatype Event =
    | ReadDone(count: nat, data: seq<byte>, faulted: bool)
    | ReadFault(count: nat)
    | ReadAgain(count: nat, fileNonblock: bool)
    | ReadEof(count: nat)
    | WriteDone(request: seq<byte>, n: nat, faulted: bool)
    | WriteFault(request: seq<byte>)
    | WriteAgain(request: seq<byte>, fileNonblock: bool)
    | WriteClosed(request: seq<byte>)
    | Cleared
    | Resized(requested: nat)
    | ResizeRefused(requested: nat, code: int)
    | ModeSet(nonblocking: bool)
    | Closed

  /** A transfer moves everything that fits, or a proper nonempty part of it when a copy faulted. */
  predicate Moved(n: int, fits: int, faulted: bool) {
    0 < n <= fits && (if faulted then n < fits else n == fits)
  }

  /** What a sequential queue may answer in state `q`. */
  predicate Permitted(q: Queue, e: Event) {
    match e
    case ReadDone(count, data, faulted) =>
      Moved(|data|, Min(count, |q.bytes|), faulted) && data == q.bytes[..|data|]
    case ReadFault(count) => 0 < count && q.bytes != []
    case ReadAgain(_, fileNonblock) => q.bytes == [] && !q.closing && (fileNonblock || q.nonblock)
    case ReadEof(_) => q.bytes == [] && q.closing
    case WriteDone(request, n, faulted) => !q.closing && Moved(n, Min(|request|, q.Space()), faulted)
    case WriteFault(request) => !q.closing && request != [] && 0 < q.Space()
    case WriteAgain(_, fileNonblock) => q.Space() == 0 && !q.closing && (fileNonblock || q.nonblock)
    case WriteClosed(_) => q.closing
    case Cleared => true
    case Resized(requested) => CapacityValid(requested) && |q.bytes| <= requested
    case ResizeRefused(requested, code) =>
      CapacityValid(requested) && (if requested < |q.bytes| then code == EMSGSIZE else code == ENOMEM)
    case ModeSet(_) => true
    case Closed => true
  }

  function After(q: Queue, e: Event): (r: Queue)
    requires Permitted(q, e)
    ensures q.Valid() ==> r.Valid()
  {
    match e
    case ReadDone(_, data, _) => q.(bytes := q.bytes[|data|..])
    case WriteDone(request, n, _) => q.(bytes := q.bytes + request[..n])
    case Cleared => q.(bytes := [])
    case Resized(requested) => q.(capacity := requested)
    case ModeSet(nonblocking) => q.(nonblock := nonblocking)
    case Closed => q.(closing := true)
    case _ => q
  }

  /** `log` is a run of the sequential queue from `q`. */
  predicate Explained(q: Queue, log: seq<Event>)
    decreases |log|, 0
  {
    log == []
    || (Explained(q, log[..|log| - 1]) && Permitted(Replay(q, log[..|log| - 1]), log[|log| - 1]))
  }

  /** The queue after a run. */
  function Replay(q: Queue, log: seq<Event>): (r: Queue)
    requires Explained(q, log)
    ensures q.Valid() ==> r.Valid()
    decreases |log|, 1
  {
    if log == [] then q else After(Replay(q, log[..|log| - 1]), log[|log| - 1])
  }

  lemma ExplainedSnoc(q: Queue, log: seq<Event>, e: Event)
    requires Explained(q, log) && Permitted(Replay(q, log), e)
    ensures Explained(q, log + [e]) && Replay(q, log + [e]) == After(Replay(q, log), e)
  {
    assert (log + [e])[..|log|] == log;
  }

  /** Bytes written since the last CLEAR, in order. */
  function Accepted(log: seq<Event>): (r: seq<byte>) {
    if log == [] then []
    else
      var before := Accepted(log[..|log| - 1]);
      match log[|log| - 1]
      case Cleared => []
      case WriteDone(request, n, _) => if n <= |request| then before + request[..n] else before
      case _ => before
  }

  /** Bytes handed to readers since the last CLEAR, in order. */
  function Delivered(log: seq<Event>): (r: seq<byte>) {
    if log == [] then []
    else
      var before := Delivered(log[..|log| - 1]);
      match log[|log| - 1]
      case Cleared => []
      case ReadDone(_, data, _) => before + data
      case _ => before
  }

  /** First in, first out, nothing lost, nothing invented: what was accepted since the last CLEAR is what
      was delivered since then followed by what is still stored. */
  lemma {:induction false} FifoLaw(q: Queue, log: seq<Event>)
    requires Explained(q, log) && q.bytes == []
    ensures Accepted(log) == Delivered(log) + Replay(q, log).bytes
  {
    if log == [] {
    } else {
      var before, e := log[..|log| - 1], log[|log| - 1];
      FifoLaw(q, before);
      var mid := Replay(q, before);
      if e.ReadDone? {
        assert mid.bytes == e.data + mid.bytes[|e.data|..];
        assert Delivered(before) + (e.data + mid.bytes[|e.data|..])
            == (Delivered(before) + e.data) + mid.bytes[|e.data|..];
      } else if e.WriteDone? {
        assert (Delivered(before) + mid.bytes) + e.request[..e.n] == Delivered(before) + (mid.bytes + e.request[..e.n]);
      }
    }
  }
}
