/** read, write and ioctl of kernel/ringbuf_char.c as one thread executes them while it holds the mutex:
    the blocking decision, the copy loops with failing user copies, and the control operations. */
module Device {
  import opened Bytes
  import opened Limits
  import opened RingBuffer
  import opened Serial
  import Contract

  /** Wait: the call releases the mutex and sleeps with the generation it has seen. */
  datatype Outcome = Return(ret: int, faulted: bool) | Wait(seenGeneration: nat)

  /** The event a finished read stands for, given what it returned and what the user buffer holds. */
  function ReadEvent(count: nat, user: seq<byte>, fileNonblock: bool, o: Outcome): (r: Event)
    requires o.Return? && o.ret <= |user|
  {
    if o.ret > 0 then ReadDone(count, user[..o.ret], o.faulted)
    else if o.ret == -EFAULT then ReadFault(count)
    else if o.ret == -EAGAIN then ReadAgain(count, fileNonblock)
    else ReadEof(count)
  }

  function WriteEvent(request: seq<byte>, fileNonblock: bool, o: Outcome): (r: Event)
    requires o.Return?
  {
    if o.ret > 0 then WriteDone(request, o.ret, o.faulted)
    else if o.ret == -EFAULT then WriteFault(request)
    else if o.ret == -EAGAIN then WriteAgain(request, fileNonblock)
    else WriteClosed(request)
  }

  /** What a read answers when nothing is stored: end of file, -EAGAIN, or it waits. */
  function EmptyRead(q: Queue, fileNonblock: bool, generation: nat): (r: Outcome) {
    if q.closing then Return(0, false)
    else if fileNonblock || q.nonblock then Return(-EAGAIN, false)
    else Wait(generation)
  }

  /** What a write answers when the device is closing or full: -ENODEV, -EAGAIN, or it waits. */
  function BlockedWrite(q: Queue, fileNonblock: bool, generation: nat): (r: Outcome) {
    if q.closing then Return(-ENODEV, false)
    else if fileNonblock || q.nonblock then Return(-EAGAIN, false)
    else Wait(generation)
  }

  /** The outcome of a copy loop that moved `n` of `fits` bytes. */
  function Transfer(n: nat, fits: nat): (r: Outcome) {
    Return(if n == 0 then -EFAULT else n, n < fits)
  }

  class Device {
    const buffer: RingBuffer
    var nonblock: bool
    var shuttingDown: bool
    var generation: nat

    ghost predicate Valid()
      reads this, buffer, buffer.data
    {
      buffer.Valid()
    }

    ghost function Abstract(): (q: Queue)
      reads this, buffer, buffer.data
      requires Valid()
      ensures q.Valid()
    {
      Queue(buffer.Contents(), buffer.capacity, nonblock, shuttingDown)
    }

    constructor (capacity: nat)
      requires CapacityValid(capacity)
      ensures Valid() && fresh(buffer) && fresh(buffer.data)
      ensures Abstract() == Queue([], capacity, false, false)
    {
      buffer := new RingBuffer(capacity);
      nonblock, shuttingDown, generation := false, false, 0;
    }

    /** One turn of the read loop: copy the first span to the user; `missing` bytes of it fail. */
    method CopySpanToUser(user: array<byte>, copied: nat, count: nat, missing: nat)
      returns (transferred: nat, failed: nat)
      requires Valid() && user != buffer.data && copied < count <= user.Length && 0 < buffer.len
      modifies buffer`len, buffer`readPos, buffer`writePos, user
      ensures Valid()
      ensures transferred + failed == Min(count - copied, Min(old(buffer.len), buffer.capacity - old(buffer.readPos)))
      ensures failed == Min(missing, transferred + failed)
      ensures buffer.Contents() == old(buffer.Contents())[transferred..]
      ensures buffer.len == old(buffer.len) - transferred
      ensures buffer.len > 0 && old(buffer.readPos) + transferred == buffer.capacity ==> buffer.readPos == 0
      ensures user[..] == Overwritten(old(user[..]), copied, old(buffer.Contents())[..transferred])
    {
      hide Overwritten, RingBuffer.Contents;
      ghost var before := buffer.Contents();
      var start, span := buffer.ReadSpan();
      var chunk := Min(count - copied, span);
      failed := Min(missing, chunk);
      transferred := chunk - failed;
      assert buffer.data[start..start + transferred] == buffer.data[start..start + span][..transferred]
          == before[..transferred];
      CopyBytes(user, copied, buffer.data[start..start + transferred]);
      buffer.Consume(transferred);
    }

    /** The read loop. `fault(k)` bytes of the k-th user copy fail. It takes at most two turns. */
    method ReadLocked(user: array<byte>, count: nat, fault: nat -> nat)
      returns (copied: nat, faulted: bool, turns: nat)
      requires Valid() && user != buffer.data && 0 < count <= user.Length && 0 < buffer.len
      modifies buffer`len, buffer`readPos, buffer`writePos, user
      ensures Valid() && 1 <= turns <= 2
      ensures var fits := Min(count, old(buffer.len));
              && copied == Moves(fits, Min(fits, buffer.capacity - old(buffer.readPos)), fault)
              && copied <= fits && (faulted <==> copied < fits)
      ensures buffer.Contents() == old(buffer.Contents())[copied..]
      ensures CopiedPrefix(old(user[..]), user[..], old(buffer.Contents()), copied)
    {
      hide RingBuffer.Contents, CopiedPrefix, Overwritten, Cell, Moves;
      ghost var q := buffer.Contents();
      ghost var fits := Min(count, buffer.len);
      ghost var first := Min(fits, buffer.capacity - buffer.readPos);
      copied, faulted, turns := 0, false, 0;
      CopyNone(user[..], q);
      while copied < count && buffer.len > 0
        invariant Valid() && !faulted && Between(turns, copied, fits, first, fault)
        invariant copied + buffer.len == |q|
        invariant turns == 0 ==> buffer.readPos == old(buffer.readPos)
        invariant turns == 1 && copied < fits ==> buffer.readPos == 0
        invariant buffer.Contents() == q[copied..]
        invariant CopiedPrefix(old(user[..]), user[..], q, copied)
        decreases count - copied
      {
        ghost var before := user[..];
        var transferred, failed := CopySpanToUser(user, copied, count, fault(turns));
        CopyMore(old(user[..]), before, user[..], q, copied, transferred);
        TurnMoves(turns, copied, fits, first, fault);
        copied := copied + transferred;
        turns := turns + 1;
        if failed > 0 {
          faulted := true;
          break;
        }
      }
    }

    /** The copy into free cells, where only `arrived` came through, and the commit of that part. */
    method ScribbleAndCommit(arrived: seq<byte>, noise: seq<byte>)
      requires Valid() && buffer.writePos + |arrived| + |noise| <= buffer.capacity
      requires buffer.len + |arrived| + |noise| <= buffer.capacity
      modifies buffer`len, buffer`writePos, buffer.data
      ensures Valid()
      ensures buffer.Contents() == old(buffer.Contents()) + arrived && buffer.len == old(buffer.len) + |arrived|
      ensures arrived != [] && old(buffer.writePos) + |arrived| == buffer.capacity ==> buffer.writePos == 0
    {
      hide RingBuffer.Contents, Cell;
      var start := buffer.writePos;
      buffer.Scribble(start, arrived + noise);
      ArrivedPart(buffer.data, start, arrived, noise);
      buffer.Commit(|arrived|);
    }

    /** One turn of the write loop: copy user bytes into the first free span, then commit what arrived.
        The cells whose copy failed are overwritten with `noise`. */
    method CopySpanFromUser(bytes: seq<byte>, missing: nat, noise: byte) returns (transferred: nat, failed: nat)
      requires Valid() && bytes != [] && |bytes| <= buffer.capacity - buffer.len
      modifies buffer`len, buffer`writePos, buffer.data
      ensures Valid()
      ensures transferred + failed
           == Min(|bytes|, Min(buffer.capacity - old(buffer.len), buffer.capacity - old(buffer.writePos)))
      ensures failed == Min(missing, transferred + failed) && 0 < transferred + failed
      ensures buffer.Contents() == old(buffer.Contents()) + bytes[..transferred]
      ensures buffer.len == old(buffer.len) + transferred
      ensures 0 < transferred && old(buffer.writePos) + transferred == buffer.capacity ==> buffer.writePos == 0
    {
      hide RingBuffer.Contents, Cell;
      var start, span := buffer.WriteSpan();
      var chunk := Min(|bytes|, span);
      failed := Min(missing, chunk);
      transferred := chunk - failed;
      ScribbleAndCommit(bytes[..transferred], seq(failed, _ => noise));
    }

    /** The write loop. `stalled` is the exit for an empty chunk; it is never taken. */
    method WriteLocked(request: seq<byte>, writable: nat, fault: nat -> nat, noise: byte)
      returns (copied: nat, faulted: bool, turns: nat, stalled: bool)
      requires Valid() && 0 < writable <= |request| && writable <= buffer.capacity - buffer.len
      modifies buffer`len, buffer`writePos, buffer.data
      ensures Valid() && 1 <= turns <= 2 && !stalled
      ensures copied == Moves(writable, Min(writable, buffer.capacity - old(buffer.writePos)), fault)
      ensures faulted <==> copied < writable
      ensures copied <= writable && buffer.Contents() == old(buffer.Contents()) + request[..copied]
    {
      hide RingBuffer.Contents, Cell, Moves;
      ghost var q := buffer.Contents();
      ghost var first := Min(writable, buffer.capacity - buffer.writePos);
      copied, faulted, turns, stalled := 0, false, 0, false;
      while copied < writable
        invariant Valid() && !faulted && Between(turns, copied, writable, first, fault)
        invariant buffer.len == |q| + copied
        invariant turns == 0 ==> buffer.writePos == old(buffer.writePos)
        invariant turns == 1 && copied < writable ==> buffer.writePos == 0
        invariant buffer.Contents() == q + request[..copied]
        decreases writable - copied
      {
        var transferred, failed := CopySpanFromUser(request[copied..writable], fault(turns), noise);
        if transferred + failed == 0 {
          stalled := true;
          break;
        }
        AppendMore(q, request, copied, writable, transferred);
        TurnMoves(turns, copied, writable, first, fault);
        copied := copied + transferred;
        turns := turns + 1;
        if failed > 0 {
          faulted := true;
          break;
        }
      }
    }

    /** read(2): the blocking decision and, when there is data, the copy loop. */
    method Read(user: array<byte>, count: nat, fileNonblock: bool, fault: nat -> nat) returns (o: Outcome)
      requires Valid() && user != buffer.data && count <= user.Length
      modifies buffer`len, buffer`readPos, buffer`writePos, user
      ensures Valid()
      ensures count == 0 ==> o == Return(0, false) && Abstract() == old(Abstract())
      ensures o.Wait? ==> o.seenGeneration == generation && Abstract() == old(Abstract())
      ensures o.Wait? <==>
        0 < count && old(buffer.len) == 0 && !shuttingDown && !fileNonblock && !nonblock
      ensures 0 < count && old(buffer.len) == 0 ==> o == EmptyRead(old(Abstract()), fileNonblock, generation)
      ensures o.Return? && fault(0) == 0 && fault(1) == 0 ==> !o.faulted && o.ret != -EFAULT
      ensures o.Return? && 0 < count ==>
        0 < o.ret || o.ret in {-EFAULT, -EAGAIN} || (o.ret == 0 && shuttingDown && old(buffer.len) == 0)
      ensures 0 < count && 0 < old(buffer.len) ==>
        var fits := Min(count, old(buffer.len));
        o == Transfer(Moves(fits, Min(fits, buffer.capacity - old(buffer.readPos)), fault), fits)
      ensures o.Return? && 0 < count ==>
        && o.ret <= user.Length
        && Permitted(old(Abstract()), ReadEvent(count, user[..], fileNonblock, o))
        && Abstract() == After(old(Abstract()), ReadEvent(count, user[..], fileNonblock, o))
    {
      hide RingBuffer.Contents, Cell;
      if count == 0 {
        return Return(0, false);
      }
      if !(buffer.Stored() > 0 || shuttingDown) {
        if fileNonblock || nonblock {
          return Return(-EAGAIN, false);
        }
        return Wait(generation);
      }
      if shuttingDown && buffer.Stored() == 0 {
        return Return(0, false);
      }
      var copied, faulted, turns := ReadLocked(user, count, fault);
      if faulted && copied == 0 {
        return Return(-EFAULT, true);
      }
      o := Return(copied, faulted);
    }

    /** write(2). */
    method Write(request: seq<byte>, fileNonblock: bool, fault: nat -> nat, noise: byte) returns (o: Outcome)
      requires Valid()
      modifies buffer`len, buffer`writePos, buffer.data
      ensures Valid()
      ensures request == [] ==> o == Return(0, false) && Abstract() == old(Abstract())
      ensures o.Wait? ==> o.seenGeneration == generation && Abstract() == old(Abstract())
      ensures o.Wait? <==>
        request != [] && old(buffer.len) == buffer.capacity && !shuttingDown && !fileNonblock && !nonblock
      ensures request != [] && (shuttingDown || old(buffer.len) == buffer.capacity) ==>
        o == BlockedWrite(old(Abstract()), fileNonblock, generation)
      ensures o.Return? && fault(0) == 0 && fault(1) == 0 ==> !o.faulted && o.ret != -EFAULT
      ensures o.Return? && request != [] ==>
        0 < o.ret || o.ret in {-EFAULT, -EAGAIN} || (o.ret == -ENODEV && shuttingDown)
      ensures request != [] && !shuttingDown && old(buffer.len) < buffer.capacity ==>
        var fits := Min(|request|, buffer.capacity - old(buffer.len));
        o == Transfer(Moves(fits, Min(fits, buffer.capacity - old(buffer.writePos)), fault), fits)
      ensures o.Return? && request != [] ==>
        && Permitted(old(Abstract()), WriteEvent(request, fileNonblock, o))
        && Abstract() == After(old(Abstract()), WriteEvent(request, fileNonblock, o))
    {
      hide RingBuffer.Contents, Cell;
      if request == [] {
        return Return(0, false);
      }
      var writable := buffer.Available();
      if !(writable > 0 || shuttingDown) {
        if fileNonblock || nonblock {
          return Return(-EAGAIN, false);
        }
        return Wait(generation);
      }
      if shuttingDown {
        return Return(-ENODEV, false);
      }
      writable := Min(|request|, writable);
      var copied, faulted, turns, stalled := WriteLocked(request, writable, fault, noise);
      if faulted && copied == 0 {
        return Return(-EFAULT, true);
      }
      o := Return(copied, faulted);
    }

    method IoctlClear()
      requires Valid()
      modifies buffer`len, buffer`readPos, buffer`writePos, this`generation
      ensures Valid() && Abstract() == After(old(Abstract()), Cleared) && generation == old(generation) + 1
    {
      buffer.Clear();
      generation := generation + 1;
    }

    /** SET_CAPACITY: `readable` tells whether the argument could be copied from the user. */
    method IoctlSetCapacity(requested: nat, readable: bool, granted: bool) returns (ret: int)
      requires Valid()
      modifies buffer, this`generation
      ensures Valid()
      ensures ret == if !readable then -EFAULT
                     else if !CapacityValid(requested) then -EINVAL
                     else if requested < |old(Abstract()).bytes| then -EMSGSIZE
                     else if !granted then -ENOMEM else 0
      ensures ret == 0 ==> Abstract() == After(old(Abstract()), Resized(requested)) && generation == old(generation) + 1
      ensures ret != 0 ==> Abstract() == old(Abstract()) && generation == old(generation)
      ensures ret != 0 && readable && CapacityValid(requested) ==>
        Permitted(old(Abstract()), ResizeRefused(requested, -ret))
      ensures buffer.data == old(buffer.data) || fresh(buffer.data)
    {
      if !readable {
        return -EFAULT;
      }
      if !CapacityValid(requested) {
        return -EINVAL;
      }
      ret := buffer.Resize(requested, granted);
      if ret == 0 {
        generation := generation + 1;
      }
    }

    /** SET_MODE: only the NONBLOCK bit is valid. */
    method IoctlSetMode(mode: nat, readable: bool) returns (ret: int)
      requires Valid() && mode < 0x1_0000_0000
      modifies this`nonblock, this`generation
      ensures Valid()
      ensures ret == if !readable then -EFAULT else if mode > 1 then -EINVAL else 0
      ensures ret == 0 ==> Abstract() == After(old(Abstract()), ModeSet(mode == 1)) && generation == old(generation) + 1
      ensures ret != 0 ==> Abstract() == old(Abstract()) && generation == old(generation)
    {
      if !readable {
        return -EFAULT;
      }
      if mode > 1 {
        return -EINVAL;
      }
      nonblock := mode == 1;
      generation := generation + 1;
      ret := 0;
    }

    /** The shutdown part of module exit. */
    method ShutDown()
      requires Valid()
      modifies this`shuttingDown, this`generation
      ensures Valid() && Abstract() == After(old(Abstract()), Closed) && generation == old(generation) + 1
    {
      shuttingDown := true;
      generation := generation + 1;
    }

    ghost function Model(): (m: Contract.Model)
      reads this, buffer, buffer.data
      requires Valid()
      ensures m.Valid()
    {
      Contract.Model(buffer.capacity, buffer.Contents())
    }

    /** write(2) through a nonblocking descriptor when no user copy fails. */
    method NonblockingWrite(data: seq<byte>) returns (r: Contract.Result)
      requires Valid() && !shuttingDown
      modifies buffer`len, buffer`writePos, buffer.data
      ensures Valid() && Model() == Contract.Apply(old(Model()), Contract.Write(data)).0
      ensures r == Contract.Apply(old(Model()), Contract.Write(data)).1
    {
      hide RingBuffer.Contents;
      ghost var before := Model();
      var o := Write(data, true, k => 0, 0);
      r := if o.ret >= 0 then Contract.Success(o.ret) else Contract.Failure(-o.ret);
      assert data == [] ==> before.data + data == before.data;
    }

    method NonblockingRead(count: nat) returns (r: Contract.Result)
      requires Valid() && !shuttingDown
      modifies buffer`len, buffer`readPos, buffer`writePos
      ensures Valid() && Model() == Contract.Apply(old(Model()), Contract.Read(count)).0
      ensures r == Contract.Apply(old(Model()), Contract.Read(count)).1
    {
      hide RingBuffer.Contents;
      ghost var before := Model();
      var user := new byte[count];
      var o := Read(user, count, true, k => 0);
      r := if o.ret >= 0 then Contract.SuccessData(user[..o.ret]) else Contract.Failure(-o.ret);
      assert before.data[..0] == [] && before.data[0..] == before.data;
    }

    method NonblockingResize(capacity: nat) returns (r: Contract.Result)
      requires Valid() && !shuttingDown
      modifies buffer, this`generation
      ensures Valid() && Model() == Contract.Apply(old(Model()), Contract.Resize(capacity)).0
      ensures r == Contract.Apply(old(Model()), Contract.Resize(capacity)).1
      ensures buffer.data == old(buffer.data) || fresh(buffer.data)
    {
      hide RingBuffer.Contents;
      var ret := IoctlSetCapacity(capacity, true, true);
      r := if ret == 0 then Contract.Success(0) else Contract.Failure(-ret);
    }

    method NonblockingClear() returns (r: Contract.Result)
      requires Valid() && !shuttingDown
      modifies buffer`len, buffer`readPos, buffer`writePos, this`generation
      ensures Valid() && Model() == Contract.Apply(old(Model()), Contract.Clear).0
      ensures r == Contract.Apply(old(Model()), Contract.Clear).1
    {
      hide RingBuffer.Contents;
      IoctlClear();
      r := Contract.Success(0);
    }

    method Capacity() returns (r: Contract.Result)
      requires Valid()
      ensures r == Contract.Apply(Model(), Contract.Capacity).1
      ensures Model() == Contract.Apply(Model(), Contract.Capacity).0
    {
      r := Contract.Success(buffer.capacity);
    }

    /** One contract operation through a nonblocking descriptor, when no user copy and no allocation fails. */
    method NonblockingStep(op: Contract.Op) returns (r: Contract.Result)
      requires Valid() && !shuttingDown
      modifies buffer, buffer.data, this`generation
      ensures Valid() && !shuttingDown
      ensures Model() == Contract.Apply(old(Model()), op).0 && r == Contract.Apply(old(Model()), op).1
      ensures buffer.data == old(buffer.data) || fresh(buffer.data)
    {
      hide RingBuffer.Contents, RingBuffer.Valid, Device.Model, Contract.Apply;
      match op
      case Write(data) => r := NonblockingWrite(data);
      case Read(count) => r := NonblockingRead(count);
      case Resize(capacity) => r := NonblockingResize(capacity);
      case Clear => r := NonblockingClear();
      case Capacity => r := Capacity();
    }
  }

  lemma ArrivedPart(d: array<byte>, start: nat, arrived: seq<byte>, rest: seq<byte>)
    requires start + |arrived| + |rest| <= d.Length
    requires d[start..start + |arrived + rest|] == arrived + rest
    ensures d[start..start + |arrived|] == arrived
  {
    assert d[start..start + |arrived|] == d[start..start + |arrived + rest|][..|arrived|];
  }

  /** After `turns` turns without a failing copy. */
  ghost predicate Between(turns: nat, copied: nat, fits: nat, first: nat, fault: nat -> nat) {
    && first <= fits && copied <= fits
    && match turns
       case 0 => copied == 0
       case 1 => copied == first && Min(fault(0), first) == 0 && (first == fits ==> copied == Moves(fits, first, fault))
       case 2 => copied == fits == Moves(fits, first, fault)
       case _ => false
  }

  /** What one more turn does to the total. */
  lemma TurnMoves(turns: nat, copied: nat, fits: nat, first: nat, fault: nat -> nat)
    requires Between(turns, copied, fits, first, fault) && copied < fits && 0 < first
    ensures turns <= 1
    ensures var chunk := if turns == 0 then first else fits - first;
            var failed := Min(fault(turns), chunk);
            && (failed > 0 ==> copied + (chunk - failed) == Moves(fits, first, fault))
            && (failed == 0 ==> Between(turns + 1, copied + chunk, fits, first, fault))
  {
  }

  /** The first `n` bytes of the user buffer `v` are the first `n` of `q`; the others are as in `u`. */
  predicate CopiedPrefix(u: seq<byte>, v: seq<byte>, q: seq<byte>, n: nat) {
    n <= |u| == |v| && n <= |q| && v[..n] == q[..n] && v[n..] == u[n..]
  }

  lemma CopyNone(u: seq<byte>, q: seq<byte>)
    ensures CopiedPrefix(u, u, q, 0)
  {
  }

  lemma CopyMore(u: seq<byte>, v: seq<byte>, w: seq<byte>, q: seq<byte>, n: nat, more: nat)
    requires CopiedPrefix(u, v, q, n) && n + more <= |u| && n + more <= |q|
    requires w == Overwritten(v, n, q[n..][..more])
    ensures CopiedPrefix(u, w, q, n + more)
  {
    assert v[n + more..] == v[n..][more..];
    assert q[..n + more] == q[..n] + q[n..][..more];
  }

  /** How many bytes two spans of `first` and `fits - first` bytes move when fault(0), fault(1) bytes fail. */
  function Moves(fits: nat, first: nat, fault: nat -> nat): (r: nat)
    requires first <= fits
  {
    if Min(fault(0), first) > 0 then first - Min(fault(0), first)
    else if first == fits then fits
    else fits - Min(fault(1), fits - first)
  }
}
