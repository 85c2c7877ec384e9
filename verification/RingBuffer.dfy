/** The circular byte buffer of kernel/ringbuf_char_buffer.c, refined to a byte sequence. */
module RingBuffer {
  import opened Bytes
  import opened Limits

  /** Where a ring of `c` cells keeps element `i` of a queue that starts at `r`. */
  function Cell(r: nat, i: nat, c: nat): (p: nat)
    requires r < c && i <= c
    ensures p < c
  {
    if r + i < c then r + i else r + i - c
  }

  lemma Scaled(c: nat, q: int)
    ensures q < 1 ==> c * q <= 0
    ensures 1 < q ==> c + c <= c * q
  {
    if 1 < q {
      assert c * q == c + c + c * (q - 2);
    }
  }

  lemma OneRound(x: nat, c: nat)
    requires 0 < c <= x < c + c
    ensures x % c == x - c
  {
    Scaled(c, x / c);
  }

  lemma CellIsModulo(r: nat, i: nat, c: nat)
    requires r < c && i <= c
    ensures (r + i) % c == Cell(r, i, c)
  {
    if c <= r + i {
      OneRound(r + i, c);
    }
  }

  /** The `n` bytes a ring `d` holds from position `r` on, wrapping at its end. */
  function Window(d: seq<byte>, r: nat, n: nat): (w: seq<byte>)
    requires r < |d| && n <= |d|
    ensures |w| == n
    ensures forall i :: 0 <= i < n ==> w[i] == d[Cell(r, i, |d|)]
  {
    seq(n, i requires 0 <= i < n => d[Cell(r, i, |d|)])
  }

  /** Element `i` of the window is the ring cell at `(r + i) mod capacity`. */
  lemma WindowAt(d: seq<byte>, r: nat, n: nat, i: nat)
    requires r < |d| && i < n <= |d|
    ensures Window(d, r, n)[i] == d[(r + i) % |d|]
  {
    CellIsModulo(r, i, |d|);
  }

  lemma WindowDrop(d: seq<byte>, r: nat, n: nat, k: nat)
    requires r < |d| && k <= n <= |d|
    ensures Window(d, Cell(r, k, |d|), n - k) == Window(d, r, n)[k..]
  {
    forall j | k <= j < n ensures Window(d, r, n)[j] == Window(d, Cell(r, k, |d|), n - k)[j - k] {
      assert Cell(Cell(r, k, |d|), j - k, |d|) == Cell(r, j, |d|);
    }
  }

  lemma WindowExtend(d: seq<byte>, r: nat, n: nat, k: nat)
    requires r < |d| && n + k <= |d| && Cell(r, n, |d|) + k <= |d|
    ensures Window(d, r, n + k) == Window(d, r, n) + d[Cell(r, n, |d|)..Cell(r, n, |d|) + k]
  {
    var w, longer := Window(d, r, n), Window(d, r, n + k);
    var added := d[Cell(r, n, |d|)..Cell(r, n, |d|) + k];
    forall j | n <= j < n + k ensures longer[j] == added[j - n] {
      assert Cell(r, j, |d|) == Cell(r, n, |d|) + (j - n);
    }
    forall i | 0 <= i < n ensures longer[i] == w[i] {
    }
  }

  /** Writing to cells the window does not use leaves the window alone. */
  lemma WindowFrame(d: seq<byte>, e: seq<byte>, r: nat, n: nat)
    requires r < |d| == |e| && n <= |d|
    requires forall i :: 0 <= i < n ==> d[Cell(r, i, |d|)] == e[Cell(r, i, |d|)]
    ensures Window(d, r, n) == Window(e, r, n)
  {
  }

  class RingBuffer {
    var data: array<byte>
    var capacity: nat
    var len: nat
    var readPos: nat
    var writePos: nat

    /** Both positions are reset whenever the buffer runs empty. */
    ghost predicate Valid()
      reads this, data
    {
      && CapacityValid(capacity) && data.Length == capacity
      && len <= capacity && readPos < capacity
      && writePos == Cell(readPos, len, capacity)
      && (len == 0 ==> readPos == 0 && writePos == 0)
    }

    ghost function Contents(): (s: seq<byte>)
      reads this, data
      requires Valid()
      ensures |s| == len
    {
      Window(data[..], readPos, len)
    }

    constructor (requested: nat)
      requires CapacityValid(requested)
      ensures Valid() && fresh(data) && capacity == requested && Contents() == []
    {
      data := new byte[requested];
      capacity := requested;
      len, readPos, writePos := 0, 0, 0;
    }

    function Stored(): (r: nat)
      reads this
    {
      len
    }

    function Available(): (n: nat)
      reads this
      ensures n == if len > capacity then 0 else capacity - len
    {
      if len > capacity then 0 else capacity - len
    }

    /** The first contiguous run of stored bytes: it starts at `readPos` and is empty only for an empty buffer. */
    method ReadSpan() returns (start: nat, span: nat)
      requires Valid()
      ensures span <= len && start + span <= capacity
      ensures span == 0 <==> len == 0
      ensures span > 0 ==> start == readPos && span == Min(len, capacity - readPos)
      ensures data[start..start + span] == Contents()[..span]
      ensures span == len || start + span == capacity
    {
      if len == 0 {
        return 0, 0;
      }
      span := Min(len, capacity - readPos);
      start := readPos;
    }

    method Consume(n: nat)
      requires Valid()
      modifies this`len, this`readPos, this`writePos
      ensures Valid()
      ensures Contents() == old(Contents())[Min(n, old(len))..] && len == old(len) - Min(n, old(len))
      ensures len > 0 && old(readPos) + Min(n, old(len)) == capacity ==> readPos == 0
    {
      hide Window;
      if n == 0 {
        return;
      }
      var count := Min(n, len);
      CellIsModulo(readPos, count, capacity);
      WindowDrop(data[..], readPos, len, count);
      readPos := (readPos + count) % capacity;
      len := len - count;
      if len == 0 {
        readPos := 0;
        writePos := 0;
      }
    }

    /** The first contiguous run of free cells: the cells that the next `span` elements will use.
        None of them holds a stored byte. */
    method WriteSpan() returns (start: nat, span: nat)
      requires Valid()
      ensures start + span <= capacity && len + span <= capacity
      ensures span == 0 <==> len == capacity
      ensures span > 0 ==> start == writePos && span == Min(capacity - len, capacity - writePos)
      ensures len + span == capacity || start + span == capacity
      ensures forall i :: len <= i < len + span ==> Cell(readPos, i, capacity) == start + (i - len)
      ensures forall i :: 0 <= i < len ==> !(start <= Cell(readPos, i, capacity) < start + span)
    {
      var available := Available();
      if available == 0 {
        return 0, 0;
      }
      span := Min(available, capacity - writePos);
      start := writePos;
    }

    /** Copy `bytes` into free cells from `start` on without committing them. */
    method Scribble(start: nat, bytes: seq<byte>)
      requires Valid() && start == writePos
      requires start + |bytes| <= capacity && len + |bytes| <= capacity
      modifies data
      ensures Valid() && Contents() == old(Contents())
      ensures data[start..start + |bytes|] == bytes
    {
      ghost var before := data[..];
      forall i | 0 <= i < |bytes| {
        data[start + i] := bytes[i];
      }
      WindowFrame(before, data[..], readPos, len);
    }

    /** Publish the first `n` free cells as stored bytes. */
    method Commit(n: nat)
      requires Valid()
      requires writePos + Min(n, capacity - len) <= capacity
      modifies this`len, this`writePos
      ensures Valid()
      ensures Contents() == old(Contents()) + data[old(writePos)..old(writePos) + Min(n, capacity - old(len))]
      ensures len == old(len) + Min(n, capacity - old(len))
      ensures n > 0 && old(writePos) + Min(n, capacity - old(len)) == capacity ==> writePos == 0
    {
      hide Window;
      if n == 0 {
        return;
      }
      var available := Available();
      var count := Min(n, available);
      CellIsModulo(writePos, count, capacity);
      WindowExtend(data[..], readPos, len, count);
      writePos := (writePos + count) % capacity;
      len := len + count;
    }

    /** One turn of the copy loop of Read: copy from the first span, then consume it. */
    method CopyOut(dst: array<byte>, at: nat, limit: nat) returns (chunk: nat)
      requires Valid() && dst != data && at + limit <= dst.Length && 0 < limit && 0 < len
      modifies this`len, this`readPos, this`writePos, dst
      ensures Valid() && 0 < chunk <= limit && chunk <= old(len) && len == old(len) - chunk
      ensures dst[..] == Overwritten(old(dst[..]), at, old(Contents())[..chunk])
      ensures Contents() == old(Contents())[chunk..]
    {
      hide Contents, Overwritten;
      ghost var before := Contents();
      var start, span := ReadSpan();
      chunk := Min(limit, span);
      assert data[start..start + chunk] == data[start..start + span][..chunk] == before[..chunk];
      CopyBytes(dst, at, data[start..start + chunk]);
      Consume(chunk);
    }

    /** Moves exactly the longest prefix of the contents that `count` allows. */
    method Read(dst: array<byte>, count: nat) returns (copied: nat)
      requires Valid() && dst != data && count <= dst.Length
      modifies this`len, this`readPos, this`writePos, dst
      ensures Valid()
      ensures copied == Min(count, old(len))
      ensures dst[..copied] == old(Contents())[..copied]
      ensures dst[copied..] == old(dst[..])[copied..]
      ensures Contents() == old(Contents())[copied..]
    {
      hide Contents;
      copied := 0;
      while copied < count && len > 0
        invariant Valid() && copied <= Min(count, old(len)) && len == old(len) - copied
        invariant dst[..copied] == old(Contents())[..copied]
        invariant dst[copied..] == old(dst[..])[copied..]
        invariant Contents() == old(Contents())[copied..]
        decreases count - copied
      {
        var chunk := CopyOut(dst, copied, count - copied);
        copied := copied + chunk;
      }
    }

    /** One turn of the copy loop of Write: fill the first free span, then commit it. */
    method CopyIn(bytes: seq<byte>) returns (chunk: nat)
      requires Valid() && 0 < |bytes| && len < capacity
      modifies this`len, this`writePos, data
      ensures Valid() && 0 < chunk <= |bytes| && len == old(len) + chunk
      ensures Contents() == old(Contents()) + bytes[..chunk]
    {
      hide Contents, Cell;
      var start, span := WriteSpan();
      chunk := Min(|bytes|, span);
      Scribble(start, bytes[..chunk]);
      Commit(chunk);
    }

    /** Stores exactly the longest prefix of `src` that `count` and the free space allow. */
    method Write(src: array<byte>, count: nat) returns (copied: nat)
      requires Valid() && src != data && count <= src.Length
      modifies this`len, this`writePos, data
      ensures Valid()
      ensures copied == Min(count, capacity - old(len))
      ensures Contents() == old(Contents()) + src[..copied]
    {
      hide Contents;
      var bytes := src[..count];
      copied := 0;
      while copied < count && Available() > 0
        invariant Valid() && copied <= Min(count, capacity - old(len))
        invariant len == old(len) + copied
        invariant Contents() == old(Contents()) + bytes[..copied]
        decreases count - copied
      {
        var chunk := CopyIn(bytes[copied..count]);
        AppendMore(old(Contents()), bytes, copied, count, chunk);
        copied := copied + chunk;
      }
      assert bytes[..copied] == src[..copied];
    }

    method Clear()
      requires Valid()
      modifies this`len, this`readPos, this`writePos
      ensures Valid() && Contents() == []
    {
      len := 0;
      readPos := 0;
      writePos := 0;
    }

    /** `granted` tells whether the allocator delivered the new storage. */
    method Resize(requested: nat, granted: bool) returns (ret: int)
      requires Valid()
      modifies this
      ensures Valid()
      ensures ret == if !CapacityValid(requested) then -EINVAL
                     else if requested < old(len) then -EMSGSIZE
                     else if !granted then -ENOMEM else 0
      ensures Contents() == old(Contents())
      ensures ret == 0 ==> fresh(data) && capacity == requested
      ensures ret != 0 ==> unchanged(this)
    {
      if !CapacityValid(requested) {
        return -EINVAL;
      }
      if requested < len {
        return -EMSGSIZE;
      }
      if !granted {
        return -ENOMEM;
      }
      var newData := new byte[requested];
      ghost var before := Contents();
      ghost var cells := data[..];
      for index := 0 to len
        modifies newData
        invariant forall i :: 0 <= i < index ==> newData[i] == before[i]
      {
        WindowAt(cells, readPos, len, index);
        newData[index] := data[(readPos + index) % capacity];
      }
      assert newData[..len] == before;
      data := newData;
      capacity := requested;
      readPos := 0;
      writePos := if len == requested then 0 else len;
      ret := 0;
    }
  }
}
