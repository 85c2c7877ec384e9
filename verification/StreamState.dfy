/** The shared state of the reader threads in userspace/concurrent_test.c and the loops that update it. */
module StreamState {
  import opened Bytes
  import opened Frames
  import opened FrameStream

  const SIZE_MAX := 0xFFFF_FFFF_FFFF_FFFF

  class SharedState {
    const opts: Options
    var stream: array<byte>
    var streamLen: nat
    var seen: array<bool>
    var framesValidated: nat
    var validationFailures: nat
    var stop: bool
    ghost var accepted: seq<Header>

    ghost predicate Valid()
      reads this
    {
      streamLen <= stream.Length
    }

    ghost function Now(): (p: Progress)
      reads this, stream, seen
      requires Valid()
    {
      Progress(stream[..streamLen], seen[..], framesValidated, validationFailures, accepted)
    }

    constructor (o: Options)
      ensures Valid() && opts == o && fresh(stream) && fresh(seen) && !stop
      ensures Now() == Fresh(seq(o.writers * o.messages, _ => false))
    {
      opts := o;
      stream := new byte[0];
      streamLen := 0;
      seen := new bool[o.writers * o.messages](_ => false);
      framesValidated := 0;
      validationFailures := 0;
      stop := false;
      accepted := [];
    }

    /** Grow by doubling; `granted` tells whether the allocator delivered. */
    method EnsureStreamCapacity(extra: nat, granted: bool) returns (ok: bool)
      requires Valid()
      modifies this`stream
      ensures Valid() && Now() == old(Now())
      ensures ok ==> streamLen + extra <= stream.Length
      ensures granted && streamLen + extra <= SIZE_MAX / 2 ==> ok
      ensures stream == old(stream) || fresh(stream)
    {
      var needed := streamLen + extra;
      if needed <= stream.Length {
        return true;
      }
      var newCap := if stream.Length == 0 then READ_CHUNK_SIZE else stream.Length;
      while newCap < needed
        invariant 0 < newCap && stream.Length <= newCap
        decreases needed - newCap
      {
        if newCap > SIZE_MAX / 2 {
          return false;
        }
        newCap := newCap * 2;
      }
      if !granted {
        return false;
      }
      var newStream := new byte[newCap];
      forall i | 0 <= i < streamLen {
        newStream[i] := stream[i];
      }
      assert newStream[..streamLen] == stream[..streamLen];
      stream := newStream;
      ok := true;
    }

    method FindMagicOffset() returns (offset: nat)
      requires Valid() && 1 <= streamLen
      ensures offset == FindMagic(stream[..streamLen], 1)
    {
      var index := 1;
      while index + 4 <= streamLen
        invariant 1 <= index <= streamLen
        invariant FindMagic(stream[..streamLen], index) == FindMagic(stream[..streamLen], 1)
      {
        assert stream[..streamLen][index..index + 4] == stream[index..index + 4];
        if stream[index..index + 4] == Magic() {
          return index;
        }
        index := index + 1;
      }
      offset := streamLen;
    }

    method ConsumeStream(count: nat)
      requires Valid()
      modifies this`streamLen, stream
      ensures Valid()
      ensures Now() == old(Now()).(buffer := old(Now()).buffer[Min(count, old(streamLen))..])
    {
      if count >= streamLen {
        streamLen := 0;
        return;
      }
      forall i | 0 <= i < streamLen - count {
        stream[i] := stream[i + count];
      }
      streamLen := streamLen - count;
    }

    method NoteFailure()
      requires Valid()
      modifies this`validationFailures
      ensures Valid() && Now() == old(Now()).(failures := old(Now()).failures + 1)
    {
      validationFailures := validationFailures + 1;
    }

    /** Mark a complete frame or count a failure. */
    method ConsiderFrame(h: Header)
      requires Valid()
      modifies seen, this`framesValidated, this`accepted, this`validationFailures
      ensures Valid() && Now() == Consider(opts, old(Now()), h)
    {
      if h.writer >= opts.writers || h.sequence >= opts.messages {
        validationFailures := validationFailures + 1;
      } else {
        var seenIndex := h.writer * opts.messages + h.sequence;
        if seenIndex >= seen.Length || seen[seenIndex] || !h.intact {
          validationFailures := validationFailures + 1;
        } else {
          seen[seenIndex] := true;
          framesValidated := framesValidated + 1;
          accepted := accepted + [h];
        }
      }
    }

    /** The buffer does not begin with the magic: skip to the next one, or keep the last three bytes. */
    method Resynchronise() returns (more: bool)
      requires Valid() && HEADER_SIZE <= streamLen && stream[..4] != Magic()
      modifies this`streamLen, this`validationFailures, stream
      ensures Valid() && Now() == Turn(opts, old(Now())).0 && more == Turn(opts, old(Now())).1
    {
      ghost var before := Now();
      assert before.buffer[..4] == stream[..4];
      var offset := FindMagicOffset();
      NoteFailure();
      more := offset != streamLen;
      ConsumeStream(if more then offset else streamLen - 3);
    }

    /** Read the header fields behind a magic and, once the frame is complete, its checksum. */
    method ReadHead(b: seq<byte>) returns (head: Head)
      requires HEADER_SIZE <= |b| && b[..4] == Magic()
      ensures head == HeadOf(opts.size, b)
      ensures head.Whole? ==> opts.size <= |b|
    {
      var writer, sequence, payloadLen := GetBe32(b, 4), GetBe32(b, 8), GetBe32(b, 12);
      var expected := GetBe32(b, 16);
      var frameSize := payloadLen + HEADER_SIZE;
      if payloadLen > MAX_MESSAGE_SIZE || frameSize != opts.size {
        return Stray;
      }
      if |b| < frameSize {
        return Undecided;
      }
      var actual := FrameChecksum(writer, sequence, b[HEADER_SIZE..frameSize]);
      head := Whole(Header(writer, sequence, actual == expected));
    }

    /** A bad header: count it and step over one byte. */
    method SkipByte()
      requires Valid() && 1 <= streamLen
      modifies this`streamLen, this`validationFailures, stream
      ensures Valid() && Now() == old(Now()).(failures := old(Now()).failures + 1).(buffer := old(Now()).buffer[1..])
    {
      NoteFailure();
      ConsumeStream(1);
    }

    /** A complete frame: consider it and step over it. */
    method TakeFrame(h: Header)
      requires Valid() && opts.size <= streamLen
      modifies this`streamLen, this`framesValidated, this`accepted, this`validationFailures, stream, seen
      ensures Valid() && Now() == Consider(opts, old(Now()), h).(buffer := old(Now()).buffer[opts.size..])
    {
      ConsiderFrame(h);
      ConsumeStream(opts.size);
    }

    /** The buffer begins with the magic: judge its header, then the frame when it is complete. */
    method JudgeHead() returns (more: bool)
      requires Valid() && HEADER_SIZE <= streamLen && stream[..4] == Magic()
      modifies this`streamLen, this`framesValidated, this`accepted, this`validationFailures, stream, seen
      ensures Valid() && Now() == Turn(opts, old(Now())).0 && more == Turn(opts, old(Now())).1
    {
      assert stream[..streamLen][..4] == stream[..4];
      var head := ReadHead(stream[..streamLen]);
      TurnOnHead(opts, Now(), head);
      more := !head.Undecided?;
      if head.Stray? {
        SkipByte();
      } else if head.Whole? {
        TakeFrame(head.header);
      }
    }

    method ValidateAvailableFrames()
      requires Valid()
      modifies this`streamLen, this`framesValidated, this`accepted, this`validationFailures, stream, seen
      ensures Valid() && Now() == Drain(opts, old(Now()))
    {
      var more := true;
      while more
        invariant Valid()
        invariant if more then Drain(opts, Now()) == Drain(opts, old(Now())) else Now() == Drain(opts, old(Now()))
        decreases more, streamLen
      {
        if streamLen < HEADER_SIZE {
          more := false;
        } else if stream[..4] != Magic() {
          more := Resynchronise();
        } else {
          more := JudgeHead();
        }
      }
    }

    /** Append one read and validate what is complete; `appended` tells whether there was room for it. */
    method AppendAndValidate(data: seq<byte>, granted: bool) returns (appended: bool)
      requires Valid()
      modifies this, stream, seen
      ensures Valid() && (stream == old(stream) || fresh(stream)) && seen == old(seen)
      ensures granted && old(streamLen) + |data| <= SIZE_MAX / 2 ==> appended
      ensures Now() == if appended then Append(opts, old(Now()), data)
                       else old(Now()).(failures := old(validationFailures) + 1)
      ensures stop == (old(stop) || !appended)
    {
      var ok := EnsureStreamCapacity(|data|, granted);
      if !ok {
        validationFailures := validationFailures + 1;
        stop := true;
        return false;
      }
      forall i | 0 <= i < |data| {
        stream[streamLen + i] := data[i];
      }
      streamLen := streamLen + |data|;
      assert stream[..streamLen] == old(stream[..streamLen]) + data;
      assert Now() == old(Now()).(buffer := old(Now()).buffer + data);
      ValidateAvailableFrames();
      appended := true;
    }
  }
}
