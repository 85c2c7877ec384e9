/** The frame format of userspace/concurrent_test.c: big-endian fields, checksum, construction. */
module Frames {
  import opened Bytes

  const HEADER_SIZE := 20
  const MAX_MESSAGE_SIZE := 4096
  const READ_CHUNK_SIZE := 4096
  const MAX_WRITERS := 64
  const MAX_MESSAGES := 100000

  type u32 = x: int | 0 <= x < 0x1_0000_0000

  /** The four characters "SCF1". */
  function Magic(): (m: seq<byte>)
    ensures |m| == 4
  {
    [83, 67, 70, 49]
  }

  function Be32(v: u32): (s: seq<byte>)
    ensures |s| == 4
  {
    [v / 0x100_0000, v / 0x1_0000 % 0x100, v / 0x100 % 0x100, v % 0x100]
  }

  function GetBe32(s: seq<byte>, at: nat): (r: u32)
    requires at + 4 <= |s|
  {
    Value(s[at], s[at + 1], s[at + 2], s[at + 3])
  }

  /** The value of four bytes, most significant first. */
  function Value(a: byte, b: byte, c: byte, d: byte): (r: u32) {
    (a as int) * 0x100_0000 + (b as int) * 0x1_0000 + (c as int) * 0x100 + d
  }

  lemma DigitsOf(v: u32)
    ensures Value(v / 0x100_0000, v / 0x1_0000 % 0x100, v / 0x100 % 0x100, v % 0x100) == v
  {
    var high, low := v / 0x1_0000, v % 0x1_0000;
    assert v / 0x100_0000 == high / 0x100;
    assert v / 0x100 % 0x100 == low / 0x100 && v % 0x100 == low % 0x100;
  }

  lemma Be32RoundTrip(v: u32, s: seq<byte>, at: nat)
    requires at + 4 <= |s| && s[at..at + 4] == Be32(v)
    ensures GetBe32(s, at) == v
  {
    var f := s[at..at + 4];
    assert s[at] == f[0] && s[at + 1] == f[1] && s[at + 2] == f[2] && s[at + 3] == f[3];
    DigitsOf(v);
  }

  function Xor(a: u32, b: u32): (r: u32) {
    ((a as bv32) ^ (b as bv32)) as int
  }

  /** The running checksum after `payload`. */
  function Mixed(checksum: u32, payload: seq<byte>): (r: u32) {
    if payload == [] then checksum
    else Xor(Mixed(checksum, payload[..|payload| - 1]), payload[|payload| - 1]) * 16777619 % 0x1_0000_0000
  }

  function Checksum(writer: u32, sequence: u32, payload: seq<byte>): (r: u32)
    requires |payload| < 0x1_0000_0000
  {
    Mixed(Xor(Xor(Xor(2166136261, writer), sequence), |payload|), payload)
  }

  function PayloadByte(writer: u32, sequence: u32, index: nat): (r: byte) {
    (writer * 31 + sequence + index) % 0x1_0000_0000 % 0x100
  }

  function Payload(writer: u32, sequence: u32, n: nat): (s: seq<byte>)
    ensures |s| == n
  {
    seq(n, index requires 0 <= index < n => PayloadByte(writer, sequence, index))
  }

  /** The frame that a writer sends. */
  function Built(size: nat, writer: u32, sequence: u32): (frame: seq<byte>)
    requires HEADER_SIZE <= size < 0x1_0000_0000
    ensures |frame| == size
  {
    var payload := Payload(writer, sequence, size - HEADER_SIZE);
    Magic() + Be32(writer) + Be32(sequence) + Be32(|payload|) + Be32(Checksum(writer, sequence, payload)) + payload
  }

  lemma SixFields(a: seq<byte>, b: seq<byte>, c: seq<byte>, d: seq<byte>, e: seq<byte>, p: seq<byte>)
    requires |a| == |b| == |c| == |d| == |e| == 4
    ensures var f := a + b + c + d + e + p;
            f[..4] == a && f[4..8] == b && f[8..12] == c && f[12..16] == d && f[16..20] == e && f[20..] == p
  {
  }

  /** Every field of a built frame reads back. */
  lemma BuiltReadsBack(size: nat, writer: u32, sequence: u32)
    requires HEADER_SIZE <= size < 0x1_0000_0000
    ensures var f := Built(size, writer, sequence);
            && f[..4] == Magic() && GetBe32(f, 4) == writer && GetBe32(f, 8) == sequence
            && GetBe32(f, 12) == size - HEADER_SIZE
            && f[HEADER_SIZE..] == Payload(writer, sequence, size - HEADER_SIZE)
            && GetBe32(f, 16) == Checksum(writer, sequence, f[HEADER_SIZE..])
  {
    var p := Payload(writer, sequence, size - HEADER_SIZE);
    var c := Checksum(writer, sequence, p);
    var f := Built(size, writer, sequence);
    SixFields(Magic(), Be32(writer), Be32(sequence), Be32(|p|), Be32(c), p);
    Be32RoundTrip(writer, f, 4);
    Be32RoundTrip(sequence, f, 8);
    Be32RoundTrip(|p|, f, 12);
    Be32RoundTrip(c, f, 16);
  }

  lemma KnownXor()
    ensures Xor(2166136261, 1) == 2166136260 && Xor(2166136260, 2) == 2166136262 && Xor(2166136262, 2) == 2166136260
    ensures Xor(2166136260, 33) == 2166136293 && Xor(621580159, 34) == 621580125
  {
    assert 2166136261 as bv32 ^ 1 as bv32 == 2166136260 as bv32;
    assert 2166136260 as bv32 ^ 2 as bv32 == 2166136262 as bv32;
    assert 2166136262 as bv32 ^ 2 as bv32 == 2166136260 as bv32;
    assert 2166136260 as bv32 ^ 33 as bv32 == 2166136293 as bv32;
    assert 621580159 as bv32 ^ 34 as bv32 == 621580125 as bv32;
  }

  /** The frame of 22 bytes that writer 1 sends with sequence number 2, byte by byte. */
  lemma KnownFrame()
    ensures Built(22, 1, 2) == [83, 67, 70, 49, 0, 0, 0, 1, 0, 0, 0, 2, 0, 0, 0, 2, 175, 197, 175, 103, 33, 34]
  {
    hide Xor;
    KnownXor();
    assert Payload(1, 2, 2) == [33, 34];
    assert [33, 34][..1] == [33] && [33][..0] == [];
    assert Mixed(2166136260, []) == 2166136260;
    assert Mixed(2166136260, [33]) == 621580159;
    assert Checksum(1, 2, [33, 34]) == 2948968295;
  }

  // ---------------------------------------------------------------- the code

  method PutBe32(dst: array<byte>, at: nat, value: u32)
    requires at + 4 <= dst.Length
    modifies dst
    ensures dst[..] == old(dst[..at]) + Be32(value) + old(dst[at + 4..])
  {
    dst[at] := value / 0x100_0000 % 0x100;
    dst[at + 1] := value / 0x1_0000 % 0x100;
    dst[at + 2] := value / 0x100 % 0x100;
    dst[at + 3] := value % 0x100;
  }

  method FrameChecksum(writer: u32, sequence: u32, payload: seq<byte>) returns (checksum: u32)
    requires |payload| < 0x1_0000_0000
    ensures checksum == Checksum(writer, sequence, payload)
  {
    checksum := Xor(Xor(Xor(2166136261, writer), sequence), |payload|);
    ghost var start := checksum;
    for index := 0 to |payload|
      invariant checksum == Mixed(start, payload[..index])
    {
      checksum := Xor(checksum, payload[index]);
      checksum := checksum * 16777619 % 0x1_0000_0000;
      assert payload[..index + 1][..index] == payload[..index];
    }
    assert payload[..|payload|] == payload;
  }

  method FillPayload(frame: array<byte>, writer: u32, sequence: u32)
    requires HEADER_SIZE <= frame.Length < 0x1_0000_0000
    modifies frame
    ensures frame[..HEADER_SIZE] == old(frame[..HEADER_SIZE])
    ensures frame[HEADER_SIZE..] == Payload(writer, sequence, frame.Length - HEADER_SIZE)
  {
    for index := 0 to frame.Length - HEADER_SIZE
      invariant frame[..HEADER_SIZE] == old(frame[..HEADER_SIZE])
      invariant forall k :: HEADER_SIZE <= k < HEADER_SIZE + index ==>
                  frame[k] == PayloadByte(writer, sequence, k - HEADER_SIZE)
    {
      frame[HEADER_SIZE + index] := PayloadByte(writer, sequence, index);
    }
  }

  method BuildFrame(frame: array<byte>, size: nat, writer: u32, sequence: u32)
    requires HEADER_SIZE <= size < 0x1_0000_0000 && frame.Length == size
    modifies frame
    ensures frame[..] == Built(size, writer, sequence)
  {
    var payloadLen := size - HEADER_SIZE;
    forall i | 0 <= i < 4 {
      frame[i] := Magic()[i];
    }
    assert frame[..4] == Magic();
    PutBe32(frame, 4, writer);
    assert frame[..8] == Magic() + Be32(writer);
    PutBe32(frame, 8, sequence);
    assert frame[..12] == Magic() + Be32(writer) + Be32(sequence);
    PutBe32(frame, 12, payloadLen);
    ghost var header := Magic() + Be32(writer) + Be32(sequence) + Be32(payloadLen);
    assert frame[..16] == header;
    FillPayload(frame, writer, sequence);
    assert frame[..16] == frame[..HEADER_SIZE][..16] == header;
    var checksum := FrameChecksum(writer, sequence, frame[HEADER_SIZE..]);
    PutBe32(frame, 16, checksum);
    assert frame[..] == header + Be32(checksum) + Payload(writer, sequence, payloadLen);
  }
}
