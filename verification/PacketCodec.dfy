/** The header codec of shared/protocol/src/packet.c, over caller buffers. */
module PacketCodec {
  import opened Bytes
  import opened Options
  import opened Protocol

  /** True when every byte outside `from..to` is as it was. */
  twostate predicate OnlyWrote(buffer: array<byte>, from: nat, to: nat)
    requires from <= to <= buffer.Length
    reads buffer
  {
    forall k :: 0 <= k < buffer.Length && !(from <= k < to) ==> buffer[k] == old(buffer[k])
  }

  /** Packs a 16-bit field, least significant byte first. */
  method PackU16(x: uint16, buffer: array<byte>, at: nat)
    requires at + 2 <= buffer.Length
    modifies buffer
    ensures buffer[at..at + 2] == ToLE(x, 2) && OnlyWrote(buffer, at, at + 2)
  {
    buffer[at] := ByteAt(x, 0);
    buffer[at + 1] := ByteAt(x, 1);
    ToLE2(x);
  }

  /** Packs a 32-bit field, least significant byte first. */
  method PackU32(x: uint32, buffer: array<byte>, at: nat)
    requires at + 4 <= buffer.Length
    modifies buffer
    ensures buffer[at..at + 4] == ToLE(x, 4) && OnlyWrote(buffer, at, at + 4)
  {
    buffer[at] := ByteAt(x, 0);
    buffer[at + 1] := ByteAt(x, 1);
    buffer[at + 2] := ByteAt(x, 2);
    buffer[at + 3] := ByteAt(x, 3);
    ToLE4(x);
  }

  /** Two 32-bit fields in a row. */
  method PackWords(x: uint32, y: uint32, buffer: array<byte>, at: nat)
    requires at + 8 <= buffer.Length
    modifies buffer
    ensures buffer[at..at + 8] == ToLE(x, 4) + ToLE(y, 4) && OnlyWrote(buffer, at, at + 8)
  {
    PackU32(x, buffer, at);
    PackU32(y, buffer, at + 4);
    assert buffer[at..at + 8] == buffer[at..at + 4] + buffer[at + 4..at + 8];
  }

  /** Writes the 12 header bytes at `at`; a NULL argument or a short buffer is refused and nothing is written. */
  method SerializeHeader(header: Option<Header>, buffer: array?<byte>, at: nat, size: nat) returns (ret: int)
    requires buffer != null ==> at + size <= buffer.Length
    modifies buffer
    ensures ret == if header.None? || buffer == null || size < HEADER_SIZE then -1 else 0
    ensures ret == 0 ==> buffer[at..at + HEADER_SIZE] == HeaderBytes(header.value)
    ensures ret == 0 ==> OnlyWrote(buffer, at, at + HEADER_SIZE)
    ensures ret != 0 && buffer != null ==> buffer[..] == old(buffer[..])
  {
    if header.None? || buffer == null || size < HEADER_SIZE {
      return -1;
    }
    var h := header.value;
    PackU16(h.magic, buffer, at);
    PackU16(h.version, buffer, at + 2);
    assert buffer[at..at + 4] == ToLE(h.magic, 2) + ToLE(h.version, 2) by {
      assert buffer[at..at + 4] == buffer[at..at + 2] + buffer[at + 2..at + 4];
    }
    PackWords(h.messageId, h.payloadSize, buffer, at + 4);
    assert buffer[at..at + 12] == buffer[at..at + 4] + buffer[at + 4..at + 12];
    return 0;
  }

  /** Reads a header; `-2` reports a foreign magic, after the fields were written. `previous` is the caller's struct. */
  method DeserializeHeader(buffer: array?<byte>, size: nat, previous: Option<Header>)
    returns (ret: int, header: Option<Header>)
    requires buffer != null ==> size <= buffer.Length
    ensures buffer == null || previous.None? || size < HEADER_SIZE ==> ret == -1 && header == previous
    ensures !(buffer == null || previous.None? || size < HEADER_SIZE) ==>
              header == Some(ParseHeader(buffer[..])) && ret == if header.value.magic == MAGIC then 0 else -2
  {
    if buffer == null || previous.None? || size < HEADER_SIZE {
      return -1, previous;
    }
    var magic: uint16 := Combine2(buffer[0], buffer[1]);
    var version: uint16 := Combine2(buffer[2], buffer[3]);
    var messageId: uint32 := Combine4(buffer[4], buffer[5], buffer[6], buffer[7]);
    var payloadSize: uint32 := Combine4(buffer[8], buffer[9], buffer[10], buffer[11]);
    header := Some(Header(magic, version, messageId, payloadSize));
    ghost var s := buffer[..];
    CombineIsLE2(s[0..2]);
    CombineIsLE2(s[2..4]);
    CombineIsLE4(s[4..8]);
    CombineIsLE4(s[8..12]);
    if magic != MAGIC {
      return -2, header;
    }
    return 0, header;
  }

  /** `b0 | (b1 << 8)`. */
  function Combine2(b0: byte, b1: byte): uint16 {
    b0 as int + 0x100 * b1 as int
  }

  /** `b0 | (b1 << 8) | (b2 << 16) | (b3 << 24)`. */
  function Combine4(b0: byte, b1: byte, b2: byte, b3: byte): uint32 {
    b0 as int + 0x100 * b1 as int + 0x1_0000 * b2 as int + 0x100_0000 * b3 as int
  }

  lemma CombineIsLE2(s: seq<byte>)
    requires |s| == 2
    ensures Combine2(s[0], s[1]) == LE16(s)
  {
    assert FromLE(s[1..]) == s[1];
  }

  lemma CombineIsLE4(s: seq<byte>)
    requires |s| == 4
    ensures Combine4(s[0], s[1], s[2], s[3]) == LE32(s)
  {
    FromLE4(s);
  }
}
