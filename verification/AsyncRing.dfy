/** One asynchronous endpoint: the ring buffer of reference/usbhostfs_main.c as an unbounded queue that is cut off. */
module AsyncRing {
  import opened Bytes

  /** The ring's size; any positive number. */
  const MAX_ASYNC_BUFFER: Positive

  lemma WrapAround(x: int, m: int)
    requires 0 < m && 0 <= x < 2 * m
    ensures x % m == if x < m then x else x - m
  {
    if x >= m {
      assert x == 1 * m + (x - m);
    }
  }

  class Endpoint {
    const buffer: array<byte>
    var readPos: int
    var writePos: int
    var size: int

    ghost predicate Valid()
      reads this
    {
      && buffer.Length == MAX_ASYNC_BUFFER
      && 0 <= readPos < MAX_ASYNC_BUFFER
      && 0 <= size <= MAX_ASYNC_BUFFER
      && writePos == (readPos + size) % MAX_ASYNC_BUFFER
    }

    /** Slot of the `i`-th waiting byte. */
    ghost function Slot(i: nat): int
      requires Valid() && i <= size
      reads this
    {
      if readPos + i < MAX_ASYNC_BUFFER then readPos + i else readPos + i - MAX_ASYNC_BUFFER
    }

    /** The bytes waiting to be read, oldest first. */
    ghost function Contents(): (s: seq<byte>)
      requires Valid()
      reads this, buffer
      ensures |s| == size
    {
      seq(size, i requires 0 <= i < size reads this, buffer requires Valid() => buffer[Slot(i)])
    }

    /** Memory handed in by a caller: any contents, not yet registered. */
    constructor (readPos: int, writePos: int, size: int)
      ensures buffer.Length == MAX_ASYNC_BUFFER && fresh(buffer)
    {
      buffer := new byte[MAX_ASYNC_BUFFER](_ => 0);
      this.readPos, this.writePos, this.size := readPos, writePos, size;
    }

    /** Empties the ring; this is also what makes a caller's memory a ring in the first place. */
    method Reset()
      requires buffer.Length == MAX_ASYNC_BUFFER
      modifies this
      ensures Valid() && Contents() == []
    {
      size := 0;
      readPos := 0;
      writePos := 0;
    }

    method Push(b: byte)
      requires Valid() && size < MAX_ASYNC_BUFFER
      modifies this, buffer
      ensures Valid() && Contents() == old(Contents()) + [b]
    {
      WrapAround(readPos + size, MAX_ASYNC_BUFFER);
      WrapAround(readPos + size + 1, MAX_ASYNC_BUFFER);
      WrapAround(writePos + 1, MAX_ASYNC_BUFFER);
      buffer[writePos] := b;
      writePos := (writePos + 1) % MAX_ASYNC_BUFFER;
      size := size + 1;
    }

    method Pop() returns (b: byte)
      requires Valid() && size > 0
      modifies this
      ensures Valid() && old(Contents()) == [b] + Contents()
    {
      WrapAround(readPos + size, MAX_ASYNC_BUFFER);
      WrapAround(readPos + 1, MAX_ASYNC_BUFFER);
      b := buffer[readPos];
      readPos := (readPos + 1) % MAX_ASYNC_BUFFER;
      size := size - 1;
      WrapAround(readPos + size, MAX_ASYNC_BUFFER);
    }

    /** The copy loop of `fill_async`: the longest prefix that fits is accepted, the rest is dropped. */
    method Fill(data: seq<byte>)
      requires Valid()
      modifies this, buffer
      ensures Valid()
      ensures Contents() == old(Contents()) + Cut(data, MAX_ASYNC_BUFFER - old(size))
    {
      var left := if |data| < MAX_ASYNC_BUFFER - size then |data| else MAX_ASYNC_BUFFER - size;
      ghost var accepted := left;
      var next := 0;
      while left > 0
        invariant Valid() && 0 <= left && next + left == accepted <= |data| && size + left <= MAX_ASYNC_BUFFER
        invariant Contents() == old(Contents()) + data[..next]
      {
        Push(data[next]);
        next := next + 1;
        left := left - 1;
        assert data[..next] == data[..next - 1] + [data[next - 1]];
      }
    }

    /** The copy loop of the reader: at most `len` bytes, oldest first. */
    method Drain(len: int) returns (data: seq<byte>)
      requires Valid()
      modifies this
      ensures Valid()
      ensures data + Contents() == old(Contents())
      ensures |data| == if len < 0 then 0 else Min(len, old(size))
    {
      var count := if len < size then len else size;
      data := [];
      var i := 0;
      while i < count
        invariant Valid() && 0 <= i && (i <= count || i == 0) && |data| == i && (count <= i || count - i <= size)
        invariant data + Contents() == old(Contents())
      {
        var b := Pop();
        assert data + ([b] + Contents()) == (data + [b]) + Contents();
        data := data + [b];
        i := i + 1;
      }
    }
  }
}
