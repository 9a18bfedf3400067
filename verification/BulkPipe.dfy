/**
 The shared bulk pipe of reference/usbhostfs_main.c: exact-length transfers over short ones, and the
 request/response exchange built on them.
 */
module BulkPipe {
  import opened Bytes

  const TX_SIZE := 65536

  /** One USB request: it moves up to `count` bytes, or fails (refused, wait error or error code). */
  datatype Transfer = Moves(count: nat) | Fails

  datatype Moved = Moved(count: nat, ok: bool, rest: seq<Transfer>)

  /** What one request for `size` bytes moves when `avail` are there; nothing moved is an error too. */
  function Once(t: Transfer, size: nat, avail: nat): (k: nat)
    ensures k <= size && k <= avail
  {
    if t.Fails? then 0 else Min(t.count, Min(size, avail))
  }

  /**
   A transfer of exactly `need` bytes out of `avail`: requests are repeated until everything has moved or
   one of them moves nothing.
   */
  function Move(script: seq<Transfer>, need: nat, avail: nat): (m: Moved)
    ensures m.count <= need && m.count <= avail
    ensures m.ok <==> m.count == need
    decreases |script|
  {
    if need == 0 then Moved(0, true, script)
    else if script == [] then Moved(0, false, [])
    else
      var k := Once(script[0], Min(need, TX_SIZE), avail);
      if k == 0 then Moved(0, false, script[1..])
      else
        var m := Move(script[1..], need - k, avail - k);
        Moved(k + m.count, m.ok, m.rest)
  }

  /** The next `n` requests each move something. */
  ghost predicate Flowing(script: seq<Transfer>, n: nat) {
    |script| >= n && forall k :: 0 <= k < n ==> script[k].Moves? && script[k].count > 0
  }

  /** However short the transfers, as long as each moves something the whole amount gets through. */
  lemma {:induction false} ShortTransfersAddUp(script: seq<Transfer>, need: nat, avail: nat, n: nat)
    requires need <= avail && need <= n && Flowing(script, n)
    ensures Move(script, need, avail).ok && Flowing(Move(script, need, avail).rest, n - need)
    decreases need
  {
    if need > 0 {
      var k := Once(script[0], Min(need, TX_SIZE), avail);
      ShortTransfersAddUp(script[1..], need - k, avail - k, n - k);
    }
  }

  /** A failed transfer ends it: nothing more is moved and no further request made. */
  lemma FailureStops(script: seq<Transfer>, need: nat, avail: nat)
    requires need > 0 && script != [] && (script[0].Fails? || script[0].count == 0)
    ensures Move(script, need, avail) == Moved(0, false, script[1..])
  {
  }

  /** A short transfer is gone on with: what is left is asked for again, `TX_SIZE` bytes at most at a time. */
  lemma ShortTransferGoesOn(script: seq<Transfer>, need: nat, avail: nat)
    requires 0 < need <= avail && script != [] && script[0].Moves? && 0 < script[0].count < Min(need, TX_SIZE)
    ensures var m, n := Move(script, need, avail), Move(script[1..], need - script[0].count, avail - script[0].count);
            m == Moved(script[0].count + n.count, n.ok, n.rest)
  {
  }

  /** A response counts as one unless both its magic and its command are wrong. */
  predicate Acceptable(magic: uint32, response: uint32, command: uint32) {
    magic == HOSTFS_MAGIC || response == command
  }

  const HOSTFS_MAGIC: uint32
  /** Bytes of the command head every request and response begins with: magic, command, extra length. */
  const HEAD := 12

  function Word(s: seq<byte>, at: nat): uint32
    requires at + 4 <= |s|
  {
    PowersOf256(); ToFromLE(s[at..at + 4]);
    FromLE(s[at..at + 4])
  }

  /** The C conversion of an unsigned word to `int`. */
  function AsInt(x: uint32): int {
    if x < 0x8000_0000 then x else x - 0x1_0000_0000
  }

  class Pipe {
    var script: seq<Transfer>
    /** Bytes the host has ready for us, and bytes the host has got from us. */
    var incoming: seq<byte>
    var outgoing: seq<byte>
    const txBuf: array<byte>
    /** The count of the main semaphore, and whether the thread that is running has it. */
    var sema: nat
    ghost var held: bool

    ghost predicate Valid()
      reads this
    {
      txBuf.Length == TX_SIZE && sema == if held then 0 else 1
    }

    constructor (script: seq<Transfer>, incoming: seq<byte>)
      ensures Valid() && this.script == script && this.incoming == incoming && outgoing == [] && !held
      ensures fresh(txBuf)
    {
      this.script, this.incoming, outgoing, sema, held := script, incoming, [], 1, false;
      txBuf := new byte[TX_SIZE](_ => 0);
    }

    /** `sceKernelWaitSema(g_mainsema, 1, NULL)`; `granted` is its outcome. A thread that has it must not wait again. */
    method Wait(granted: bool)
      requires Valid() && !held
      modifies this`sema, this`held
      ensures Valid() && held == granted
    {
      if granted {
        sema := sema - 1;
        held := true;
      }
    }

    /** `sceKernelSignalSema(g_mainsema, 1)`, by the thread that has it. */
    method Signal()
      requires Valid() && held
      modifies this`sema, this`held
      ensures Valid() && !held
    {
      sema := sema + 1;
      held := false;
    }

    /** A bulk-out request, for the holder of the semaphore only: up to `size` bytes land in the transmit buffer. */
    method Request(size: nat) returns (count: nat)
      requires Valid() && held && size <= TX_SIZE
      modifies this`script, this`incoming, txBuf
      ensures old(script) == [] ==> count == 0 && script == []
      ensures old(script) != [] ==> count == Once(old(script)[0], size, |old(incoming)|) && script == old(script)[1..]
      ensures count <= size && count <= |old(incoming)| && incoming == old(incoming)[count..]
      ensures txBuf[..count] == old(incoming)[..count]
    {
      count := 0;
      if script != [] {
        count := Once(script[0], size, |incoming|);
        script := script[1..];
      }
      forall k | 0 <= k < count {
        txBuf[k] := incoming[k];
      }
      incoming := incoming[count..];
    }

    /** One turn of the `read_data` loop: a request and the copy out of the transmit buffer. */
    method ReadChunk(data: array<byte>, at: nat, size: nat) returns (count: nat)
      requires Valid() && held && size <= TX_SIZE && at + size <= data.Length && data != txBuf
      modifies this`script, this`incoming, txBuf, data
      ensures count == if old(script) == [] then 0 else Once(old(script)[0], size, |old(incoming)|)
      ensures script == if old(script) == [] then [] else old(script)[1..]
      ensures count <= size && count <= |old(incoming)| && incoming == old(incoming)[count..]
      ensures forall k :: at <= k < at + count ==> data[k] == old(incoming)[k - at]
      ensures forall k :: 0 <= k < data.Length && !(at <= k < at + count) ==> data[k] == old(data[k])
    {
      count := Request(size);
      forall k | 0 <= k < count {
        data[at + k] := txBuf[k];
      }
      assert forall k :: 0 <= k < count ==> data[at + k] == txBuf[..count][k];
    }

    /** `read_data`: the next `size` bytes of the stream, or -1 after a failed request. */
    method ReadData(data: array<byte>, size: int) returns (ret: int)
      requires Valid() && held && size <= data.Length && data != txBuf
      modifies this`script, this`incoming, txBuf, data
      ensures size <= 0 ==> ret == 0 && script == old(script) && incoming == old(incoming) && data[..] == old(data[..])
      ensures size > 0 ==>
                var m := Move(old(script), size, |old(incoming)|);
                && ret == (if m.ok then size else -1) && script == m.rest
                && incoming == old(incoming)[m.count..]
                && data[..m.count] == old(incoming)[..m.count] && data[m.count..] == old(data[m.count..])
    {
      if size <= 0 {
        return 0;
      }
      var readLen := 0;
      ghost var stream, before := incoming, data[..];
      ghost var all := Move(script, size, |incoming|);
      while readLen < size
        invariant readLen <= size && Reading(all, stream, before, data, size, readLen)
      {
        var next := if size - readLen > TX_SIZE then TX_SIZE else size - readLen;
        var count := ReadMore(data, size, readLen, next, all, stream, before);
        if count == 0 {
          return -1;
        }
        readLen := readLen + count;
      }
      return readLen;
    }

    /** The transfer `all` is under way: the first `done` bytes of the stream are in the buffer. */
    ghost predicate Reading(all: Moved, stream: seq<byte>, before: seq<byte>, data: array<byte>, size: nat, done: nat)
      reads this`script, this`incoming, data
    {
      && done <= size <= data.Length == |before| && done <= |stream| && incoming == stream[done..]
      && (forall k :: 0 <= k < done ==> data[k] == stream[k])
      && (forall k :: done <= k < data.Length ==> data[k] == before[k])
      && Continues(all, done, Move(script, size - done, |stream| - done))
    }

    method ReadMore(data: array<byte>, size: nat, at: nat, next: nat,
                    ghost all: Moved, ghost stream: seq<byte>, ghost before: seq<byte>)
      returns (count: nat)
      requires Valid() && held && data != txBuf && Reading(all, stream, before, data, size, at)
      requires at < size && next == Min(size - at, TX_SIZE)
      modifies this`script, this`incoming, txBuf, data
      ensures count > 0 ==> at + count <= size && Reading(all, stream, before, data, size, at + count)
      ensures count == 0 ==> !all.ok && all.count == at && all.rest == script && incoming == stream[at..]
                             && (forall k :: 0 <= k < at ==> data[k] == stream[k])
                             && (forall k :: at <= k < data.Length ==> data[k] == before[k])
    {
      count := ReadChunk(data, at, next);
    }

    /** A bulk-in request, for the holder of the semaphore only: the host takes a beginning of `bytes`. */
    method Submit(bytes: seq<byte>) returns (count: nat)
      requires held
      modifies this`script, this`outgoing
      ensures old(script) == [] ==> count == 0 && script == []
      ensures old(script) != [] ==> count == Once(old(script)[0], |bytes|, |bytes|) && script == old(script)[1..]
      ensures count <= |bytes| && outgoing == old(outgoing) + bytes[..count]
    {
      count := 0;
      if script != [] {
        count := Once(script[0], |bytes|, |bytes|);
        script := script[1..];
      }
      outgoing := outgoing + bytes[..count];
    }

    /**
     `write_data`: unaligned data goes through the bounce buffer, aligned data straight out. The stream, the
     result and the requests used are the same either way: the contract does not mention the alignment.
     */
    method WriteData(data: seq<byte>, aligned: bool) returns (ret: int)
      requires Valid() && held
      modifies this`script, this`outgoing, txBuf
      ensures var m := Move(old(script), |data|, |data|);
              && ret == (if m.ok then |data| else -1) && script == m.rest
              && outgoing == old(outgoing) + data[..m.count]
    {
      if !aligned {
        ret := WriteBounced(data);
      } else {
        ret := WriteDirect(data);
      }
    }

    /** The transfer `all` is under way: the first `done` bytes of the data are out. */
    ghost predicate Writing(all: Moved, before: seq<byte>, data: seq<byte>, done: nat)
      reads this`script, this`outgoing
    {
      && done <= |data| && outgoing == before + data[..done]
      && Continues(all, done, Move(script, |data| - done, |data| - done))
    }

    /** One request of a writing loop: it goes on behind the bytes moved, or this was its end. */
    method WriteMore(data: seq<byte>, at: nat, next: nat, ghost all: Moved, ghost before: seq<byte>)
      returns (count: nat)
      requires held && Writing(all, before, data, at) && at < |data| && next == Min(|data| - at, TX_SIZE)
      modifies this`script, this`outgoing
      ensures count > 0 ==> Writing(all, before, data, at + count)
      ensures count == 0 ==> !all.ok && all.count == at && all.rest == script && outgoing == before + data[..at]
    {
      count := Submit(data[at..at + next]);
      TakeMore(data, at, next, count);
    }

    method WriteBounced(data: seq<byte>) returns (ret: int)
      requires Valid() && held
      modifies this`script, this`outgoing, txBuf
      ensures var m := Move(old(script), |data|, |data|);
              && ret == (if m.ok then |data| else -1) && script == m.rest
              && outgoing == old(outgoing) + data[..m.count]
    {
      var writeLen := 0;
      ghost var all, before := Move(script, |data|, |data|), outgoing;
      while writeLen < |data|
        invariant 0 <= writeLen <= |data| && Writing(all, before, data, writeLen)
      {
        var next := if |data| - writeLen > TX_SIZE then TX_SIZE else |data| - writeLen;
        var count := BounceMore(data, writeLen, next, all, before);
        if count == 0 {
          return -1;
        }
        writeLen := writeLen + count;
      }
      return writeLen;
    }

    /** The same through the transmit buffer. */
    method BounceMore(data: seq<byte>, at: nat, next: nat, ghost all: Moved, ghost before: seq<byte>)
      returns (count: nat)
      requires Valid() && held && Writing(all, before, data, at) && at < |data| && next == Min(|data| - at, TX_SIZE)
      modifies this`script, this`outgoing, txBuf
      ensures count > 0 ==> Writing(all, before, data, at + count)
      ensures count == 0 ==> !all.ok && all.count == at && all.rest == script && outgoing == before + data[..at]
    {
      forall k | 0 <= k < next {
        txBuf[k] := data[at + k];
      }
      assert txBuf[..next] == data[at..at + next];
      count := Submit(txBuf[..next]);
      TakeMore(data, at, next, count);
    }

    method WriteDirect(data: seq<byte>) returns (ret: int)
      requires held
      modifies this`script, this`outgoing
      ensures var m := Move(old(script), |data|, |data|);
              && ret == (if m.ok then |data| else -1) && script == m.rest
              && outgoing == old(outgoing) + data[..m.count]
    {
      var writeLen := 0;
      ghost var all, before := Move(script, |data|, |data|), outgoing;
      while writeLen < |data|
        invariant 0 <= writeLen <= |data| && Writing(all, before, data, writeLen)
      {
        var next := if |data| - writeLen > TX_SIZE then TX_SIZE else |data| - writeLen;
        var count := WriteMore(data, writeLen, next, all, before);
        if count == 0 {
          return -1;
        }
        writeLen := writeLen + count;
      }
      return writeLen;
    }

    /**
     `command_xchg` on a request with command number `command`. It succeeds exactly when the semaphore was
     got, the whole request went out and a whole acceptable response came in; a failure leaves at most a
     beginning of the request on the wire. All of it happens while the semaphore is held, and every path gives it back.
     */
    method Exchange(locked: bool, command: uint32, request: seq<byte>, extra: seq<byte>, responseLen: nat,
                    wantsData: bool)
      returns (ret: int, response: seq<byte>, data: seq<byte>)
      requires Valid() && !held
      requires responseLen == 0 || responseLen >= HEAD
      modifies this, txBuf
      ensures Valid() && !held
      ensures ret == if locked && Completes(old(script), old(incoming), command, request, extra, responseLen, wantsData)
                     then 1 else 0
      ensures !locked ==> outgoing == old(outgoing) && incoming == old(incoming)
      ensures old(outgoing) <= outgoing <= old(outgoing) + (request + extra)
      ensures ret == 1 ==> outgoing == old(outgoing) + (request + extra)
      ensures ret == 1 ==> |response| == responseLen && response + data + incoming == old(incoming)
      ensures ret == 1 && responseLen > 0 ==> Word(response, 0) == HOSTFS_MAGIC || Word(response, 4) == command
      ensures ret == 1 && responseLen > 0 && wantsData ==> |data| == Word(response, 8)
      ensures ret == 1 && (responseLen == 0 || !wantsData) ==> data == []
    {
      response, data := [], [];
      ret := 0;
      Wait(locked);
      if !locked {
        return;
      }
      var sent := SendRequest(request, extra);
      if sent {
        ret, response, data := Receive(command, responseLen, wantsData);
      }
      Signal();
    }

    /** The sending half of an exchange: the command, then its data. */
    method SendRequest(request: seq<byte>, extra: seq<byte>) returns (sent: bool)
      requires Valid() && held
      modifies this`script, this`outgoing, txBuf
      ensures old(outgoing) <= outgoing <= old(outgoing) + (request + extra)
      ensures sent ==> outgoing == old(outgoing) + (request + extra)
      ensures var first := Move(old(script), |request|, |request|);
              var second := Move(first.rest, |extra|, |extra|);
              sent == (first.ok && second.ok) && (sent ==> script == second.rest)
    {
      ghost var before := outgoing;
      var count := WriteData(request, false);
      RequestFirst(before, request, extra, Min(|outgoing| - |before|, |request|));
      if count != |request| {
        return false;
      }
      count := WriteData(extra, true);
      ExtraBehind(before, request, extra, |outgoing| - |before| - |request|);
      return count == |extra|;
    }

    /** The receiving half of an exchange. */
    method Receive(command: uint32, responseLen: nat, wantsData: bool)
      returns (ret: int, response: seq<byte>, data: seq<byte>)
      requires Valid() && held && (responseLen == 0 || responseLen >= HEAD)
      modifies this`script, this`incoming, txBuf
      ensures ret == if Responds(old(script), old(incoming), command, responseLen, wantsData) then 1 else 0
      ensures ret == 1 ==> |response| == responseLen && response + data + incoming == old(incoming)
      ensures ret == 1 && responseLen > 0 ==> Word(response, 0) == HOSTFS_MAGIC || Word(response, 4) == command
      ensures ret == 1 && responseLen > 0 && wantsData ==> |data| == Word(response, 8)
      ensures ret == 1 && (responseLen == 0 || !wantsData) ==> data == []
    {
      ret, response, data := 0, [], [];
      if responseLen > 0 {
        var got;
        got, response := ReceiveHead(responseLen);
        if got != responseLen {
          return;
        }
        if Word(response, 0) != HOSTFS_MAGIC && Word(response, 4) != command {
          return;
        }
        var more := Word(response, 8);
        if more > 0 && wantsData {
          var ok;
          ok, data := ReceiveData(more);
          if !ok {
            return;
          }
        }
      }
      ret := 1;
    }

    /** Reads the response itself; its words are those of the stream. */
    method ReceiveHead(responseLen: nat) returns (got: int, response: seq<byte>)
      requires Valid() && held && responseLen >= HEAD
      modifies this`script, this`incoming, txBuf
      ensures var m := Move(old(script), responseLen, |old(incoming)|);
              && got == (if m.ok then responseLen else -1) && script == m.rest
              && (m.ok ==> |response| == responseLen && response + incoming == old(incoming))
      ensures got == responseLen ==>
                forall at :: at in {0, 4, 8} ==> Word(response, at) == Word(old(incoming), at)
    {
      var head := new byte[responseLen](_ => 0);
      got := ReadData(head, responseLen);
      response := head[..];
      if got == responseLen {
        assert response == old(incoming)[..responseLen];
        SameWord(response, old(incoming), 0);
        SameWord(response, old(incoming), 4);
        SameWord(response, old(incoming), 8);
      }
    }

    /** Reads the `more` bytes a response announced; a count that is negative as an `int` is refused. */
    method ReceiveData(more: uint32) returns (ok: bool, data: seq<byte>)
      requires Valid() && held && more > 0
      modifies this`script, this`incoming, txBuf
      ensures ok == (more < 0x8000_0000 && Move(old(script), more, |old(incoming)|).ok)
      ensures ok ==> |data| == more && data + incoming == old(incoming)
    {
      var body := new byte[more](_ => 0);
      var got := ReadData(body, AsInt(more));
      ok, data := got == more, body[..];
    }
  }

  /** A response head with these words, and `data` behind it. */
  function ResponseWith(magic: uint32, word: uint32, data: seq<byte>): seq<byte> {
    ToLE(magic, 4) + ToLE(word, 4) + ToLE(|data|, 4) + data
  }

  /**
   On a pipe that moves, however slowly, an exchange goes through exactly when the magic or the command of the
   response is right: a response with one of them wrong is taken, one with both wrong is not.
   */
  lemma ExchangeGoesThrough(script: seq<Transfer>, magic: uint32, word: uint32, command: uint32,
                            request: seq<byte>, extra: seq<byte>, data: seq<byte>)
    requires Flowing(script, |request| + |extra| + HEAD + |data|) && |data| < 0x8000_0000
    ensures Completes(script, ResponseWith(magic, word, data), command, request, extra, HEAD, true)
            <==> magic == HOSTFS_MAGIC || word == command
  {
    var n := |request| + |extra| + HEAD + |data|;
    var incoming := ResponseWith(magic, word, data);
    ShortTransfersAddUp(script, |request|, |request|, n);
    var first := Move(script, |request|, |request|);
    ShortTransfersAddUp(first.rest, |extra|, |extra|, n - |request|);
    var second := Move(first.rest, |extra|, |extra|);
    ShortTransfersAddUp(second.rest, HEAD, |incoming|, HEAD + |data|);
    var third := Move(second.rest, HEAD, |incoming|);
    ShortTransfersAddUp(third.rest, |data|, |incoming| - HEAD, |data|);
    ResponseWords(magic, word, data);
  }

  lemma ResponseWords(magic: uint32, word: uint32, data: seq<byte>)
    requires |data| < 0x8000_0000
    ensures var s := ResponseWith(magic, word, data);
            |s| == HEAD + |data| && Word(s, 0) == magic && Word(s, 4) == word && Word(s, 8) == |data|
  {
    var head := ToLE(magic, 4) + ToLE(word, 4) + ToLE(|data|, 4);
    WordsRead(magic, word, |data|);
    assert head <= ResponseWith(magic, word, data);
    SameWord(head, ResponseWith(magic, word, data), 0);
    SameWord(head, ResponseWith(magic, word, data), 4);
    SameWord(head, ResponseWith(magic, word, data), 8);
  }

  /** A word that was written is the word that is read. */
  lemma WordReads(m: seq<byte>, at: nat, x: uint32)
    requires at + 4 <= |m| && m[at..at + 4] == ToLE(x, 4)
    ensures Word(m, at) == x
  {
    PowersOf256();
    FromToLE(x, 4);
  }

  lemma WordsRead(a: uint32, b: uint32, c: uint32)
    ensures var s := ToLE(a, 4) + ToLE(b, 4) + ToLE(c, 4);
            Word(s, 0) == a && Word(s, 4) == b && Word(s, 8) == c
  {
    var s := ToLE(a, 4) + ToLE(b, 4) + ToLE(c, 4);
    InThree(ToLE(a, 4), ToLE(b, 4), ToLE(c, 4));
    WordReads(s, 0, a);
    WordReads(s, 4, b);
    WordReads(s, 8, c);
  }

  lemma InThree(a: seq<byte>, b: seq<byte>, c: seq<byte>)
    requires |a| == |b| == |c| == 4
    ensures (a + b + c)[0..4] == a && (a + b + c)[4..8] == b && (a + b + c)[8..12] == c
  {
  }

  /** `part` is how the transfer `all` goes on after its first `done` bytes. */
  predicate Continues(all: Moved, done: nat, part: Moved) {
    all == Moved(done + part.count, part.ok, part.rest)
  }

  lemma RequestFirst(before: seq<byte>, request: seq<byte>, extra: seq<byte>, n: nat)
    requires n <= |request|
    ensures before <= before + request[..n] <= before + (request + extra)
  {
    assert request[..n] + (request[n..] + extra) == request + extra;
    assert (before + request[..n]) + (request[n..] + extra) == before + (request + extra);
  }

  lemma ExtraBehind(before: seq<byte>, request: seq<byte>, extra: seq<byte>, n: nat)
    requires n <= |extra|
    ensures before <= before + request + extra[..n] <= before + (request + extra)
    ensures n == |extra| ==> before + request + extra[..n] == before + (request + extra)
  {
    assert before + request + extra[..n] == before + (request + extra[..n]);
    assert (before + (request + extra[..n])) + extra[n..] == before + (request + extra);
  }

  lemma TakeMore(data: seq<byte>, at: nat, next: nat, count: nat)
    requires at + next <= |data| && count <= next
    ensures data[..at] + data[at..at + next][..count] == data[..at + count]
  {
  }

  lemma SameWord(part: seq<byte>, all: seq<byte>, at: nat)
    requires part <= all && at + 4 <= |part|
    ensures Word(part, at) == Word(all, at)
  {
    assert part[at..at + 4] == all[at..at + 4];
  }

  /** A whole response comes in, is acceptable, and so does the data it announces, if that is wanted. */
  ghost predicate Responds(script: seq<Transfer>, incoming: seq<byte>, command: uint32, responseLen: nat,
                           wantsData: bool)
    requires responseLen == 0 || responseLen >= HEAD
  {
    var m := Move(script, responseLen, |incoming|);
    responseLen > 0 ==>
      && m.ok
      && Acceptable(Word(incoming, 0), Word(incoming, 4), command)
      && (wantsData && Word(incoming, 8) > 0 ==>
            Word(incoming, 8) < 0x8000_0000 && Move(m.rest, Word(incoming, 8), |incoming| - m.count).ok)
  }

  /** The whole exchange goes through. */
  ghost predicate Completes(script: seq<Transfer>, incoming: seq<byte>, command: uint32,
                            request: seq<byte>, extra: seq<byte>, responseLen: nat, wantsData: bool)
    requires responseLen == 0 || responseLen >= HEAD
  {
    var first := Move(script, |request|, |request|);
    var second := Move(first.rest, |extra|, |extra|);
    first.ok && second.ok && Responds(second.rest, incoming, command, responseLen, wantsData)
  }
}
