/** The writers of reference/usbhostfs_main.c that put messages on the pipe: `usbAsyncWrite` and `usbWriteBulkData`. */
module BusWriter {
  import opened AsyncChannels
  import opened BulkPipe
  import opened BusRuns
  import opened Bytes

  /** `send_async`: one message under the semaphore. */
  method SendAsync(pipe: Pipe, locked: bool, message: seq<byte>) returns (ret: int)
    requires pipe.Valid() && !pipe.held
    modifies pipe, pipe.txBuf
    ensures pipe.Valid() && !pipe.held
    ensures ret == if locked && Move(old(pipe.script), |message|, |message|).ok then 1 else 0
    ensures old(pipe.outgoing) <= pipe.outgoing <= old(pipe.outgoing) + message
    ensures ret == 1 ==> pipe.outgoing == old(pipe.outgoing) + message
  {
    pipe.Wait(locked);
    if !locked {
      return 0;
    }
    ret := 0;
    var err := pipe.WriteData(message, false);
    if err == |message| {
      ret := 1;
    }
    pipe.Signal();
  }

  /** Puts a piece of the data behind the frame head and sends it. */
  method SendFrame(pipe: Pipe, locked: bool, buffer: array<byte>, chan: uint32, piece: seq<byte>) returns (ok: int)
    requires pipe.Valid() && !pipe.held && buffer.Length == FRAME_SIZE && |piece| <= Room()
    requires buffer[..ASYNC_HEADER] == FrameHead(chan) && buffer != pipe.txBuf
    modifies pipe, pipe.txBuf, buffer
    ensures pipe.Valid() && !pipe.held && (ok == 0 || ok == 1)
    ensures buffer[..ASYNC_HEADER] == FrameHead(chan)
    ensures old(pipe.outgoing) <= pipe.outgoing <= old(pipe.outgoing) + Frame(chan, piece)
    ensures ok == 1 ==> pipe.outgoing == old(pipe.outgoing) + Frame(chan, piece)
  {
    forall k | 0 <= k < |piece| {
      buffer[ASYNC_HEADER + k] := piece[k];
    }
    assert buffer[..ASYNC_HEADER] == old(buffer[..ASYNC_HEADER]);
    assert buffer[..ASYNC_HEADER + |piece|] == FrameHead(chan) + piece;
    ok := SendAsync(pipe, locked, buffer[..ASYNC_HEADER + |piece|]);
  }

  /**
   `usbAsyncWrite`: the data goes out as the frames of `Frames`, in order, until one fails; the result is how
   many bytes the frames that went out whole carry. `locks` are the outcomes of the semaphore waits.
   */
  method UsbAsyncWrite(pipe: Pipe, connected: bool, locks: seq<bool>, chan: uint32, data: seq<byte>)
    returns (ret: int, ghost whole: nat)
    requires pipe.Valid() && !pipe.held
    modifies pipe, pipe.txBuf
    ensures pipe.Valid() && !pipe.held
    ensures !connected ==> ret == -1 && whole == 0 && pipe.outgoing == old(pipe.outgoing)
    ensures connected ==> 0 <= ret && Outcome(chan, data, ret, whole, old(pipe.outgoing), pipe.outgoing)
  {
    whole := 0;
    if !connected {
      return -1, 0;
    }
    var buffer := NewFrameBuffer(chan);
    var written, turn := 0, 0;
    ghost var before := pipe.outgoing;
    NothingSent(chan, data, before);
    while written < |data|
      invariant 0 <= written <= |data| && pipe.Valid() && !pipe.held
      invariant buffer[..ASYNC_HEADER] == FrameHead(chan)
      invariant Progress(chan, data, written, whole, before, pipe.outgoing)
    {
      var size := if |data| - written > Room() then Room() else |data| - written;
      var locked := turn >= |locks| || locks[turn];
      turn := turn + 1;
      var ok := SendNext(pipe, locked, buffer, chan, data, written, size, before, whole);
      if ok != 1 {
        return written, whole;
      }
      written := written + size;
      whole := whole + 1;
    }
    AllSent(chan, data, whole, before, pipe.outgoing);
    return written, whole;
  }

  /** One turn of the loop: the next `size` bytes as the next frame. */
  method SendNext(pipe: Pipe, locked: bool, buffer: array<byte>, chan: uint32, data: seq<byte>, written: nat, size: nat,
                  ghost before: seq<byte>, ghost whole: nat)
    returns (ok: int)
    requires pipe.Valid() && !pipe.held && buffer.Length == FRAME_SIZE
    requires buffer[..ASYNC_HEADER] == FrameHead(chan) && buffer != pipe.txBuf
    requires written < |data| && size == Min(|data| - written, Room())
    requires Progress(chan, data, written, whole, before, pipe.outgoing)
    modifies pipe, pipe.txBuf, buffer
    ensures pipe.Valid() && !pipe.held && buffer[..ASYNC_HEADER] == FrameHead(chan)
    ensures ok == 1 ==> Progress(chan, data, written + size, whole + 1, before, pipe.outgoing)
    ensures ok != 1 ==> Outcome(chan, data, written, whole, before, pipe.outgoing)
  {
    ghost var wire := pipe.outgoing;
    FirstFrame(chan, data, written, whole, before, wire);
    ok := SendFrame(pipe, locked, buffer, chan, data[written..written + size]);
  }

  /** The frame buffer with its head filled in. */
  method NewFrameBuffer(chan: uint32) returns (buffer: array<byte>)
    ensures fresh(buffer) && buffer.Length == FRAME_SIZE && buffer[..ASYNC_HEADER] == FrameHead(chan)
  {
    buffer := new byte[FRAME_SIZE](_ => 0);
    var head := FrameHead(chan);
    forall k | 0 <= k < ASYNC_HEADER {
      buffer[k] := head[k];
    }
  }

  lemma AllSent(chan: uint32, data: seq<byte>, whole: nat, before: seq<byte>, wire: seq<byte>)
    requires Progress(chan, data, |data|, whole, before, wire)
    ensures Outcome(chan, data, |data|, whole, before, wire)
  {
    assert data[|data|..] == [];
  }

  lemma NothingSent(chan: uint32, data: seq<byte>, wire: seq<byte>)
    ensures Progress(chan, data, 0, 0, wire, wire)
  {
    var frames := Frames(chan, data);
    assert frames[0..] == frames && data[0..] == data && frames[..0] == [] && data[..0] == [];
  }

  /** Of `frames` the first `whole` are on the wire and carry the first `written` bytes; `rest` is still to come. */
  ghost predicate Underway(frames: seq<Message>, rest: seq<Message>, chan: uint32, data: seq<byte>,
                           written: nat, whole: nat, before: seq<byte>, wire: seq<byte>) {
    && written <= |data| && whole <= |frames|
    && frames[whole..] == rest
    && Demux(frames[..whole], AsyncPort(chan)) == data[..written]
    && wire == before + Flatten(frames[..whole])
  }

  /** The frames of the first `written` bytes are on the wire, those of the rest of the data are to come. */
  ghost predicate Progress(chan: uint32, data: seq<byte>, written: nat, whole: nat, before: seq<byte>,
                           wire: seq<byte>) {
    written <= |data|
    && Underway(Frames(chan, data), Frames(chan, data[written..]), chan, data, written, whole, before, wire)
  }

  /** As `Progress`, with at most a beginning of the next frame behind; all frames are out when all data is. */
  ghost predicate Outcome(chan: uint32, data: seq<byte>, written: nat, whole: nat, before: seq<byte>, wire: seq<byte>) {
    var frames := Frames(chan, data);
    && written <= |data| && whole <= |frames| && (written == |data| <==> whole == |frames|)
    && Demux(frames[..whole], AsyncPort(chan)) == data[..written]
    && var done := before + Flatten(frames[..whole]);
       if whole == |frames| then wire == done else done <= wire <= done + frames[whole]
  }

  /** The next frame, and what is then on the wire. */
  lemma FirstFrame(chan: uint32, data: seq<byte>, written: nat, whole: nat, before: seq<byte>, wire: seq<byte>)
    requires written < |data| && Progress(chan, data, written, whole, before, wire)
    ensures var size := Min(|data| - written, Room());
            var frame := Frame(chan, data[written..written + size]);
            && whole < |Frames(chan, data)| && Frames(chan, data)[whole] == frame
            && Progress(chan, data, written + size, whole + 1, before, wire + frame)
  {
    var size := Min(|data| - written, Room());
    FramesSplit(chan, data[written..]);
    PieceAt(data, written, size);
    OneMore(Frames(chan, data), Frames(chan, data[written + size..]), chan, data, written, size, whole, before, wire);
  }

  lemma PieceAt(data: seq<byte>, written: nat, size: nat)
    requires written + size <= |data|
    ensures data[written..][..size] == data[written..written + size]
    ensures data[written..][size..] == data[written + size..]
  {
  }

  /** A frame that goes out whole carries its piece of the data. */
  lemma OneMore(frames: seq<Message>, rest: seq<Message>, chan: uint32, data: seq<byte>, written: nat, size: nat,
                whole: nat, before: seq<byte>, wire: seq<byte>)
    requires written + size <= |data|
    requires var frame := Frame(chan, data[written..written + size]);
             Underway(frames, [frame] + rest, chan, data, written, whole, before, wire)
    ensures var frame := Frame(chan, data[written..written + size]);
            && whole < |frames| && frames[whole] == frame
            && Underway(frames, rest, chan, data, written + size, whole + 1, before, wire + frame)
  {
    var frame := Frame(chan, data[written..written + size]);
    HeadAndTail(frames, whole, frame, rest);
    FlattenSnoc(frames[..whole], frame);
    CarriesMore(frames[..whole], chan, data, written, size);
  }

  lemma CarriesMore(done: seq<Message>, chan: uint32, data: seq<byte>, written: nat, size: nat)
    requires written + size <= |data| && Demux(done, AsyncPort(chan)) == data[..written]
    ensures Demux(done + [Frame(chan, data[written..written + size])], AsyncPort(chan)) == data[..written + size]
  {
    var piece := data[written..written + size];
    DemuxConcat(done, [Frame(chan, piece)], AsyncPort(chan));
    DemuxOne(Frame(chan, piece), AsyncPort(chan));
    FrameParses(chan, piece, AsyncPort(chan));
    assert data[..written + size] == data[..written] + piece;
  }

  lemma HeadAndTail(frames: seq<Message>, at: nat, first: Message, rest: seq<Message>)
    requires at <= |frames| && frames[at..] == [first] + rest
    ensures at < |frames| && frames[at] == first && frames[at + 1..] == rest
    ensures frames[..at + 1] == frames[..at] + [first]
  {
    assert frames[at..][0] == frames[at] && frames[at..][1..] == frames[at + 1..];
  }

  /**
   `usbWriteBulkData`: the head goes out exactly, but the data in a single transfer whose length nobody
   checks. The call reports success when that transfer moved anything at all.
   */
  method UsbWriteBulkData(pipe: Pipe, connected: bool, locked: bool, chan: uint32, data: seq<byte>, aligned: bool)
    returns (ret: int)
    requires pipe.Valid() && !pipe.held && |data| < 0x8000_0000
    modifies pipe, pipe.txBuf
    ensures pipe.Valid() && !pipe.held
    ensures ret == if BulkAccepted(connected, locked, data, aligned, old(pipe.script)) then |data| else -1
    ensures ret >= 0 ==> connected && locked && aligned && 0 < |data| <= HOSTFS_BULK_MAXWRITE
    ensures ret >= 0 ==>
              pipe.outgoing == old(pipe.outgoing) + BulkHead(chan, |data|) + data[..BulkMoved(data, old(pipe.script))]
    ensures ret >= 0 ==> old(pipe.outgoing) <= pipe.outgoing
                         && Announces(pipe.outgoing[|old(pipe.outgoing)|..], chan, data)
    ensures ret < 0 ==> old(pipe.outgoing) <= pipe.outgoing <= old(pipe.outgoing) + BulkHead(chan, |data|)
  {
    ghost var before := pipe.outgoing;
    ret := -1;
    if !connected {
      return;
    }
    if |data| <= 0 || |data| > HOSTFS_BULK_MAXWRITE {
      return;
    }
    pipe.Wait(locked);
    if !locked {
      return;
    }
    var head := BulkHead(chan, |data|);
    var err := pipe.WriteData(head, false);
    if err == |head| {
      err := WriteLarge(pipe, data, aligned);
      if err == |data| {
        ret := |data|;
        HeadAnnounces(before, chan, data, |pipe.outgoing| - |before| - BULK_HEAD);
      }
    }
    pipe.Signal();
  }

  /** The three words of a bulk head, then at least a byte of the data and no other. */
  predicate Announces(wire: seq<byte>, chan: uint32, data: seq<byte>) {
    && |wire| > BULK_HEAD && Word(wire, 0) == BULK_MAGIC && Word(wire, 4) == chan && Word(wire, 8) == |data|
    && wire[BULK_HEAD..] <= data
  }

  lemma HeadAnnounces(before: seq<byte>, chan: uint32, data: seq<byte>, k: nat)
    requires 0 < k <= |data| <= HOSTFS_BULK_MAXWRITE
    ensures Announces((before + BulkHead(chan, |data|) + data[..k])[|before|..], chan, data)
  {
    var wire := BulkHead(chan, |data|) + data[..k];
    assert (before + BulkHead(chan, |data|) + data[..k])[|before|..] == wire;
    var whole := BulkHead(chan, |data|) + data;
    assert whole in Script(BulkWrite(chan, data));
    BulkParses(chan, data, whole);
    assert wire <= whole;
    SameWord(wire, whole, 0);
    SameWord(wire, whole, 4);
    SameWord(wire, whole, 8);
  }

  /** `write_data_large`: aligned data only, one request, its full size reported. */
  method WriteLarge(pipe: Pipe, data: seq<byte>, aligned: bool) returns (ret: int)
    requires pipe.held
    modifies pipe`script, pipe`outgoing
    ensures !aligned ==> ret == -1 && pipe.script == old(pipe.script) && pipe.outgoing == old(pipe.outgoing)
    ensures aligned ==>
              var k := if old(pipe.script) == [] then 0 else Once(old(pipe.script)[0], |data|, |data|);
              ret == (if k > 0 then |data| else -1) && pipe.outgoing == old(pipe.outgoing) + data[..k]
  {
    if !aligned {
      return -1;
    }
    var count := pipe.Submit(data);
    return if count > 0 then |data| else -1;
  }

  /** The bytes of the payload that the one data transfer moves. */
  function BulkMoved(data: seq<byte>, script: seq<Transfer>): (k: nat)
    ensures k <= |data|
  {
    var rest := Move(script, BULK_HEAD, BULK_HEAD).rest;
    if rest == [] then 0 else Once(rest[0], |data|, |data|)
  }

  predicate BulkAccepted(connected: bool, locked: bool, data: seq<byte>, aligned: bool, script: seq<Transfer>) {
    connected && locked && 0 < |data| <= HOSTFS_BULK_MAXWRITE && aligned
    && Move(script, BULK_HEAD, BULK_HEAD).ok && BulkMoved(data, script) > 0
  }

  /** Whatever the transfers do, a bulk write that reports success has put all of its data on the wire. */
  ghost predicate AlwaysWhole(data: seq<byte>) {
    forall script :: BulkAccepted(true, true, data, true, script) ==> BulkMoved(data, script) == |data|
  }

  /**
   Success of a bulk write is meant to say that its data is on the wire. It says so for data of one byte and for
   no other: any longer data, two bytes for instance, may be cut short by the one transfer nobody checks.
   */
  lemma BulkWriteMayBeShort(data: seq<byte>)
    requires 0 < |data| <= HOSTFS_BULK_MAXWRITE
    ensures AlwaysWhole(data) <==> |data| == 1
    ensures |data| > 1 ==> BulkAccepted(true, true, data, true, ShortScript()) && BulkMoved(data, ShortScript()) == 1
  {
    HeadThenOne();
    if |data| > 1 {
      assert BulkMoved(data, ShortScript()) == 1;
      assert BulkAccepted(true, true, data, true, ShortScript());
    }
  }

  /** The head goes out whole, then the data transfer moves a single byte. */
  /** On a pipe that moves, aligned data of an allowed length is what a connected caller needs, and all it needs. */
  lemma BulkGoesThrough(connected: bool, locked: bool, data: seq<byte>, aligned: bool, script: seq<Transfer>)
    requires Flowing(script, BULK_HEAD + 1)
    ensures BulkAccepted(connected, locked, data, aligned, script)
            <==> connected && locked && aligned && 0 < |data| <= HOSTFS_BULK_MAXWRITE
  {
    ShortTransfersAddUp(script, BULK_HEAD, BULK_HEAD, BULK_HEAD + 1);
    var rest := Move(script, BULK_HEAD, BULK_HEAD).rest;
    assert rest[0].Moves? && rest[0].count > 0;
  }

  /** Behind a head that went out at once, the data is what the next transfer moves. */
  lemma NextTransferIsData(data: seq<byte>, n: nat, later: seq<Transfer>)
    ensures BulkMoved(data, [Moves(BULK_HEAD), Moves(n)] + later) == Min(n, |data|)
  {
    var script := [Moves(BULK_HEAD), Moves(n)] + later;
    assert script[1..] == [Moves(n)] + later;
    assert Move(script[1..], 0, 0) == Moved(0, true, script[1..]);
  }

  function ShortScript(): seq<Transfer> {
    [Moves(BULK_HEAD), Moves(1)]
  }

  lemma HeadThenOne()
    ensures Move(ShortScript(), BULK_HEAD, BULK_HEAD) == Moved(BULK_HEAD, true, [Moves(1)])
  {
    assert ShortScript()[1..] == [Moves(1)];
    assert Move(ShortScript()[1..], 0, 0) == Moved(0, true, [Moves(1)]);
  }
}
