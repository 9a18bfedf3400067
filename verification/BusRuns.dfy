/**
 Several threads on one bulk pipe (reference/usbhostfs_main.c): every message is written under the main
 semaphore, a transfer at a time, and any thread may run in between. `usbAsyncWrite` takes the semaphore
 once per frame, `command_xchg` and `usbWriteBulkData` once per call. What a message is, and for which
 channel, is read from its bytes.
 */
module BusRuns {
  import opened AsyncChannels
  import opened BulkPipe
  import opened Bytes
  import opened Options

  const FRAME_SIZE := 512
  const BULK_HEAD := 12
  const BULK_MAGIC: uint32
  /** A length is an `int`. */
  type IntLength = n: int | 0 < n < 0x8000_0000 witness 1
  const HOSTFS_BULK_MAXWRITE: IntLength

  /** The three kinds of message can be told apart by their first word. */
  predicate DistinctMagics() {
    ASYNC_MAGIC != HOSTFS_MAGIC && ASYNC_MAGIC != BULK_MAGIC && HOSTFS_MAGIC != BULK_MAGIC
  }

  /** What one acquisition of the semaphore puts on the pipe. */
  type Message = seq<byte>

  /** The head of an asynchronous frame: magic and channel; a longer head is zero behind them. */
  function FrameHead(chan: uint32): (h: seq<byte>)
    ensures |h| == ASYNC_HEADER
  {
    ToLE(ASYNC_MAGIC, 4) + ToLE(chan, 4) + Zeros(ASYNC_HEADER - 8)
  }

  function Room(): (n: nat)
    ensures 0 < n < FRAME_SIZE
  {
    FRAME_SIZE - ASYNC_HEADER
  }

  function Frame(chan: uint32, payload: seq<byte>): Message {
    FrameHead(chan) + payload
  }

  /** The frames of one `usbAsyncWrite`. */
  function Frames(chan: uint32, data: seq<byte>): seq<Message>
    decreases |data|
  {
    if data == [] then []
    else [Frame(chan, Cut(data, Room()))] + Frames(chan, data[Min(|data|, Room())..])
  }

  datatype Call =
    | AsyncWrite(chan: uint32, data: seq<byte>)
    | Exchange(request: seq<byte>, extra: seq<byte>)
    | BulkWrite(chan: uint32, data: seq<byte>)

  function BulkHead(chan: uint32, len: nat): (h: seq<byte>)
    ensures |h| == BULK_HEAD
  {
    ToLE(BULK_MAGIC, 4) + ToLE(chan, 4) + ToLE(len, 4)
  }

  /** What a call puts on the pipe, one entry per acquisition of the semaphore. */
  function Script(c: Call): seq<Message> {
    match c
    case AsyncWrite(chan, data) => Frames(chan, data)
    case Exchange(request, extra) => [request + extra]
    case BulkWrite(chan, data) =>
      if 0 < |data| <= HOSTFS_BULK_MAXWRITE then [BulkHead(chan, |data|) + data] else []
  }

  function Program(calls: seq<Call>): seq<Message> {
    if calls == [] then [] else Script(calls[0]) + Program(calls[1..])
  }

  /** Every caller of `command_xchg` passes a command that begins with the HostFS magic. */
  predicate WellFormed(c: Call) {
    c.Exchange? ==> |c.request| >= HEAD && Word(c.request, 0) == HOSTFS_MAGIC
  }

  predicate AllWellFormed(calls: seq<Call>) {
    forall c :: c in calls ==> WellFormed(c)
  }

  // ----- what the bytes say -----

  /** Where data goes: an asynchronous channel, or the bulk writes of a channel. */
  datatype Port = AsyncPort(chan: uint32) | BulkPort(chan: uint32)

  predicate IsBulk(m: seq<byte>) {
    |m| >= BULK_HEAD && Word(m, 0) == BULK_MAGIC
  }

  /** The bytes begin with the head of a message for the port. */
  predicate IsFor(m: seq<byte>, port: Port) {
    match port
    case AsyncPort(chan) => |m| >= ASYNC_HEADER && Word(m, 0) == ASYNC_MAGIC && Word(m, 4) == chan
    case BulkPort(chan) => IsBulk(m) && Word(m, 4) == chan
  }

  /** What a port gets out of the bytes: all that follows a frame's head, as much as a bulk head announces. */
  function Carried(m: seq<byte>, port: Port): seq<byte> {
    if !IsFor(m, port) then []
    else if port.AsyncPort? then m[ASYNC_HEADER..]
    else Cut(m[BULK_HEAD..], Word(m, 8))
  }

  function Flatten(ms: seq<seq<byte>>): seq<byte> {
    if ms == [] then [] else Flatten(ms[..|ms| - 1]) + ms[|ms| - 1]
  }

  function Parts(ms: seq<seq<byte>>, port: Port): (ps: seq<seq<byte>>)
    ensures |ps| == |ms|
  {
    seq(|ms|, i requires 0 <= i < |ms| => Carried(ms[i], port))
  }

  /** Demultiplexing: the heads are parsed, and what stands behind those for the port is joined. */
  function Demux(ms: seq<seq<byte>>, port: Port): seq<byte> {
    Flatten(Parts(ms, port))
  }

  lemma FlattenSnoc(ms: seq<seq<byte>>, m: seq<byte>)
    ensures Flatten(ms + [m]) == Flatten(ms) + m
  {
    assert (ms + [m])[..|ms|] == ms;
  }

  lemma {:induction false} FlattenConcat(a: seq<seq<byte>>, b: seq<seq<byte>>)
    ensures Flatten(a + b) == Flatten(a) + Flatten(b)
  {
    if b == [] {
      assert a + b == a;
    } else {
      var before, last := b[..|b| - 1], b[|b| - 1];
      FlattenConcat(a, before);
      MoveLast(a, before, last);
      assert b == before + [last];
    }
  }

  lemma MoveLast(a: seq<seq<byte>>, before: seq<seq<byte>>, last: seq<byte>)
    requires Flatten(a + before) == Flatten(a) + Flatten(before)
    ensures Flatten(a + (before + [last])) == Flatten(a) + Flatten(before + [last])
  {
    FlattenSnoc(before, last);
    FlattenSnoc(a + before, last);
    assert a + (before + [last]) == (a + before) + [last];
  }

  lemma DemuxConcat(a: seq<seq<byte>>, b: seq<seq<byte>>, port: Port)
    ensures Demux(a + b, port) == Demux(a, port) + Demux(b, port)
  {
    FlattenConcat(Parts(a, port), Parts(b, port));
    assert Parts(a + b, port) == Parts(a, port) + Parts(b, port);
  }

  lemma DemuxOne(m: seq<byte>, port: Port)
    ensures Demux([m], port) == Carried(m, port)
  {
    FlattenSnoc([], Carried(m, port));
    assert Parts([m], port) == [] + [Carried(m, port)];
  }

  /** A frame parses back to its channel and its payload. */
  lemma FrameParses(chan: uint32, payload: seq<byte>, port: Port)
    requires port.BulkPort? ==> DistinctMagics()
    ensures IsFor(Frame(chan, payload), port) <==> port == AsyncPort(chan)
    ensures Carried(Frame(chan, payload), port) == if port == AsyncPort(chan) then payload else []
  {
    var m := Frame(chan, payload);
    assert m[0..4] == ToLE(ASYNC_MAGIC, 4) && m[4..8] == ToLE(chan, 4) && m[ASYNC_HEADER..] == payload;
    WordReads(m, 0, ASYNC_MAGIC);
    WordReads(m, 4, chan);
  }

  /** A bulk write is one message whose three words are the magic, the channel and the length of what follows. */
  lemma BulkParses(chan: uint32, data: seq<byte>, m: Message)
    requires m in Script(BulkWrite(chan, data))
    ensures |m| == BULK_HEAD + |data|
    ensures Word(m, 0) == BULK_MAGIC && Word(m, 4) == chan && Word(m, 8) == |data| && m[BULK_HEAD..] == data
  {
    assert m[0..4] == ToLE(BULK_MAGIC, 4) && m[4..8] == ToLE(chan, 4) && m[8..12] == ToLE(|data|, 4);
    WordReads(m, 0, BULK_MAGIC);
    WordReads(m, 4, chan);
    WordReads(m, 8, |data|);
  }

  /** Part of a message that reads as one for a port is part of a message for it. */
  lemma PartKeepsHead(m: seq<byte>, n: nat, port: Port)
    requires n <= |m|
    ensures IsFor(m[..n], port) ==> IsFor(m, port)
    ensures Carried(m[..n], port) <= Carried(m, port)
  {
    if n >= (if port.AsyncPort? then ASYNC_HEADER else BULK_HEAD) {
      SameWord(m[..n], m, 0);
      SameWord(m[..n], m, 4);
      PartCarries(m, n, port);
    }
  }

  lemma PartCarries(m: seq<byte>, n: nat, port: Port)
    requires (if port.AsyncPort? then ASYNC_HEADER else BULK_HEAD) <= n <= |m|
    requires IsFor(m[..n], port) == IsFor(m, port)
    ensures Carried(m[..n], port) <= Carried(m, port)
  {
    if port.AsyncPort? {
      assert m[..n][ASYNC_HEADER..] <= m[ASYNC_HEADER..];
    } else {
      SameWord(m[..n], m, 8);
      assert m[..n][BULK_HEAD..] <= m[BULK_HEAD..];
    }
  }

  /** The data a call writes to a port. */
  function DataFor(c: Call, port: Port): seq<byte> {
    match c
    case AsyncWrite(chan, data) => if port == AsyncPort(chan) then data else []
    case BulkWrite(chan, data) =>
      if port == BulkPort(chan) && 0 < |data| <= HOSTFS_BULK_MAXWRITE then data else []
    case Exchange(_, _) => []
  }

  /** The bytes a program writes to a port. */
  function Written(calls: seq<Call>, port: Port): seq<byte> {
    if calls == [] then [] else DataFor(calls[0], port) + Written(calls[1..], port)
  }

  lemma FramesSplit(chan: uint32, data: seq<byte>)
    requires data != []
    ensures Frames(chan, data) == [Frame(chan, Cut(data, Room()))] + Frames(chan, data[Min(|data|, Room())..])
    ensures Cut(data, Room()) + data[Min(|data|, Room())..] == data && Cut(data, Room()) != []
  {
  }

  /**
   The frames of a write, parsed, give the data on its channel and nothing for any other port; each is 512 bytes at
   most.
   */
  lemma {:induction false} FramesCarryData(chan: uint32, data: seq<byte>, port: Port)
    requires port.BulkPort? ==> DistinctMagics()
    ensures Demux(Frames(chan, data), port) == if port == AsyncPort(chan) then data else []
    ensures forall m :: m in Frames(chan, data) ==> ASYNC_HEADER < |m| <= FRAME_SIZE
    decreases |data|
  {
    if data != [] {
      FramesSplit(chan, data);
      var first, rest := Cut(data, Room()), data[Min(|data|, Room())..];
      FramesCarryData(chan, rest, port);
      DemuxConcat([Frame(chan, first)], Frames(chan, rest), port);
      DemuxOne(Frame(chan, first), port);
      FrameParses(chan, first, port);
    }
  }

  /** A request is for no port. */
  lemma RequestParses(request: seq<byte>, extra: seq<byte>, port: Port)
    requires DistinctMagics() && WellFormed(Exchange(request, extra))
    ensures !IsFor(request + extra, port)
  {
    SameWord(request, request + extra, 0);
  }

  /** A bulk write is for its own port only, and carries its data. */
  lemma BulkCarriesData(chan: uint32, data: seq<byte>, m: Message, port: Port)
    requires DistinctMagics() && m in Script(BulkWrite(chan, data))
    ensures IsFor(m, port) <==> port == BulkPort(chan)
    ensures Carried(m, port) == DataFor(BulkWrite(chan, data), port)
  {
    BulkParses(chan, data, m);
  }

  lemma ScriptCarriesData(call: Call, port: Port)
    requires DistinctMagics() && WellFormed(call)
    ensures Demux(Script(call), port) == DataFor(call, port)
  {
    match call
    case AsyncWrite(chan, data) =>
      FramesCarryData(chan, data, port);
    case Exchange(request, extra) =>
      RequestParses(request, extra, port);
      DemuxOne(request + extra, port);
    case BulkWrite(chan, data) =>
      if Script(call) != [] {
        BulkCarriesData(chan, data, Script(call)[0], port);
        DemuxOne(Script(call)[0], port);
      }
  }

  /** Cutting a program into messages loses, repeats and reorders nothing for any port. */
  lemma {:induction false} ProgramCarriesData(calls: seq<Call>, port: Port)
    requires DistinctMagics() && AllWellFormed(calls)
    ensures Demux(Program(calls), port) == Written(calls, port)
  {
    if calls != [] {
      assert calls[0] in calls;
      ProgramCarriesData(calls[1..], port);
      DemuxConcat(Script(calls[0]), Program(calls[1..]), port);
      ScriptCarriesData(calls[0], port);
    }
  }

  // ----- threads -----

  /** A message a thread is done with: who wrote it, what it was, how much of it got onto the wire. */
  datatype Entry = Entry(owner: nat, message: Message, sent: nat)

  /**
   `holder` has the semaphore and has written `sent` bytes of the first message it has left; `left[t]` is what
   thread t still has to write; `failed[t]` says that one of its transfers or waits went wrong.
   */
  datatype Bus = Bus(holder: Option<nat>, sent: nat, left: seq<seq<Message>>, failed: seq<bool>,
                     log: seq<Entry>, wire: seq<byte>)

  datatype Step =
    | Acquire(thread: nat)
    | Transfer(bytes: nat)
    | Release
    | ReleaseShort
    | Abort(drops: nat)
    | GiveUp(thread: nat, drops: nat)

  predicate Shaped(b: Bus) {
    && |b.left| == |b.failed|
    && (b.holder.Some? ==>
          b.holder.value < |b.left| && b.left[b.holder.value] != [] && b.sent <= |b.left[b.holder.value][0]|)
  }

  function Current(b: Bus): Message
    requires Shaped(b) && b.holder.Some?
  {
    b.left[b.holder.value][0]
  }

  /**
   The semaphore is given out only when free and a transfer moves something. A message is released when it is
   whole, except that a bulk write is also taken for finished when the one transfer of its data comes up short.
   */
  predicate Enabled(b: Bus, s: Step)
    requires Shaped(b)
  {
    match s
    case Acquire(t) => b.holder.None? && t < |b.left| && b.left[t] != []
    case Transfer(n) => b.holder.Some? && 0 < n <= |Current(b)| - b.sent
    case Release => b.holder.Some? && b.sent == |Current(b)|
    case ReleaseShort => b.holder.Some? && IsBulk(Current(b)) && BULK_HEAD < b.sent < |Current(b)|
    case Abort(drops) => b.holder.Some? && 0 < drops <= |b.left[b.holder.value]|
    case GiveUp(t, drops) => t < |b.left| && b.holder != Some(t) && drops <= |b.left[t]|
  }

  function Finish(b: Bus): Bus
    requires Shaped(b) && b.holder.Some?
  {
    var t := b.holder.value;
    b.(holder := None, sent := 0, left := b.left[t := b.left[t][1..]], log := b.log + [Entry(t, Current(b), b.sent)])
  }

  /** An aborted message stays on the wire as far as it got, and the rest of its call is not written. */
  function Next(b: Bus, s: Step): Bus
    requires Shaped(b) && Enabled(b, s)
  {
    match s
    case Acquire(t) => b.(holder := Some(t), sent := 0)
    case Transfer(n) => b.(sent := b.sent + n, wire := b.wire + Current(b)[b.sent..b.sent + n])
    case Release => Finish(b)
    case ReleaseShort => Finish(b)
    case Abort(drops) =>
      var t := b.holder.value;
      b.(holder := None, sent := 0, left := b.left[t := b.left[t][drops..]], failed := b.failed[t := true],
         log := b.log + [Entry(t, Current(b), b.sent)])
    case GiveUp(t, drops) => b.(left := b.left[t := b.left[t][drops..]], failed := b.failed[t := true])
  }

  ghost predicate Start(b: Bus, programs: seq<seq<Call>>) {
    && b.holder == None && b.sent == 0 && b.log == [] && b.wire == [] && |b.left| == |b.failed| == |programs|
    && forall t :: 0 <= t < |programs| ==> b.left[t] == Program(programs[t]) && !b.failed[t]
  }

  ghost predicate IsRun(states: seq<Bus>, steps: seq<Step>, programs: seq<seq<Call>>) {
    && |states| == |steps| + 1 && Start(states[0], programs)
    && forall k :: 0 <= k < |steps| ==>
         Shaped(states[k]) && Enabled(states[k], steps[k]) && states[k + 1] == Next(states[k], steps[k])
  }

  /** The messages one thread is done with. */
  function Of(log: seq<Entry>, t: nat): seq<Message> {
    if log == [] then []
    else Of(log[..|log| - 1], t) + (if log[|log| - 1].owner == t then [log[|log| - 1].message] else [])
  }

  function Messages(log: seq<Entry>): seq<Message> {
    if log == [] then [] else Messages(log[..|log| - 1]) + [log[|log| - 1].message]
  }

  /** What an entry left on the wire. */
  function Segment(e: Entry): seq<byte> {
    Cut(e.message, e.sent)
  }

  function Segments(log: seq<Entry>): seq<seq<byte>> {
    if log == [] then [] else Segments(log[..|log| - 1]) + [Segment(log[|log| - 1])]
  }

  /** What the message being written has on the wire so far. */
  function Underway(b: Bus): seq<seq<byte>>
    requires Shaped(b)
  {
    if b.holder.Some? then [Current(b)[..b.sent]] else []
  }

  /** The wire, cut where the semaphore changed hands. */
  function Pieces(b: Bus): seq<seq<byte>>
    requires Shaped(b)
  {
    Segments(b.log) + Underway(b)
  }

  /** The whole message got onto the wire; of a bulk write at least the head and a byte of its data. */
  predicate Finished(e: Entry) {
    e.sent == |e.message| || (IsBulk(e.message) && BULK_HEAD < e.sent)
  }

  /** A thread nothing went wrong for has written exactly the beginning of its program. */
  predicate OnTrack(b: Bus, t: nat, program: seq<Call>)
    requires Shaped(b) && t < |b.left|
  {
    !b.failed[t] ==> Of(b.log, t) + b.left[t] == Program(program)
  }

  ghost predicate Inv(b: Bus, programs: seq<seq<Call>>) {
    && Shaped(b) && |b.left| == |programs| && b.wire == Flatten(Pieces(b))
    && (forall t :: 0 <= t < |programs| ==> OnTrack(b, t, programs[t]))
    && (forall e :: e in b.log ==> e.owner < |programs| && e.sent <= |e.message| && (b.failed[e.owner] || Finished(e)))
  }

  lemma SegmentsSnoc(log: seq<Entry>, e: Entry)
    ensures Segments(log + [e]) == Segments(log) + [Segment(e)]
  {
    assert (log + [e])[..|log|] == log;
  }

  /** A transfer moves the next bytes of the message under way. */
  lemma TransferGrows(done: seq<seq<byte>>, m: Message, sent: nat, n: nat)
    requires sent + n <= |m|
    ensures Flatten(done + [m[..sent + n]]) == Flatten(done + [m[..sent]]) + m[sent..sent + n]
  {
    FlattenSnoc(done, m[..sent]);
    FlattenSnoc(done, m[..sent + n]);
    assert m[..sent + n] == m[..sent] + m[sent..sent + n];
  }

  lemma NextKeepsWire(b: Bus, s: Step)
    requires Shaped(b) && Enabled(b, s) && b.wire == Flatten(Pieces(b))
    ensures Shaped(Next(b, s)) && Next(b, s).wire == Flatten(Pieces(Next(b, s)))
  {
    match s
    case Acquire(_) =>
      assert Pieces(b) == Segments(b.log);
      FlattenSnoc(Segments(b.log), []);
    case Transfer(n) =>
      TransferGrows(Segments(b.log), Current(b), b.sent, n);
    case GiveUp(_, _) =>
      assert Underway(Next(b, s)) == Underway(b);
    case _ =>
      LetGoKeepsPieces(b, s);
  }

  /** Giving the semaphore back, however it comes about, turns the message under way into an entry of the log. */
  lemma LetGoKeepsPieces(b: Bus, s: Step)
    requires Shaped(b) && Enabled(b, s) && (s.Release? || s.ReleaseShort? || s.Abort?)
    ensures Shaped(Next(b, s)) && Pieces(Next(b, s)) == Pieces(b) && Next(b, s).wire == b.wire
  {
    var e := Entry(b.holder.value, Current(b), b.sent);
    assert Next(b, s).log == b.log + [e] && Segment(e) == Current(b)[..b.sent];
    SegmentsSnoc(b.log, e);
  }

  lemma NextKeepsTrack(b: Bus, s: Step, t: nat, program: seq<Call>)
    requires Shaped(b) && Enabled(b, s) && t < |b.left| && OnTrack(b, t, program)
    ensures Shaped(Next(b, s)) && OnTrack(Next(b, s), t, program)
  {
    var c := Next(b, s);
    if s.Release? || s.ReleaseShort? || s.Abort? {
      assert c.log[..|b.log|] == b.log;
      if !s.Abort? && b.holder.value == t {
        assert b.left[t] == [Current(b)] + b.left[t][1..];
        assert Of(c.log, t) + c.left[t] == Of(b.log, t) + ([Current(b)] + b.left[t][1..]);
      }
    }
  }

  lemma NextKeeps(b: Bus, s: Step, programs: seq<seq<Call>>)
    requires Inv(b, programs) && Enabled(b, s)
    ensures Inv(Next(b, s), programs)
  {
    NextKeepsWire(b, s);
    forall t | 0 <= t < |programs| ensures OnTrack(Next(b, s), t, programs[t]) {
      NextKeepsTrack(b, s, t, programs[t]);
    }
  }

  lemma {:induction false} RunKeeps(states: seq<Bus>, steps: seq<Step>, programs: seq<seq<Call>>, k: nat)
    requires IsRun(states, steps, programs) && k <= |steps|
    ensures Inv(states[k], programs)
  {
    if k > 0 {
      RunKeeps(states, steps, programs, k - 1);
      NextKeeps(states[k - 1], steps[k - 1], programs);
    }
  }

  // ----- whole messages -----

  /** The step that left a message incomplete on the wire. */
  predicate Cuts(b: Bus, s: Step, e: Entry)
    requires Shaped(b)
  {
    && b.holder == Some(e.owner) && Current(b) == e.message && b.sent == e.sent
    && ((s.ReleaseShort? && IsBulk(e.message) && BULK_HEAD < e.sent) || s.Abort?)
  }

  /** Every incomplete message goes back to the one step that ended it: a failure, or a short bulk transfer. */
  lemma {:induction false} CutMessageHasStep(states: seq<Bus>, steps: seq<Step>, programs: seq<seq<Call>>, k: nat,
                                             i: nat)
    returns (j: nat)
    requires IsRun(states, steps, programs) && k <= |steps|
    requires i < |states[k].log| && states[k].log[i].sent != |states[k].log[i].message|
    ensures j < k && |states[j].log| == i && Shaped(states[j]) && Cuts(states[j], steps[j], states[k].log[i])
  {
    assert k > 0;
    assert states[k] == Next(states[k - 1], steps[k - 1]);
    if i < |states[k - 1].log| {
      assert states[k].log[i] == states[k - 1].log[i];
      j := CutMessageHasStep(states, steps, programs, k - 1, i);
    } else {
      j := k - 1;
    }
  }

  predicate AllWhole(log: seq<Entry>) {
    forall i :: 0 <= i < |log| ==> log[i].sent == |log[i].message|
  }

  lemma {:induction false} WholeSegments(log: seq<Entry>)
    requires AllWhole(log)
    ensures Segments(log) == Messages(log)
  {
    if log != [] {
      var e := log[|log| - 1];
      WholeSegments(log[..|log| - 1]);
      assert Segment(e) == e.message;
    }
  }

  /** No transfer failed and no bulk transfer came up short among the first `k` steps. */
  predicate Smooth(steps: seq<Step>, k: nat) {
    k <= |steps| && forall j :: 0 <= j < k ==> !steps[j].Abort? && !steps[j].ReleaseShort?
  }

  /**
   In every interleaving the wire is what the messages left on it, in acquisition order and never mixed, then
   the beginning of the one being written. Without a failed or short transfer all of them are whole: the wire is
   their concatenation.
   */
  lemma WireIsWholeMessages(states: seq<Bus>, steps: seq<Step>, programs: seq<seq<Call>>, k: nat)
    requires IsRun(states, steps, programs) && k <= |steps|
    ensures Shaped(states[k]) && states[k].wire == Flatten(Segments(states[k].log) + Underway(states[k]))
    ensures Smooth(steps, k) ==>
              AllWhole(states[k].log) && states[k].wire == Flatten(Messages(states[k].log) + Underway(states[k]))
  {
    RunKeeps(states, steps, programs, k);
    if Smooth(steps, k) {
      forall i | 0 <= i < |states[k].log| ensures states[k].log[i].sent == |states[k].log[i].message| {
        if states[k].log[i].sent != |states[k].log[i].message| {
          var j := CutMessageHasStep(states, steps, programs, k, i);
          assert false;
        }
      }
      WholeSegments(states[k].log);
    }
  }

  // ----- what the channels get -----

  /** All messages, done or not, come from the programs, failed threads included. */
  ghost predicate FromPrograms(b: Bus, programs: seq<seq<Call>>) {
    && Shaped(b) && |b.left| == |programs|
    && (forall e :: e in b.log ==> e.owner < |programs| && e.message in Program(programs[e.owner]))
    && (forall u :: 0 <= u < |programs| ==> OnlyFrom(b.left[u], Program(programs[u])))
  }

  predicate OnlyFrom(ms: seq<Message>, all: seq<Message>) {
    forall m :: m in ms ==> m in all
  }

  lemma NextKeepsSource(b: Bus, s: Step, programs: seq<seq<Call>>)
    requires FromPrograms(b, programs) && Enabled(b, s)
    requires Shaped(Next(b, s))
    ensures FromPrograms(Next(b, s), programs)
  {
    var c := Next(b, s);
    forall u | 0 <= u < |programs| ensures OnlyFrom(c.left[u], Program(programs[u])) {
      assert OnlyFrom(b.left[u], Program(programs[u]));
    }
  }

  lemma {:induction false} RunFromPrograms(states: seq<Bus>, steps: seq<Step>, programs: seq<seq<Call>>, k: nat)
    requires IsRun(states, steps, programs) && k <= |steps|
    ensures FromPrograms(states[k], programs)
  {
    RunKeeps(states, steps, programs, k);
    if k > 0 {
      RunFromPrograms(states, steps, programs, k - 1);
      NextKeepsSource(states[k - 1], steps[k - 1], programs);
    }
  }

  /** A short bulk write carries nothing for any channel, and other messages of a thread on track are whole. */
  lemma SegmentCarries(e: Entry, port: Port)
    requires DistinctMagics() && Finished(e) && e.sent <= |e.message|
    requires port.BulkPort? ==> e.sent == |e.message|
    ensures Carried(Segment(e), port) == Carried(e.message, port)
  {
    if e.sent == |e.message| {
      assert Segment(e) == e.message;
    } else {
      SameWord(Segment(e), e.message, 0);
    }
  }

  /** The part of the log one thread left on the wire. */
  function SegmentsOf(log: seq<Entry>, t: nat): seq<seq<byte>> {
    if log == [] then []
    else SegmentsOf(log[..|log| - 1], t) + (if log[|log| - 1].owner == t then [Segment(log[|log| - 1])] else [])
  }

  ghost predicate AllFinished(log: seq<Entry>, t: nat) {
    forall e :: e in log && e.owner == t ==> e.sent <= |e.message| && Finished(e)
  }

  /** None of the thread's messages was cut; `CutMessageHasStep` says what would have had to happen. */
  ghost predicate Uncut(log: seq<Entry>, t: nat) {
    forall e :: e in log && e.owner == t ==> e.sent == |e.message|
  }

  lemma {:induction false} SegmentsCarryMessages(log: seq<Entry>, t: nat, port: Port)
    requires DistinctMagics() && AllFinished(log, t) && (port.BulkPort? ==> Uncut(log, t))
    ensures Demux(SegmentsOf(log, t), port) == Demux(Of(log, t), port)
  {
    if log != [] {
      var before, e := log[..|log| - 1], log[|log| - 1];
      SegmentsCarryMessages(before, t, port);
      if e.owner == t {
        SegmentCarries(e, port);
        DemuxConcat(Of(before, t), [e.message], port);
        DemuxConcat(SegmentsOf(before, t), [Segment(e)], port);
        DemuxOne(e.message, port);
        DemuxOne(Segment(e), port);
      } else {
        assert Of(before, t) + [] == Of(before, t) && SegmentsOf(before, t) + [] == SegmentsOf(before, t);
      }
    }
  }

  /**
   Whatever the other threads do, and whatever fails for them, what a thread nothing failed for has put on the
   wire parses to the beginning of what it wrote to each channel, and to all of it when the thread is done. Its
   messages are the beginning of its program, so those of each of its calls appear in order.
   */
  lemma ThreadStreamIsItsData(states: seq<Bus>, steps: seq<Step>, programs: seq<seq<Call>>, k: nat, t: nat,
                              port: Port)
    requires IsRun(states, steps, programs) && k <= |steps| && t < |programs|
    requires t < |states[k].failed| && !states[k].failed[t]
    requires DistinctMagics() && AllWellFormed(programs[t]) && (port.BulkPort? ==> Uncut(states[k].log, t))
    ensures Of(states[k].log, t) <= Program(programs[t])
    ensures Demux(SegmentsOf(states[k].log, t), port) <= Written(programs[t], port)
    ensures t < |states[k].left|
            && (states[k].left[t] == [] ==> Demux(SegmentsOf(states[k].log, t), port) == Written(programs[t], port))
  {
    RunKeeps(states, steps, programs, k);
    var b := states[k];
    assert OnTrack(b, t, programs[t]);
    SegmentsCarryMessages(b.log, t, port);
    DemuxConcat(Of(b.log, t), b.left[t], port);
    ProgramCarriesData(programs[t], port);
    if b.left[t] == [] {
      assert Of(b.log, t) + b.left[t] == Of(b.log, t);
    }
  }

  /** Nobody but `t` writes to the port. */
  predicate OnlyWriter(programs: seq<seq<Call>>, t: nat, port: Port) {
    forall u :: 0 <= u < |programs| && u != t ==> NeverWrites(programs[u], port)
  }

  predicate NeverWrites(calls: seq<Call>, port: Port) {
    forall c :: c in calls ==>
      !(c.AsyncWrite? && port == AsyncPort(c.chan)) && !(c.BulkWrite? && port == BulkPort(c.chan))
  }

  lemma {:induction false} FramesForOthers(chan: uint32, data: seq<byte>, m: Message, port: Port)
    requires DistinctMagics() && port != AsyncPort(chan) && m in Frames(chan, data)
    ensures !IsFor(m, port)
    decreases |data|
  {
    FramesSplit(chan, data);
    if m == Frame(chan, Cut(data, Room())) {
      FrameParses(chan, Cut(data, Room()), port);
    } else {
      FramesForOthers(chan, data[Min(|data|, Room())..], m, port);
    }
  }

  /** No message of a thread that never writes to a port reads as one for it. */
  lemma {:induction false} SilentProgram(calls: seq<Call>, m: Message, port: Port)
    requires DistinctMagics() && AllWellFormed(calls) && NeverWrites(calls, port) && m in Program(calls)
    ensures !IsFor(m, port)
  {
    var c := calls[0];
    assert c in calls;
    if m in Script(c) {
      match c
      case AsyncWrite(chan, data) => FramesForOthers(chan, data, m, port);
      case Exchange(request, extra) => RequestParses(request, extra, port);
      case BulkWrite(chan, data) => BulkCarriesData(chan, data, m, port);
    } else {
      SilentProgram(calls[1..], m, port);
    }
  }

  /** What other threads wrote, aborted messages included, is nothing to a channel only `t` writes to. */
  lemma {:induction false} DemuxOfOneOwner(log: seq<Entry>, t: nat, port: Port)
    requires forall e :: e in log && e.owner != t ==> !IsFor(e.message, port)
    ensures Demux(Segments(log), port) == Demux(SegmentsOf(log, t), port)
  {
    if log != [] {
      var before, e := log[..|log| - 1], log[|log| - 1];
      DemuxOfOneOwner(before, t, port);
      DemuxConcat(Segments(before), [Segment(e)], port);
      DemuxOne(Segment(e), port);
      if e.owner == t {
        DemuxConcat(SegmentsOf(before, t), [Segment(e)], port);
      } else {
        PartKeepsHead(e.message, Min(|e.message|, e.sent), port);
        assert SegmentsOf(before, t) + [] == SegmentsOf(before, t);
      }
    }
  }

  /** The message under way adds at most the beginning of what it will carry. */
  lemma UnderwayCarries(b: Bus, t: nat, port: Port)
    requires Shaped(b) && t < |b.left|
    requires b.holder.Some? && b.holder.value != t ==> !IsFor(Current(b), port)
    ensures Demux(Underway(b), port) <= Demux(b.left[t], port)
  {
    if b.holder.Some? {
      DemuxOne(Current(b)[..b.sent], port);
      PartKeepsHead(Current(b), b.sent, port);
      if b.holder.value == t {
        var left := b.left[t];
        assert left == [left[0]] + left[1..];
        DemuxConcat([left[0]], left[1..], port);
        DemuxOne(left[0], port);
      }
    }
  }

  lemma OthersAreSilent(states: seq<Bus>, steps: seq<Step>, programs: seq<seq<Call>>, k: nat, t: nat, port: Port)
    requires IsRun(states, steps, programs) && k <= |steps| && OnlyWriter(programs, t, port)
    requires DistinctMagics() && forall u :: 0 <= u < |programs| ==> AllWellFormed(programs[u])
    ensures Shaped(states[k])
    ensures forall e :: e in states[k].log && e.owner != t ==> !IsFor(e.message, port)
    ensures states[k].holder.Some? && states[k].holder.value != t ==> !IsFor(Current(states[k]), port)
  {
    var b := states[k];
    RunFromPrograms(states, steps, programs, k);
    forall e | e in b.log && e.owner != t ensures !IsFor(e.message, port) {
      SilentProgram(programs[e.owner], e.message, port);
    }
    if b.holder.Some? && b.holder.value != t {
      assert OnlyFrom(b.left[b.holder.value], Program(programs[b.holder.value]));
      SilentProgram(programs[b.holder.value], Current(b), port);
    }
  }

  /**
   With one writer per channel, the whole wire, cut where the semaphore changed hands and parsed, gives at every
   moment the beginning of the data written to the channel, and all of it when the writer is done. It does so
   although other threads may have aborted in the middle of their messages or be in the middle of one.
   */
  lemma SingleWriterStream(states: seq<Bus>, steps: seq<Step>, programs: seq<seq<Call>>, k: nat, t: nat, port: Port)
    requires IsRun(states, steps, programs) && k <= |steps| && t < |programs| && OnlyWriter(programs, t, port)
    requires t < |states[k].failed| && !states[k].failed[t]
    requires port.BulkPort? ==> Uncut(states[k].log, t)
    requires DistinctMagics() && forall u :: 0 <= u < |programs| ==> AllWellFormed(programs[u])
    ensures Shaped(states[k]) && states[k].wire == Flatten(Pieces(states[k]))
    ensures Demux(Pieces(states[k]), port) <= Written(programs[t], port)
    ensures t < |states[k].left|
            && (states[k].left[t] == [] ==> Demux(Pieces(states[k]), port) == Written(programs[t], port))
  {
    var b := states[k];
    RunKeeps(states, steps, programs, k);
    OthersAreSilent(states, steps, programs, k, t, port);
    DemuxConcat(Segments(b.log), Underway(b), port);
    DemuxOfOneOwner(b.log, t, port);
    SegmentsCarryMessages(b.log, t, port);
    UnderwayCarries(b, t, port);
    assert OnTrack(b, t, programs[t]);
    DemuxConcat(Of(b.log, t), b.left[t], port);
    ProgramCarriesData(programs[t], port);
  }
}
