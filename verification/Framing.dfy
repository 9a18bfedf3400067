/**
 How the PSP cuts the byte stream into packets (apps/psp/src/main.c, the receive half of the loop): the stream may
 come in chunks cut anywhere, in the middle of a packet or across several. Exactly when every header is there in
 one piece and no payload stalls, the packets that come out are the packets that went in.
 */
module Framing {
  import opened Bytes
  import opened Options
  import opened Protocol
  import opened PspReceiver
  import opened Transport

  // ----- a stream in chunks -----

  function Join(chunks: seq<seq<byte>>): seq<byte> {
    if chunks == [] then [] else chunks[0] + Join(chunks[1..])
  }

  function Polls(chunks: seq<seq<byte>>): (ps: seq<Poll>)
    ensures |ps| == |chunks|
  {
    if chunks == [] then [] else [Data(chunks[0])] + Polls(chunks[1..])
  }

  /** What is left of the chunks when the first `n` bytes have been received. */
  function Skip(chunks: seq<seq<byte>>, n: nat): seq<seq<byte>> {
    if n == 0 || chunks == [] then chunks
    else if |chunks[0]| <= n then Skip(chunks[1..], n - |chunks[0]|)
    else [chunks[0][n..]] + chunks[1..]
  }

  /** How many polls bring nothing until `n` bytes have been received. */
  function Empties(chunks: seq<seq<byte>>, n: nat): nat {
    if n == 0 || chunks == [] then 0
    else if |chunks[0]| <= n then (if chunks[0] == [] then 1 else 0) + Empties(chunks[1..], n - |chunks[0]|)
    else 0
  }

  /** How many polls bring nothing before there is something. */
  function Idles(chunks: seq<seq<byte>>): (k: nat)
    ensures k <= |chunks|
  {
    if chunks == [] || chunks[0] != [] then 0 else 1 + Idles(chunks[1..])
  }

  /** The chunks from the first that is not empty on. */
  function Awake(chunks: seq<seq<byte>>): seq<seq<byte>> {
    if chunks == [] || chunks[0] != [] then chunks else Awake(chunks[1..])
  }

  lemma {:induction false} SkipJoins(chunks: seq<seq<byte>>, n: nat)
    requires n <= |Join(chunks)|
    ensures Join(Skip(chunks, n)) == Join(chunks)[n..]
  {
    if n > 0 {
      var first, tail := chunks[0], chunks[1..];
      if |first| <= n {
        SkipJoins(tail, n - |first|);
      } else {
        assert ([first[n..]] + tail)[1..] == tail;
        assert (first + Join(tail))[n..] == first[n..] + Join(tail);
      }
    }
  }

  lemma {:induction false} AwakeJoins(chunks: seq<seq<byte>>)
    ensures Join(Awake(chunks)) == Join(chunks)
  {
    if chunks != [] && chunks[0] == [] {
      AwakeJoins(chunks[1..]);
    }
  }

  lemma PollsSplit(chunks: seq<seq<byte>>, rest: seq<Poll>)
    requires chunks != []
    ensures Polls(chunks) + rest == [Data(chunks[0])] + (Polls(chunks[1..]) + rest)
  {
  }

  lemma ReceiveFront(first: seq<byte>, later: seq<Poll>, size: nat)
    requires size <= |first|
    ensures Receive([Data(first)] + later, size)
            == Received(true, first[..size], if |first| == size then later else [Data(first[size..])] + later)
  {
    var polls := [Data(first)] + later;
    assert polls[0] == Data(first) && polls[1..] == later;
    assert first[..|first|] == first;
  }

  /** A receive within the first chunk takes its bytes from the front of it. */
  lemma ReceiveFromFirst(chunks: seq<seq<byte>>, rest: seq<Poll>, size: nat)
    requires chunks != [] && 0 < size <= |chunks[0]|
    ensures Receive(Polls(chunks) + rest, size) == Received(true, chunks[0][..size], Polls(Skip(chunks, size)) + rest)
  {
    var first, tail := chunks[0], chunks[1..];
    PollsSplit(chunks, rest);
    ReceiveFront(first, Polls(tail) + rest, size);
    if |first| == size {
      assert Skip(chunks, size) == Skip(tail, 0) == tail;
    } else {
      var left := [first[size..]] + tail;
      assert Skip(chunks, size) == left && left[1..] == tail;
      PollsSplit(left, rest);
    }
  }

  // ----- one packet -----

  /**
   A payload cut in any way is received whole, and nothing behind it, if and only if fewer than 100 of its polls
   are empty; `got` came in before, with `empty` such polls.
   */
  lemma {:induction false} CollectChunks(chunks: seq<seq<byte>>, rest: seq<Poll>, need: nat, empty: nat, got: seq<byte>)
    requires |got| <= need <= |got| + |Join(chunks)| && empty < MAX_EMPTY_POLLS
    ensures var more := need - |got|;
            var c := Collect(Polls(chunks) + rest, need, empty, got);
            if empty + Empties(chunks, more) < MAX_EMPTY_POLLS then
              c == Collected(Some(got + Join(chunks)[..more]), Polls(Skip(chunks, more)) + rest)
            else c.body == None
    decreases |chunks|
  {
    var more := need - |got|;
    if more == 0 {
      assert got + Join(chunks)[..0] == got;
    } else {
      var first, tail := chunks[0], chunks[1..];
      if |first| > more {
        CollectLast(chunks, rest, need, empty, got);
      } else {
        CollectFirst(chunks, rest, need, empty, got);
        assert (got + first) + Join(tail)[..more - |first|] == got + Join(chunks)[..more];
        if first != [] || empty + 1 < MAX_EMPTY_POLLS {
          CollectChunks(tail, rest, need, if first == [] then empty + 1 else empty, got + first);
        }
      }
    }
  }

  /** A poll that brings no more than is still needed. */
  lemma CollectFirst(chunks: seq<seq<byte>>, rest: seq<Poll>, need: nat, empty: nat, got: seq<byte>)
    requires |got| < need && chunks != [] && |chunks[0]| <= need - |got| && empty < MAX_EMPTY_POLLS
    ensures Collect(Polls(chunks) + rest, need, empty, got)
            == Collect(Polls(chunks[1..]) + rest, need, if chunks[0] == [] then empty + 1 else empty, got + chunks[0])
  {
    var polls := Polls(chunks) + rest;
    PollsSplit(chunks, rest);
    assert polls[0] == Data(chunks[0]) && polls[1..] == Polls(chunks[1..]) + rest;
    assert Receive(polls, need - |got|) == Received(true, chunks[0], polls[1..]);
  }

  /** The last poll of a payload brings more than is still needed. */
  lemma CollectLast(chunks: seq<seq<byte>>, rest: seq<Poll>, need: nat, empty: nat, got: seq<byte>)
    requires |got| < need && chunks != [] && |chunks[0]| > need - |got| && empty < MAX_EMPTY_POLLS
    ensures var more := need - |got|;
            && Empties(chunks, more) == 0 && |Join(chunks)| >= more
            && Collect(Polls(chunks) + rest, need, empty, got)
               == Collected(Some(got + Join(chunks)[..more]), Polls(Skip(chunks, more)) + rest)
  {
    var more := need - |got|;
    ReceiveFromFirst(chunks, rest, more);
    assert Join(chunks)[..more] == chunks[0][..more];
  }

  datatype Parcel = Parcel(header: Header, body: seq<byte>)

  /** A packet as the protocol allows it. */
  predicate Proper(p: Parcel) {
    p.header.magic == MAGIC && |p.body| == p.header.payloadSize <= MAX_PAYLOAD
  }

  function Encoding(p: Parcel): (s: seq<byte>)
    ensures |s| == HEADER_SIZE + |p.body|
  {
    HeaderBytes(p.header) + p.body
  }

  /** The header is there in one piece when the receiver gets to it. */
  predicate HeaderWhole(chunks: seq<seq<byte>>) {
    Awake(chunks) != [] && |Awake(chunks)[0]| >= HEADER_SIZE
  }

  /** Polls that bring nothing between the header of a packet and the end of its `size` bytes of payload. */
  function Stalls(chunks: seq<seq<byte>>, size: nat): nat {
    Empties(Skip(Awake(chunks), HEADER_SIZE), size)
  }

  /** What is left behind a packet. */
  function Beyond(chunks: seq<seq<byte>>, size: nat): seq<seq<byte>> {
    Skip(Skip(Awake(chunks), HEADER_SIZE), size)
  }

  lemma PacketTakenOff(chunks: seq<seq<byte>>, p: Parcel, more: seq<byte>)
    requires Join(chunks) == Encoding(p) + more && HeaderWhole(chunks)
    ensures Awake(chunks)[0][..HEADER_SIZE] == HeaderBytes(p.header)
    ensures Join(Skip(Awake(chunks), HEADER_SIZE)) == p.body + more
    ensures Join(Beyond(chunks, |p.body|)) == more
  {
    var awake := Awake(chunks);
    AwakeJoins(chunks);
    assert Join(awake)[..HEADER_SIZE] == awake[0][..HEADER_SIZE];
    SkipJoins(awake, HEADER_SIZE);
    assert (Encoding(p) + more)[HEADER_SIZE..] == p.body + more;
    SkipJoins(Skip(awake, HEADER_SIZE), |p.body|);
    assert (p.body + more)[|p.body|..] == more;
  }

  /** Behind a whole header of ours the receiver collects the payload it announces. */
  lemma HeaderRead(polls: seq<Poll>, h: Header, rest: seq<Poll>)
    requires h.magic == MAGIC && h.payloadSize <= MAX_PAYLOAD
    requires Receive(polls, HEADER_SIZE) == Received(true, HeaderBytes(h), rest)
    ensures var c := Collect(rest, h.payloadSize, 0, []);
            NextFrame(polls) == Reading(Packet(h, c.body), c.rest)
  {
    HeaderRoundTrip(h);
  }

  /** The packet that comes next comes through. */
  predicate ComesThrough(chunks: seq<seq<byte>>, size: nat) {
    HeaderWhole(chunks) && Stalls(chunks, size) < MAX_EMPTY_POLLS
  }

  /**
   Awake, the receiver hands on exactly the packet that comes next, and leaves exactly what is behind it, if and
   only if the header is there in one piece and fewer than 100 polls of the payload are empty. Of a split header
   the first piece is dropped; a payload that stalls is given up.
   */
  lemma PacketReceived(chunks: seq<seq<byte>>, rest: seq<Poll>, p: Parcel, more: seq<byte>)
    requires Proper(p) && Join(chunks) == Encoding(p) + more
    ensures var n := NextFrame(Polls(Awake(chunks)) + rest);
            && (n.frame == Packet(p.header, Some(p.body)) <==> ComesThrough(chunks, |p.body|))
            && (ComesThrough(chunks, |p.body|) ==> n.rest == Polls(Beyond(chunks, |p.body|)) + rest)
            && (HeaderWhole(chunks) && !ComesThrough(chunks, |p.body|) ==> n.frame == Packet(p.header, None))
            && (!HeaderWhole(chunks) ==>
                  Awake(chunks) != [] && n == Reading(Silence, Polls(Awake(chunks)[1..]) + rest))
  {
    if HeaderWhole(chunks) {
      WholeHeader(chunks, rest, p, more);
    } else {
      SplitHeader(chunks, rest);
    }
  }

  lemma WholeHeader(chunks: seq<seq<byte>>, rest: seq<Poll>, p: Parcel, more: seq<byte>)
    requires Proper(p) && Join(chunks) == Encoding(p) + more && HeaderWhole(chunks)
    ensures var n := NextFrame(Polls(Awake(chunks)) + rest);
            if Stalls(chunks, |p.body|) < MAX_EMPTY_POLLS then
              n == Reading(Packet(p.header, Some(p.body)), Polls(Beyond(chunks, |p.body|)) + rest)
            else n.frame == Packet(p.header, None)
  {
    PacketTakenOff(chunks, p, more);
    ReceiveFromFirst(Awake(chunks), rest, HEADER_SIZE);
    HeaderRead(Polls(Awake(chunks)) + rest, p.header, Polls(Skip(Awake(chunks), HEADER_SIZE)) + rest);
    CollectChunks(Skip(Awake(chunks), HEADER_SIZE), rest, |p.body|, 0, []);
    assert [] + (p.body + more)[..|p.body|] == p.body;
  }

  /** A first piece of a header is received, found too short, and gone. */
  lemma SplitHeader(chunks: seq<seq<byte>>, rest: seq<Poll>)
    requires Join(chunks) != [] && !HeaderWhole(chunks)
    ensures Awake(chunks) != []
    ensures NextFrame(Polls(Awake(chunks)) + rest) == Reading(Silence, Polls(Awake(chunks)[1..]) + rest)
  {
    AwakeJoins(chunks);
    var awake := Awake(chunks);
    PollsSplit(awake, rest);
    ReceiveWhole(awake[0], Polls(awake[1..]) + rest, HEADER_SIZE);
  }

  lemma ReceiveWhole(first: seq<byte>, later: seq<Poll>, size: nat)
    requires |first| <= size
    ensures Receive([Data(first)] + later, size) == Received(true, first, later)
  {
    var polls := [Data(first)] + later;
    assert polls[0] == Data(first) && polls[1..] == later;
  }

  // ----- a stream of packets -----

  function Stream(ps: seq<Parcel>): seq<byte> {
    if ps == [] then [] else Encoding(ps[0]) + Stream(ps[1..])
  }

  /**
   The condition on the chunks: every header is there in one piece, and fewer than 100 polls of every payload
   bring nothing. Where packets end and chunks end has nothing to do with each other.
   */
  predicate Delivers(chunks: seq<seq<byte>>, ps: seq<Parcel>)
    decreases |ps|
  {
    ps == []
    || (ComesThrough(chunks, |ps[0].body|) && Delivers(Beyond(chunks, |ps[0].body|), ps[1..]))
  }

  /** Loop iterations until the last packet is in. */
  function Iterations(chunks: seq<seq<byte>>, ps: seq<Parcel>): nat
    decreases |ps|
  {
    if ps == [] then 0 else Idles(chunks) + (Iterations(Beyond(chunks, |ps[0].body|), ps[1..]) + 1)
  }

  /** What is left when the last packet is in. */
  function Leftover(chunks: seq<seq<byte>>, ps: seq<Parcel>): seq<seq<byte>>
    decreases |ps|
  {
    if ps == [] then chunks else Leftover(Beyond(chunks, |ps[0].body|), ps[1..])
  }

  /** The chunks begin, after a pause, with the packet, and it comes through. */
  ghost predicate Brings(chunks: seq<seq<byte>>, p: Parcel, more: seq<byte>) {
    Proper(p) && Join(chunks) == Encoding(p) + more && ComesThrough(chunks, |p.body|)
  }

  /** The half of a loop iteration that receives. */
  type Receiver = seq<Poll> -> Reading

  function HandedOn(f: Frame): seq<Parcel> {
    if f.Packet? && f.body.Some? then [Parcel(f.header, f.body.value)] else []
  }

  /** The packets a receiver hands on in `n` iterations. */
  function Processed(receiver: Receiver, polls: seq<Poll>, n: nat): seq<Parcel>
    decreases n
  {
    if n == 0 then [] else HandedOn(receiver(polls).frame) + Processed(receiver, receiver(polls).rest, n - 1)
  }

  /** A receiver that passes over polls that bring nothing. */
  ghost predicate PassesOver(receiver: Receiver) {
    forall chunks: seq<seq<byte>> {:trigger receiver(Polls(chunks))} :: chunks != [] && chunks[0] == [] ==>
      receiver(Polls(chunks)) == Reading(Silence, Polls(chunks[1..]))
  }

  /** A receiver that takes exactly the next packet off the stream. */
  ghost predicate TakesOff(receiver: Receiver) {
    forall chunks, p, more {:trigger Brings(chunks, p, more)} ::
      Brings(chunks, p, more) ==> HandsOn(receiver, chunks, p)
  }

  ghost predicate HandsOn(receiver: Receiver, chunks: seq<seq<byte>>, p: Parcel) {
    receiver(Polls(Awake(chunks))) == Reading(Packet(p.header, Some(p.body)), Polls(Beyond(chunks, |p.body|)))
  }

  lemma IdlePoll(chunks: seq<seq<byte>>)
    requires chunks != [] && chunks[0] == []
    ensures NextFrame(Polls(chunks)) == Reading(Silence, Polls(chunks[1..]))
  {
    assert Polls(chunks)[0] == Data([]) && Polls(chunks)[1..] == Polls(chunks[1..]);
  }

  /** `PacketReceived` when nothing follows the chunks. */
  lemma FrameOfPacket(chunks: seq<seq<byte>>, p: Parcel, more: seq<byte>)
    requires Brings(chunks, p, more)
    ensures HandsOn(NextFrame, chunks, p)
  {
    PacketReceived(chunks, [], p, more);
    NothingBehind(Polls(Awake(chunks)));
    NothingBehind(Polls(Beyond(chunks, |p.body|)));
  }

  lemma NothingBehind(polls: seq<Poll>)
    ensures polls + [] == polls
  {
  }

  lemma ProcessedStep(receiver: Receiver, polls: seq<Poll>, n: nat, r: Reading)
    requires receiver(polls) == r
    ensures Processed(receiver, polls, n + 1) == HandedOn(r.frame) + Processed(receiver, r.rest, n)
  {
  }

  lemma {:induction false} ProcessedAfterIdle(receiver: Receiver, chunks: seq<seq<byte>>, n: nat)
    requires PassesOver(receiver)
    ensures Processed(receiver, Polls(chunks), Idles(chunks) + n) == Processed(receiver, Polls(Awake(chunks)), n)
  {
    if chunks != [] && chunks[0] == [] {
      var r := Reading(Silence, Polls(chunks[1..]));
      assert receiver(Polls(chunks)) == r;
      ProcessedStep(receiver, Polls(chunks), Idles(chunks[1..]) + n, r);
      ProcessedAfterIdle(receiver, chunks[1..], n);
    }
  }

  /** One packet handed on, then whatever comes of the rest. */
  lemma PacketProcessed(receiver: Receiver, chunks: seq<seq<byte>>, p: Parcel, later: seq<Parcel>, n: nat, all: nat)
    requires PassesOver(receiver) && HandsOn(receiver, chunks, p)
    requires Processed(receiver, Polls(Beyond(chunks, |p.body|)), n) == later && all == Idles(chunks) + (n + 1)
    ensures Processed(receiver, Polls(chunks), all) == [p] + later
  {
    var r := Reading(Packet(p.header, Some(p.body)), Polls(Beyond(chunks, |p.body|)));
    ProcessedAfterIdle(receiver, chunks, n + 1);
    ProcessedStep(receiver, Polls(Awake(chunks)), n, r);
  }

  lemma {:induction false} PacketsProcessed(receiver: Receiver, chunks: seq<seq<byte>>, ps: seq<Parcel>)
    requires PassesOver(receiver) && TakesOff(receiver)
    requires Join(chunks) == Stream(ps) && Delivers(chunks, ps) && forall p :: p in ps ==> Proper(p)
    ensures Processed(receiver, Polls(chunks), Iterations(chunks, ps)) == ps
    decreases |ps|
  {
    if ps != [] {
      assert ps[0] in ps && Brings(chunks, ps[0], Stream(ps[1..]));
      PacketTakenOff(chunks, ps[0], Stream(ps[1..]));
      var behind := Beyond(chunks, |ps[0].body|);
      PacketsProcessed(receiver, behind, ps[1..]);
      PacketProcessed(receiver, chunks, ps[0], ps[1..], Iterations(behind, ps[1..]), Iterations(chunks, ps));
      assert ps == [ps[0]] + ps[1..];
    }
  }

  /** Behind the last packet nothing is left. */
  lemma {:induction false} StreamConsumed(chunks: seq<seq<byte>>, ps: seq<Parcel>)
    requires Join(chunks) == Stream(ps) && Delivers(chunks, ps)
    ensures Join(Leftover(chunks, ps)) == []
    decreases |ps|
  {
    if ps != [] {
      PacketTakenOff(chunks, ps[0], Stream(ps[1..]));
      StreamConsumed(Beyond(chunks, |ps[0].body|), ps[1..]);
    }
  }

  // ----- bytes are conserved -----

  /** The bytes still to come. */
  function Total(polls: seq<Poll>): nat {
    if polls == [] then 0 else (if polls[0].Data? then |polls[0].bytes| else 0) + Total(polls[1..])
  }

  lemma {:induction false} TotalOfPolls(chunks: seq<seq<byte>>)
    ensures Total(Polls(chunks)) == |Join(chunks)|
  {
    if chunks != [] {
      TotalOfPolls(chunks[1..]);
      assert Polls(chunks)[1..] == Polls(chunks[1..]);
    }
  }

  lemma ReceiveConserves(polls: seq<Poll>, size: nat)
    ensures var r := Receive(polls, size);
            Total(r.rest) + |r.bytes| == Total(polls)
  {
    if polls != [] && polls[0].Data? && |polls[0].bytes| > size {
      var left := [Data(polls[0].bytes[size..])] + polls[1..];
      assert left[1..] == polls[1..];
    }
  }

  lemma {:induction false} CollectConserves(polls: seq<Poll>, need: nat, empty: nat, got: seq<byte>)
    requires |got| <= need && empty <= MAX_EMPTY_POLLS
    ensures var c := Collect(polls, need, empty, got);
            Total(c.rest) + (if c.body.Some? then need - |got| else 0) <= Total(polls)
    decreases (need - |got|) + (MAX_EMPTY_POLLS - empty)
  {
    if |got| < need && empty < MAX_EMPTY_POLLS {
      var r := Receive(polls, need - |got|);
      ReceiveConserves(polls, need - |got|);
      if r.ok {
        CollectConserves(r.rest, need, if r.bytes == [] then empty + 1 else empty, got + r.bytes);
      }
    }
  }

  /** What an iteration leaves is at most what it got, less what it received as a header, less what it handed on. */
  lemma FrameConserves(polls: seq<Poll>)
    ensures var n := NextFrame(polls);
            && Total(n.rest) + |Receive(polls, HEADER_SIZE).bytes| <= Total(polls)
            && (n.frame.Packet? && n.frame.body.Some? ==>
                  Total(n.rest) + HEADER_SIZE + |n.frame.body.value| <= Total(polls))
  {
    var r := Receive(polls, HEADER_SIZE);
    ReceiveConserves(polls, HEADER_SIZE);
    if r.ok && |r.bytes| >= HEADER_SIZE && ParseHeader(r.bytes).payloadSize <= MAX_PAYLOAD {
      CollectConserves(r.rest, ParseHeader(r.bytes).payloadSize, 0, []);
    }
  }

  /** A receiver that hands on no byte twice. */
  ghost predicate Conserves(receiver: Receiver) {
    forall polls {:trigger Total(receiver(polls).rest)} ::
      Total(receiver(polls).rest) + |Stream(HandedOn(receiver(polls).frame))| <= Total(polls)
  }

  /** The chunks begin, without a pause, with a packet that does not come through. */
  ghost predicate Breaks(chunks: seq<seq<byte>>, p: Parcel, more: seq<byte>) {
    && Proper(p) && Join(chunks) == Encoding(p) + more && !ComesThrough(chunks, |p.body|)
    && chunks != [] && chunks[0] != []
  }

  /** A receiver for which the bytes of a packet that does not come through are lost. */
  ghost predicate Loses(receiver: Receiver) {
    forall chunks, p, more {:trigger Breaks(chunks, p, more)} ::
      Breaks(chunks, p, more) ==> LosesNow(receiver, chunks)
  }

  ghost predicate LosesNow(receiver: Receiver, chunks: seq<seq<byte>>) {
    HandedOn(receiver(Polls(chunks)).frame) == [] && Total(receiver(Polls(chunks)).rest) < |Join(chunks)|
  }

  lemma {:induction false} ProcessedFits(receiver: Receiver, polls: seq<Poll>, n: nat)
    requires Conserves(receiver)
    ensures |Stream(Processed(receiver, polls, n))| <= Total(polls)
    decreases n
  {
    if n > 0 {
      var r := receiver(polls);
      ProcessedFits(receiver, r.rest, n - 1);
      OneInFront(HandedOn(r.frame), Processed(receiver, r.rest, n - 1));
      ProcessedStep(receiver, polls, n - 1, r);
    }
  }

  lemma OneInFront(first: seq<Parcel>, later: seq<Parcel>)
    requires |first| <= 1
    ensures |Stream(first + later)| == |Stream(first)| + |Stream(later)|
  {
    if first == [] {
      assert first + later == later;
    } else {
      assert first[1..] == [] && (first + later)[1..] == later;
    }
  }

  /** A poll that brings nothing changes nothing about what follows. */
  lemma DeliversAfterIdle(chunks: seq<seq<byte>>, ps: seq<Parcel>)
    requires chunks != [] && chunks[0] == []
    ensures Delivers(chunks, ps) == Delivers(chunks[1..], ps)
  {
  }

  /** A receiver that does all this. */
  ghost predicate Exact(receiver: Receiver) {
    PassesOver(receiver) && TakesOff(receiver) && Conserves(receiver) && Loses(receiver)
  }

  /** The packets of a stream are handed on in full within `n` iterations. */
  ghost predicate HandedOnWithin(receiver: Receiver, chunks: seq<seq<byte>>, ps: seq<Parcel>, n: nat) {
    && Join(chunks) == Stream(ps) && (forall p :: p in ps ==> Proper(p))
    && Processed(receiver, Polls(chunks), n) == ps
  }

  /** What was handed on in full can only have come through: lost bytes never come back. */
  lemma {:induction false} ProcessedDelivers(receiver: Receiver, chunks: seq<seq<byte>>, ps: seq<Parcel>, n: nat)
    requires Exact(receiver) && HandedOnWithin(receiver, chunks, ps, n)
    ensures Delivers(chunks, ps)
    decreases n
  {
    if ps != [] {
      NextHandedOn(receiver, chunks, ps, n);
      if chunks[0] == [] {
        ProcessedDelivers(receiver, chunks[1..], ps, n - 1);
        DeliversAfterIdle(chunks, ps);
      } else {
        ProcessedDelivers(receiver, Beyond(chunks, |ps[0].body|), ps[1..], n - 1);
      }
    }
  }

  /** After an iteration the rest is handed on in full. */
  lemma NextHandedOn(receiver: Receiver, chunks: seq<seq<byte>>, ps: seq<Parcel>, n: nat)
    requires Exact(receiver) && ps != [] && HandedOnWithin(receiver, chunks, ps, n)
    ensures n > 0 && chunks != []
    ensures if chunks[0] == [] then HandedOnWithin(receiver, chunks[1..], ps, n - 1)
            else ComesThrough(chunks, |ps[0].body|)
                 && HandedOnWithin(receiver, Beyond(chunks, |ps[0].body|), ps[1..], n - 1)
  {
    assert ps[0] in ps;
    if chunks[0] == [] {
      IdleFirst(receiver, chunks, n);
    } else {
      FirstComesThrough(receiver, chunks, ps, n);
    }
  }

  lemma IdleFirst(receiver: Receiver, chunks: seq<seq<byte>>, n: nat)
    requires PassesOver(receiver) && n > 0 && chunks != [] && chunks[0] == []
    ensures Processed(receiver, Polls(chunks[1..]), n - 1) == Processed(receiver, Polls(chunks), n)
  {
    var r := Reading(Silence, Polls(chunks[1..]));
    assert receiver(Polls(chunks)) == r;
    ProcessedStep(receiver, Polls(chunks), n - 1, r);
    assert [] + Processed(receiver, r.rest, n - 1) == Processed(receiver, r.rest, n - 1);
  }

  /** The first packet of a stream that is handed on in full comes through, and the rest is handed on in full. */
  lemma FirstComesThrough(receiver: Receiver, chunks: seq<seq<byte>>, ps: seq<Parcel>, n: nat)
    requires TakesOff(receiver) && Conserves(receiver) && Loses(receiver)
    requires ps != [] && chunks != [] && chunks[0] != [] && n > 0
    requires Join(chunks) == Stream(ps) && Proper(ps[0])
    requires Processed(receiver, Polls(chunks), n) == ps
    ensures ComesThrough(chunks, |ps[0].body|)
    ensures var behind := Beyond(chunks, |ps[0].body|);
            Join(behind) == Stream(ps[1..]) && Processed(receiver, Polls(behind), n - 1) == ps[1..]
  {
    var p, more := ps[0], Stream(ps[1..]);
    if !ComesThrough(chunks, |p.body|) {
      assert Breaks(chunks, p, more);
      TooFewLeft(receiver, chunks, n);
    }
    assert Brings(chunks, p, more) && Awake(chunks) == chunks;
    PacketTakenOff(chunks, p, more);
    var r := Reading(Packet(p.header, Some(p.body)), Polls(Beyond(chunks, |p.body|)));
    ProcessedStep(receiver, Polls(chunks), n - 1, r);
    TakenFromFront(Processed(receiver, r.rest, n - 1), p, ps);
  }

  /** After a loss what is handed on falls short of what was sent. */
  lemma TooFewLeft(receiver: Receiver, chunks: seq<seq<byte>>, n: nat)
    requires Conserves(receiver) && LosesNow(receiver, chunks) && n > 0
    ensures |Stream(Processed(receiver, Polls(chunks), n))| < |Join(chunks)|
  {
    var r := receiver(Polls(chunks));
    ProcessedStep(receiver, Polls(chunks), n - 1, r);
    ProcessedFits(receiver, r.rest, n - 1);
    assert [] + Processed(receiver, r.rest, n - 1) == Processed(receiver, r.rest, n - 1);
  }

  lemma TakenFromFront(later: seq<Parcel>, p: Parcel, ps: seq<Parcel>)
    requires [p] + later == ps
    ensures later == ps[1..]
  {
  }

  // ----- the loop -----

  lemma LoopReceives()
    ensures PassesOver(NextFrame) && TakesOff(NextFrame)
  {
    forall chunks: seq<seq<byte>> | chunks != [] && chunks[0] == []
      ensures NextFrame(Polls(chunks)) == Reading(Silence, Polls(chunks[1..]))
    {
      IdlePoll(chunks);
    }
    forall chunks, p, more | Brings(chunks, p, more)
      ensures HandsOn(NextFrame, chunks, p)
    {
      FrameOfPacket(chunks, p, more);
    }
  }

  /** The PSP's loop is such a receiver. */
  lemma LoopIsExact()
    ensures Exact(NextFrame)
  {
    LoopReceives();
    forall polls
      ensures Total(NextFrame(polls).rest) + |Stream(HandedOn(NextFrame(polls).frame))| <= Total(polls)
    {
      FrameConserves(polls);
      HandedOnSize(NextFrame(polls).frame);
    }
    forall chunks, p, more | Breaks(chunks, p, more)
      ensures LosesNow(NextFrame, chunks)
    {
      BrokenPacketIsLost(chunks, p, more);
    }
  }

  lemma HandedOnSize(f: Frame)
    ensures |Stream(HandedOn(f))| == if f.Packet? && f.body.Some? then HEADER_SIZE + |f.body.value| else 0
  {
    if f.Packet? && f.body.Some? {
      assert HandedOn(f)[1..] == [];
    }
  }

  lemma BrokenPacketIsLost(chunks: seq<seq<byte>>, p: Parcel, more: seq<byte>)
    requires Breaks(chunks, p, more)
    ensures LosesNow(NextFrame, chunks)
  {
    PacketReceived(chunks, [], p, more);
    NothingBehind(Polls(chunks));
    FrameConserves(Polls(chunks));
    TotalOfPolls(chunks);
    assert Polls(chunks)[0] == Data(chunks[0]);
  }

  /**
   Framing: however the stream is cut, the loop processes exactly the packets sent, in order, if and only if every
   header is there in one piece and no payload stalls for 100 polls; then nothing is left over.
   */
  lemma StreamFraming(chunks: seq<seq<byte>>, ps: seq<Parcel>)
    requires Join(chunks) == Stream(ps) && forall p :: p in ps ==> Proper(p)
    ensures (exists n: nat :: Processed(NextFrame, Polls(chunks), n) == ps) <==> Delivers(chunks, ps)
    ensures Delivers(chunks, ps) ==>
              Processed(NextFrame, Polls(chunks), Iterations(chunks, ps)) == ps && Join(Leftover(chunks, ps)) == []
  {
    LoopReceives();
    if Delivers(chunks, ps) {
      PacketsProcessed(NextFrame, chunks, ps);
      StreamConsumed(chunks, ps);
    }
    if n: nat :| Processed(NextFrame, Polls(chunks), n) == ps {
      LoopIsExact();
      ProcessedDelivers(NextFrame, chunks, ps, n);
    }
  }

  /** A packet whose header arrives in two pieces is never handed on, however long the loop runs. */
  lemma SplitHeaderIsLost(p: Parcel, k: nat, n: nat)
    requires Proper(p) && 0 < k < HEADER_SIZE
    ensures var chunks := [Encoding(p)[..k], Encoding(p)[k..]];
            Join(chunks) == Encoding(p) && p !in Processed(NextFrame, Polls(chunks), n)
  {
    var chunks := [Encoding(p)[..k], Encoding(p)[k..]];
    TwoChunks(Encoding(p)[..k], Encoding(p)[k..]);
    if n > 0 {
      LoopIsExact();
      assert Awake(chunks) == chunks && Join(chunks) == Encoding(p) + [];
      assert Breaks(chunks, p, []);
      TooFewLeft(NextFrame, chunks, n);
      if p in Processed(NextFrame, Polls(chunks), n) {
        MemberFits(Processed(NextFrame, Polls(chunks), n), p);
      }
    }
  }

  lemma {:induction false} MemberFits(ps: seq<Parcel>, p: Parcel)
    requires p in ps
    ensures |Encoding(p)| <= |Stream(ps)|
  {
    if ps[0] != p {
      MemberFits(ps[1..], p);
    }
  }

  lemma TwoChunks(a: seq<byte>, b: seq<byte>)
    ensures Join([a, b]) == a + b
  {
    assert [a, b][1..] == [b] && [b][1..] == [];
    assert Join([b]) == b + [] == b;
  }
}
