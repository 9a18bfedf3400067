/** How the PSP turns the byte stream into packets (apps/psp/src/main.c, the receive half of the loop). */
module PspReceiver {
  import opened Bytes
  import opened Options
  import opened Protocol
  import opened Transport

  const MAX_PAYLOAD := 512
  const MAX_EMPTY_POLLS := 100

  /** What one loop iteration read: no valid header, a dead link, or a header and its payload if it arrived. */
  datatype Frame = Silence | LinkError | Packet(header: Header, body: Option<seq<byte>>)

  datatype Reading = Reading(frame: Frame, rest: seq<Poll>)

  datatype Collected = Collected(body: Option<seq<byte>>, rest: seq<Poll>)

  /** Reassembles `need` payload bytes, giving up on an error or when 100 polls brought nothing. */
  function Collect(polls: seq<Poll>, need: nat, empty: nat, got: seq<byte>): (c: Collected)
    requires |got| <= need && empty <= MAX_EMPTY_POLLS
    ensures c.body.Some? ==> |c.body.value| == need && got <= c.body.value
    decreases (need - |got|) + (MAX_EMPTY_POLLS - empty)
  {
    if |got| == need then Collected(Some(got), polls)
    else if empty == MAX_EMPTY_POLLS then Collected(None, polls)
    else
      var r := Receive(polls, need - |got|);
      if !r.ok then Collected(None, r.rest)
      else Collect(r.rest, need, if r.bytes == [] then empty + 1 else empty, got + r.bytes)
  }

  function NextFrame(polls: seq<Poll>): (n: Reading)
    ensures n.frame.Packet? ==> n.frame.header.magic == MAGIC
    ensures n.frame.Packet? && n.frame.body.Some? ==>
              |n.frame.body.value| == n.frame.header.payloadSize <= MAX_PAYLOAD
  {
    var r := Receive(polls, HEADER_SIZE);
    if !r.ok then Reading(LinkError, r.rest)
    else if |r.bytes| < HEADER_SIZE then Reading(Silence, r.rest)
    else
      var h := ParseHeader(r.bytes);
      if h.magic != MAGIC then Reading(Silence, r.rest)
      else if h.payloadSize <= MAX_PAYLOAD then
        var c := Collect(r.rest, h.payloadSize, 0, []);
        Reading(Packet(h, c.body), c.rest)
      else Reading(Packet(h, None), r.rest)
  }

  /** What an iteration sees depends on its next poll alone: what kind of frame, and which header. */
  lemma FrameKinds(polls: seq<Poll>)
    ensures NextFrame(polls).frame == LinkError <==> polls != [] && polls[0].Broken?
    ensures polls == [] || (polls[0].Data? && |polls[0].bytes| < HEADER_SIZE) ==> NextFrame(polls).frame == Silence
    ensures polls != [] && polls[0].Data? && |polls[0].bytes| >= HEADER_SIZE ==>
              var h := ParseHeader(polls[0].bytes[..HEADER_SIZE]);
              if h.magic == MAGIC then NextFrame(polls).frame.Packet? && NextFrame(polls).frame.header == h
              else NextFrame(polls).frame == Silence
  {
    if polls != [] && polls[0].Data? && |polls[0].bytes| >= HEADER_SIZE {
      assert polls[0].bytes[..|polls[0].bytes|] == polls[0].bytes;
    }
  }

  /** An announced payload of more than 512 bytes is not read, an empty one needs no reading. */
  lemma SizesAtTheEnds(polls: seq<Poll>)
    ensures var r, n := Receive(polls, HEADER_SIZE), NextFrame(polls);
            && (n.frame.Packet? && n.frame.header.payloadSize > MAX_PAYLOAD
                ==> n.frame.body == None && n.rest == r.rest)
            && (n.frame.Packet? && n.frame.header.payloadSize == 0 ==> n.frame.body == Some([]) && n.rest == r.rest)
  {
  }

  /** A failed receive gives the payload up. */
  lemma CollectFails(polls: seq<Poll>, need: nat, empty: nat, got: seq<byte>)
    requires |got| < need && empty < MAX_EMPTY_POLLS && polls != [] && polls[0].Broken?
    ensures Collect(polls, need, empty, got) == Collected(None, polls[1..])
  {
  }

  /** The payload loop: fills the static buffer chunk by chunk. */
  method ReceivePayload(link: Link, buffer: array<byte>, need: nat) returns (ok: bool)
    requires need <= buffer.Length
    modifies link`polls, buffer
    ensures var c := Collect(old(link.polls), need, 0, []);
            ok == c.body.Some? && link.polls == c.rest && (ok ==> buffer[..need] == c.body.value)
  {
    ghost var start := link.polls;
    ok := true;
    var received, ticks := 0, 0;
    while received < need && ticks < MAX_EMPTY_POLLS
      invariant 0 <= received <= need && 0 <= ticks <= MAX_EMPTY_POLLS
      invariant ok && Collect(start, need, 0, []) == Collect(link.polls, need, ticks, buffer[..received])
      decreases (need - received) + (MAX_EMPTY_POLLS - ticks)
    {
      ghost var got := buffer[..received];
      var good, chunk := link.ReceiveInto(buffer, received, need - received);
      if good {
        assert buffer[..received + chunk] == got + buffer[received..received + chunk];
        received := received + chunk;
      } else {
        ok := false;
        break;
      }
      if chunk == 0 {
        ticks := ticks + 1;
      }
    }
    if received < need {
      ok := false;
    }
  }
}
