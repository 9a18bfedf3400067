/**
 The transport contract both programs are written against (shared/protocol/include/protocol/transport.h):
 bytes arrive in order, a receive yields at most what was asked for, and every call succeeds or fails.
 What the link will do is a script, so a statement for all scripts is one for every behaviour of the USB stack.
 */
module Transport {
  import opened Bytes

  /** One completion of the receive side: some bytes (none when idle) or an error. */
  datatype Poll = Data(bytes: seq<byte>) | Broken

  /** The outcome of a send: all of it went out, or it failed with some bytes, maybe none, missing on the wire. */
  datatype SendResult = Complete | Failed(missing: nat)

  datatype LinkState = LinkState(polls: seq<Poll>, sendResults: seq<SendResult>, sent: seq<seq<byte>>)

  datatype Received = Received(ok: bool, bytes: seq<byte>, rest: seq<Poll>)

  /** A receive of at most `size` bytes; what a completion holds beyond that stays for the next call. */
  function Receive(polls: seq<Poll>, size: nat): (r: Received)
    ensures |r.bytes| <= size
  {
    if polls == [] then Received(true, [], [])
    else match polls[0]
      case Broken => Received(false, [], polls[1..])
      case Data(bytes) =>
        if |bytes| <= size then Received(true, bytes, polls[1..])
        else Received(true, bytes[..size], [Data(bytes[size..])] + polls[1..])
  }

  function NextResult(link: LinkState): SendResult {
    if link.sendResults == [] then Complete else link.sendResults[0]
  }

  predicate SendSucceeds(link: LinkState) {
    NextResult(link).Complete?
  }

  /** A failed send leaves a beginning of the bytes on the wire. */
  function Send(link: LinkState, bytes: seq<byte>): LinkState {
    var r := NextResult(link);
    LinkState(link.polls,
              if link.sendResults == [] then [] else link.sendResults[1..],
              link.sent + [if r.Complete? then bytes else bytes[..|bytes| - Min(r.missing, |bytes|)]])
  }

  class Link {
    var polls: seq<Poll>
    var sendResults: seq<SendResult>
    var sent: seq<seq<byte>>

    ghost function State(): LinkState
      reads this
    {
      LinkState(polls, sendResults, sent)
    }

    constructor (polls: seq<Poll>, sendResults: seq<SendResult>)
      ensures State() == LinkState(polls, sendResults, [])
    {
      this.polls, this.sendResults, sent := polls, sendResults, [];
    }

    /** `transport_receive(buffer + at, size, &received)`. */
    method ReceiveInto(buffer: array<byte>, at: nat, size: nat) returns (ok: bool, received: nat)
      requires at + size <= buffer.Length
      modifies this`polls, buffer
      ensures var r := Receive(old(polls), size);
              ok == r.ok && polls == r.rest && received == |r.bytes|
              && buffer[..] == old(buffer[..at]) + r.bytes + old(buffer[at + |r.bytes|..])
    {
      var r := Receive(polls, size);
      polls := r.rest;
      ghost var front, back := buffer[..at], buffer[at + |r.bytes|..];
      forall i | 0 <= i < |r.bytes| {
        buffer[at + i] := r.bytes[i];
      }
      assert buffer[..at] == front && buffer[at..at + |r.bytes|] == r.bytes && buffer[at + |r.bytes|..] == back;
      assert buffer[..] == buffer[..at] + buffer[at..at + |r.bytes|] + buffer[at + |r.bytes|..];
      return r.ok, |r.bytes|;
    }

    /** `transport_send(data, size)`. */
    method SendBytes(bytes: seq<byte>) returns (ok: bool)
      modifies this`sendResults, this`sent
      ensures ok == SendSucceeds(old(State())) && State() == Send(old(State()), bytes)
      ensures ok ==> sent == old(sent) + [bytes]
      ensures !ok ==> |sent| == |old(sent)| + 1 && sent[..|old(sent)|] == old(sent) && sent[|old(sent)|] <= bytes
    {
      var r := if sendResults == [] then Complete else sendResults[0];
      if sendResults != [] {
        sendResults := sendResults[1..];
      }
      ok := r.Complete?;
      sent := sent + [if ok then bytes else bytes[..|bytes| - Min(r.missing, |bytes|)]];
    }
  }
}
