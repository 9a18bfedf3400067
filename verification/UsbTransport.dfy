/** The desktop's libusb handle and context (apps/desktop/src/transport_usb.cpp). */
module UsbTransport {
  import opened Bytes

  /** How the libusb calls of one `transport_initialize` turn out. */
  datatype Probe = Probe(initialized: bool, found: bool, kernelDriver: bool, detached: bool, claimed: bool)

  /** The device ends up open and claimed. */
  predicate Succeeds(p: Probe) {
    p.initialized && p.found && (p.kernelDriver ==> p.detached) && p.claimed
  }

  /** What `libusb_bulk_transfer` returns for a send, and how many bytes it left out, failed or not. */
  datatype Sending = Sending(code: int, missing: nat)

  /** The bytes it moved. */
  function Moved(s: Sending, data: seq<byte>): (m: seq<byte>)
    ensures m <= data && (m == data <==> s.missing == 0 || data == [])
  {
    data[..|data| - Min(s.missing, |data|)]
  }

  predicate Goes(s: Sending) {
    s.code >= 0 && s.missing == 0
  }

  class Usb {
    var handle: bool
    var context: bool
    /** What the transfers so far put on the wire, one entry each. */
    var wire: seq<seq<byte>>
    // What libusb was asked to create and to release.
    ghost var inits: nat
    ghost var exits: nat
    ghost var opens: nat
    ghost var closes: nat
    ghost var claims: nat
    ghost var releases: nat

    /** A handle is open exactly while a context is, and every resource acquired and not held was given back. */
    ghost predicate Valid()
      reads this
    {
      && handle == context
      && inits == exits + (if context then 1 else 0)
      && opens == closes + (if handle then 1 else 0)
      && claims == releases + (if handle then 1 else 0)
    }

    constructor ()
      ensures Valid() && !handle && wire == []
    {
      handle, context, wire := false, false, [];
      inits, exits, opens, closes, claims, releases := 0, 0, 0, 0, 0, 0;
    }

    method CloseAll()
      modifies this
      ensures wire == old(wire)
      ensures !handle && !context
      ensures exits == old(exits) + 1 && closes == old(closes) + 1
      ensures inits == old(inits) && opens == old(opens) && claims == old(claims) && releases == old(releases)
    {
      closes := closes + 1;
      handle := false;
      exits := exits + 1;
      context := false;
    }

    /** `transport_initialize`: idempotent, and on failure nothing stays open. */
    method Initialize(p: Probe) returns (ok: bool)
      requires Valid()
      modifies this
      ensures Valid() && wire == old(wire)
      ensures ok == handle == (old(handle) || Succeeds(p))
      ensures ok && !old(handle) ==> p.initialized && p.found && p.claimed && !(p.kernelDriver && !p.detached)
      ensures !ok ==> !p.initialized || !p.found || !p.claimed || (p.kernelDriver && !p.detached)
      ensures old(handle) ==> inits == old(inits) && opens == old(opens)
    {
      if handle {
        return true;
      }
      if !p.initialized {
        return false;
      }
      context, inits := true, inits + 1;
      if !p.found {
        exits := exits + 1;
        context := false;
        return false;
      }
      handle, opens := true, opens + 1;
      if p.kernelDriver {
        if !p.detached {
          CloseAll();
          return false;
        }
      }
      if !p.claimed {
        CloseAll();
        return false;
      }
      claims := claims + 1;
      return true;
    }

    /** `transport_shutdown`: afterwards nothing is held. */
    method Shutdown()
      requires Valid()
      modifies this
      ensures Valid() && !handle && wire == old(wire)
    {
      if handle {
        releases := releases + 1;
        closes := closes + 1;
        handle := false;
      }
      if context {
        exits := exits + 1;
        context := false;
      }
    }

    /**
     `transport_send`. Success means that the whole of the data went out as one transfer; without a handle
     nothing does; and a failure may leave any beginning of the data on the wire, all of it included.
     */
    method Send(data: seq<byte>, s: Sending) returns (ok: bool)
      requires data != []
      modifies this`wire
      ensures ok ==> wire == old(wire) + [data]
      ensures ok <==> handle && s.code >= 0 && s.missing == 0
      ensures wire == if handle then old(wire) + [Moved(s, data)] else old(wire)
    {
      if !handle {
        return false;
      }
      var transferred := |Moved(s, data)|;
      wire := wire + [Moved(s, data)];
      if s.code < 0 {
        return false;
      }
      if transferred != |data| {
        return false;
      }
      return true;
    }
  }
}
