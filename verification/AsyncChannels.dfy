/**
 The registered asynchronous channels and their event flags (reference/usbhostfs_main.c): registration,
 the receive interrupt, readers and flushes, first as functions on abstract queues, then as the class
 that implements them over ring buffers.
 */
module AsyncChannels {
  import opened AsyncRing
  import opened Bytes
  import opened Options

  // usbasync.h is not part of this model: any sizes do.
  type ChannelCount = n: int | 0 < n <= 32 witness 8
  /** `struct AsyncCommand` holds at least its two 32-bit words, magic and channel. */
  type HeaderLength = n: int | 8 <= n < 512 witness 8
  const MAX_ASYNC_CHANNELS: ChannelCount
  type UserChannel = n: int | 0 <= n <= MAX_ASYNC_CHANNELS witness 0
  const ASYNC_USER: UserChannel
  const ASYNC_HEADER: HeaderLength
  const ASYNC_ALLOC_CHAN: uint32
  const ASYNC_MAGIC: uint32

  /** The header of a received transfer. */
  datatype AsyncCommand = AsyncCommand(magic: uint32, channel: int)

  /** The waiting bytes of every channel (None when unregistered) and the event bits that are set. */
  datatype Async = Async(queues: seq<Option<seq<byte>>>, flags: set<nat>)

  predicate Registered(a: Async, c: int) {
    0 <= c < |a.queues| && a.queues[c].Some?
  }

  /** The part of a payload that fits behind what is waiting. */
  function Accepted(a: Async, c: nat, payload: seq<byte>): seq<byte>
    requires Registered(a, c)
  {
    Cut(payload, if |a.queues[c].value| <= MAX_ASYNC_BUFFER then MAX_ASYNC_BUFFER - |a.queues[c].value| else 0)
  }

  predicate Delivers(a: Async, cmd: AsyncCommand, payload: seq<byte>) {
    payload != [] && cmd.magic == ASYNC_MAGIC && Registered(a, cmd.channel)
  }

  /** `fill_async` on a transfer that is longer than its header. */
  function Fill(a: Async, cmd: AsyncCommand, payload: seq<byte>): Async {
    if Delivers(a, cmd, payload) then
      var c := cmd.channel;
      Async(a.queues[c := Some(a.queues[c].value + Accepted(a, c, payload))], a.flags + {c})
    else a
  }

  /**
   Between `a` and `b` a transfer was stored: if it is well addressed and not empty, as much of its payload as fits
   is behind what was waiting on its channel, and the channel's bit is set; nothing else has changed.
   */
  ghost predicate Stored(a: Async, b: Async, cmd: AsyncCommand, payload: seq<byte>) {
    var c := cmd.channel;
    if payload != [] && cmd.magic == ASYNC_MAGIC && 0 <= c < |a.queues| && a.queues[c].Some? then
      var waiting := a.queues[c].value;
      |waiting| <= MAX_ASYNC_BUFFER
      && b.queues == a.queues[c := Some(waiting + payload[..Min(|payload|, MAX_ASYNC_BUFFER - |waiting|)])]
      && b.flags == a.flags + {c}
    else b == a
  }

  /** Every queue fits its ring. */
  ghost predicate Bounded(a: Async) {
    forall c :: 0 <= c < |a.queues| && a.queues[c].Some? ==> |a.queues[c].value| <= MAX_ASYNC_BUFFER
  }

  lemma FillStores(a: Async, cmd: AsyncCommand, payload: seq<byte>)
    requires Bounded(a)
    ensures Stored(a, Fill(a, cmd, payload), cmd, payload)
  {
  }

  /** `usbAsyncFlush`. */
  function Flush(a: Async, c: int): Async {
    if Registered(a, c) then Async(a.queues[c := Some([])], a.flags - {c}) else a
  }

  /** The channel a registration gets: the one asked for if free, the first free user channel, or none. */
  function FirstFree(a: Async, from: nat): Option<nat>
    decreases |a.queues| - from
  {
    if from >= |a.queues| then None
    else if a.queues[from].None? then Some(from)
    else FirstFree(a, from + 1)
  }

  function Choice(a: Async, chan: uint32): Option<nat> {
    if chan == ASYNC_ALLOC_CHAN then FirstFree(a, ASYNC_USER)
    else if chan < |a.queues| && a.queues[chan].None? then Some(chan)
    else None
  }

  /** `usbAsyncRegister` of a non-NULL endpoint. */
  function Register(a: Async, chan: uint32): Async {
    var c := Choice(a, chan);
    if c.Some? && c.value < |a.queues| then Async(a.queues[c.value := Some([])], a.flags - {c.value}) else a
  }

  /** `usbAsyncUnregister`. */
  function Unregister(a: Async, c: int): Async {
    if Registered(a, c) then Async(a.queues[c := None], a.flags) else a
  }

  /** The event wait of a reader: returns when the bit is set, clearing it. */
  function Wake(a: Async, c: nat): Async {
    a.(flags := a.flags - {c})
  }

  /** How many bytes a drain of `len` takes from a queue. */
  function Taken(waiting: seq<byte>, len: int): nat {
    if len < 0 then 0 else Min(len, |waiting|)
  }

  /** The interrupt-disabled copy of a reader: takes up to `len` bytes and raises the bit again if any remain. */
  function Drain(a: Async, c: nat, len: int): Async
    requires Registered(a, c)
  {
    var left := a.queues[c].value[Taken(a.queues[c].value, len)..];
    Async(a.queues[c := Some(left)], if left != [] then a.flags + {c} else a.flags)
  }

  /**
   Between `a` and `b` a reader took `data`: the oldest bytes, as many as it asked for or there were. The bit is set
   if bytes remain or it was set before; nothing else has changed.
   */
  ghost predicate Read(a: Async, b: Async, c: int, data: seq<byte>, len: int) {
    && 0 <= c < |a.queues| == |b.queues| && a.queues[c].Some? && b.queues[c].Some?
    && data + b.queues[c].value == a.queues[c].value
    && (len < 0 ==> data == []) && (len >= 0 ==> |data| == Min(len, |a.queues[c].value|))
    && (forall d :: 0 <= d < |a.queues| && d != c ==> b.queues[d] == a.queues[d])
    && b.flags == if b.queues[c].value == [] then a.flags else a.flags + {c}
  }

  lemma DrainReads(a: Async, c: nat, len: int)
    requires Registered(a, c)
    ensures Read(a, Drain(a, c, len), c, a.queues[c].value[..Taken(a.queues[c].value, len)], len)
  {
    var q := a.queues[c].value;
    assert q[..Taken(q, len)] + q[Taken(q, len)..] == q;
  }

  class Channels {
    var endpoints: seq<Endpoint?>
    var events: set<nat>

    ghost function Footprint(): set<object>
      reads this
    {
      set c | 0 <= c < |endpoints| && endpoints[c] != null :: endpoints[c] as object
    }

    ghost function Buffers(): set<object>
      reads this, Footprint()
    {
      set c | 0 <= c < |endpoints| && endpoints[c] != null :: endpoints[c].buffer as object
    }

    /** Registered endpoints are rings, and no two channels share one. */
    ghost predicate Valid()
      reads this, Footprint()
    {
      && |endpoints| == MAX_ASYNC_CHANNELS
      && (forall c :: 0 <= c < |endpoints| && endpoints[c] != null ==> endpoints[c].Valid())
      && (forall c, d :: 0 <= c < d < |endpoints| && endpoints[c] != null && endpoints[d] != null ==>
            endpoints[c] != endpoints[d] && endpoints[c].buffer != endpoints[d].buffer)
    }

    ghost function Queue(c: nat): Option<seq<byte>>
      requires Valid() && c < |endpoints|
      reads this, Footprint(), Buffers()
    {
      var e := endpoints[c];
      if e == null then None else Some(e.Contents())
    }

    ghost function State(): Async
      requires Valid()
      reads this, Footprint(), Buffers()
    {
      Async(seq(|endpoints|, c requires 0 <= c < |endpoints| && Valid() reads this, Footprint(), Buffers() => Queue(c)),
            events)
    }

    constructor ()
      ensures Valid() && State() == Async(seq(MAX_ASYNC_CHANNELS, _ => None), {})
    {
      endpoints := seq(MAX_ASYNC_CHANNELS, _ => null);
      events := {};
    }

    /** `fill_async`: stores a received transfer and raises its channel's event bit. */
    method FillAsync(cmd: AsyncCommand, payload: seq<byte>)
      requires Valid()
      modifies this, Footprint(), Buffers()
      ensures Valid() && endpoints == old(endpoints)
      ensures State() == Fill(old(State()), cmd, payload)
      ensures Stored(old(State()), State(), cmd, payload)
    {
      FillStores(State(), cmd, payload);
      if |payload| > 0 {
        if cmd.magic == ASYNC_MAGIC && 0 <= cmd.channel < MAX_ASYNC_CHANNELS && endpoints[cmd.channel] != null {
          var c := cmd.channel;
          endpoints[c].Fill(payload);
          events := events + {c};
          assert forall d :: 0 <= d < |endpoints| && d != c ==> Queue(d) == old(Queue(d));
        }
      }
    }

    /** `usbAsyncFlush`. */
    method FlushChannel(c: uint32)
      requires Valid()
      modifies this, Footprint()
      ensures Valid() && endpoints == old(endpoints)
      ensures State() == Flush(old(State()), c)
      ensures c < |endpoints| && endpoints[c] != null ==> endpoints[c].Contents() == [] && events == old(events) - {c}
    {
      if c >= MAX_ASYNC_CHANNELS || endpoints[c] == null {
        return;
      }
      endpoints[c].Reset();
      events := events - {c};
      assert forall d :: 0 <= d < |endpoints| && d != c ==> Queue(d) == old(Queue(d));
    }

    /** The search for a free user channel. */
    method FindFree() returns (i: int)
      requires Valid()
      ensures ASYNC_USER <= i <= MAX_ASYNC_CHANNELS && (i < MAX_ASYNC_CHANNELS ==> endpoints[i] == null)
      ensures forall j :: ASYNC_USER <= j < i ==> endpoints[j] != null
      ensures FirstFree(State(), ASYNC_USER) == if i == MAX_ASYNC_CHANNELS then None else Some(i)
    {
      i := ASYNC_USER;
      while i < MAX_ASYNC_CHANNELS && endpoints[i] != null
        invariant ASYNC_USER <= i <= MAX_ASYNC_CHANNELS && forall j :: ASYNC_USER <= j < i ==> endpoints[j] != null
        invariant FirstFree(State(), ASYNC_USER) == FirstFree(State(), i)
      {
        i := i + 1;
      }
    }

    /** `usbAsyncRegister`; an endpoint that gets a channel has none yet. */
    method RegisterEndpoint(chan: uint32, endpoint: Endpoint?) returns (ret: int)
      requires Valid()
      requires endpoint != null && Choice(State(), chan).Some? ==> Unused(endpoint)
      modifies this, endpoint
      ensures Valid()
      ensures endpoint != null ==> Assigned(chan, old(endpoints), ret)
      ensures ret >= 0 ==>
                && ret < |old(endpoints)| && endpoints == old(endpoints)[ret := endpoint]
                && events == old(events) - {ret} && Queue(ret) == Some([])
      ensures ret < 0 ==> ret == -1 && endpoints == old(endpoints) && events == old(events)
      ensures endpoint == null ==> ret == -1 && State() == old(State())
      ensures endpoint != null ==> State() == Register(old(State()), chan)
      ensures endpoint != null ==>
                var c := Choice(old(State()), chan);
                && ret == (if c.Some? then c.value else -1)
                && (c.Some? ==> ret < |endpoints| && endpoints[ret] == endpoint)
    {
      if endpoint == null {
        return -1;
      }
      ghost var before := State();
      ret := Choose(chan);
      assert State() == before;
      if ret >= 0 {
        assert old(Unused(endpoint));
        Install(ret, endpoint);
      }
    }

    /** The endpoint is no channel's yet, and its memory is large enough. */
    ghost predicate Unused(endpoint: Endpoint)
      reads this, Footprint()
    {
      endpoint !in Footprint() && endpoint.buffer !in Buffers() && endpoint.buffer.Length == MAX_ASYNC_BUFFER
    }

    /**
     `c` is the channel a registration with `chan` gets among `all`: the lowest free user channel on demand, or
     the one asked for if it exists and is free, or -1.
     */
    static ghost predicate Assigned(chan: uint32, all: seq<Endpoint?>, c: int) {
      if chan == ASYNC_ALLOC_CHAN then
        && (forall j :: ASYNC_USER <= j < (if c >= 0 then c else |all|) && j < |all| ==> all[j] != null)
        && (c == -1 || (ASYNC_USER <= c < |all| && all[c] == null))
      else c == if chan < |all| && all[chan] == null then chan else -1
    }

    /** The channel for a registration, or -1. */
    method Choose(chan: uint32) returns (c: int)
      requires Valid()
      ensures c == (if Choice(State(), chan).Some? then Choice(State(), chan).value else -1)
      ensures c >= 0 ==> c < |endpoints| && endpoints[c] == null
      ensures c >= -1 && Assigned(chan, endpoints, c)
    {
      if chan == ASYNC_ALLOC_CHAN {
        c := FindFree();
        if c == MAX_ASYNC_CHANNELS {
          return -1;
        }
      } else if chan >= MAX_ASYNC_CHANNELS || endpoints[chan] != null {
        return -1;
      } else {
        c := chan;
      }
    }

    /** Puts an endpoint into a free channel and flushes it. */
    method Install(c: nat, endpoint: Endpoint)
      requires Valid() && c < |endpoints| && endpoints[c] == null
      requires Unused(endpoint)
      modifies this, endpoint
      ensures Valid() && endpoints == old(endpoints)[c := endpoint]
      ensures Queue(c) == Some([]) && events == old(events) - {c}
      ensures State() == Async(old(State()).queues[c := Some([])], old(State()).flags - {c})
    {
      endpoint.Reset();
      endpoints := endpoints[c := endpoint];
      events := events - {c};
      assert forall d :: 0 <= d < |endpoints| && d != c ==> Queue(d) == old(Queue(d));
    }

    /** `usbAsyncUnregister`. */
    method UnregisterChannel(c: uint32) returns (ret: int)
      requires Valid()
      modifies this
      ensures Valid() && State() == Unregister(old(State()), c)
      ensures ret == if Registered(old(State()), c) then 0 else -1
      ensures events == old(events)
      ensures if c < |old(endpoints)| && old(endpoints)[c] != null then
                ret == 0 && endpoints == old(endpoints)[c := null]
              else ret == -1 && endpoints == old(endpoints)
    {
      if c >= MAX_ASYNC_CHANNELS || endpoints[c] == null {
        return -1;
      }
      endpoints := endpoints[c := null];
      assert forall d :: 0 <= d < |endpoints| && d != c ==> Queue(d) == old(Queue(d));
      return 0;
    }

    /** The first half of `usbAsyncReadWithTimeout`; `set` says that the bit was set before any timeout. */
    method WaitForData(c: uint32, signalled: bool) returns (ok: bool)
      requires Valid() && (signalled ==> c in events)
      modifies this`events
      ensures Valid() && ok == (Registered(old(State()), c) && signalled)
      ensures State() == if ok then Wake(old(State()), c) else old(State())
    {
      if c >= MAX_ASYNC_CHANNELS || endpoints[c] == null {
        return false;
      }
      if !signalled {
        return false;
      }
      events := events - {c};
      return true;
    }

    /** The second half, with interrupts disabled. The channel has not been unregistered since the wait. */
    method DrainChannel(c: uint32, len: int) returns (data: seq<byte>, ret: int)
      requires Valid() && Registered(State(), c)
      modifies this`events, Footprint()
      ensures Valid() && endpoints == old(endpoints)
      ensures State() == Drain(old(State()), c, len)
      ensures data == old(State()).queues[c].value[..Taken(old(State()).queues[c].value, len)]
      ensures ret == if len < |old(State()).queues[c].value| then len else |old(State()).queues[c].value|
      ensures Read(old(State()), State(), c, data, len)
    {
      var e := endpoints[c];
      ghost var waiting := e.Contents();
      assert State().queues[c] == Some(waiting);
      ret := if len < e.size then len else e.size;
      data := e.Drain(len);
      assert waiting == data + e.Contents();
      assert waiting[..|data|] == data && waiting[|data|..] == e.Contents();
      if e.size != 0 {
        events := events + {c};
      }
      assert forall d :: 0 <= d < |endpoints| && d != c ==> Queue(d) == old(Queue(d));
    }
  }
}
