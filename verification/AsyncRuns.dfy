/**
 The asynchronous channels as threads share them: the receive interrupt, flushes and registrations are
 atomic, but a reader waits for its event bit and drains its ring in two separate steps, between which
 anything may happen. Any number of readers may be inside a read at the same time.
 */
module AsyncRuns {
  import opened AsyncChannels
  import opened AsyncRing
  import opened Bytes
  import opened Options

  /** `inside[c]` readers of channel c are between wait and drain; the histories start at the last flush. */
  datatype Sys = Sys(a: Async, inside: seq<nat>, accepted: seq<seq<byte>>, delivered: seq<seq<byte>>)

  datatype Event =
    | Receives(cmd: AsyncCommand, payload: seq<byte>)
    | Registers(wanted: uint32)
    | Unregisters(chan: nat)
    | Flushes(chan: nat)
    | Wakes(chan: nat)
    | Drains(chan: nat, len: int)

  predicate Shaped(s: Sys) {
    |s.a.queues| == |s.inside| == |s.accepted| == |s.delivered|
  }

  /** A wait ends only when the bit is set; a channel is not unregistered while somebody reads it. */
  predicate Enabled(s: Sys, e: Event)
    requires Shaped(s)
  {
    match e
    case Unregisters(c) => c < |s.inside| ==> s.inside[c] == 0
    case Wakes(c) => Registered(s.a, c) && c in s.a.flags
    case Drains(c, _) => Registered(s.a, c) && s.inside[c] > 0
    case _ => true
  }

  function Forget(s: Sys, a: Async, c: nat): Sys
    requires Shaped(s) && c < |s.inside|
  {
    s.(a := a, accepted := s.accepted[c := []], delivered := s.delivered[c := []])
  }

  function Next(s: Sys, e: Event): (t: Sys)
    requires Shaped(s) && Enabled(s, e)
    ensures Shaped(t) && |t.inside| == |s.inside|
  {
    match e
    case Receives(cmd, payload) =>
      if Delivers(s.a, cmd, payload) then
        var c := cmd.channel;
        s.(a := Fill(s.a, cmd, payload), accepted := s.accepted[c := s.accepted[c] + Accepted(s.a, c, payload)])
      else s.(a := Fill(s.a, cmd, payload))
    case Registers(chan) =>
      var c := Choice(s.a, chan);
      if c.Some? && c.value < |s.inside| then Forget(s, Register(s.a, chan), c.value) else s.(a := Register(s.a, chan))
    case Unregisters(c) => s.(a := Unregister(s.a, c))
    case Flushes(c) => if Registered(s.a, c) then Forget(s, Flush(s.a, c), c) else s
    case Wakes(c) => s.(a := Wake(s.a, c), inside := s.inside[c := s.inside[c] + 1])
    case Drains(c, len) =>
      var waiting := s.a.queues[c].value;
      s.(a := Drain(s.a, c, len), inside := s.inside[c := s.inside[c] - 1],
         delivered := s.delivered[c := s.delivered[c] + waiting[..Taken(waiting, len)]])
  }

  /** Nothing registered, no bit set, no reader. */
  ghost predicate Start(s: Sys) {
    && s.a.flags == {} && Shaped(s) && |s.inside| == MAX_ASYNC_CHANNELS
    && forall c :: 0 <= c < |s.inside| ==>
         s.a.queues[c] == None && s.inside[c] == 0 && s.accepted[c] == [] && s.delivered[c] == []
  }

  /** `states` is a run: it starts from nothing registered and every step was possible when it was taken. */
  ghost predicate IsRun(states: seq<Sys>, events: seq<Event>) {
    && |states| == |events| + 1 && Start(states[0])
    && forall k :: 0 <= k < |events| ==>
         Shaped(states[k]) && Enabled(states[k], events[k]) && states[k + 1] == Next(states[k], events[k])
  }

  /** What was read since the last flush, then what is waiting, is what was accepted since the last flush. */
  predicate Fifo(s: Sys, c: nat)
    requires Shaped(s) && c < |s.inside|
  {
    s.a.queues[c].Some? ==>
      |s.a.queues[c].value| <= MAX_ASYNC_BUFFER && s.delivered[c] + s.a.queues[c].value == s.accepted[c]
  }

  /** Waiting bytes are announced: the bit is set, or a reader that took the bit has yet to look. */
  predicate Announced(s: Sys, c: nat)
    requires Shaped(s) && c < |s.inside|
  {
    s.a.queues[c].Some? && s.a.queues[c].value != [] ==> c in s.a.flags || s.inside[c] > 0
  }

  ghost predicate Inv(s: Sys) {
    Shaped(s) && |s.inside| == MAX_ASYNC_CHANNELS
    && forall c :: 0 <= c < |s.inside| ==> Fifo(s, c) && Announced(s, c)
  }

  lemma NextKeeps(s: Sys, e: Event)
    requires Inv(s) && Enabled(s, e)
    ensures Inv(Next(s, e))
  {
    var t := Next(s, e);
    forall c | 0 <= c < |t.inside| ensures Fifo(t, c) && Announced(t, c) {
      assert Fifo(s, c) && Announced(s, c);
      match e
      case Receives(cmd, payload) =>
        if Delivers(s.a, cmd, payload) && cmd.channel == c {
          var q, x := s.a.queues[c].value, Accepted(s.a, c, payload);
          assert s.delivered[c] + (q + x) == (s.delivered[c] + q) + x;
        }
      case Drains(d, len) =>
        if d == c {
          var q := s.a.queues[c].value;
          var n := Taken(q, len);
          assert (s.delivered[c] + q[..n]) + q[n..] == s.delivered[c] + (q[..n] + q[n..]);
          assert q[..n] + q[n..] == q;
        }
      case _ =>
    }
  }

  lemma {:induction false} RunKeeps(states: seq<Sys>, events: seq<Event>, k: nat)
    requires IsRun(states, events) && k <= |events|
    ensures Inv(states[k])
  {
    if k > 0 {
      RunKeeps(states, events, k - 1);
      NextKeeps(states[k - 1], events[k - 1]);
    }
  }

  /** The transfer is one for a registered channel. */
  predicate Addressed(a: Async, cmd: AsyncCommand, payload: seq<byte>) {
    payload != [] && cmd.magic == ASYNC_MAGIC && 0 <= cmd.channel < |a.queues| && a.queues[cmd.channel].Some?
  }

  /** A received transfer extends the history of its channel by the longest beginning of its payload that fits. */
  lemma ReceiveBooks(s: Sys, cmd: AsyncCommand, payload: seq<byte>)
    requires Inv(s)
    ensures var t := Next(s, Receives(cmd, payload));
            && Stored(s.a, t.a, cmd, payload) && t.delivered == s.delivered && t.inside == s.inside
            && if Addressed(s.a, cmd, payload) then
                 var c := cmd.channel;
                 var waiting := |s.a.queues[c].value|;
                 waiting <= MAX_ASYNC_BUFFER
                 && t.accepted == s.accepted[c := s.accepted[c] + payload[..Min(|payload|, MAX_ASYNC_BUFFER - waiting)]]
               else t == s
  {
    forall c | 0 <= c < |s.a.queues| && s.a.queues[c].Some?
      ensures |s.a.queues[c].value| <= MAX_ASYNC_BUFFER
    {
      assert Fifo(s, c);
    }
    FillStores(s.a, cmd, payload);
  }

  /** What a reader is handed is taken from the queue and added to what was delivered. */
  lemma DrainBooks(s: Sys, c: nat, len: int) returns (data: seq<byte>)
    requires Inv(s) && Enabled(s, Drains(c, len))
    ensures var t := Next(s, Drains(c, len));
            && Read(s.a, t.a, c, data, len) && t.accepted == s.accepted
            && t.delivered == s.delivered[c := s.delivered[c] + data] && t.inside == s.inside[c := s.inside[c] - 1]
  {
    data := s.a.queues[c].value[..Taken(s.a.queues[c].value, len)];
    DrainReads(s.a, c, len);
  }

  /** A wait takes the bit and lets one reader in; nothing else happens. */
  lemma WakeBooks(s: Sys, c: nat)
    requires Inv(s) && Enabled(s, Wakes(c))
    ensures var t := Next(s, Wakes(c));
            && t.a.queues == s.a.queues && t.a.flags == s.a.flags - {c} && t.inside == s.inside[c := s.inside[c] + 1]
            && t.accepted == s.accepted && t.delivered == s.delivered
  {
  }

  /** A flush of a registered channel empties its queue, takes its bit down and starts its histories anew. */
  lemma FlushBooks(s: Sys, c: nat)
    requires Inv(s) && Registered(s.a, c)
    ensures var t := Next(s, Flushes(c));
            && t.a.queues == s.a.queues[c := Some([])] && t.a.flags == s.a.flags - {c} && t.inside == s.inside
            && t.accepted == s.accepted[c := []] && t.delivered == s.delivered[c := []]
  {
  }

  /** Every channel behaves as one queue: nothing is lost, repeated or reordered among the accepted bytes. */
  lemma RingsAreQueues(states: seq<Sys>, events: seq<Event>, k: nat, c: nat)
    requires IsRun(states, events) && k <= |events| && c < MAX_ASYNC_CHANNELS
    ensures Shaped(states[k]) && c < |states[k].inside| && Fifo(states[k], c)
  {
    RunKeeps(states, events, k);
  }

  /** No lost wakeup: while bytes wait, a reader can always make a step that leads it to them. */
  lemma NoLostWakeup(states: seq<Sys>, events: seq<Event>, k: nat, c: nat)
    requires IsRun(states, events) && k <= |events| && Registered(states[k].a, c) && states[k].a.queues[c].value != []
    ensures Shaped(states[k]) && (c in states[k].a.flags || states[k].inside[c] > 0)
    ensures Enabled(states[k], Wakes(c)) || forall len :: Enabled(states[k], Drains(c, len))
  {
    RunKeeps(states, events, k);
    assert Announced(states[k], c);
  }
}
