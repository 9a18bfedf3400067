/** The PSP's connection state: HELLO acceptance, dispatch gate and watchdog of apps/psp/src/main.c. */
module PspConnection {
  import opened Bytes
  import opened Protocol
  import opened PspReceiver

  const WATCHDOG_TICKS := 500

  datatype Conn = Conn(connected: bool, ticks: nat)

  const DISCONNECTED := Conn(false, 0)

  /** A well-formed HELLO of our own version, while disconnected: the PSP answers it. */
  predicate Answers(c: Conn, f: Frame, version: uint16) {
    !c.connected && f.Packet? && f.body.Some? && f.header.messageId == HELLO && f.header.version == version
  }

  /** A complete packet that reaches the router. */
  predicate Dispatches(c: Conn, f: Frame) {
    c.connected && f.Packet? && f.body.Some?
  }

  /** The state after the received frame; any valid header resets the watchdog, whatever its type. */
  function OnFrame(c: Conn, f: Frame, version: uint16, replySent: bool): Conn {
    match f
    case Silence => c
    case LinkError => c.(connected := false)
    case Packet(_, _) => Conn(c.connected || (Answers(c, f, version) && replySent), 0)
  }

  function Watchdog(c: Conn): Conn {
    if c.connected then Conn(c.ticks + 1 <= WATCHDOG_TICKS, c.ticks + 1) else c
  }

  /** One loop iteration. */
  function Advance(c: Conn, f: Frame, version: uint16, replySent: bool): Conn {
    Watchdog(OnFrame(c, f, version, replySent))
  }

  predicate Sound(c: Conn) {
    c.connected ==> 1 <= c.ticks <= WATCHDOG_TICKS
  }

  datatype Input = Input(frame: Frame, replySent: bool)

  function Run(c: Conn, inputs: seq<Input>, version: uint16): Conn {
    if inputs == [] then c
    else
      var last := |inputs| - 1;
      Advance(Run(c, inputs[..last], version), inputs[last].frame, version, inputs[last].replySent)
  }

  /** At every loop end CONNECTED implies the tick counter is in 1..500. */
  lemma {:induction false} WatchdogRange(c: Conn, inputs: seq<Input>, version: uint16)
    requires Sound(c)
    ensures Sound(Run(c, inputs, version))
  {
    if inputs != [] {
      WatchdogRange(c, inputs[..|inputs| - 1], version);
    }
  }

  predicate NoHeader(inputs: seq<Input>) {
    forall i :: 0 <= i < |inputs| ==> !inputs[i].frame.Packet?
  }

  /** Iterations since the last valid header, its own included; counted on from `start` when there was none. */
  function SinceHeader(start: nat, inputs: seq<Input>): nat {
    if inputs == [] then start
    else if inputs[|inputs| - 1].frame.Packet? then 1
    else 1 + SinceHeader(start, inputs[..|inputs| - 1])
  }

  /** While connected, the counter is exactly the number of iterations since the last valid header. */
  lemma {:induction false} TicksCountSilence(c: Conn, inputs: seq<Input>, version: uint16)
    requires c.connected
    ensures var d := Run(c, inputs, version);
            d.connected ==> d.ticks == SinceHeader(c.ticks, inputs)
  {
    if inputs != [] {
      TicksCountSilence(c, inputs[..|inputs| - 1], version);
    }
  }

  /** 500 consecutive iterations without a valid header always end in DISCONNECTED. */
  lemma SilenceDisconnects(c: Conn, inputs: seq<Input>, version: uint16)
    requires Sound(c) && |inputs| == WATCHDOG_TICKS && NoHeader(inputs)
    ensures !Run(c, inputs, version).connected
  {
    if c.connected {
      TicksCountSilence(c, inputs, version);
      WatchdogRange(c, inputs, version);
      SilenceAddsUp(c.ticks, inputs);
    } else {
      StaysDown(c, inputs, version);
    }
  }

  lemma {:induction false} SilenceAddsUp(start: nat, inputs: seq<Input>)
    requires NoHeader(inputs)
    ensures SinceHeader(start, inputs) == start + |inputs|
  {
    if inputs != [] {
      SilenceAddsUp(start, inputs[..|inputs| - 1]);
    }
  }

  lemma {:induction false} StaysDown(c: Conn, inputs: seq<Input>, version: uint16)
    requires !c.connected && NoHeader(inputs)
    ensures !Run(c, inputs, version).connected
  {
    if inputs != [] {
      StaysDown(c, inputs[..|inputs| - 1], version);
    }
  }

  /** No two valid headers are more than 499 silent iterations apart, and the link never fails. */
  predicate Lively(c: Conn, inputs: seq<Input>) {
    (forall i :: 0 <= i < |inputs| ==> inputs[i].frame != LinkError)
    && (forall i :: 0 <= i <= |inputs| ==> SinceHeader(c.ticks, inputs[..i]) <= WATCHDOG_TICKS)
  }

  /** A connected PSP stays connected exactly as long as the link is up and headers keep coming. */
  lemma {:induction false} LivelyStaysConnected(c: Conn, inputs: seq<Input>, version: uint16)
    requires Sound(c) && c.connected
    ensures (forall i :: 0 <= i <= |inputs| ==> Run(c, inputs[..i], version).connected) <==> Lively(c, inputs)
  {
    if inputs == [] {
      assert inputs[..0] == inputs;
    } else {
      var last := |inputs| - 1;
      var before := inputs[..last];
      LivelyStaysConnected(c, before, version);
      assert forall i :: 0 <= i <= last ==> before[..i] == inputs[..i];
      assert inputs[..|inputs|] == inputs;
      LivelySplit(c, inputs);
      if Run(c, before, version).connected {
        LivelyStep(c, inputs, version);
      } else {
        assert inputs[..last] == before;
      }
    }
  }

  /** The last iteration keeps the connection alive. */
  predicate LastLively(c: Conn, inputs: seq<Input>)
    requires inputs != []
  {
    inputs[|inputs| - 1].frame != LinkError && SinceHeader(c.ticks, inputs) <= WATCHDOG_TICKS
  }

  lemma LivelySplit(c: Conn, inputs: seq<Input>)
    requires inputs != []
    ensures Lively(c, inputs) <==> (Lively(c, inputs[..|inputs| - 1]) && LastLively(c, inputs))
  {
    var before := inputs[..|inputs| - 1];
    assert forall i :: 0 <= i <= |before| ==> before[..i] == inputs[..i];
    assert inputs[..|inputs|] == inputs;
  }

  lemma LivelyStep(c: Conn, inputs: seq<Input>, version: uint16)
    requires c.connected && inputs != [] && Run(c, inputs[..|inputs| - 1], version).connected
    ensures Run(c, inputs, version).connected <==> LastLively(c, inputs)
  {
    TicksCountSilence(c, inputs[..|inputs| - 1], version);
  }
}
