/**
 The two programs joined by two FIFO channels that may lose packets but never duplicate or invent them. A packet
 whose send was reported as failed may be on its way all the same, in either direction.
 The desktop's part is DesktopLoop.Turn, the PSP's part PspConnection.Advance: the functions their loops
 are proved to compute.
 */
module Handshake {
  import opened Bytes
  import opened DesktopLoop
  import opened DesktopRuns
  import opened Messages
  import opened Options
  import opened Protocol
  import opened PspConnection
  import opened PspReceiver
  import opened UsbTransport

  /**
   `toPsp` and `toDesk` are in flight, oldest first; the rest only count: sessions the PSP opened, packets it
   dispatched, and HELLO replies that got onto the wire although their send failed.
   */
  datatype Net = Net(
    desk: Desk, psp: Conn, toPsp: seq<Message>, toDesk: seq<seq<byte>>, pspSessions: nat, dispatched: nat, strays: nat)

  /**
   One step of the world. A desktop turn may pick a packet off its channel in the handshake and in the drain;
   a PSP turn picks one up, finds the link silent, or finds it broken; a packet in flight may vanish, and one
   whose send failed on the desktop may turn up. `replyLeaks` says the same of the PSP's reply.
   */
  datatype Event =
    | DeskTurn(inputs: Inputs, takesReply: bool, takesDrain: bool)
    | PspPicksUp(payloadArrives: bool, replySent: bool, replyLeaks: bool)
    | PspIdles
    | PspLinkFails
    | LosesToPsp(at: nat)
    | LosesToDesk(at: nat)
    | FailedSendArrives(message: Message)

  function Without<T>(s: seq<T>, at: nat): seq<T> {
    if at < |s| then s[..at] + s[at + 1..] else s
  }

  /** The transfer of a HELLO reply. */
  function HelloReply(version: uint16): seq<byte> {
    HeaderBytes(Header(MAGIC, version, HELLO, 0))
  }

  lemma HelloReplyMeans(version: uint16)
    ensures Meaning(Heard(HelloReply(version))) == Got(Header(MAGIC, version, HELLO, 0))
  {
    HeaderRoundTrip(Header(MAGIC, version, HELLO, 0));
  }

  /** A reply really received is what the oldest transfer in flight means. */
  function Observed(said: Reply, takes: bool, channel: seq<seq<byte>>): Reply {
    if takes && channel != [] then Meaning(Heard(channel[0]))
    else if said.Failed? then Failed
    else NoReply
  }

  function Rest(takes: bool, channel: seq<seq<byte>>): seq<seq<byte>> {
    if takes && channel != [] then channel[1..] else channel
  }

  function DeskMoves(n: Net, e: Event): Net
    requires e.DeskTurn?
  {
    // The handshake receives only while handshaking, the drain only once online.
    var c := Greet(Discover(Commands(Click(n.desk, e.inputs), e.inputs), e.inputs), e.inputs);
    var takesReply := e.takesReply && c.phase.Handshaking?;
    var reply := Observed(e.inputs.reply, takesReply, n.toDesk);
    var left := Rest(takesReply, n.toDesk);
    var i := e.inputs.(reply := reply);
    var d := Turn(n.desk, i);
    n.(desk := d,
       toPsp := n.toPsp + d.sent[Min(|n.desk.sent|, |d.sent|)..],
       toDesk := Rest(e.takesDrain && d.phase.Online?, left))
  }

  function PspMoves(n: Net, f: Frame, replySent: bool, replyLeaks: bool, version: uint16): Net {
    var c := Advance(n.psp, f, version, replySent);
    var answers := Answers(n.psp, f, version);
    n.(psp := c,
       toDesk := if answers && (replySent || replyLeaks) then n.toDesk + [HelloReply(version)] else n.toDesk,
       strays := if answers && !replySent && replyLeaks then n.strays + 1 else n.strays,
       pspSessions := if c.connected && !n.psp.connected then n.pspSessions + 1 else n.pspSessions,
       dispatched := if Dispatches(n.psp, f) then n.dispatched + 1 else n.dispatched)
  }

  /** The frame a PSP turn sees. */
  function FrameOf(n: Net, e: Event): Frame {
    match e
    case PspPicksUp(payloadArrives, _, _) =>
      if n.toPsp == [] then Silence
      else Packet(HeaderOf(n.toPsp[0]), if payloadArrives then Some(BodyOf(n.toPsp[0])) else None)
    case PspLinkFails => LinkError
    case _ => Silence
  }

  predicate PspTurns(e: Event) {
    e.PspPicksUp? || e.PspIdles? || e.PspLinkFails?
  }

  /** `version` is the protocol version the PSP was built with; the desktop's is VERSION. */
  function Next(n: Net, e: Event, version: uint16): Net {
    match e
    case DeskTurn(_, _, _) => DeskMoves(n, e)
    case PspPicksUp(_, replySent, replyLeaks) =>
      PspMoves(n, FrameOf(n, e), replySent, replyLeaks, version).(toPsp := if n.toPsp == [] then [] else n.toPsp[1..])
    case PspIdles => PspMoves(n, Silence, false, false, version)
    case PspLinkFails => PspMoves(n, LinkError, false, false, version)
    case LosesToPsp(at) => n.(toPsp := Without(n.toPsp, at))
    case LosesToDesk(at) => n.(toDesk := Without(n.toDesk, at))
    case FailedSendArrives(m) => n.(toPsp := n.toPsp + [m])
  }

  function Trace(n: Net, events: seq<Event>, version: uint16): Net {
    if events == [] then n
    else Next(Trace(n, events[..|events| - 1], version), events[|events| - 1], version)
  }

  ghost predicate Start(n: Net) {
    n.desk.phase.Offline? && n.desk.sessions == 0 && n.desk.sent == []
    && n.psp == DISCONNECTED && n.toPsp == [] && n.toDesk == [] && n.pspSessions == 0 && n.dispatched == 0
    && n.strays == 0
  }

  // ----- agreement -----

  /**
   Every session the desktop opened, and every HELLO still in flight to it, goes back to a PSP session or a
   stray reply.
   */
  ghost predicate Agreed(n: Net) {
    n.desk.sessions + |n.toDesk| <= n.pspSessions + n.strays
  }

  lemma NextKeepsAgreement(n: Net, e: Event, version: uint16)
    requires Agreed(n)
    ensures Agreed(Next(n, e, version))
  {
    if e.DeskTurn? {
      DeskKeepsAgreement(n, e);
    }
  }

  lemma DeskKeepsAgreement(n: Net, e: Event)
    requires e.DeskTurn? && Agreed(n)
    ensures Agreed(DeskMoves(n, e))
  {
    var c := Greet(Discover(Commands(Click(n.desk, e.inputs), e.inputs), e.inputs), e.inputs);
    var takesReply := e.takesReply && c.phase.Handshaking?;
    var i := e.inputs.(reply := Observed(e.inputs.reply, takesReply, n.toDesk));
    TurnFacts(n.desk, i);
  }

  /**
   In every run the desktop has entered CONNECTED at most as often as the PSP has, unless replies got through
   whose sends the PSP was told had failed: each of those can account for one session more, and nothing else can.
   */
  lemma {:induction false} HandshakeAgreement(n: Net, events: seq<Event>, version: uint16)
    requires Start(n)
    ensures var m := Trace(n, events, version);
            && m.desk.sessions + |m.toDesk| <= m.pspSessions + m.strays
            && (m.strays == 0 ==> m.desk.sessions <= m.pspSessions)
  {
    if events != [] {
      HandshakeAgreement(n, events[..|events| - 1], version);
      NextKeepsAgreement(Trace(n, events[..|events| - 1], version), events[|events| - 1], version);
    }
  }

  // ----- versions that differ -----

  ghost predicate Apart(n: Net) {
    !n.desk.phase.Online? && n.desk.sessions == 0 && !n.psp.connected && n.toDesk == []
    && n.pspSessions == 0 && n.dispatched == 0
  }

  /** With different protocol versions neither side ever reaches CONNECTED and nothing is ever dispatched. */
  lemma {:induction false} VersionMismatchNeverConnects(n: Net, events: seq<Event>, version: uint16)
    requires Start(n) && version != VERSION
    ensures Apart(Trace(n, events, version))
  {
    if events != [] {
      VersionMismatchNeverConnects(n, events[..|events| - 1], version);
      StaysApart(Trace(n, events[..|events| - 1], version), events[|events| - 1], version);
    }
  }

  lemma StaysApart(n: Net, e: Event, version: uint16)
    requires Apart(n) && version != VERSION
    ensures Apart(Next(n, e, version))
  {
    if e.DeskTurn? {
      TurnFacts(n.desk, e.inputs.(reply := Observed(e.inputs.reply, false, n.toDesk)));
      assert Observed(e.inputs.reply, true, []) == Observed(e.inputs.reply, false, []);
    }
  }

  // ----- reconnecting -----

  /** The desktop is still looking for an answer that is not on its way. */
  ghost predicate Waiting(n: Net, sessions: nat) {
    !n.desk.phase.Online? && n.desk.sessions == sessions && n.toDesk == []
  }

  /** While the PSP is connected it answers no HELLO, so a desktop without a reply in flight stays unconnected. */
  lemma WaitingStep(n: Net, e: Event, version: uint16)
    requires Waiting(n, n.desk.sessions) && n.psp.connected
    ensures Waiting(Next(n, e, version), n.desk.sessions)
  {
    if e.DeskTurn? {
      TurnFacts(n.desk, e.inputs.(reply := Observed(e.inputs.reply, false, n.toDesk)));
      assert Observed(e.inputs.reply, true, []) == Observed(e.inputs.reply, false, []);
    }
  }

  /**
   If the desktop (re)starts its handshake while the PSP still believes in the old session, the desktop can
   only get through after the PSP has dropped that session: as long as the PSP was connected before every
   step, the desktop never gets online.
   */
  lemma {:induction false} ReconnectNeedsPspDrop(n: Net, events: seq<Event>, version: uint16)
    requires n.desk.phase.Handshaking? && n.psp.connected && n.toDesk == []
    requires forall k :: 0 <= k < |events| ==> Trace(n, events[..k], version).psp.connected
    ensures Waiting(Trace(n, events, version), n.desk.sessions)
  {
    if events != [] {
      var last := |events| - 1;
      assert forall k :: 0 <= k < last ==> events[..last][..k] == events[..k];
      ReconnectNeedsPspDrop(n, events[..last], version);
      WaitingStep(Trace(n, events[..last], version), events[last], version);
    }
  }

  /** Whether the PSP was connected: before the first step, and after each. */
  ghost function Connections(n: Net, events: seq<Event>, version: uint16): (up: seq<bool>)
    ensures |up| == |events| + 1
  {
    seq(|events| + 1, k requires 0 <= k < |events| + 1 => Trace(n, events[..k], version).psp.connected)
  }

  /**
   Put the other way round: a run that gets such a desktop online contains a step in which the PSP drops its
   session.
   */
  lemma OnlineAfterPspDrop(n: Net, events: seq<Event>, version: uint16) returns (k: nat)
    requires n.desk.phase.Handshaking? && n.psp.connected && n.toDesk == []
    requires Trace(n, events, version).desk.phase.Online?
    ensures k < |events|
    ensures var up := Connections(n, events, version); up[k] && !up[k + 1]
  {
    var down := SomeDrop(n, events, version);
    k := LastUp(Connections(n, events, version), down);
  }

  lemma SomeDrop(n: Net, events: seq<Event>, version: uint16) returns (down: nat)
    requires n.desk.phase.Handshaking? && n.psp.connected && n.toDesk == []
    requires Trace(n, events, version).desk.phase.Online?
    ensures down < |events| && Connections(n, events, version)[0] && !Connections(n, events, version)[down]
  {
    assert events[..0] == [];
    if forall j :: 0 <= j < |events| ==> Trace(n, events[..j], version).psp.connected {
      ReconnectNeedsPspDrop(n, events, version);
      assert false;
    }
    down :| down < |events| && !Trace(n, events[..down], version).psp.connected;
  }

  /** Before a disconnected moment there is a step that disconnected. */
  lemma {:induction false} LastUp(up: seq<bool>, down: nat) returns (k: nat)
    requires down < |up| && up[0] && !up[down]
    ensures k < down && up[k] && !up[k + 1]
  {
    if up[down - 1] {
      k := down - 1;
    } else {
      k := LastUp(up, down - 1);
    }
  }

  /** What the PSP's loop saw in a run. */
  function PspInputs(n: Net, events: seq<Event>, version: uint16): seq<Input> {
    if events == [] then []
    else
      var before, e := events[..|events| - 1], events[|events| - 1];
      var seen := PspInputs(n, before, version);
      if PspTurns(e) then seen + [Input(FrameOf(Trace(n, before, version), e), e.PspPicksUp? && e.replySent)] else seen
  }

  lemma PspStepsAlone(n: Net, e: Event, version: uint16)
    ensures Next(n, e, version).psp ==
            if PspTurns(e) then Advance(n.psp, FrameOf(n, e), version, e.PspPicksUp? && e.replySent) else n.psp
  {
  }

  lemma RunSnoc(c: Conn, seen: seq<Input>, x: Input, version: uint16)
    ensures Run(c, seen + [x], version) == Advance(Run(c, seen, version), x.frame, version, x.replySent)
  {
    assert (seen + [x])[..|seen|] == seen;
  }

  lemma {:induction false} PspRunsAlone(n: Net, events: seq<Event>, version: uint16)
    ensures Trace(n, events, version).psp == Run(n.psp, PspInputs(n, events, version), version)
  {
    if events != [] {
      var before, e := events[..|events| - 1], events[|events| - 1];
      var m := Trace(n, before, version);
      PspRunsAlone(n, before, version);
      PspStepsAlone(m, e, version);
      RunSnoc(n.psp, PspInputs(n, before, version), Input(FrameOf(m, e), e.PspPicksUp? && e.replySent), version);
    }
  }

  lemma {:induction false} PspInputsPrefix(n: Net, events: seq<Event>, k: nat, version: uint16)
    requires k <= |events|
    ensures var all := PspInputs(n, events, version);
            var part := PspInputs(n, events[..k], version);
            part <= all
  {
    if k < |events| {
      var before := events[..|events| - 1];
      PspInputsPrefix(n, before, k, version);
      assert before[..k] == events[..k];
    } else {
      assert events[..k] == events;
    }
  }

  /**
   The reconnect trap: every packet resets the PSP's watchdog, the unanswered HELLOs included. As long as
   some packet reaches the PSP within every 500 iterations and its link does not fail, the PSP holds on to the
   old session and the desktop's handshake never completes, however long it is repeated.
   */
  lemma ReconnectTrap(n: Net, events: seq<Event>, version: uint16)
    requires n.desk.phase.Handshaking? && n.psp.connected && Sound(n.psp) && n.toDesk == []
    requires Lively(n.psp, PspInputs(n, events, version))
    ensures Trace(n, events, version).psp.connected
    ensures Waiting(Trace(n, events, version), n.desk.sessions)
  {
    var all := PspInputs(n, events, version);
    LivelyStaysConnected(n.psp, all, version);
    forall k | 0 <= k <= |events| ensures Trace(n, events[..k], version).psp.connected {
      PspInputsPrefix(n, events, k, version);
      PspRunsAlone(n, events[..k], version);
      var part := PspInputs(n, events[..k], version);
      assert all[..|part|] == part;
    }
    assert events[..|events|] == events;
    ReconnectNeedsPspDrop(n, events, version);
  }

  /** A desktop that asks, a PSP that picks the HELLO up, and a desktop that looks for the reply; nothing is lost. */
  function HelloExchange(ask: Inputs, answer: Inputs): seq<Event> {
    [DeskTurn(ask, true, false), PspPicksUp(true, true, false), DeskTurn(answer, true, false)]
  }

  /**
   One loss-free HELLO exchange takes the desktop to CONNECTED exactly when the PSP was disconnected and speaks the
   same version; then both sides are connected, with one session more on each.
   */
  lemma OneExchangeConnects(n: Net, ask: Inputs, answer: Inputs, version: uint16)
    requires n.desk.phase.Handshaking? && n.toPsp == [] && n.toDesk == []
    requires Untroubled(ask) && !ask.reply.Failed? && Due(ask.helloAt, n.desk.lastHello, SECOND, 1)
    requires Untroubled(answer)
    ensures var m := Trace(n, HelloExchange(ask, answer), version);
            && (m.desk.phase.Online? <==> !n.psp.connected && version == VERSION)
            && (m.desk.phase.Online? ==>
                  m.psp.connected && m.desk.sessions == n.desk.sessions + 1 && m.pspSessions == n.pspSessions + 1)
  {
    var e1, e2, e3 := DeskTurn(ask, true, false), PspPicksUp(true, true, false), DeskTurn(answer, true, false);
    TraceOfThree(n, e1, e2, e3, version);
    HelloGoesOut(n, ask, version);
    var n1 := Next(n, e1, version);
    HelloIsHeard(n1, version);
    var n2 := Next(n1, e2, version);
    if !n.psp.connected && version == VERSION {
      ReplyComesIn(n2, answer, version);
    } else {
      NoReplyComesIn(n2, answer, version);
    }
  }

  /**
   What the send of the reply comes to decides everything, for a disconnected PSP of the same version and nothing
   lost: the desktop gets online exactly when the reply is on the wire, and the agreement of the two session counts
   is kept exactly when it is not there against the PSP's knowledge. A stray reply connects the desktop to nobody.
   */
  lemma ReplySendDecides(n: Net, ask: Inputs, answer: Inputs, sent: bool, leaks: bool)
    requires n.desk.phase.Handshaking? && n.toPsp == [] && n.toDesk == [] && !n.psp.connected
    requires Untroubled(ask) && !ask.reply.Failed? && Due(ask.helloAt, n.desk.lastHello, SECOND, 1)
    requires Untroubled(answer)
    ensures var e1, e2, e3 := DeskTurn(ask, true, false), PspPicksUp(true, sent, leaks), DeskTurn(answer, true, false);
            var m := Trace(n, [e1, e2, e3], VERSION);
            && (m.desk.phase.Online? <==> sent || leaks)
            && (m.psp.connected <==> sent)
            && ((m.desk.phase.Online? ==> m.psp.connected) <==> sent || !leaks)
            && (m.desk.sessions - n.desk.sessions <= m.pspSessions - n.pspSessions <==> sent || !leaks)
  {
    var e1, e2, e3 := DeskTurn(ask, true, false), PspPicksUp(true, sent, leaks), DeskTurn(answer, true, false);
    TraceOfThree(n, e1, e2, e3, VERSION);
    HelloGoesOut(n, ask, VERSION);
    var n1 := Next(n, e1, VERSION);
    ReplyGoesOut(n1, sent, leaks);
    var n2 := Next(n1, e2, VERSION);
    if sent || leaks {
      ReplyComesIn(n2, answer, VERSION);
    } else {
      NoReplyComesIn(n2, answer, VERSION);
    }
  }

  /** A disconnected PSP that hears a HELLO of its version is connected exactly when told that its reply went out. */
  lemma ReplyGoesOut(n: Net, sent: bool, leaks: bool)
    requires n.toPsp == [Hello] && n.toDesk == [] && !n.psp.connected
    ensures var m := Next(n, PspPicksUp(true, sent, leaks), VERSION);
            && m.desk == n.desk && m.psp.connected == sent && m.pspSessions == n.pspSessions + (if sent then 1 else 0)
            && m.toDesk == if sent || leaks then [HelloReply(VERSION)] else []
  {
  }

  lemma TraceOfThree(n: Net, e1: Event, e2: Event, e3: Event, version: uint16)
    ensures Trace(n, [e1, e2, e3], version) == Next(Next(Next(n, e1, version), e2, version), e3, version)
  {
    TraceSnoc(n, [], e1, version);
    TraceTwoMore(n, [e1], e2, e3, version);
    assert [] + [e1] == [e1] && [e1] + [e2, e3] == [e1, e2, e3];
  }

  lemma HelloGoesOut(n: Net, i: Inputs, version: uint16)
    requires n.desk.phase.Handshaking? && n.toPsp == [] && n.toDesk == []
    requires Goes(i.helloSend) && !i.reply.Failed? && Due(i.helloAt, n.desk.lastHello, SECOND, 1)
    ensures var m := Next(n, DeskTurn(i, true, false), version);
            m == n.(desk := m.desk, toPsp := [Hello]) && m.desk.phase.Handshaking? && m.desk.sessions == n.desk.sessions
            && m.desk.lastHello == i.helloAt
  {
  }

  /** The PSP answers a HELLO exactly when it is disconnected and of the desktop's version. */
  lemma HelloIsHeard(n: Net, version: uint16)
    requires n.toPsp == [Hello] && n.toDesk == []
    ensures var m := Next(n, PspPicksUp(true, true, false), version);
            && m.desk == n.desk
            && if !n.psp.connected && version == VERSION then
                 m.toDesk == [HelloReply(VERSION)] && m.psp.connected && m.pspSessions == n.pspSessions + 1
               else m.toDesk == []
  {
  }

  /** A desktop that is handshaking and has no reply in flight does not get online in this turn. */
  lemma NoReplyComesIn(n: Net, i: Inputs, version: uint16)
    requires n.desk.phase.Handshaking? && n.toDesk == []
    ensures var m := Next(n, DeskTurn(i, true, false), version);
            && !m.desk.phase.Online? && m.desk.sessions == n.desk.sessions
            && m.psp == n.psp && m.pspSessions == n.pspSessions
  {
    TurnFacts(n.desk, i.(reply := Observed(i.reply, false, n.toDesk)));
    assert Observed(i.reply, true, []) == Observed(i.reply, false, []);
  }

  lemma ReplyComesIn(n: Net, i: Inputs, version: uint16)
    requires n.desk.phase.Handshaking? && n.toDesk == [HelloReply(VERSION)] && Untroubled(i)
    ensures var m := Next(n, DeskTurn(i, true, false), version);
            m.desk.phase.Online? && m.desk.sessions == n.desk.sessions + 1
            && m.psp == n.psp && m.pspSessions == n.pspSessions && m.strays == n.strays
  {
    HelloReplyMeans(VERSION);
    var j := i.(reply := Got(Header(MAGIC, VERSION, HELLO, 0)));
    HelloConnects(n.desk, j);
    ServingStaysOnline(Connect(Commands(Click(n.desk, j), j), j), j);
  }

  // ----- the trap is real -----

  /** Rounds of a desktop retrying its HELLO and a PSP picking every one up: no loss, no error, no delay. */
  function Rounds(asks: seq<Inputs>): seq<Event> {
    if asks == [] then []
    else Rounds(asks[..|asks| - 1]) + [DeskTurn(asks[|asks| - 1], true, true), PspPicksUp(true, true, false)]
  }

  function LastAsk(start: Time, asks: seq<Inputs>): Time {
    if asks == [] then start else asks[|asks| - 1].helloAt
  }

  /** Every round sends its HELLO, a second or more after the one before. */
  predicate Retries(start: Time, asks: seq<Inputs>) {
    asks == [] ||
    var before, ask := asks[..|asks| - 1], asks[|asks| - 1];
    Retries(start, before) && Goes(ask.helloSend) && !ask.reply.Failed?
    && Due(ask.helloAt, LastAsk(start, before), SECOND, 1)
  }

  /**
   The documentation promises that reconnecting needs no restart. It fails whenever the desktop restarts its
   handshake while the PSP is connected (or of another version): however many HELLOs are sent and received,
   neither side moves.
   */
  lemma {:induction false} RetryingNeverConnects(n: Net, asks: seq<Inputs>, version: uint16)
    requires n.desk.phase.Handshaking? && n.toPsp == [] && n.toDesk == []
    requires n.psp.connected || version != VERSION
    requires Retries(n.desk.lastHello, asks)
    ensures var m := Trace(n, Rounds(asks), version);
            && m.desk.phase.Handshaking? && m.psp.connected == n.psp.connected && m.toPsp == [] && m.toDesk == []
            && m.desk.lastHello == LastAsk(n.desk.lastHello, asks)
            && m.desk.sessions == n.desk.sessions && m.pspSessions == n.pspSessions
  {
    if asks != [] {
      var before, ask := asks[..|asks| - 1], asks[|asks| - 1];
      RetryingNeverConnects(n, before, version);
      var m := Trace(n, Rounds(before), version);
      RetryRound(m, ask, version);
      TraceTwoMore(n, Rounds(before), DeskTurn(ask, true, true), PspPicksUp(true, true, false), version);
    }
  }

  lemma RetryRound(n: Net, ask: Inputs, version: uint16)
    requires n.desk.phase.Handshaking? && n.toPsp == [] && n.toDesk == []
    requires n.psp.connected || version != VERSION
    requires Goes(ask.helloSend) && !ask.reply.Failed? && Due(ask.helloAt, n.desk.lastHello, SECOND, 1)
    ensures var m := Next(Next(n, DeskTurn(ask, true, true), version), PspPicksUp(true, true, false), version);
            && m.desk.phase.Handshaking? && m.psp.connected == n.psp.connected && m.toPsp == [] && m.toDesk == []
            && m.desk.lastHello == ask.helloAt
            && m.desk.sessions == n.desk.sessions && m.pspSessions == n.pspSessions
  {
    var m := Next(n, DeskTurn(ask, true, true), version);
    assert m == n.(desk := m.desk, toPsp := [Hello]) && m.desk.lastHello == ask.helloAt;
  }

  lemma TraceTwoMore(n: Net, events: seq<Event>, e1: Event, e2: Event, version: uint16)
    ensures Trace(n, events + [e1, e2], version) == Next(Next(Trace(n, events, version), e1, version), e2, version)
  {
    OneByOne(events, e1, e2);
    TraceSnoc(n, events, e1, version);
    TraceSnoc(n, events + [e1], e2, version);
  }

  lemma OneByOne(events: seq<Event>, e1: Event, e2: Event)
    ensures events + [e1, e2] == (events + [e1]) + [e2]
  {
  }

  lemma TraceSnoc(n: Net, events: seq<Event>, e: Event, version: uint16)
    ensures Trace(n, events + [e], version) == Next(Trace(n, events, version), e, version)
  {
    assert (events + [e])[..|events|] == events;
  }
}
