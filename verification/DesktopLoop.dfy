/** The desktop main loop (apps/desktop/src/main.cpp): connection phases, interval-gated senders, USB handle. */
module DesktopLoop {
  import opened Bytes
  import opened Messages
  import opened Options
  import PacketCodec
  import opened Protocol
  import opened UsbTransport

  datatype Phase = Offline | Handshaking | Online

  /** A reading of the steady clock, in nanoseconds. */
  type Time = int

  const SECOND: Time := 1_000_000_000
  const MILLISECOND: Time := 1_000_000

  /** `duration_cast`: the quotient truncated toward zero. */
  function Whole(d: Time, unit: Time): int
    requires unit > 0
  {
    if d >= 0 then d / unit else -((-d) / unit)
  }

  predicate Due(now: Time, last: Time, unit: Time, interval: int)
    requires unit > 0
  {
    Whole(now - last, unit) >= interval
  }

  /** What a receive of one header brought: up to its 12 bytes, or a transport error. */
  datatype Incoming = Heard(bytes: seq<byte>) | Lost

  /** What that means: nothing valid, a header, or an error. */
  datatype Reply = NoReply | Got(header: Header) | Failed

  /** Too few bytes and a foreign magic are passed over. */
  function Meaning(received: Incoming): Reply {
    match received
    case Lost => Failed
    case Heard(bytes) =>
      if |bytes| >= HEADER_SIZE && ParseHeader(bytes).magic == MAGIC then Got(ParseHeader(bytes)) else NoReply
  }

  /** Everything one iteration takes from outside: libusb, the clock, the config, the services, the dashboard. */
  datatype Inputs = Inputs(
    exitClicked: bool, rebootClicked: bool, probe: Probe, foundAt: Time, helloAt: Time, connectedAt: Time, now: Time,
    commandSend: Sending, helloSend: Sending, heartbeatSend: Sending,
    statsSend: Sending, gitSend: Sending, notifSend: Sending,
    reply: Reply, drain: Reply,
    statsEvery: int, gitEvery: int, notifEvery: int,
    gitOn: bool, gitStillOn: bool, notifOn: bool, notifStillOn: bool,
    stats: Stats, git: Message, latest: Option<Message>)

  ghost predicate Sane(i: Inputs) {
    i.git.GitReport? && (i.latest.Some? ==> i.latest.value.NotifReport?)
  }

  /** The reply of an iteration is what the bytes received in it mean. */
  predicate Brought(i: Inputs, received: Incoming) {
    i.reply == Meaning(received) && (received.Heard? ==> |received.bytes| <= HEADER_SIZE)
  }

  datatype Desk = Desk(
    phase: Phase, lastHello: Time, lastHeartbeat: Time, lastStats: Time, lastGit: Time, lastNotif: Time,
    exitAsked: bool, rebootAsked: bool, sent: seq<Message>, sessions: nat)

  function Drop(d: Desk): Desk {
    d.(phase := Offline)
  }

  /** The dashboard's thread raises a flag for each click. */
  function Click(d: Desk, i: Inputs): Desk {
    d.(exitAsked := d.exitAsked || i.exitClicked, rebootAsked := d.rebootAsked || i.rebootClicked)
  }

  function Tell(d: Desk, id: byte, s: Sending): Desk {
    if Goes(s) then d.(sent := d.sent + [Command(id)]) else d
  }

  /** Dashboard commands are sent while online, exit before reboot; their outcome is ignored. */
  function Commands(d: Desk, i: Inputs): Desk {
    if !d.phase.Online? then d
    else if d.exitAsked then Tell(d.(exitAsked := false), 1, i.commandSend)
    else if d.rebootAsked then Tell(d.(rebootAsked := false), 2, i.commandSend)
    else d
  }

  function Discover(d: Desk, i: Inputs): Desk {
    if d.phase.Offline? && Succeeds(i.probe) then d.(phase := Handshaking, lastHello := i.foundAt - 2 * SECOND) else d
  }

  /** HELLO at most once a second. */
  function Greet(d: Desk, i: Inputs): Desk {
    if !d.phase.Handshaking? || !Due(i.helloAt, d.lastHello, SECOND, 1) then d
    else if !Goes(i.helloSend) then Drop(d)
    else d.(lastHello := i.helloAt, sent := d.sent + [Hello])
  }

  /** Any HELLO back, of whatever version, completes the handshake. */
  function Await(d: Desk, i: Inputs): Desk {
    if !d.phase.Handshaking? then d
    else match i.reply
      case NoReply => d
      case Failed => Drop(d)
      case Got(h) =>
        if h.messageId != HELLO then d
        else d.(phase := Online, sessions := d.sessions + 1, lastHeartbeat := i.connectedAt,
                lastStats := i.connectedAt, lastGit := i.connectedAt, lastNotif := i.connectedAt)
  }

  function Beat(d: Desk, i: Inputs): Desk {
    if !d.phase.Online? || !Due(i.now, d.lastHeartbeat, SECOND, 2) then d
    else if !Goes(i.heartbeatSend) then Drop(d)
    else d.(lastHeartbeat := i.now, sent := d.sent + [Heartbeat])
  }

  function ReportStats(d: Desk, i: Inputs): Desk {
    if !d.phase.Online? || !Due(i.now, d.lastStats, MILLISECOND, i.statsEvery) then d
    else if !Goes(i.statsSend) then Drop(d)
    else d.(lastStats := i.now, sent := d.sent + [StatsReport(i.stats)])
  }

  function ReportGit(d: Desk, i: Inputs): Desk {
    if !d.phase.Online? then d
    else if i.gitOn && Due(i.now, d.lastGit, MILLISECOND, i.gitEvery) then
      if !Goes(i.gitSend) then Drop(d) else d.(lastGit := i.now, sent := d.sent + [i.git])
    else if !i.gitStillOn then d.(lastGit := i.now)
    else d
  }

  function ReportNotif(d: Desk, i: Inputs): Desk {
    if !d.phase.Online? then d
    else if i.notifOn && Due(i.now, d.lastNotif, MILLISECOND, i.notifEvery) then
      if i.latest.None? then d.(lastNotif := i.now)
      else if !Goes(i.notifSend) then Drop(d)
      else d.(lastNotif := i.now, sent := d.sent + [i.latest.value])
    else if !i.notifStillOn then d.(lastNotif := i.now)
    else d
  }

  function Drain(d: Desk, i: Inputs): Desk {
    if d.phase.Online? && i.drain.Failed? then Drop(d) else d
  }

  /** The part of an iteration that runs online. */
  function Serve(d: Desk, i: Inputs): Desk {
    Drain(ReportNotif(ReportGit(ReportStats(Beat(d, i), i), i), i), i)
  }

  /** The part that looks for the PSP and shakes hands. */
  function Connect(d: Desk, i: Inputs): Desk {
    Await(Greet(Discover(d, i), i), i)
  }

  /** One iteration of `while (true)`. */
  function Turn(d: Desk, i: Inputs): Desk {
    Serve(Connect(Commands(Click(d, i), i), i), i)
  }

  /** A send that was tried: the message, and what the transfer of its packet did. */
  datatype Try = Try(message: Message, sending: Sending)

  /** The wire carries, transfer by transfer, what the tries put on it. */
  ghost predicate Encodes(wire: seq<seq<byte>>, tries: seq<Try>) {
    |wire| == |tries|
    && forall k :: 0 <= k < |wire| ==> wire[k] == Moved(tries[k].sending, WireBytes(tries[k].message))
  }

  /** The messages whose transfers succeeded. */
  function Delivered(tries: seq<Try>): seq<Message> {
    if tries == [] then []
    else
      var last := tries[|tries| - 1];
      Delivered(tries[..|tries| - 1]) + (if Goes(last.sending) then [last.message] else [])
  }

  /** One more try puts what its transfer moved behind what is on the wire. */
  lemma OneMoreTry(wire: seq<seq<byte>>, tries: seq<Try>, t: Try, packet: seq<byte>)
    requires Encodes(wire, tries) && packet == WireBytes(t.message)
    ensures Encodes(wire + [Moved(t.sending, packet)], tries + [t])
    ensures Delivered(tries + [t]) == if Goes(t.sending) then Delivered(tries) + [t.message] else Delivered(tries)
  {
    assert (tries + [t])[..|tries|] == tries;
  }

  class Desktop {
    const usb: Usb
    var phase: Phase
    var lastHello: Time
    var lastHeartbeat: Time
    var lastStats: Time
    var lastGit: Time
    var lastNotif: Time
    var exitAsked: bool
    var rebootAsked: bool
    ghost var tries: seq<Try>
    ghost var sent: seq<Message>
    ghost var sessions: nat

    ghost function State(): Desk
      reads this
    {
      Desk(phase, lastHello, lastHeartbeat, lastStats, lastGit, lastNotif, exitAsked, rebootAsked, sent, sessions)
    }

    /**
     Offline means no handle, a handle means a context, and the wire holds the packets of what was sent, whole,
     between what failed transfers left of theirs.
     */
    ghost predicate Valid()
      reads this, usb
    {
      usb.Valid() && (phase.Offline? <==> !usb.handle) && Encodes(usb.wire, tries) && sent == Delivered(tries)
    }

    constructor (start: Time)
      ensures Valid() && fresh(usb)
      ensures State() == Desk(Offline, start, start, start, start, start, false, false, [], 0)
    {
      usb := new Usb();
      phase, exitAsked, rebootAsked := Offline, false, false;
      lastHello, lastHeartbeat, lastStats, lastGit, lastNotif := start, start, start, start, start;
      tries, sent, sessions := [], [], 0;
    }

    /** Builds the packet of `m` and hands it to the transport. */
    method Transmit(m: Message, s: Sending) returns (ok: bool)
      requires Valid()
      modifies this`sent, this`tries, usb`wire
      ensures Valid() && ok == (usb.handle && Goes(s))
      ensures ok ==> usb.wire == old(usb.wire) + [WireBytes(m)]
      ensures State() == if ok then old(State()).(sent := old(sent) + [m]) else old(State())
    {
      var txBuf := BuildPacket(m);
      ok := HandOver(txBuf[..], m, s);
    }

    /** `transport_send` of the packet of `m`. */
    method HandOver(packet: seq<byte>, ghost m: Message, s: Sending) returns (ok: bool)
      requires Valid() && packet != [] && packet == WireBytes(m)
      modifies this`sent, this`tries, usb`wire
      ensures Valid() && ok == (usb.handle && Goes(s))
      ensures ok ==> usb.wire == old(usb.wire) + [packet]
      ensures sent == if ok then old(sent) + [m] else old(sent)
    {
      OneMoreTry(usb.wire, tries, Try(m, s), packet);
      ok := usb.Send(packet, s);
      if usb.handle {
        tries := tries + [Try(m, s)];
        sent := Delivered(tries);
      }
    }

    /** Shuts the transport down and goes offline. */
    method Disconnect()
      requires Valid()
      modifies this`phase, usb
      ensures Valid() && State() == Drop(old(State()))
    {
      usb.Shutdown();
      phase := Offline;
    }

    /** What every sender of the loop does: a failed send ends the connection. */
    method SendOrDrop(m: Message, s: Sending) returns (ok: bool)
      requires Valid() && !phase.Offline?
      modifies this`phase, this`sent, this`tries, usb
      ensures Valid() && ok == Goes(s)
      ensures State() == if ok then old(State()).(sent := old(sent) + [m]) else Drop(old(State()))
    {
      ok := Transmit(m, s);
      if !ok {
        Disconnect();
      }
    }

    method NoteClicks(i: Inputs)
      requires Valid()
      modifies this`exitAsked, this`rebootAsked
      ensures Valid() && State() == Click(old(State()), i)
    {
      if i.exitClicked {
        exitAsked := true;
      }
      if i.rebootClicked {
        rebootAsked := true;
      }
    }

    method PollDashboard(i: Inputs)
      requires Valid()
      modifies this`exitAsked, this`rebootAsked, this`sent, this`tries, usb`wire
      ensures Valid() && State() == Commands(old(State()), i)
    {
      if phase.Online? {
        if exitAsked {
          exitAsked := false;
          SendCommand(1, i.commandSend);
        } else if rebootAsked {
          rebootAsked := false;
          SendCommand(2, i.commandSend);
        }
      }
    }

    /** A command is sent once, and nobody looks whether it went out. */
    method SendCommand(id: byte, s: Sending)
      requires Valid() && !phase.Offline?
      modifies this`sent, this`tries, usb`wire
      ensures Valid() && State() == Tell(old(State()), id, s)
    {
      var _ := Transmit(Command(id), s);
    }

    method Search(i: Inputs)
      requires Valid()
      modifies this, usb
      ensures Valid() && State() == Discover(old(State()), i)
    {
      if phase.Offline? {
        var found := usb.Initialize(i.probe);
        if found {
          phase := Handshaking;
          lastHello := i.foundAt - 2 * SECOND;
        }
      }
    }

    method SayHello(i: Inputs)
      requires Valid()
      modifies this, usb
      ensures Valid() && State() == Greet(old(State()), i)
    {
      if phase.Handshaking? && Whole(i.helloAt - lastHello, SECOND) >= 1 {
        var ok := SendOrDrop(Hello, i.helloSend);
        if !ok {
          return;
        }
        lastHello := i.helloAt;
      }
    }

    /** Receives a header into the loop's buffer and parses it. */
    method ReceiveReply(received: Incoming) returns (reply: Reply)
      requires received.Heard? ==> |received.bytes| <= HEADER_SIZE
      ensures reply == Meaning(received)
      ensures reply.Failed? <==> received.Lost?
      ensures reply.Got?
              <==> received.Heard? && |received.bytes| == HEADER_SIZE && ParseHeader(received.bytes).magic == MAGIC
    {
      if received.Lost? {
        return Failed;
      }
      var rxBuf, size := new byte[HEADER_SIZE](_ => 0), |received.bytes|;
      forall k | 0 <= k < size {
        rxBuf[k] := received.bytes[k];
      }
      if size >= HEADER_SIZE {
        assert rxBuf[..] == received.bytes;
        var code, header := PacketCodec.DeserializeHeader(rxBuf, size, Some(Header(0, 0, 0, 0)));
        if code == 0 {
          return Got(header.value);
        }
      }
      return NoReply;
    }

    /** `received` is what the receive of this iteration brings, if it gets that far. */
    method AwaitReply(i: Inputs, received: Incoming)
      requires Valid() && Brought(i, received)
      modifies this, usb
      ensures Valid() && State() == Await(old(State()), i)
    {
      if phase.Handshaking? {
        var reply := ReceiveReply(received);
        match reply {
          case NoReply =>
          case Failed =>
            Disconnect();
          case Got(h) =>
            if h.messageId == HELLO {
              OpenSession(i);
            }
        }
      }
    }

    /** CONNECTED, with all timers restarted. */
    method OpenSession(i: Inputs)
      requires Valid() && phase.Handshaking?
      modifies this
      ensures Valid()
      ensures State() == old(State()).(phase := Online, sessions := old(sessions) + 1, lastHeartbeat := i.connectedAt,
                                       lastStats := i.connectedAt, lastGit := i.connectedAt, lastNotif := i.connectedAt)
    {
      phase := Online;
      sessions := sessions + 1;
      lastHeartbeat, lastStats := i.connectedAt, i.connectedAt;
      lastGit, lastNotif := i.connectedAt, i.connectedAt;
    }

    method SendHeartbeat(i: Inputs)
      requires Valid()
      modifies this, usb
      ensures Valid() && State() == Beat(old(State()), i)
    {
      if phase.Online? && Whole(i.now - lastHeartbeat, SECOND) >= 2 {
        var ok := SendOrDrop(Heartbeat, i.heartbeatSend);
        if !ok {
          return;
        }
        lastHeartbeat := i.now;
      }
    }

    method SendStats(i: Inputs)
      requires Valid()
      modifies this, usb
      ensures Valid() && State() == ReportStats(old(State()), i)
    {
      if phase.Online? && Whole(i.now - lastStats, MILLISECOND) >= i.statsEvery {
        var ok := SendOrDrop(StatsReport(i.stats), i.statsSend);
        if !ok {
          return;
        }
        lastStats := i.now;
      }
    }

    method SendGit(i: Inputs)
      requires Valid() && Sane(i)
      modifies this, usb
      ensures Valid() && State() == ReportGit(old(State()), i)
    {
      if phase.Online? {
        if i.gitOn && Whole(i.now - lastGit, MILLISECOND) >= i.gitEvery {
          var ok := SendOrDrop(i.git, i.gitSend);
          if !ok {
            return;
          }
          lastGit := i.now;
        }
        if !i.gitStillOn {
          lastGit := i.now;
        }
      }
    }

    method SendNotification(i: Inputs)
      requires Valid() && Sane(i)
      modifies this, usb
      ensures Valid() && State() == ReportNotif(old(State()), i)
    {
      if phase.Online? {
        if i.notifOn && Whole(i.now - lastNotif, MILLISECOND) >= i.notifEvery {
          if i.latest.Some? {
            var ok := SendOrDrop(i.latest.value, i.notifSend);
            if !ok {
              return;
            }
          }
          lastNotif := i.now;
        }
        if !i.notifStillOn {
          lastNotif := i.now;
        }
      }
    }

    /** One iteration of the loop; `Valid` is its invariant. */
    method Iterate(i: Inputs, received: Incoming)
      requires Valid() && Sane(i) && Brought(i, received)
      modifies this, usb
      ensures Valid() && State() == Turn(old(State()), i)
    {
      NoteClicks(i);
      PollDashboard(i);
      Search(i);
      SayHello(i);
      AwaitReply(i, received);
      SendHeartbeat(i);
      SendStats(i);
      SendGit(i);
      SendNotification(i);
      if phase.Online? && i.drain.Failed? {
        Disconnect();
      }
    }
  }

  // ----- runs -----

  function Turns(d: Desk, inputs: seq<Inputs>): Desk {
    if inputs == [] then d
    else
      var last := |inputs| - 1;
      Turn(Turns(d, inputs[..last]), inputs[last])
  }

  /** The clock readings of one iteration, in the order they are taken, all after `t`. */
  predicate Ticking(t: Time, i: Inputs) {
    t <= i.foundAt <= i.helloAt <= i.connectedAt <= i.now
  }

  function Latest(t: Time, inputs: seq<Inputs>): Time {
    if inputs == [] then t else inputs[|inputs| - 1].now
  }

  /** The steady clock never runs backwards. */
  predicate Monotone(t: Time, inputs: seq<Inputs>) {
    inputs == [] ||
    (Monotone(t, inputs[..|inputs| - 1]) && Ticking(Latest(t, inputs[..|inputs| - 1]), inputs[|inputs| - 1]))
  }

  /** Book-keeping of a session: when it began and the sum of the intervals in force at each send of a kind. */
  datatype Account = Account(began: Time, heartbeats: int, stats: int, git: int, notifs: int)

  function Opened(a: Account, d: Desk, e: Desk, i: Inputs): Account {
    if e.sessions > d.sessions then Account(i.connectedAt, 0, 0, 0, 0) else a
  }

  /** Adds an interval for every kind of message the online part of an iteration sent. */
  function BookServe(a: Account, d: Desk, i: Inputs): Account {
    var b := Beat(d, i);
    var s := ReportStats(b, i);
    var t := ReportGit(s, i);
    var n := ReportNotif(t, i);
    Account(a.began,
            a.heartbeats + (if |b.sent| > |d.sent| then 2 * SECOND else 0),
            a.stats + (if |s.sent| > |b.sent| then i.statsEvery * MILLISECOND else 0),
            a.git + (if |t.sent| > |s.sent| then i.gitEvery * MILLISECOND else 0),
            a.notifs + (if |n.sent| > |t.sent| then i.notifEvery * MILLISECOND else 0))
  }

  /** The account after an iteration; a fresh session starts from an empty one. */
  function Book(a: Account, d: Desk, i: Inputs): Account {
    var c := Connect(Commands(Click(d, i), i), i);
    BookServe(Opened(a, d, c, i), c, i)
  }

  function Books(a: Account, d: Desk, inputs: seq<Inputs>): Account {
    if inputs == [] then a
    else
      var last := |inputs| - 1;
      Book(Books(a, d, inputs[..last]), Turns(d, inputs[..last]), inputs[last])
  }

  /** Each kind's total is covered by the time from the session's start to that kind's last timer reset. */
  predicate Covered(a: Account, d: Desk, now: Time) {
    && a.began + a.heartbeats <= d.lastHeartbeat <= now
    && a.began + a.stats <= d.lastStats <= now
    && a.began + a.git <= d.lastGit <= now
    && a.began + a.notifs <= d.lastNotif <= now
  }

  lemma WholeBound(now: Time, last: Time, unit: Time, interval: int)
    requires unit == SECOND || unit == MILLISECOND
    requires last <= now && Due(now, last, unit, interval)
    ensures last + interval * unit <= now
  {
    var q := (now - last) / unit;
    assert q * unit <= now - last;
    if unit == SECOND {
      assert interval * SECOND <= q * SECOND;
    } else {
      assert interval * MILLISECOND <= q * MILLISECOND;
    }
  }

  // Every stage of the online part either sends and restarts its own timer, or leaves both alone; it may drop the
  // session.

  lemma BeatBooked(d: Desk, i: Inputs)
    requires d.lastHeartbeat <= i.now
    ensures var e := Beat(d, i);
            e == d.(phase := e.phase, lastHeartbeat := e.lastHeartbeat, sent := e.sent) && e.lastHeartbeat <= i.now
            && d.lastHeartbeat + (if |e.sent| > |d.sent| then 2 * SECOND else 0) <= e.lastHeartbeat
  {
    if Due(i.now, d.lastHeartbeat, SECOND, 2) {
      WholeBound(i.now, d.lastHeartbeat, SECOND, 2);
    }
  }

  lemma StatsBooked(d: Desk, i: Inputs)
    requires d.lastStats <= i.now
    ensures var e := ReportStats(d, i);
            e == d.(phase := e.phase, lastStats := e.lastStats, sent := e.sent) && e.lastStats <= i.now
            && d.lastStats + (if |e.sent| > |d.sent| then i.statsEvery * MILLISECOND else 0) <= e.lastStats
  {
    if Due(i.now, d.lastStats, MILLISECOND, i.statsEvery) {
      WholeBound(i.now, d.lastStats, MILLISECOND, i.statsEvery);
    }
  }

  lemma GitBooked(d: Desk, i: Inputs)
    requires d.lastGit <= i.now
    ensures var e := ReportGit(d, i);
            e == d.(phase := e.phase, lastGit := e.lastGit, sent := e.sent) && e.lastGit <= i.now
            && d.lastGit + (if |e.sent| > |d.sent| then i.gitEvery * MILLISECOND else 0) <= e.lastGit
  {
    if Due(i.now, d.lastGit, MILLISECOND, i.gitEvery) {
      WholeBound(i.now, d.lastGit, MILLISECOND, i.gitEvery);
    }
  }

  lemma NotifBooked(d: Desk, i: Inputs)
    requires d.lastNotif <= i.now
    ensures var e := ReportNotif(d, i);
            e == d.(phase := e.phase, lastNotif := e.lastNotif, sent := e.sent) && e.lastNotif <= i.now
            && d.lastNotif + (if |e.sent| > |d.sent| then i.notifEvery * MILLISECOND else 0) <= e.lastNotif
  {
    if Due(i.now, d.lastNotif, MILLISECOND, i.notifEvery) {
      WholeBound(i.now, d.lastNotif, MILLISECOND, i.notifEvery);
    }
  }

  lemma ServeCovered(a: Account, d: Desk, i: Inputs)
    requires Covered(a, d, i.now)
    ensures Covered(BookServe(a, d, i), Serve(d, i), i.now) && Serve(d, i).sessions == d.sessions
  {
    var b := Beat(d, i);
    var s := ReportStats(b, i);
    var t := ReportGit(s, i);
    BeatBooked(d, i);
    StatsBooked(b, i);
    GitBooked(s, i);
    NotifBooked(t, i);
  }

  lemma ConnectCovered(a: Account, d: Desk, i: Inputs, before: Time, live: bool)
    requires Ticking(before, i) && (live ==> Covered(a, d, before))
    ensures var c := Connect(Commands(Click(d, i), i), i);
            && c.sessions >= d.sessions
            && (live || c.sessions > d.sessions ==> Covered(Opened(a, d, c, i), c, i.now))
  {
    var g := Greet(Discover(Commands(Click(d, i), i), i), i);
    TimersKept(d, i);
    ReplyCovers(a, g, i, before, live);
  }

  /** Up to the reply an iteration touches neither the timers of a session nor the count of sessions. */
  lemma TimersKept(d: Desk, i: Inputs)
    ensures var g := Greet(Discover(Commands(Click(d, i), i), i), i);
            && g.lastHeartbeat == d.lastHeartbeat && g.lastStats == d.lastStats
            && g.lastGit == d.lastGit && g.lastNotif == d.lastNotif && g.sessions == d.sessions
  {
  }

  /** The reply keeps the timers, or opens a session with all of them restarted. */
  lemma ReplyCovers(a: Account, g: Desk, i: Inputs, before: Time, live: bool)
    requires Ticking(before, i) && (live ==> Covered(a, g, before))
    ensures var c := Await(g, i);
            && c.sessions >= g.sessions
            && (live || c.sessions > g.sessions ==> Covered(Opened(a, g, c, i), c, i.now))
  {
  }

  lemma BookCovered(a: Account, d: Desk, i: Inputs, before: Time, live: bool)
    requires Ticking(before, i) && (live ==> Covered(a, d, before))
    ensures Turn(d, i).sessions >= d.sessions
    ensures live || Turn(d, i).sessions > d.sessions ==> Covered(Book(a, d, i), Turn(d, i), i.now)
  {
    var c := Connect(Commands(Click(d, i), i), i);
    ConnectCovered(a, d, i, before, live);
    ServeKeepsSessions(c, i);
    if live || c.sessions > d.sessions {
      ServeCovered(Opened(a, d, c, i), c, i);
    }
  }

  lemma ServeKeepsSessions(d: Desk, i: Inputs)
    ensures Serve(d, i).sessions == d.sessions
  {
    var b := Beat(d, i);
    var s := ReportStats(b, i);
    var t := ReportGit(s, i);
    assert b.sessions == d.sessions;
    assert s.sessions == b.sessions;
    assert t.sessions == s.sessions;
  }

  /**
   The send rate: from the moment a session opens, and still after it was dropped, in whatever iteration and at
   whatever send, the intervals in force at its sends so far add up to no more than the time since it opened.
   Whatever was toggled or reconfigured in between.
   */
  lemma {:induction false} SendRateBound(d: Desk, t: Time, inputs: seq<Inputs>, a: Account)
    requires Monotone(t, inputs) && inputs != [] && Turns(d, inputs).sessions > d.sessions
    ensures var b := Books(a, d, inputs);
            var elapsed := inputs[|inputs| - 1].now - b.began;
            b.heartbeats <= elapsed && b.stats <= elapsed && b.git <= elapsed && b.notifs <= elapsed
  {
    SessionCovered(d, t, inputs, a);
  }

  lemma {:induction false} SessionCovered(d: Desk, t: Time, inputs: seq<Inputs>, a: Account)
    requires Monotone(t, inputs)
    ensures Turns(d, inputs).sessions >= d.sessions
    ensures Turns(d, inputs).sessions > d.sessions ==>
              inputs != [] && Covered(Books(a, d, inputs), Turns(d, inputs), inputs[|inputs| - 1].now)
  {
    if inputs != [] {
      var last := |inputs| - 1;
      var before := inputs[..last];
      var e := Turns(d, before);
      SessionCovered(d, t, before, a);
      BookCovered(Books(a, d, before), e, inputs[last], Latest(t, before), e.sessions > d.sessions);
    }
  }
}
