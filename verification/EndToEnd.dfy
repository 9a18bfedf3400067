/**
 From the desktop's senders to the PSP's stores: the simulation of a whole session, over the iteration function
 that PspApp.App.Iterate is proved to compute.
 */
module EndToEnd {
  import opened Bytes
  import DesktopLoop
  import opened Framing
  import opened MessageRouter
  import opened Messages
  import opened NotificationUi
  import opened Protocol
  import opened PspApp
  import opened PspConnection
  import UsbTransport

  // ----- a whole session -----

  /** No key that ends the program or simulates a command. */
  predicate Calm(pad: Pad) {
    !pad.start && !(pad.select && (pad.square || pad.triangle))
  }

  /** What a message means for the stores: the last report of each kind, strings cut to their fields. */
  function Apply(s: Stores, m: Message): Stores {
    match m
    case Hello => s
    case Heartbeat => s
    case StatsReport(v) => s.(stats := v)
    case GitReport(modified, untracked, branch) => s.(git := Git(modified, untracked, Field(branch, 32)))
    case NotifReport(app, summary, body) => s.(notif := Notif(Field(app, 24), Field(summary, 52), Field(body, 52)))
    case Command(id) => s.(remoteCommand := id)
  }

  /** Exit and reboot end the loop before it receives again. */
  predicate Ends(m: Message) {
    m.Command? && (m.id == 1 || m.id == 2)
  }

  function ApplyAll(s: Stores, ms: seq<Message>): Stores
    decreases |ms|
  {
    if ms == [] then s
    else if Ends(ms[0]) then Apply(s, ms[0])
    else ApplyAll(Apply(s, ms[0]), ms[1..])
  }

  /** Routing the wire form of a message is applying the message. */
  ghost predicate RoutesAs(s: Stores, m: Message) {
    Route(s, IdOf(m), BodyOf(m)) == Apply(s, m).(newNotification := s.newNotification || m.NotifReport?)
  }

  lemma RouteAppliesMessage(s: Stores, m: Message)
    ensures RoutesAs(s, m)
  {
    match m
    case StatsReport(v) => StatsRoundTrip(v);
    case GitReport(_, _, _) => GitSurvives(m);
    case NotifReport(_, _, _) => NotifSurvives(m);
    case _ =>
  }

  function ParcelOf(m: Message): (p: Parcel)
    ensures Proper(p)
  {
    Parcel(HeaderOf(m), BodyOf(m))
  }

  function Parcels(ms: seq<Message>): (ps: seq<Parcel>)
    ensures forall p :: p in ps ==> Proper(p)
  {
    if ms == [] then [] else [ParcelOf(ms[0])] + Parcels(ms[1..])
  }

  /** What the transfers of these messages put on the wire. */
  function Transfers(ms: seq<Message>): (ws: seq<seq<byte>>)
    ensures |ws| == |ms|
  {
    if ms == [] then [] else [WireBytes(ms[0])] + Transfers(ms[1..])
  }

  /** A stream that travels as the desktop sends it, one transfer a packet, meets the condition on chunks. */
  lemma {:induction false} TransfersDeliver(ms: seq<Message>)
    ensures Join(Transfers(ms)) == Stream(Parcels(ms)) && Delivers(Transfers(ms), Parcels(ms))
    ensures Iterations(Transfers(ms), Parcels(ms)) == |ms|
  {
    if ms != [] {
      var m, ws := ms[0], Transfers(ms);
      TransfersDeliver(ms[1..]);
      assert ws[1..] == Transfers(ms[1..]) && Parcels(ms)[1..] == Parcels(ms[1..]);
      OneTransferTakenOff(m, ws);
    }
  }

  lemma OneTransferTakenOff(m: Message, ws: seq<seq<byte>>)
    requires ws != [] && ws[0] == WireBytes(m)
    ensures HeaderWhole(ws) && Idles(ws) == 0 && Stalls(ws, |BodyOf(m)|) == 0 && Beyond(ws, |BodyOf(m)|) == ws[1..]
  {
    var n := |BodyOf(m)|;
    assert |ws[0]| == HEADER_SIZE + n && Awake(ws) == ws;
    if n > 0 {
      var left := [ws[0][HEADER_SIZE..]] + ws[1..];
      assert Skip(ws, HEADER_SIZE) == left && left[1..] == ws[1..];
      assert Skip(left, n) == Skip(left[1..], 0) == ws[1..] && Empties(left, n) == Empties(left[1..], 0);
    } else {
      assert Skip(ws, HEADER_SIZE) == Skip(ws[1..], 0) == ws[1..];
    }
  }

  /** No pause long enough for the watchdog: at most 499 silent iterations between two packets. */
  predicate Timely(ticks: nat, chunks: seq<seq<byte>>, ps: seq<Parcel>)
    decreases |ps|
  {
    ps == [] || (ticks + Idles(chunks) <= WATCHDOG_TICKS && Timely(1, Beyond(chunks, |ps[0].body|), ps[1..]))
  }

  /** The PSP is in its loop, connected, and nothing is pending. */
  ghost predicate InSession(p: Psp) {
    && Ready(p) && p.running && p.conn.connected && !p.stores.newNotification
    && p.stores.remoteCommand != 1 && p.stores.remoteCommand != 2
  }

  lemma IdleStep(p: Psp, pad: Pad, chunks: seq<seq<byte>>)
    requires InSession(p) && Calm(pad) && p.conn.ticks < WATCHDOG_TICKS
    requires p.link.polls == Polls(chunks) && chunks != [] && chunks[0] == []
    ensures var q := Step(p, pad);
            InSession(q) && q.conn.ticks == p.conn.ticks + 1 && q.stores == p.stores
            && q.link.polls == Polls(chunks[1..])
  {
    IdlePoll(chunks);
  }

  lemma {:induction false} IdleRun(p: Psp, pads: seq<Pad>, chunks: seq<seq<byte>>)
    requires InSession(p) && (forall pad :: pad in pads ==> Calm(pad)) && p.conn.ticks + |pads| <= WATCHDOG_TICKS
    requires p.link.polls == Polls(chunks) && |pads| == Idles(chunks)
    ensures var q := RunApp(p, pads);
            && InSession(q) && q.conn.ticks == p.conn.ticks + |pads| && q.stores == p.stores
            && q.link.polls == Polls(Awake(chunks))
    decreases |pads|
  {
    if pads != [] {
      IdleStep(p, pads[0], chunks);
      IdleRun(Step(p, pads[0]), pads[1..], chunks[1..]);
    }
  }

  lemma MessageExchange(p: Psp, m: Message, chunks: seq<seq<byte>>, more: seq<byte>)
    requires Ready(p) && p.conn.connected && Brings(chunks, ParcelOf(m), more) && p.link.polls == Polls(Awake(chunks))
    ensures Exchange(p) == p.(conn := Conn(true, 1), link := p.link.(polls := Polls(Beyond(chunks, |BodyOf(m)|))),
                              stores := Route(p.stores, IdOf(m), BodyOf(m)))
  {
    FrameOfPacket(chunks, ParcelOf(m), more);
  }

  /**
   One delivered message: its store is updated and, if it is a notification, it is offered to the UI in
   the same iteration, after the key presses and before the frame is drawn.
   */
  lemma MessageStep(p: Psp, pad: Pad, m: Message, chunks: seq<seq<byte>>, more: seq<byte>)
    requires InSession(p) && Calm(pad) && Brings(chunks, ParcelOf(m), more) && p.link.polls == Polls(Awake(chunks))
    ensures var q := Step(p, pad);
            && Ready(q) && q.running && q.conn == Conn(true, 1) && q.link.polls == Polls(Beyond(chunks, |BodyOf(m)|))
            && q.stores == Apply(p.stores, m)
            && q.ui == Render(if m.NotifReport? then Offer(Press(p, pad).ui, NotifOf(m)) else Press(p, pad).ui)
  {
    assert p.(stores := p.stores.(remoteCommand := PadCommand(p.stores.remoteCommand, pad))) == p;
    var pressed := Press(p, pad);
    MessageExchange(pressed, m, chunks, more);
    RouteAppliesMessage(p.stores, m);
    assert Step(p, pad) == Present(Exchange(pressed));
    if m.NotifReport? {
      assert Exchange(pressed).stores.notif == NotifOf(m);
    }
  }

  /** Exit leaves the loop, reboot leaves it and asks for a cold reset; nothing else happens in that iteration. */
  lemma CommandEnds(p: Psp, pad: Pad)
    requires Ready(p) && p.running && Calm(pad)
    ensures p.stores.remoteCommand == 1 ==> Step(p, pad) == p.(running := false)
    ensures p.stores.remoteCommand == 2 ==> Step(p, pad) == p.(running := false, coldReset := true)
  {
  }

  /** Once told to exit or reboot, the program leaves its loop and the stores stay as they are. */
  lemma {:induction false} EndedRun(p: Psp, pads: seq<Pad>)
    requires Ready(p) && (forall pad :: pad in pads ==> Calm(pad))
    requires !p.running || p.stores.remoteCommand == 1 || p.stores.remoteCommand == 2
    ensures RunApp(p, pads).stores == p.stores && (pads != [] ==> !RunApp(p, pads).running)
    decreases |pads|
  {
    if pads != [] {
      assert Calm(pads[0]);
      EndedRun(Step(p, pads[0]), pads[1..]);
    }
  }

  /** A session about to receive `ms` in `chunks`, with a calm key reading for every iteration it takes. */
  ghost predicate Scheduled(p: Psp, ms: seq<Message>, chunks: seq<seq<byte>>, pads: seq<Pad>) {
    && InSession(p) && p.link.polls == Polls(chunks) && Streamed(p.conn.ticks, ms, chunks)
    && |pads| == Iterations(chunks, Parcels(ms)) && forall pad :: pad in pads ==> Calm(pad)
  }

  /** The chunks are the packets of `ms`, every one comes through, and none comes too late for the watchdog. */
  predicate Streamed(ticks: nat, ms: seq<Message>, chunks: seq<seq<byte>>) {
    var ps := Parcels(ms);
    Join(chunks) == Stream(ps) && Delivers(chunks, ps) && Timely(ticks, chunks, ps)
  }

  lemma FirstStreamed(ticks: nat, ms: seq<Message>, chunks: seq<seq<byte>>)
    requires ms != [] && Streamed(ticks, ms, chunks)
    ensures ticks + Idles(chunks) <= WATCHDOG_TICKS
    ensures Brings(chunks, ParcelOf(ms[0]), Stream(Parcels(ms[1..])))
    ensures var behind := Beyond(chunks, |BodyOf(ms[0])|);
            && Streamed(1, ms[1..], behind)
            && Iterations(chunks, Parcels(ms)) == Idles(chunks) + (Iterations(behind, Parcels(ms[1..])) + 1)
  {
    assert Parcels(ms)[0] == ParcelOf(ms[0]) && Parcels(ms)[1..] == Parcels(ms[1..]);
    PacketTakenOff(chunks, ParcelOf(ms[0]), Stream(Parcels(ms[1..])));
  }

  /**
   The simulation: whatever is sent, however the stream is cut and with whatever pauses short of the watchdog,
   the stores of a connected PSP end up holding the last report of each kind, up to the first exit or
   reboot command; without such a command the PSP is still connected and has consumed the whole stream.
   */
  lemma {:induction false} EndToEndSimulation(p: Psp, ms: seq<Message>, chunks: seq<seq<byte>>, pads: seq<Pad>)
    requires Scheduled(p, ms, chunks, pads)
    ensures RunApp(p, pads).stores == ApplyAll(p.stores, ms)
    ensures NoEnding(ms) ==>
              var left := Leftover(chunks, Parcels(ms));
              InSession(RunApp(p, pads)) && RunApp(p, pads).link.polls == Polls(left) && Join(left) == []
    decreases |ms|
  {
    if ms != [] {
      var r := FirstMessage(p, ms, chunks, pads);
      var after := pads[Idles(chunks) + 1..];
      if Ends(ms[0]) {
        EndedRun(r, after);
        assert ms[0] in ms;
      } else {
        EndToEndSimulation(r, ms[1..], Beyond(chunks, |BodyOf(ms[0])|), after);
        assert Parcels(ms)[1..] == Parcels(ms[1..]);
      }
    }
  }

  /** The iterations that bring in the first message of a session. */
  lemma FirstMessage(p: Psp, ms: seq<Message>, chunks: seq<seq<byte>>, pads: seq<Pad>) returns (r: Psp)
    requires ms != [] && Scheduled(p, ms, chunks, pads)
    ensures Idles(chunks) < |pads| && forall pad :: pad in pads[Idles(chunks) + 1..] ==> Calm(pad)
    ensures Ready(r) && r.stores == Apply(p.stores, ms[0])
    ensures RunApp(p, pads) == RunApp(r, pads[Idles(chunks) + 1..])
    ensures !Ends(ms[0]) ==> Scheduled(r, ms[1..], Beyond(chunks, |BodyOf(ms[0])|), pads[Idles(chunks) + 1..])
  {
    FirstStreamed(p.conn.ticks, ms, chunks);
    r := Arrival(p, ms[0], chunks, Stream(Parcels(ms[1..])), pads);
    if !Ends(ms[0]) {
      StillScheduled(p, ms, chunks, pads, r);
    }
  }

  /** What the PSP looks like when a message has come in. */
  ghost predicate After(p: Psp, m: Message, chunks: seq<seq<byte>>, r: Psp) {
    && Ready(r) && r.running && r.conn == Conn(true, 1) && !r.stores.newNotification
    && r.stores == Apply(p.stores, m) && r.link.polls == Polls(Beyond(chunks, |BodyOf(m)|))
  }

  /** Behind its first message a session goes on. */
  lemma StillScheduled(p: Psp, ms: seq<Message>, chunks: seq<seq<byte>>, pads: seq<Pad>, r: Psp)
    requires ms != [] && !Ends(ms[0]) && Scheduled(p, ms, chunks, pads) && After(p, ms[0], chunks, r)
    ensures Idles(chunks) < |pads|
    ensures Scheduled(r, ms[1..], Beyond(chunks, |BodyOf(ms[0])|), pads[Idles(chunks) + 1..])
  {
    FirstStreamed(p.conn.ticks, ms, chunks);
  }

  /** One message of a stream comes in after its pause. */
  lemma Arrival(p: Psp, m: Message, chunks: seq<seq<byte>>, more: seq<byte>, pads: seq<Pad>) returns (r: Psp)
    requires InSession(p) && Brings(chunks, ParcelOf(m), more) && p.conn.ticks + Idles(chunks) <= WATCHDOG_TICKS
    requires p.link.polls == Polls(chunks)
    requires Idles(chunks) < |pads| && forall pad :: pad in pads ==> Calm(pad)
    ensures After(p, m, chunks, r)
    ensures RunApp(p, pads) == RunApp(r, pads[Idles(chunks) + 1..])
  {
    var k := Idles(chunks);
    RunSplit(p, pads, k);
    IdleRun(p, pads[..k], chunks);
    var q := RunApp(p, pads[..k]);
    MessageStep(q, pads[k], m, chunks, more);
    r := Step(q, pads[k]);
    assert pads[k..][0] == pads[k] && pads[k..][1..] == pads[k + 1..];
  }

  // ----- from the desktop's own wire -----

  lemma {:induction false} TransfersAt(ms: seq<Message>, k: nat)
    requires k < |ms|
    ensures Transfers(ms)[k] == WireBytes(ms[k])
  {
    if k > 0 {
      TransfersAt(ms[1..], k - 1);
    }
  }

  lemma {:induction false} AllDelivered(tries: seq<DesktopLoop.Try>)
    requires forall t :: t in tries ==> UsbTransport.Goes(t.sending)
    ensures var ms := DesktopLoop.Delivered(tries);
            |ms| == |tries| && forall k :: 0 <= k < |tries| ==> ms[k] == tries[k].message
  {
    if tries != [] {
      AllDelivered(tries[..|tries| - 1]);
      assert tries[|tries| - 1] in tries;
    }
  }

  /** When every send goes through, the desktop's wire is the stream of transfers the PSP's side is about. */
  lemma WireIsTransfers(wire: seq<seq<byte>>, tries: seq<DesktopLoop.Try>)
    requires DesktopLoop.Encodes(wire, tries) && forall t :: t in tries ==> UsbTransport.Goes(t.sending)
    ensures wire == Transfers(DesktopLoop.Delivered(tries))
  {
    var ms := DesktopLoop.Delivered(tries);
    AllDelivered(tries);
    forall k | 0 <= k < |wire| ensures wire[k] == Transfers(ms)[k] {
      TransfersAt(ms, k);
      assert tries[k] in tries;
    }
  }

  lemma {:induction false} TransfersTimely(ticks: nat, ms: seq<Message>)
    requires ticks <= WATCHDOG_TICKS
    ensures Timely(ticks, Transfers(ms), Parcels(ms))
    decreases |ms|
  {
    if ms != [] {
      assert Transfers(ms)[1..] == Transfers(ms[1..]) && Parcels(ms)[1..] == Parcels(ms[1..]);
      OneTransferTakenOff(ms[0], Transfers(ms));
      TransfersTimely(1, ms[1..]);
    }
  }

  /** The PSP's link brings the desktop's wire, a transfer a poll. */
  ghost predicate Wired(p: Psp, wire: seq<seq<byte>>, tries: seq<DesktopLoop.Try>) {
    DesktopLoop.Encodes(wire, tries) && p.link.polls == Polls(wire)
  }

  /**
   What the desktop put on its wire ends up in the stores of a connected PSP: the fold of the messages it counts
   as sent, one message an iteration.
   */
  lemma DesktopReachesStores(p: Psp, wire: seq<seq<byte>>, tries: seq<DesktopLoop.Try>, pads: seq<Pad>)
    requires Wired(p, wire, tries) && forall t :: t in tries ==> UsbTransport.Goes(t.sending)
    requires InSession(p) && p.conn.ticks <= WATCHDOG_TICKS
    requires |pads| == |tries| && forall pad :: pad in pads ==> Calm(pad)
    ensures RunApp(p, pads).stores == ApplyAll(p.stores, DesktopLoop.Delivered(tries))
  {
    var ms := DesktopLoop.Delivered(tries);
    AllDelivered(tries);
    WireIsTransfers(wire, tries);
    TransfersDeliver(ms);
    TransfersTimely(p.conn.ticks, ms);
    EndToEndSimulation(p, ms, wire, pads);
  }

  // ----- what the fold means -----

  predicate NoEnding(ms: seq<Message>) {
    forall m :: m in ms ==> !Ends(m)
  }

  /** The messages that are heard: all up to the first that ends the program. */
  function Heard(ms: seq<Message>): seq<Message> {
    if ms == [] then [] else if Ends(ms[0]) then [ms[0]] else [ms[0]] + Heard(ms[1..])
  }

  /** Stores no message that is heard names are left alone. */
  lemma {:induction false} UnnamedStoresKept(s: Stores, ms: seq<Message>)
    ensures (forall m :: m in Heard(ms) ==> !m.StatsReport?) ==> ApplyAll(s, ms).stats == s.stats
    ensures (forall m :: m in Heard(ms) ==> !m.GitReport?) ==> ApplyAll(s, ms).git == s.git
    ensures (forall m :: m in Heard(ms) ==> !m.NotifReport?) ==> ApplyAll(s, ms).notif == s.notif
    ensures (forall m :: m in Heard(ms) ==> !m.Command?) ==> ApplyAll(s, ms).remoteCommand == s.remoteCommand
    decreases |ms|
  {
    if ms != [] {
      assert ms[0] in Heard(ms);
      if !Ends(ms[0]) {
        assert forall m :: m in Heard(ms[1..]) ==> m in Heard(ms);
        UnnamedStoresKept(Apply(s, ms[0]), ms[1..]);
      }
    }
  }

  /** What a store holds after a message that nothing heard later overrides. */
  ghost predicate Kept(m: Message, later: seq<Message>, t: Stores) {
    match m
    case StatsReport(v) => (forall x :: x in later ==> !x.StatsReport?) ==> t.stats == v
    case GitReport(modified, untracked, branch) =>
      (forall x :: x in later ==> !x.GitReport?) ==>
        t.git.modified == modified && t.git.untracked == untracked && CStr(t.git.branch) == Cut(CStr(branch), 31)
    case NotifReport(app, summary, body) =>
      (forall x :: x in later ==> !x.NotifReport?) ==>
        CStr(t.notif.app) == Cut(CStr(app), 23) && CStr(t.notif.summary) == Cut(CStr(summary), 51)
        && CStr(t.notif.body) == Cut(CStr(body), 51)
    case Command(id) => (forall x :: x in later ==> !x.Command?) ==> t.remoteCommand == id
    case _ => true
  }

  /**
   The last report of a kind that is heard is what its store holds, each string cut at its NUL and to 31, 23 or
   51 bytes.
   */
  lemma {:induction false} LastReportWins(s: Stores, ms: seq<Message>, i: nat)
    requires i < |Heard(ms)|
    ensures Kept(Heard(ms)[i], Heard(ms)[i + 1..], ApplyAll(s, ms))
    decreases |ms|
  {
    if i > 0 {
      LastReportWins(Apply(s, ms[0]), ms[1..], i - 1);
      assert Heard(ms)[i] == Heard(ms[1..])[i - 1] && Heard(ms)[i + 1..] == Heard(ms[1..])[i..];
    } else {
      FirstReportKept(s, ms);
    }
  }

  lemma FirstReportKept(s: Stores, ms: seq<Message>)
    requires ms != []
    ensures Kept(Heard(ms)[0], Heard(ms)[1..], ApplyAll(s, ms))
  {
    AppliedReport(s, ms[0]);
    if Ends(ms[0]) {
      assert ApplyAll(s, ms) == Apply(s, ms[0]);
    } else {
      assert Heard(ms)[1..] == Heard(ms[1..]);
      UnnamedStoresKept(Apply(s, ms[0]), ms[1..]);
    }
  }

  lemma AppliedReport(s: Stores, m: Message)
    ensures Kept(m, [], Apply(s, m))
  {
    match m
    case GitReport(_, _, branch) => CStrOfField(branch, 32);
    case NotifReport(app, summary, body) =>
      CStrOfField(app, 24);
      CStrOfField(summary, 52);
      CStrOfField(body, 52);
    case _ =>
  }
}
