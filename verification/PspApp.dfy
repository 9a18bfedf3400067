/** The PSP main loop (apps/psp/src/main.c): buttons, receive, handshake, dispatch, watchdog, hand-over to the UI. */
module PspApp {
  import opened Bytes
  import opened MessageRouter
  import opened NotificationUi
  import opened Options
  import PacketCodec
  import opened Protocol
  import opened PspConnection
  import opened PspReceiver
  import opened Transport

  datatype Pad = Pad(start: bool, select: bool, square: bool, triangle: bool, circle: bool)

  /** Everything the loop carries from one iteration to the next, except the contents of its payload buffer. */
  datatype Psp = Psp(
    running: bool, conn: Conn, stores: Stores, ui: UiState, link: LinkState, selectHeld: bool, circleHeld: bool,
    coldReset: bool)

  /** The history is well formed, and every string the renderer prints ends. */
  ghost predicate Ready(p: Psp) {
    Valid(p.ui) && Terminated(p.stores.notif)
  }

  predicate HistoryKey(pad: Pad) {
    pad.select && !pad.square && !pad.triangle
  }

  /** The command the buttons leave behind: SELECT+SQUARE simulates exit, SELECT+TRIANGLE reboot. */
  function PadCommand(command: byte, pad: Pad): byte {
    if pad.select && pad.triangle then 2 else if pad.select && pad.square then 1 else command
  }

  /** Key handling of a live iteration. */
  ghost function Press(p: Psp, pad: Pad): (q: Psp)
    requires Ready(p)
    ensures Ready(q)
  {
    var ui1 := if HistoryKey(pad) && !p.selectHeld then Toggle(p.ui) else p.ui;
    var ui2 := if pad.circle && !p.circleHeld then Circle(ui1) else ui1;
    p.(ui := ui2, selectHeld := HistoryKey(pad), circleHeld := pad.circle)
  }

  const REPLY_HEADER := Header(MAGIC, VERSION, HELLO, 0)

  /** Receive, answer or dispatch, and run the watchdog. */
  ghost function Exchange(p: Psp): (q: Psp)
    requires Ready(p)
    ensures Ready(q)
  {
    var next := NextFrame(p.link.polls);
    var f := next.frame;
    var link := p.link.(polls := next.rest);
    var answers := Answers(p.conn, f, VERSION);
    p.(conn := Advance(p.conn, f, VERSION, SendSucceeds(link)),
       link := if answers then Send(link, HeaderBytes(REPLY_HEADER)) else link,
       stores := if Dispatches(p.conn, f) then Route(p.stores, f.header.messageId, f.body.value) else p.stores)
  }

  /** The popup is on screen in this frame: it was, or the fresh notification raises it. */
  ghost predicate PopupShows(p: Psp)
    requires Ready(p)
  {
    (if p.stores.newNotification then Offer(p.ui, p.stores.notif) else p.ui).popupActive
  }

  /** Offer a fresh notification to the UI and draw the frame. */
  ghost function Present(p: Psp): (q: Psp)
    requires Ready(p)
    ensures Ready(q)
  {
    var ui := if p.stores.newNotification then Offer(p.ui, p.stores.notif) else p.ui;
    p.(ui := Render(ui), stores := p.stores.(newNotification := false))
  }

  /** One iteration of the loop; a stopped program does nothing. */
  ghost function Step(p: Psp, pad: Pad): (q: Psp)
    requires Ready(p)
    ensures Ready(q)
    ensures q.running ==> !q.stores.newNotification
  {
    if !p.running then p
    else if pad.start || p.stores.remoteCommand == 1 then p.(running := false)
    else
      var p1 := p.(stores := p.stores.(remoteCommand := PadCommand(p.stores.remoteCommand, pad)));
      if p1.stores.remoteCommand == 2 then p1.(running := false, coldReset := true)
      else Present(Exchange(Press(p1, pad)))
  }

  /** The program after the iterations with these key readings. */
  ghost function RunApp(p: Psp, pads: seq<Pad>): (q: Psp)
    requires Ready(p)
    ensures Ready(q)
    decreases |pads|
  {
    if pads == [] then p else RunApp(Step(p, pads[0]), pads[1..])
  }

  /** A run can be cut anywhere. */
  lemma {:induction false} RunSplit(p: Psp, pads: seq<Pad>, k: nat)
    requires Ready(p) && k <= |pads|
    ensures RunApp(p, pads) == RunApp(RunApp(p, pads[..k]), pads[k..])
    decreases |pads|
  {
    if k == 0 {
      assert pads[0..] == pads;
    } else {
      RunSplit(Step(p, pads[0]), pads[1..], k - 1);
      assert pads[1..][..k - 1] == pads[..k][1..] && pads[1..][k - 1..] == pads[k..];
    }
  }

  /** One iteration more. */
  lemma {:induction false} RunSnoc(p: Psp, pads: seq<Pad>, pad: Pad)
    requires Ready(p)
    ensures RunApp(p, pads + [pad]) == Step(RunApp(p, pads), pad)
    decreases |pads|
  {
    if pads == [] {
      assert pads + [pad] == [pad] && [pad][1..] == [];
    } else {
      RunSnoc(Step(p, pads[0]), pads[1..], pad);
      assert (pads + [pad])[1..] == pads[1..] + [pad];
    }
  }

  class App {
    const link: Link
    const router: Router
    const ui: Ui
    const payloadBuf: array<byte>
    var running: bool
    var connected: bool
    var ticks: nat
    var selectHeld: bool
    var circleHeld: bool
    /** A cold reset of the console was requested. */
    var coldReset: bool

    ghost function State(): Psp
      reads this, link, router, ui, ui.history
    {
      Psp(running, Conn(connected, ticks), router.State(), ui.State(), link.State(), selectHeld, circleHeld, coldReset)
    }

    ghost predicate Ok()
      reads this, link, router, ui, ui.history
    {
      payloadBuf.Length == MAX_PAYLOAD && Ready(State())
    }

    constructor (link: Link)
      ensures Ok() && this.link == link && fresh(router) && fresh(ui) && fresh(ui.history) && fresh(payloadBuf)
      ensures State() == Psp(true, DISCONNECTED, EMPTY_STORES, INITIAL_UI, link.State(), false, false, false)
    {
      this.link := link;
      router := new Router();
      ui := new Ui();
      payloadBuf := new byte[MAX_PAYLOAD](_ => 0);
      running, connected, ticks, selectHeld, circleHeld, coldReset := true, false, 0, false, false, false;
    }

    /** SELECT toggles the history drawer, CIRCLE dismisses or clears; both act once per press. */
    method HandleKeys(pad: Pad)
      requires Ok()
      modifies this`selectHeld, this`circleHeld, ui, ui.history
      ensures Ok()
      ensures State() == Press(old(State()), pad)
    {
      if pad.select && !pad.square && !pad.triangle {
        if !selectHeld {
          ui.ToggleHistory();
          selectHeld := true;
        }
      } else {
        selectHeld := false;
      }
      if pad.circle {
        if !circleHeld {
          ui.HandleCirclePress();
          circleHeld := true;
        }
      } else {
        circleHeld := false;
      }
    }

    /** The remote and simulated commands, then the keys, of one iteration. */
    method HandleButtons(pad: Pad)
      requires Ok() && running
      modifies this, router, ui, ui.history
      ensures Ok()
      ensures var p := old(State());
              State() == if pad.start || p.stores.remoteCommand == 1 then p.(running := false)
                         else
                           var p1 := p.(stores := p.stores.(remoteCommand := PadCommand(p.stores.remoteCommand, pad)));
                           if p1.stores.remoteCommand == 2 then p1.(running := false, coldReset := true)
                           else Press(p1, pad)
    {
      if pad.start || router.remoteCommand == 1 {
        running := false;
        return;
      }
      if pad.select && pad.square {
        router.remoteCommand := 1;
      }
      if pad.select && pad.triangle {
        router.remoteCommand := 2;
      }
      if router.remoteCommand == 2 {
        coldReset := true;
        running := false;
        return;
      }
      HandleKeys(pad);
    }

    /** Reads one packet; its payload, when it arrived, is the beginning of the static buffer. */
    method ReceivePacket() returns (linkError: bool, header: Option<Header>, payloadOk: bool)
      requires payloadBuf.Length == MAX_PAYLOAD
      modifies link`polls, payloadBuf
      ensures link.polls == NextFrame(old(link.polls)).rest
      ensures linkError <==> old(link.polls) != [] && old(link.polls)[0].Broken?
      ensures header.Some? && payloadOk ==> header.value.payloadSize <= MAX_PAYLOAD
      ensures NextFrame(old(link.polls)).frame ==
              if header.Some? then
                Packet(header.value, if payloadOk then Some(payloadBuf[..header.value.payloadSize]) else None)
              else if linkError then LinkError
              else Silence
    {
      ghost var r := Receive(link.polls, HEADER_SIZE);
      FrameKinds(link.polls);
      var rx := new byte[HEADER_SIZE](_ => 0);
      var ok, received := link.ReceiveInto(rx, 0, HEADER_SIZE);
      linkError, header, payloadOk := !ok, None, true;
      if ok && received >= HEADER_SIZE {
        assert rx[..] == r.bytes;
        var code, parsed := PacketCodec.DeserializeHeader(rx, received, Some(Header(0, 0, 0, 0)));
        if code == 0 {
          header := parsed;
          var size := parsed.value.payloadSize;
          if size > 0 {
            if size <= MAX_PAYLOAD {
              payloadOk := ReceivePayload(link, payloadBuf, size);
            } else {
              payloadOk := false;
            }
          }
        }
      }
    }

    /** Answers HELLO or dispatches. */
    method React(linkError: bool, header: Option<Header>, payloadOk: bool, ghost f: Frame)
      requires Ok()
      requires header.Some? && payloadOk ==> header.value.payloadSize <= MAX_PAYLOAD
      requires f == if header.Some? then
                      Packet(header.value, if payloadOk then Some(payloadBuf[..header.value.payloadSize]) else None)
                    else if linkError then LinkError
                    else Silence
      modifies this`connected, this`ticks, link, router
      ensures var p := old(State());
              State() == p.(conn := OnFrame(p.conn, f, VERSION, SendSucceeds(p.link)),
                            link := if Answers(p.conn, f, VERSION)
                            then Send(p.link, HeaderBytes(REPLY_HEADER)) else p.link,
                            stores := if Dispatches(p.conn, f) then Route(p.stores, f.header.messageId, f.body.value)
                                      else p.stores)
    {
      if header.Some? {
        var h := header.value;
        ticks := 0;
        if payloadOk {
          if !connected && h.messageId == HELLO {
            if h.version == VERSION {
              connected := Answer();
            }
          } else if connected {
            var _ := router.Dispatch(header, payloadBuf);
          }
        }
      } else if linkError {
        connected := false;
      }
    }

    /** Receive, react, and the watchdog check. */
    method ExchangePackets()
      requires Ok()
      modifies this`connected, this`ticks, link, router, payloadBuf
      ensures Ok()
      ensures State() == Exchange(old(State()))
    {
      ghost var f := NextFrame(link.polls).frame;
      var linkError, header, payloadOk := ReceivePacket();
      React(linkError, header, payloadOk, f);
      if connected {
        ticks := ticks + 1;
        if ticks > WATCHDOG_TICKS {
          connected := false;
        }
      }
    }

    /** Sends the HELLO reply. */
    method Answer() returns (sent: bool)
      modifies link
      ensures sent == SendSucceeds(old(link.State()))
      ensures link.State() == Send(old(link.State()), HeaderBytes(REPLY_HEADER))
      ensures sent ==> link.sent == old(link.sent) + [HeaderBytes(Header(MAGIC, VERSION, HELLO, 0))]
    {
      var tx := new byte[HEADER_SIZE](_ => 0);
      var _ := PacketCodec.SerializeHeader(Some(REPLY_HEADER), tx, 0, HEADER_SIZE);
      assert tx[..] == tx[0..HEADER_SIZE];
      sent := link.SendBytes(tx[..]);
    }

    /** Hands a fresh notification to the UI and renders: the ticker row, then the popup. */
    method PresentFrame() returns (row: seq<byte>, drawn: bool)
      requires Ok()
      modifies router, ui, ui.history
      ensures Ok()
      ensures State() == Present(old(State()))
      ensures drawn == PopupShows(old(State()))
      ensures |row| == ROW_WIDTH && RowText(connected, Some(old(router.notif))) <= row
    {
      if router.newNotification {
        ui.AddNotification(Some(router.notif));
        router.newNotification := false;
      }
      row := TickerRow(connected, Some(router.notif));
      drawn := ui.RenderPopup();
    }

    /** One iteration of `while (1)`. */
    method Iterate(pad: Pad) returns (row: seq<byte>, drawn: bool)
      requires Ok() && running
      modifies this, link, router, ui, ui.history, payloadBuf
      ensures Ok()
      ensures State() == Step(old(State()), pad)
    {
      row, drawn := [], false;
      HandleButtons(pad);
      if !running {
        return;
      }
      ExchangePackets();
      row, drawn := PresentFrame();
    }
  }
}
