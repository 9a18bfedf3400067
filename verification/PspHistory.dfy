/**
 The notification history of the whole PSP program: what a run of the loop tells the UI, so that the theorem about
 the history holds of every run, and every notification that is dispatched is offered in its own iteration.
 */
module PspHistory {
  import opened NotificationUi
  import opened Protocol
  import opened PspApp
  import opened PspConnection
  import opened PspReceiver

  /** The program is in its loop, and nothing makes it leave in this iteration. */
  predicate Live(p: Psp, pad: Pad) {
    && p.running && !pad.start && p.stores.remoteCommand != 1
    && PadCommand(p.stores.remoteCommand, pad) != 2
  }

  /** What the keys of an iteration tell the UI. */
  function KeysTold(p: Psp, pad: Pad): seq<UiEvent> {
    (if HistoryKey(pad) && !p.selectHeld then [SelectPressed] else [])
    + (if pad.circle && !p.circleHeld then [CirclePressed] else [])
  }

  /** The state after the keys and the exchange of a live iteration. */
  ghost function Exchanged(p: Psp, pad: Pad): (q: Psp)
    requires Ready(p)
    ensures Ready(q)
  {
    Exchange(Press(p.(stores := p.stores.(remoteCommand := PadCommand(p.stores.remoteCommand, pad))), pad))
  }

  /** The notification an iteration offers, if any. */
  ghost function OfferTold(p: Psp, pad: Pad): seq<UiEvent>
    requires Ready(p)
  {
    var q := Exchanged(p, pad);
    if q.stores.newNotification then [Offered(q.stores.notif)] else []
  }

  /** Everything an iteration tells the UI: keys, a notification, the frame. */
  ghost function Told(p: Psp, pad: Pad): seq<UiEvent>
    requires Ready(p)
  {
    if Live(p, pad) then KeysTold(p, pad) + OfferTold(p, pad) + [FrameRendered] else []
  }

  ghost function ToldAll(p: Psp, pads: seq<Pad>): seq<UiEvent>
    requires Ready(p)
    decreases |pads|
  {
    if pads == [] then [] else Told(p, pads[0]) + ToldAll(Step(p, pads[0]), pads[1..])
  }

  lemma UiRunSnoc(u: UiState, events: seq<UiEvent>, e: UiEvent)
    requires Valid(u)
    ensures UiRun(u, events + [e]) == UiStep(UiRun(u, events), e)
  {
    assert (events + [e])[..|events|] == events;
  }

  lemma {:induction false} UiRunConcat(u: UiState, a: seq<UiEvent>, b: seq<UiEvent>)
    requires Valid(u)
    ensures UiRun(u, a + b) == UiRun(UiRun(u, a), b)
  {
    if b == [] {
      assert a + b == a;
    } else {
      var before, last := b[..|b| - 1], b[|b| - 1];
      UiRunConcat(u, a, before);
      UiRunSnoc(u, a + before, last);
      assert a + b == (a + before) + [last] && b == before + [last];
    }
  }

  lemma OneEvent(u: UiState, e: UiEvent)
    requires Valid(u)
    ensures UiRun(u, [e]) == UiStep(u, e)
  {
    UiRunSnoc(u, [], e);
    assert [] + [e] == [e];
  }

  lemma KeysTellUi(p: Psp, pad: Pad)
    requires Ready(p)
    ensures UiRun(p.ui, KeysTold(p, pad)) == Press(p, pad).ui
  {
    var first := if HistoryKey(pad) && !p.selectHeld then [SelectPressed] else [];
    var second := if pad.circle && !p.circleHeld then [CirclePressed] else [];
    UiRunConcat(p.ui, first, second);
    OneEvent(p.ui, SelectPressed);
    OneEvent(UiRun(p.ui, first), CirclePressed);
  }

  lemma LiveStep(p: Psp, pad: Pad)
    requires Ready(p) && Live(p, pad)
    ensures Step(p, pad) == Present(Exchanged(p, pad)) && Exchanged(p, pad).ui == Press(p, pad).ui
  {
  }

  lemma PresentTellsUi(q: Psp, offer: seq<UiEvent>)
    requires Ready(q) && offer == if q.stores.newNotification then [Offered(q.stores.notif)] else []
    ensures Present(q).ui == UiStep(UiRun(q.ui, offer), FrameRendered)
  {
    if q.stores.newNotification {
      OneEvent(q.ui, Offered(q.stores.notif));
    }
  }

  /** An iteration of the program does to the UI exactly what it tells it. */
  lemma StepTellsUi(p: Psp, pad: Pad)
    requires Ready(p)
    ensures Step(p, pad).ui == UiRun(p.ui, Told(p, pad))
  {
    if Live(p, pad) {
      LiveStep(p, pad);
      KeysTellUi(p, pad);
      PresentTellsUi(Exchanged(p, pad), OfferTold(p, pad));
      UiRunConcat(p.ui, KeysTold(p, pad), OfferTold(p, pad));
      UiRunSnoc(p.ui, KeysTold(p, pad) + OfferTold(p, pad), FrameRendered);
    }
  }

  lemma {:induction false} RunTellsUi(p: Psp, pads: seq<Pad>)
    requires Ready(p)
    ensures RunApp(p, pads).ui == UiRun(p.ui, ToldAll(p, pads))
    decreases |pads|
  {
    if pads != [] {
      StepTellsUi(p, pads[0]);
      RunTellsUi(Step(p, pads[0]), pads[1..]);
      UiRunConcat(p.ui, Told(p, pads[0]), ToldAll(Step(p, pads[0]), pads[1..]));
    }
  }

  /**
   In every run of the program, whatever arrives and whatever is pressed, the five slots hold the newest five of
   the unbounded history since the last clear.
   */
  lemma ProgramShowsNewestFive(p: Psp, pads: seq<Pad>)
    requires Ready(p) && p.ui == INITIAL_UI
    ensures Shows(RunApp(p, pads).ui, Collapsed(Kept(INITIAL_UI, ToldAll(p, pads))))
  {
    RunTellsUi(p, pads);
    HistoryIsNewestFive(ToldAll(p, pads));
  }

  /**
   A live iteration offers a notification exactly when it dispatches one that is long enough, and then the one it
   dispatched: none is missed, none is offered late and none twice.
   */
  lemma DispatchedIsOffered(p: Psp, pad: Pad)
    requires Ready(p) && Live(p, pad) && !p.stores.newNotification
    ensures var f := NextFrame(p.link.polls).frame;
            var arrives :=
              Dispatches(p.conn, f) && f.header.messageId == NOTIFICATION && |f.body.value| >= NOTIFICATION_SIZE;
            OfferTold(p, pad) == if arrives then [Offered(ParseNotif(f.body.value))] else []
  {
  }

  /** Between iterations nothing is pending, so that holds of every iteration of a run. */
  lemma {:induction false} NothingPending(p: Psp, pads: seq<Pad>)
    requires Ready(p) && (p.running ==> !p.stores.newNotification)
    ensures var q := RunApp(p, pads);
            Ready(q) && (q.running ==> !q.stores.newNotification)
    decreases |pads|
  {
    if pads != [] {
      NothingPending(Step(p, pads[0]), pads[1..]);
    }
  }
}
