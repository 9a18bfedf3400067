/** The notification history, popup and ticker row of apps/psp/src/ui.c. */
module NotificationUi {
  import opened Bytes
  import opened Options
  import opened Protocol

  const SLOTS := 5
  const POPUP_TICKS := 500

  datatype UiState = UiState(
    slots: seq<Notif>, count: nat, showing: bool, popupActive: bool, popupTicks: nat, popup: Notif)

  const INITIAL_UI := UiState([NO_NOTIF, NO_NOTIF, NO_NOTIF, NO_NOTIF, NO_NOTIF], 0, false, false, 0, NO_NOTIF)

  /** The three `strcmp`s of the duplicate check. */
  predicate Same(a: Notif, b: Notif) {
    CStr(a.app) == CStr(b.app) && CStr(a.summary) == CStr(b.summary) && CStr(a.body) == CStr(b.body)
  }

  predicate Nameless(n: Notif) {
    n.app[0] == 0
  }

  ghost predicate Valid(u: UiState) {
    |u.slots| == SLOTS && u.count <= SLOTS
  }

  function Popup(u: UiState, n: Notif): UiState {
    u.(popup := n, popupActive := true, popupTicks := POPUP_TICKS)
  }

  /** A notification is offered: empty names are dropped, repeats of the newest only revive the popup. */
  ghost function Offer(u: UiState, n: Notif): (v: UiState)
    requires Valid(u)
    ensures Valid(v)
  {
    if Nameless(n) then u
    else if u.count > 0 && Same(u.slots[0], n) then (if u.popupActive then u else Popup(u, n))
    else Popup(u.(slots := [n] + u.slots[..SLOTS - 1], count := Min(u.count + 1, SLOTS)), n)
  }

  ghost function Clear(u: UiState): UiState {
    u.(slots := [NO_NOTIF, NO_NOTIF, NO_NOTIF, NO_NOTIF, NO_NOTIF], count := 0)
  }

  /** CIRCLE: dismisses the popup, or else clears the history when it is on screen. */
  ghost function Circle(u: UiState): UiState {
    if u.popupActive then u.(popupActive := false, popupTicks := 0)
    else if u.showing then Clear(u)
    else u
  }

  ghost function Toggle(u: UiState): UiState {
    u.(showing := !u.showing)
  }

  /** The popup's part of one frame; it is drawn when it was active at the start of the frame. */
  ghost function Render(u: UiState): UiState {
    if !u.popupActive then u
    else if u.popupTicks > 0 then u.(popupTicks := u.popupTicks - 1)
    else u.(popupActive := false)
  }

  class Ui {
    const history: array<Notif>
    var count: nat
    var showing: bool
    var popupActive: bool
    var popupTicks: nat
    var popup: Notif

    ghost function State(): UiState
      reads this, history
    {
      UiState(history[..], count, showing, popupActive, popupTicks, popup)
    }

    constructor ()
      ensures State() == INITIAL_UI && fresh(history)
    {
      history := new Notif[SLOTS](_ => NO_NOTIF);
      count, showing, popupActive, popupTicks, popup := 0, false, false, 0, NO_NOTIF;
    }

    /** Moves every slot one place towards the old end; the oldest falls out. */
    method ShiftHistory()
      requires history.Length == SLOTS
      modifies history
      ensures history[1..] == old(history[..SLOTS - 1])
    {
      var i := 4;
      while i > 0
        invariant 0 <= i <= 4
        invariant forall k :: 0 <= k <= i ==> history[k] == old(history[k])
        invariant forall k :: i < k < SLOTS ==> history[k] == old(history[k - 1])
      {
        history[i] := history[i - 1];
        i := i - 1;
      }
    }

    /** `ui_add_notification`. */
    method AddNotification(notif: Option<Notif>)
      requires Valid(State())
      modifies this, history
      ensures State() == if notif.None? then old(State()) else Offer(old(State()), notif.value)
    {
      if notif.None? || notif.value.app[0] == 0 {
        return;
      }
      var n := notif.value;
      if count > 0 && CStr(history[0].app) == CStr(n.app) && CStr(history[0].summary) == CStr(n.summary)
         && CStr(history[0].body) == CStr(n.body)
      {
        if !popupActive {
          popup, popupActive, popupTicks := n, true, POPUP_TICKS;
        }
        return;
      }
      Record(n);
      popup, popupActive, popupTicks := n, true, POPUP_TICKS;
    }

    /** Puts a notification in front of the history. */
    method Record(n: Notif)
      requires Valid(State())
      modifies this`count, history
      ensures history[..] == [n] + old(history[..SLOTS - 1]) && count == Min(old(count) + 1, SLOTS)
    {
      ShiftHistory();
      history[0] := n;
      assert history[..] == [history[0]] + history[1..];
      if count < 5 {
        count := count + 1;
      }
    }

    /** `ui_toggle_history`. */
    method ToggleHistory()
      modifies this
      ensures State() == Toggle(old(State()))
    {
      showing := !showing;
    }

    /** `ui_clear_history`. */
    method ClearHistory()
      requires Valid(State())
      modifies this, history
      ensures State() == Clear(old(State()))
    {
      forall i | 0 <= i < history.Length {
        history[i] := NO_NOTIF;
      }
      count := 0;
    }

    /** `ui_handle_circle_press`. */
    method HandleCirclePress()
      requires Valid(State())
      modifies this, history
      ensures State() == Circle(old(State()))
    {
      if popupActive {
        popupActive := false;
        popupTicks := 0;
      } else if showing {
        ClearHistory();
      }
    }

    /** The popup block that ends `ui_render`; `drawn` says whether the overlay was painted. */
    method RenderPopup() returns (drawn: bool)
      modifies this
      ensures State() == Render(old(State())) && drawn == old(popupActive)
    {
      drawn := popupActive;
      if popupActive {
        if popupTicks > 0 {
          popupTicks := popupTicks - 1;
        } else {
          popupActive := false;
        }
      }
    }
  }

  /** Two notifications whose strings end count as the same exactly when they would be sent as the same bytes. */
  lemma SameMeansSameBytes(a: Notif, b: Notif)
    requires Terminated(a) && Terminated(b)
    ensures Same(a, b) <==> NotifBytes(a) == NotifBytes(b)
  {
    NotifBytesInjective(a, b);
    TerminatedIsWhole(a);
    TerminatedIsWhole(b);
  }

  lemma TerminatedIsWhole(n: Notif)
    requires Terminated(n)
    ensures Cut(CStr(n.app), 23) == CStr(n.app)
    ensures Cut(CStr(n.summary), 51) == CStr(n.summary) && Cut(CStr(n.body), 51) == CStr(n.body)
  {
    EndsBefore(n.app, 23);
    EndsBefore(n.summary, 51);
    EndsBefore(n.body, 51);
  }

  lemma EndsBefore(s: seq<byte>, k: nat)
    requires k < |s| && s[k] == 0
    ensures |CStr(s)| <= k
  {
    var c := CStr(s);
    assert forall j :: 0 <= j < |c| ==> s[j] == c[j] && c[j] in c;
  }

  /**
   A named notification that is offered is in the popup, for a full count of frames, unless a popup is up already
   and it repeats the newest entry; a nameless one does nothing.
   */
  lemma OfferRaisesPopup(u: UiState, n: Notif)
    requires Valid(u)
    ensures CStr(n.app) == [] ==> Offer(u, n) == u
    ensures CStr(n.app) != [] ==>
              var v := Offer(u, n);
              && v.popupActive && v.showing == u.showing
              && ((v.popup == n && v.popupTicks == 500)
                  || (u.popupActive && u.count > 0 && Same(u.slots[0], n) && v == u))
  {
  }

  // ----- the history refines an unbounded one -----

  datatype UiEvent = Offered(notif: Notif) | CirclePressed | SelectPressed | FrameRendered

  ghost function UiStep(u: UiState, e: UiEvent): (v: UiState)
    requires Valid(u)
    ensures Valid(v)
  {
    match e
    case Offered(n) => Offer(u, n)
    case CirclePressed => Circle(u)
    case SelectPressed => Toggle(u)
    case FrameRendered => Render(u)
  }

  ghost function UiRun(u: UiState, events: seq<UiEvent>): (v: UiState)
    requires Valid(u)
    ensures Valid(v)
  {
    if events == [] then u else UiStep(UiRun(u, events[..|events| - 1]), events[|events| - 1])
  }

  /** The named notifications offered since the history was last cleared, oldest first. */
  ghost function Kept(u: UiState, events: seq<UiEvent>): (kept: seq<Notif>)
    requires Valid(u)
    ensures forall n :: n in kept ==> !Nameless(n)
  {
    if events == [] then [] else
      var before := events[..|events| - 1];
      match events[|events| - 1]
      case Offered(n) => if Nameless(n) then Kept(u, before) else Kept(u, before) + [n]
      case CirclePressed =>
        var v := UiRun(u, before);
        if !v.popupActive && v.showing then [] else Kept(u, before)
      case _ => Kept(u, before)
  }

  /** Newest first, a notification that repeats the one just before it left out. */
  ghost function Collapsed(offers: seq<Notif>): seq<Notif> {
    if offers == [] then [] else
      var k := |offers| - 1;
      if k > 0 && Same(offers[k - 1], offers[k]) then Collapsed(offers[..k])
      else [offers[k]] + Collapsed(offers[..k])
  }

  lemma {:induction false} CollapsedHead(offers: seq<Notif>)
    requires offers != []
    ensures Collapsed(offers) != [] && Same(Collapsed(offers)[0], offers[|offers| - 1])
  {
    var k := |offers| - 1;
    if k > 0 && Same(offers[k - 1], offers[k]) {
      CollapsedHead(offers[..k]);
    }
  }

  /** The slots hold the newest five of a newest-first history. */
  ghost predicate Shows(u: UiState, full: seq<Notif>) {
    Valid(u) && u.count == Min(|full|, SLOTS) && u.slots[..u.count] == full[..u.count]
  }

  /**
   After any run of notifications, key presses and frames, the five shifted slots hold the newest five of
   the unbounded history: everything named offered since the last clear, adjacent repeats collapsed.
   */
  lemma {:induction false} HistoryIsNewestFive(events: seq<UiEvent>)
    ensures Shows(UiRun(INITIAL_UI, events), Collapsed(Kept(INITIAL_UI, events)))
  {
    if events != [] {
      var before, e := events[..|events| - 1], events[|events| - 1];
      HistoryIsNewestFive(before);
      var u, offers := UiRun(INITIAL_UI, before), Kept(INITIAL_UI, before);
      match e
      case Offered(n) => OfferExtends(u, offers, n);
      case _ => OthersKeep(u, Collapsed(offers), e);
    }
  }

  /** Apart from offers only a clearing CIRCLE touches the history. */
  lemma OthersKeep(u: UiState, full: seq<Notif>, e: UiEvent)
    requires !e.Offered? && Shows(u, full)
    ensures if e.CirclePressed? && !u.popupActive && u.showing
            then Shows(UiStep(u, e), []) else Shows(UiStep(u, e), full)
  {
  }

  lemma OfferExtends(u: UiState, offers: seq<Notif>, n: Notif)
    requires Shows(u, Collapsed(offers))
    ensures Shows(Offer(u, n), Collapsed(if Nameless(n) then offers else offers + [n]))
  {
    var k := |offers|;
    assert (offers + [n])[..k] == offers;
    if k > 0 {
      CollapsedHead(offers);
      assert u.slots[0] == u.slots[..u.count][0];
    }
    if k == 0 || !Same(offers[k - 1], n) {
      PrependNewest(u.slots, u.count, Collapsed(offers), n);
    }
  }

  lemma PrependNewest(slots: seq<Notif>, count: nat, full: seq<Notif>, n: Notif)
    requires |slots| == SLOTS && count == Min(|full|, SLOTS) && slots[..count] == full[..count]
    ensures var count' := Min(count + 1, SLOTS);
            count' == Min(|full| + 1, SLOTS)
            && ([n] + slots[..SLOTS - 1])[..count'] == ([n] + full)[..count']
  {
    var count' := Min(count + 1, SLOTS);
    assert slots[..count' - 1] == slots[..count][..count' - 1] == full[..count' - 1];
    assert ([n] + slots[..SLOTS - 1])[..count'] == [n] + slots[..count' - 1];
    assert ([n] + full)[..count'] == [n] + full[..count' - 1];
  }

  // ----- the popup's life -----

  ghost function Frames(u: UiState, k: nat): UiState {
    if k == 0 then u else Render(Frames(u, k - 1))
  }

  /** A popup nobody touches is drawn in frames 1 to 501 after it was raised, and in no frame after that. */
  lemma {:induction false} PopupLasts501Frames(u: UiState, n: Notif, k: nat)
    ensures Frames(Popup(u, n), k).popupActive <==> k < POPUP_TICKS + 1
    ensures k <= POPUP_TICKS ==> Frames(Popup(u, n), k).popupTicks == POPUP_TICKS - k
  {
    if k > 0 {
      PopupLasts501Frames(u, n, k - 1);
    }
  }

  // ----- the ticker row -----

  const ROW_WIDTH := 67

  function Ascii(s: string): (b: seq<byte>)
    ensures |b| == |s|
  {
    seq(|s|, i requires 0 <= i < |s| => s[i] as int % 0x100)
  }

  /** `summary - body`, or its beginning and an ellipsis when it does not fit in `width` columns. */
  function Ellipsized(text: seq<byte>, width: nat): (shown: seq<byte>)
    requires width >= 3
    ensures |shown| == Min(|text|, width)
  {
    if |text| <= width then text else text[..width - 3] + Ascii("...")
  }

  function TickerText(n: Notif): seq<byte> {
    var prefix := Ascii("[NOTIF] ") + CStr(n.app) + Ascii(": ");
    var message := CStr(n.summary) + Ascii(" - ") + CStr(n.body);
    if |prefix| + 3 <= 66 then prefix + Ellipsized(message, 66 - |prefix|) else prefix
  }

  /** A notification that fits is shown in full: its tag, then app, summary and body in this order. */
  lemma TickerShowsAll(n: Notif)
    requires Terminated(n)
    requires 8 + |CStr(n.app)| + 2 + |CStr(n.summary)| + 3 + |CStr(n.body)| <= 66
    ensures TickerText(n)
            == Ascii("[NOTIF] ") + CStr(n.app) + Ascii(": ") + CStr(n.summary) + Ascii(" - ") + CStr(n.body)
  {
    TerminatedShort(n);
    var prefix := Ascii("[NOTIF] ") + CStr(n.app) + Ascii(": ");
    assert prefix + (CStr(n.summary) + Ascii(" - ") + CStr(n.body))
           == prefix + CStr(n.summary) + Ascii(" - ") + CStr(n.body);
  }

  /** One that does not fit is shown up to column 63 and ends in three dots at column 66. */
  lemma TickerShowsBeginning(n: Notif)
    requires Terminated(n)
    requires 8 + |CStr(n.app)| + 2 + |CStr(n.summary)| + 3 + |CStr(n.body)| > 66
    ensures var all := Ascii("[NOTIF] ") + CStr(n.app) + Ascii(": ") + CStr(n.summary) + Ascii(" - ") + CStr(n.body);
            TickerText(n) == all[..63] + [0x2E, 0x2E, 0x2E]
  {
    TerminatedShort(n);
    var prefix := Ascii("[NOTIF] ") + CStr(n.app) + Ascii(": ");
    var message := CStr(n.summary) + Ascii(" - ") + CStr(n.body);
    var all := Ascii("[NOTIF] ") + CStr(n.app) + Ascii(": ") + CStr(n.summary) + Ascii(" - ") + CStr(n.body);
    assert all == prefix + message;
    assert all[..63] == prefix + message[..63 - |prefix|];
    assert Ascii("...") == [0x2E, 0x2E, 0x2E];
  }

  function RowText(connected: bool, notif: Option<Notif>): seq<byte> {
    if connected && notif.Some? && !Nameless(notif.value) then TickerText(notif.value)
    else Ascii("[NOTIF] No notifications received")
  }

  /**
   The bottom row: exactly 67 columns are printed whatever the notification, so nothing of the previous
   frame shows through; the text is whole when it fits in 66 and ends in an ellipsis otherwise.
   */
  method TickerRow(connected: bool, notif: Option<Notif>) returns (row: seq<byte>)
    requires notif.Some? ==> Terminated(notif.value)
    ensures |row| == ROW_WIDTH
    ensures var text := RowText(connected, notif);
            |text| <= 66 && row == text + seq(ROW_WIDTH - |text|, _ => 0x20)
    ensures if connected && notif.Some? && CStr(notif.value.app) != [] then TickerText(notif.value) <= row
            else Ascii("[NOTIF] No notifications received") <= row && forall k :: 33 <= k < ROW_WIDTH ==> row[k] == 0x20
  {
    var columns := 0;
    if connected && notif.Some? && notif.value.app[0] != 0 {
      row, columns := PrintMessage(notif.value);
    } else {
      row := Ascii("[NOTIF] No notifications received");
      columns := columns + 33;
    }
    row := PadRow(row, 67 - columns);
  }

  /** The text of the row for a notification, and the columns it was counted to take. */
  method PrintMessage(n: Notif) returns (row: seq<byte>, columns: nat)
    requires Terminated(n)
    ensures row == TickerText(n) && columns == |row| <= 66
  {
    row, columns := Ascii("[NOTIF] "), 8;
    var appText := CStr(n.app) + Ascii(": ");
    assert row + appText == Ascii("[NOTIF] ") + CStr(n.app) + Ascii(": ");
    row, columns := row + appText, columns + |appText|;
    var message := CStr(n.summary) + Ascii(" - ") + CStr(n.body);
    var room := 66 - columns;
    TerminatedShort(n);
    if room > 0 {
      var shown := Truncate(message, room);
      row, columns := row + shown, columns + |shown|;
    }
  }

  /** `strncpy` of at most `room` bytes; when something was cut off, the last three become dots. */
  method Truncate(message: seq<byte>, room: nat) returns (shown: seq<byte>)
    requires room >= 3
    ensures shown == Ellipsized(message, room)
  {
    shown := message[..Min(|message|, room)];
    var len := |shown|;
    if |message| > room && len >= 3 {
      shown := shown[len - 1 := 0x2E];
      shown := shown[len - 2 := 0x2E];
      shown := shown[len - 3 := 0x2E];
    }
  }

  /** Overwrites the rest of the row with spaces. */
  method PadRow(text: seq<byte>, remaining: nat) returns (row: seq<byte>)
    ensures row == text + seq(remaining, _ => 0x20)
  {
    row := text;
    for i := 0 to remaining
      invariant row == text + seq(i, _ => 0x20)
    {
      row := row + [0x20];
    }
  }

  lemma TerminatedShort(n: Notif)
    requires Terminated(n)
    ensures |CStr(n.app)| <= 23
  {
    EndsBefore(n.app, 23);
  }
}
