/**
 Runs of the PSP program over its link: what the polls do to the connection, what the keys do, and how the program
 ends. The transport decides nothing but what the polls bring.
 */
module PspRuns {
  import opened Bytes
  import opened Options
  import opened Protocol
  import opened PspApp
  import opened PspConnection
  import opened PspHistory
  import opened PspReceiver
  import opened Transport

  // ----- the connection over the link -----

  /** What the connection sees of an iteration: nothing when the program leaves its loop. */
  ghost function Sees(p: Psp, pad: Pad): (seen: seq<Input>)
    requires Ready(p)
    ensures |seen| <= 1
  {
    if Live(p, pad) then
      var next := NextFrame(p.link.polls);
      [Input(next.frame, SendSucceeds(p.link.(polls := next.rest)))]
    else []
  }

  ghost function Seen(p: Psp, pads: seq<Pad>): seq<Input>
    requires Ready(p)
  {
    if pads == [] then []
    else
      var last := |pads| - 1;
      Seen(p, pads[..last]) + Sees(RunApp(p, pads[..last]), pads[last])
  }

  lemma StepMovesConnection(p: Psp, pad: Pad)
    requires Ready(p)
    ensures Step(p, pad).conn ==
            if Sees(p, pad) == [] then p.conn
            else Advance(p.conn, Sees(p, pad)[0].frame, VERSION, Sees(p, pad)[0].replySent)
  {
  }

  lemma SeenMoves(c: Conn, seen: seq<Input>, now: seq<Input>)
    requires |now| <= 1
    ensures Run(c, seen + now, VERSION) ==
            if now == [] then Run(c, seen, VERSION)
            else Advance(Run(c, seen, VERSION), now[0].frame, VERSION, now[0].replySent)
  {
    if now == [] {
      assert seen + now == seen;
    } else {
      assert (seen + now)[..|seen|] == seen;
    }
  }

  /** The program's connection is exactly what its polls make of it. */
  lemma {:induction false} RunMovesConnection(p: Psp, pads: seq<Pad>)
    requires Ready(p)
    ensures RunApp(p, pads).conn == Run(p.conn, Seen(p, pads), VERSION)
  {
    if pads != [] {
      var before, pad := pads[..|pads| - 1], pads[|pads| - 1];
      var q := RunApp(p, before);
      RunMovesConnection(p, before);
      RunSnoc(p, before, pad);
      assert before + [pad] == pads;
      StepMovesConnection(q, pad);
      SeenMoves(p.conn, Seen(p, before), Sees(q, pad));
    }
  }

  /** Whether the program is connected: before the first iteration, and after each. */
  ghost function Connections(p: Psp, pads: seq<Pad>): (up: seq<bool>)
    requires Ready(p)
    ensures |up| == |pads| + 1
    decreases |pads|
  {
    if pads == [] then [p.conn.connected] else Connections(p, pads[..|pads| - 1]) + [RunApp(p, pads).conn.connected]
  }

  predicate Always(up: seq<bool>) {
    forall k :: 0 <= k < |up| ==> up[k]
  }

  /** The list says what it is meant to. */
  lemma {:induction false} ConnectionsAt(p: Psp, pads: seq<Pad>, k: nat)
    requires Ready(p) && k <= |pads|
    ensures Connections(p, pads)[k] == RunApp(p, pads[..k]).conn.connected
    decreases |pads|
  {
    if k == |pads| {
      assert pads[..k] == pads;
    } else {
      ConnectionsAt(p, pads[..|pads| - 1], k);
      assert pads[..|pads| - 1][..k] == pads[..k];
    }
  }

  /**
   A connected program stays connected throughout a run if and only if none of its header receives failed and no two
   of the headers of ours it received are more than 499 silent iterations apart.
   */
  lemma {:induction false} LinkKeepsConnection(p: Psp, pads: seq<Pad>)
    requires Ready(p) && Sound(p.conn) && p.conn.connected
    ensures Always(Connections(p, pads)) <==> Lively(p.conn, Seen(p, pads))
    decreases |pads|
  {
    if pads == [] {
      assert Seen(p, pads)[..0] == [];
    } else {
      var before, pad := pads[..|pads| - 1], pads[|pads| - 1];
      LinkKeepsConnection(p, before);
      RunMovesConnection(p, pads);
      RunMovesConnection(p, before);
      ConnectionsAt(p, before, |before|);
      assert before[..|before|] == before;
      LivelySnoc(p.conn, Seen(p, before), Sees(RunApp(p, before), pad));
      AlwaysSnoc(Connections(p, before), RunApp(p, pads).conn.connected);
    }
  }

  lemma AlwaysSnoc(up: seq<bool>, last: bool)
    ensures Always(up + [last]) <==> Always(up) && last
  {
    assert (up + [last])[|up|] == last;
    assert forall k :: 0 <= k < |up| ==> (up + [last])[k] == up[k];
  }

  /** One iteration more keeps the connection alive, or it does not. */
  lemma LivelySnoc(c: Conn, seen: seq<Input>, now: seq<Input>)
    requires c.connected && |now| <= 1
    requires Lively(c, seen) ==> Run(c, seen, VERSION).connected
    ensures Lively(c, seen + now) <==> Lively(c, seen) && Run(c, seen + now, VERSION).connected
  {
    if now == [] {
      assert seen + now == seen;
    } else {
      var all := seen + now;
      assert all[..|all| - 1] == seen;
      LivelySplit(c, all);
      if Run(c, seen, VERSION).connected {
        LivelyStep(c, all, VERSION);
      }
    }
  }

  /** What `Lively` asks of an iteration, in terms of its next poll. */
  lemma SeenFromPolls(p: Psp, pad: Pad)
    requires Ready(p) && Live(p, pad)
    ensures var polls, f := p.link.polls, Sees(p, pad)[0].frame;
            && (f == LinkError <==> polls != [] && polls[0].Broken?)
            && (f.Packet? <==> polls != [] && polls[0].Data? && |polls[0].bytes| >= HEADER_SIZE
                               && ParseHeader(polls[0].bytes[..HEADER_SIZE]).magic == MAGIC)
  {
    FrameKinds(p.link.polls);
  }

  /** An iteration whose receive fails ends disconnected, and nothing is dispatched in it. */
  lemma BrokenLinkDisconnects(p: Psp, pad: Pad)
    requires Ready(p) && Live(p, pad) && p.link.polls != [] && p.link.polls[0].Broken?
    ensures var q := Step(p, pad);
            && !q.conn.connected && q.link == p.link.(polls := p.link.polls[1..])
            && q.stores == p.stores.(remoteCommand := PadCommand(p.stores.remoteCommand, pad), newNotification := false)
  {
    FrameKinds(p.link.polls);
  }

  /** A packet without its payload resets the watchdog and does nothing else. */
  lemma HalfPacketOnlyResets(c: Conn, h: Header, version: uint16, replySent: bool)
    ensures OnFrame(c, Packet(h, None), version, replySent) == Conn(c.connected, 0)
    ensures !Answers(c, Packet(h, None), version) && !Dispatches(c, Packet(h, None))
  {
  }

  // ----- keys -----

  /** SELECT alone toggles the drawer, once for as long as it is held; let go, it toggles again. */
  lemma SelectTogglesOnce(p: Psp, pad: Pad)
    requires Ready(p) && !pad.circle
    ensures var q := Press(p, pad);
            && q.ui == (if pad.select && !pad.square && !pad.triangle && !p.selectHeld
                        then p.ui.(showing := !p.ui.showing) else p.ui)
            && Press(q, pad).ui == q.ui
            && Press(q, Pad(false, false, false, false, false)).selectHeld == false
  {
  }

  /** CIRCLE dismisses the popup if there is one, or else empties an open history, once for as long as it is held. */
  lemma CircleActsOnce(p: Psp, pad: Pad)
    requires Ready(p) && !pad.select && pad.circle
    ensures var q := Press(p, pad);
            && (p.circleHeld ==> q.ui == p.ui)
            && (!p.circleHeld && p.ui.popupActive ==> q.ui == p.ui.(popupActive := false, popupTicks := 0))
            && (!p.circleHeld && !p.ui.popupActive ==>
                  if p.ui.showing then q.ui.count == 0 && !q.ui.popupActive && q.ui.showing else q.ui == p.ui)
            && Press(q, pad).ui == q.ui
            && Press(q, Pad(false, false, false, false, false)).circleHeld == false
  {
  }

  // ----- leaving the loop -----

  /** START leaves at once. SELECT with TRIANGLE asks for a cold reset at once. */
  lemma KeysEnd(p: Psp, pad: Pad)
    requires Ready(p) && p.running && p.stores.remoteCommand != 1 && p.stores.remoteCommand != 2
    ensures pad.start ==> Step(p, pad) == p.(running := false)
    ensures !pad.start && pad.select && pad.triangle ==> !Step(p, pad).running && Step(p, pad).coldReset
    ensures !pad.start && !(pad.select && pad.triangle)
            ==> Step(p, pad).running && Step(p, pad).coldReset == p.coldReset
  {
  }

  /** SELECT with SQUARE leaves in the next iteration, unless a command arrives in between. */
  lemma ShortcutExits(p: Psp, pad: Pad, next: Pad)
    requires Ready(p) && p.running && p.stores.remoteCommand != 1 && p.stores.remoteCommand != 2
    requires !pad.start && pad.select && pad.square && !pad.triangle
    requires NextFrame(p.link.polls).frame.Packet? ==> NextFrame(p.link.polls).frame.header.messageId != CONTROL
    ensures var q := Step(p, pad);
            q.running && q.stores.remoteCommand == 1 && Step(q, next) == q.(running := false)
  {
  }
}
