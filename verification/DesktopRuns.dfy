/**
 Runs of the desktop loop (apps/desktop/src/main.cpp): what one iteration can do to the connection, what it sends,
 and that over any run every kind of report keeps up with its interval.
 */
module DesktopRuns {
  import opened Bytes
  import opened DesktopLoop
  import opened Messages
  import opened Options
  import opened Protocol
  import opened UsbTransport

  // ----- how a turn moves the phase -----

  /** A turn only ever adds to what was sent, and opens at most one session, on a HELLO. */
  lemma TurnFacts(d: Desk, i: Inputs)
    ensures var e := Turn(d, i);
            && d.sent <= e.sent
            && d.sessions <= e.sessions <= d.sessions + 1
            && (e.sessions > d.sessions ==> i.reply.Got? && i.reply.header.messageId == HELLO && !d.phase.Online?)
            && (e.sessions == d.sessions && !d.phase.Online? ==> !e.phase.Online?)
            && (e.sessions > d.sessions ==>
                  Greet(Discover(Commands(Click(d, i), i), i), i).phase.Handshaking?)
  {
    var c := Connect(Commands(Click(d, i), i), i);
    ServeFacts(c, i);
    ConnectFacts(d, i);
  }

  lemma ConnectFacts(d: Desk, i: Inputs)
    ensures var g := Greet(Discover(Commands(Click(d, i), i), i), i);
            var c := Await(g, i);
            && d.sent <= c.sent && d.sessions == g.sessions
            && (c.sessions == d.sessions || (c.sessions == d.sessions + 1 && g.phase.Handshaking?
                                             && i.reply.Got? && i.reply.header.messageId == HELLO))
            && (d.phase.Online? ==> g.phase.Online? && c.sessions == d.sessions)
            && (!d.phase.Online? ==> !g.phase.Online?)
            && (c.phase.Online? ==> d.phase.Online? || c.sessions > d.sessions)
  {
  }

  /** `e` is a later stage of `d` in the same online part. */
  predicate Grew(d: Desk, e: Desk) {
    d.sent <= e.sent && e.sessions == d.sessions && (e.phase.Online? ==> d.phase.Online?)
  }

  lemma BeatGrows(d: Desk, i: Inputs)
    ensures Grew(d, Beat(d, i))
  {
  }

  lemma StatsGrows(d: Desk, i: Inputs)
    ensures Grew(d, ReportStats(d, i))
  {
  }

  lemma GitGrows(d: Desk, i: Inputs)
    ensures Grew(d, ReportGit(d, i))
  {
  }

  lemma NotifGrows(d: Desk, i: Inputs)
    ensures Grew(d, ReportNotif(d, i))
  {
  }

  lemma ServeFacts(d: Desk, i: Inputs)
    ensures Grew(d, Serve(d, i))
  {
    var b := Beat(d, i);
    var s := ReportStats(b, i);
    var t := ReportGit(s, i);
    BeatGrows(d, i);
    StatsGrows(b, i);
    GitGrows(s, i);
    NotifGrows(t, i);
  }

  /** Nothing else goes wrong in a turn of the desktop. */
  predicate Untroubled(i: Inputs) {
    Goes(i.helloSend) && Goes(i.heartbeatSend) && Goes(i.statsSend) && Goes(i.gitSend) && Goes(i.notifSend)
    && !i.drain.Failed?
  }

  /** While every send goes through and nothing fails, an online desktop stays online. */
  lemma ServingStaysOnline(d: Desk, i: Inputs)
    requires d.phase.Online? && Untroubled(i)
    ensures Serve(d, i).phase.Online? && Serve(d, i).sessions == d.sessions
  {
    ServeFacts(d, i);
    var b := Beat(d, i);
    var s := ReportStats(b, i);
    var t := ReportGit(s, i);
    assert b.phase.Online? && s.phase.Online? && t.phase.Online?;
  }

  lemma HelloConnects(d: Desk, i: Inputs)
    requires d.phase.Handshaking? && Goes(i.helloSend) && i.reply.Got? && i.reply.header.messageId == HELLO
    ensures var c := Connect(Commands(Click(d, i), i), i);
            c.phase.Online? && c.sessions == d.sessions + 1
  {
  }

  lemma OnlyOnlineServes(d: Desk, i: Inputs)
    requires !d.phase.Online?
    ensures Serve(d, i) == d
  {
  }

  /** A device found now is greeted now. */
  lemma FoundIsGreeted(d: Desk, i: Inputs)
    requires d.phase.Offline? && Succeeds(i.probe) && i.foundAt <= i.helloAt
    ensures var f := d.(phase := Handshaking, lastHello := i.foundAt - 2 * SECOND);
            Greet(Discover(d, i), i)
            == if Goes(i.helloSend) then f.(lastHello := i.helloAt, sent := d.sent + [Hello]) else Drop(f)
  {
    NotYetDue(i.helloAt, i.foundAt - 2 * SECOND, SECOND, 1);
  }

  lemma AwaitSends(g: Desk, i: Inputs)
    ensures Await(g, i).sent == g.sent && (!g.phase.Handshaking? ==> Await(g, i) == g)
  {
  }

  /**
   Without a device a turn does nothing but look for one; it is found when libusb starts, the device is there, no
   kernel driver stays on it and it is claimed, and then the first HELLO is sent before anything else.
   */
  lemma OfflineTurn(d: Desk, i: Inputs)
    requires d.phase.Offline? && i.foundAt <= i.helloAt
    ensures var e, p := Turn(d, i), i.probe;
            if p.initialized && p.found && (p.kernelDriver ==> p.detached) && p.claimed then
              if Goes(i.helloSend) then d.sent + [Hello] <= e.sent else e.sent == d.sent && e.phase.Offline?
            else e == Click(d, i)
  {
    var c := Click(d, i);
    assert Commands(c, i) == c;
    if Succeeds(i.probe) {
      FoundIsGreeted(c, i);
    } else {
      assert Greet(Discover(c, i), i) == c;
    }
    var g := Greet(Discover(c, i), i);
    AwaitSends(g, i);
    if g.phase.Handshaking? {
      ServeFacts(Await(g, i), i);
    } else {
      OnlyOnlineServes(g, i);
    }
  }

  /** An exit click is sent as command 1, a reboot click as command 2, one an iteration, exit first; each once. */
  lemma CommandsSent(d: Desk, i: Inputs)
    requires d.phase.Online?
    ensures var e := Commands(d, i);
            && e.sent == (if d.exitAsked && Goes(i.commandSend) then d.sent + [Command(1)]
                          else if !d.exitAsked && d.rebootAsked && Goes(i.commandSend) then d.sent + [Command(2)]
                          else d.sent)
            && !e.exitAsked && (e.rebootAsked <==> d.exitAsked && d.rebootAsked) && e.phase.Online?
  {
  }

  /** While handshaking an error ends the connection; a header that is no HELLO, or nothing valid, changes nothing. */
  lemma OtherRepliesWait(g: Desk, i: Inputs)
    requires g.phase.Handshaking?
    ensures i.reply.Failed? ==> Await(g, i) == g.(phase := Offline)
    ensures i.reply.NoReply? || (i.reply.Got? && i.reply.header.messageId != HELLO) ==> Await(g, i) == g
  {
  }

  /** Clicks wait until there is a connection. */
  lemma ClicksWait(d: Desk, i: Inputs)
    requires !d.phase.Online?
    ensures var e := Commands(Click(d, i), i);
            && (e.exitAsked <==> d.exitAsked || i.exitClicked) && (e.rebootAsked <==> d.rebootAsked || i.rebootClicked)
            && e.sent == d.sent
  {
  }

  /** A handshaking desktop repeats its HELLO every second: less has passed since the last when a turn leaves it so. */
  lemma HelloKeepsUp(d: Desk, i: Inputs)
    requires d.phase.Handshaking?
    ensures var e := Turn(d, i);
            && d.sent <= e.sent
            && (e.phase.Handshaking? ==> i.helloAt - e.lastHello < SECOND)
            && (e.lastHello != d.lastHello ==> e.lastHello == i.helloAt && d.sent + [Hello] <= e.sent)
  {
    var g := Greet(Discover(Commands(Click(d, i), i), i), i);
    var c := Await(g, i);
    NotYetDue(i.helloAt, d.lastHello, SECOND, 1);
    HelloTimerKept(g, i);
    ServeFacts(c, i);
    assert c.sent == g.sent && g.sent == if g.lastHello != d.lastHello then d.sent + [Hello] else g.sent;
  }

  /** Nothing here touches the HELLO timer or makes the desktop handshaking. */
  predicate LeavesHello(d: Desk, e: Desk) {
    e.lastHello == d.lastHello && (e.phase.Handshaking? ==> d.phase.Handshaking?)
  }

  lemma BeatLeavesHello(d: Desk, i: Inputs)
    ensures LeavesHello(d, Beat(d, i)) && LeavesHello(d, ReportStats(d, i))
  {
  }

  lemma ReportsLeaveHello(d: Desk, i: Inputs)
    ensures LeavesHello(d, ReportGit(d, i)) && LeavesHello(d, ReportNotif(d, i))
  {
  }

  lemma HelloTimerKept(g: Desk, i: Inputs)
    ensures LeavesHello(g, Serve(Await(g, i), i))
  {
    var c := Await(g, i);
    var b := Beat(c, i);
    var s := ReportStats(b, i);
    var t := ReportGit(s, i);
    assert LeavesHello(g, c);
    BeatLeavesHello(c, i);
    BeatLeavesHello(b, i);
    ReportsLeaveHello(s, i);
    ReportsLeaveHello(t, i);
  }

  // ----- what a turn sends -----

  datatype Kind = HeartbeatKind | StatsKind | GitKind | NotifKind

  function Timer(d: Desk, k: Kind): Time {
    match k
    case HeartbeatKind => d.lastHeartbeat
    case StatsKind => d.lastStats
    case GitKind => d.lastGit
    case NotifKind => d.lastNotif
  }

  /** The interval in force in an iteration. */
  function Interval(k: Kind, i: Inputs): Time {
    match k
    case HeartbeatKind => 2 * SECOND
    case StatsKind => i.statsEvery * MILLISECOND
    case GitKind => i.gitEvery * MILLISECOND
    case NotifKind => i.notifEvery * MILLISECOND
  }

  /** The report of a kind holds exactly what the services gave in this iteration. */
  predicate IsReport(m: Message, k: Kind, i: Inputs) {
    match k
    case HeartbeatKind => m == Heartbeat
    case StatsKind => m == StatsReport(i.stats)
    case GitKind => m == i.git
    case NotifKind => i.latest == Some(m)
  }

  ghost predicate Reported(before: seq<Message>, after: seq<Message>, k: Kind, i: Inputs) {
    exists m :: m in after[Min(|before|, |after|)..] && IsReport(m, k, i)
  }

  /** The kind has nothing to report: it is switched off, or there is no new notification. */
  predicate Excused(k: Kind, i: Inputs) {
    match k
    case GitKind => !i.gitStillOn
    case NotifKind => !i.notifStillOn || (i.notifOn && i.latest.None?)
    case _ => false
  }

  /** The configuration did not switch the kind on in the middle of the iteration, behind the place that sends it. */
  predicate Settled(k: Kind, i: Inputs) {
    match k
    case GitKind => i.gitOn || !i.gitStillOn
    case NotifKind => i.notifOn || !i.notifStillOn
    case _ => true
  }

  lemma NotYetDue(now: Time, last: Time, unit: Time, interval: int)
    requires unit == SECOND || unit == MILLISECOND
    ensures !Due(now, last, unit, interval) ==> now - last < interval * unit
  {
    var d := now - last;
    if d >= 0 {
      var q := d / unit;
      assert d < (q + 1) * unit;
      if q < interval {
        Scaled(q + 1, interval, unit);
      }
    } else {
      var q := (-d) / unit;
      assert q * unit <= -d;
      if -q < interval {
        Scaled(-q + 1, interval, unit);
      }
    }
  }

  lemma Scaled(a: int, b: int, unit: Time)
    requires a <= b && unit > 0
    ensures a * unit <= b * unit
  {
  }

  /**
   What a stage of the online part does for its kind: its timer moves only to the present, and only with a report
   or an excuse; and if it leaves the desktop online, less than the interval has passed on the timer.
   */
  ghost predicate Attends(d: Desk, e: Desk, k: Kind, i: Inputs) {
    && d.sent <= e.sent
    && (Timer(e, k) != Timer(d, k) ==> Timer(e, k) == i.now && (Reported(d.sent, e.sent, k, i) || Excused(k, i)))
    && (e.phase.Online? && Settled(k, i) ==> Timer(e, k) == i.now || i.now - Timer(e, k) < Interval(k, i))
  }

  /** A stage that leaves the kind alone. */
  ghost predicate Spares(d: Desk, e: Desk, k: Kind) {
    d.sent <= e.sent && Timer(e, k) == Timer(d, k) && (e.phase.Online? ==> d.phase.Online?)
  }

  lemma ReportedSnoc(sent: seq<Message>, m: Message, k: Kind, i: Inputs)
    requires IsReport(m, k, i)
    ensures Reported(sent, sent + [m], k, i)
  {
    assert (sent + [m])[|sent|..] == [m];
  }

  lemma BeatStage(d: Desk, i: Inputs)
    ensures Attends(d, Beat(d, i), HeartbeatKind, i)
    ensures forall k :: k != HeartbeatKind ==> Spares(d, Beat(d, i), k)
  {
    NotYetDue(i.now, d.lastHeartbeat, SECOND, 2);
    ReportedSnoc(d.sent, Heartbeat, HeartbeatKind, i);
  }

  lemma StatsStage(d: Desk, i: Inputs)
    ensures Attends(d, ReportStats(d, i), StatsKind, i)
    ensures forall k :: k != StatsKind ==> Spares(d, ReportStats(d, i), k)
  {
    NotYetDue(i.now, d.lastStats, MILLISECOND, i.statsEvery);
    ReportedSnoc(d.sent, StatsReport(i.stats), StatsKind, i);
  }

  lemma GitStage(d: Desk, i: Inputs)
    ensures Attends(d, ReportGit(d, i), GitKind, i)
    ensures forall k :: k != GitKind ==> Spares(d, ReportGit(d, i), k)
  {
    NotYetDue(i.now, d.lastGit, MILLISECOND, i.gitEvery);
    ReportedSnoc(d.sent, i.git, GitKind, i);
  }

  lemma NotifStage(d: Desk, i: Inputs)
    ensures Attends(d, ReportNotif(d, i), NotifKind, i)
    ensures forall k :: k != NotifKind ==> Spares(d, ReportNotif(d, i), k)
  {
    NotifAttends(d, i);
    NotifSpares(d, i);
  }

  lemma NotifSpares(d: Desk, i: Inputs)
    ensures forall k :: k != NotifKind ==> Spares(d, ReportNotif(d, i), k)
  {
  }

  lemma NotifAttends(d: Desk, i: Inputs)
    ensures Attends(d, ReportNotif(d, i), NotifKind, i)
  {
    NotYetDue(i.now, d.lastNotif, MILLISECOND, i.notifEvery);
    var e := ReportNotif(d, i);
    assert Timer(e, NotifKind) == e.lastNotif && Timer(d, NotifKind) == d.lastNotif;
    if e.sent != d.sent {
      ReportedSnoc(d.sent, i.latest.value, NotifKind, i);
    }
  }

  /** Attended in one stage and spared in the others is attended in all. */
  lemma StillReported(a: seq<Message>, b: seq<Message>, c: seq<Message>, d: seq<Message>, k: Kind, i: Inputs)
    requires a <= b <= c <= d && Reported(b, c, k, i)
    ensures Reported(a, d, k, i)
  {
    var m :| m in c[Min(|b|, |c|)..] && IsReport(m, k, i);
    var j :| |b| <= j < |c| && c[j] == m;
    assert d[j] == m && d[|a|..][j - |a|] == m;
  }

  lemma AttendsThrough(a: Desk, b: Desk, c: Desk, d: Desk, k: Kind, i: Inputs)
    requires Spares(a, b, k) && Attends(b, c, k, i) && Spares(c, d, k)
    ensures Attends(a, d, k, i)
  {
    if Reported(b.sent, c.sent, k, i) {
      StillReported(a.sent, b.sent, c.sent, d.sent, k, i);
    }
  }

  lemma SparesThrough(a: Desk, b: Desk, c: Desk, k: Kind)
    requires Spares(a, b, k) && Spares(b, c, k)
    ensures Spares(a, c, k)
  {
  }

  /** The online part of an iteration attends to every kind. */
  lemma ServeAttends(d: Desk, i: Inputs, k: Kind)
    ensures Attends(d, Serve(d, i), k, i)
  {
    var b := Beat(d, i);
    var s := ReportStats(b, i);
    var t := ReportGit(s, i);
    var n := ReportNotif(t, i);
    BeatStage(d, i);
    StatsStage(b, i);
    GitStage(s, i);
    NotifStage(t, i);
    var e := Serve(d, i);
    assert Spares(d, d, k) && Spares(n, e, k);
    match k
    case HeartbeatKind =>
      SparesThrough(b, s, t, k);
      SparesThrough(b, t, n, k);
      SparesThrough(b, n, e, k);
      AttendsThrough(d, d, b, e, k, i);
    case StatsKind =>
      SparesThrough(s, t, n, k);
      SparesThrough(s, n, e, k);
      AttendsThrough(d, b, s, e, k, i);
    case GitKind =>
      SparesThrough(d, b, s, k);
      SparesThrough(t, n, e, k);
      AttendsThrough(d, s, t, e, k, i);
    case NotifKind =>
      SparesThrough(d, b, s, k);
      SparesThrough(d, s, t, k);
      AttendsThrough(d, t, n, e, k, i);
  }

  // ----- reports keep up -----

  /**
   When a kind was last attended to, as seen from outside: a report of it appeared among the messages sent, it had an
   excuse, or a session opened.
   */
  ghost function LastAttended(k: Kind, d: Desk, inputs: seq<Inputs>): Time {
    if inputs == [] then Timer(d, k)
    else
      var last := |inputs| - 1;
      var before, after, i := Turns(d, inputs[..last]), Turns(d, inputs), inputs[last];
      if Reported(before.sent, after.sent, k, i) || Excused(k, i) then i.now
      else if after.sessions > before.sessions then i.connectedAt
      else LastAttended(k, d, inputs[..last])
  }

  /** In an iteration a timer stays, is restarted by a new session, or moves with a report or an excuse. */
  lemma TurnAttends(d: Desk, i: Inputs, k: Kind)
    ensures var e := Turn(d, i);
            && d.sent <= e.sent
            && (e.phase.Online? && Settled(k, i) ==> Timer(e, k) == i.now || i.now - Timer(e, k) < Interval(k, i))
            && (Timer(e, k) == Timer(d, k) || (e.sessions > d.sessions && Timer(e, k) == i.connectedAt)
                || (Timer(e, k) == i.now && (Reported(d.sent, e.sent, k, i) || Excused(k, i))))
  {
    var c := Connect(Commands(Click(d, i), i), i);
    ConnectFacts(d, i);
    ConnectTimers(d, i, k);
    ServeFacts(c, i);
    ServeAttends(c, i, k);
    if Reported(c.sent, Serve(c, i).sent, k, i) {
      StillReported(d.sent, c.sent, Serve(c, i).sent, Serve(c, i).sent, k, i);
    }
  }

  lemma ConnectTimers(d: Desk, i: Inputs, k: Kind)
    ensures var c := Connect(Commands(Click(d, i), i), i);
            Timer(c, k) == if c.sessions > d.sessions then i.connectedAt else Timer(d, k)
  {
    var g := Greet(Discover(Commands(Click(d, i), i), i), i);
    TimersKept(d, i);
  }

  /**
   Reports keep up: at the end of every iteration of every run that leaves the desktop connected, less than the
   interval in force has passed since each kind was last attended to. Nothing but a report of that iteration's
   values, having nothing to report, or a new session counts as attention.
   */
  lemma {:induction false} ReportsKeepUp(k: Kind, d: Desk, t: Time, inputs: seq<Inputs>)
    requires Monotone(t, inputs) && Timer(d, k) <= t && inputs != []
    requires Turns(d, inputs).phase.Online? && Settled(k, inputs[|inputs| - 1])
    ensures var now, attended := inputs[|inputs| - 1].now, LastAttended(k, d, inputs);
            attended <= now && (now == attended || now - attended < Interval(k, inputs[|inputs| - 1]))
  {
    var last := |inputs| - 1;
    TimerBehind(k, d, t, inputs);
    TurnAttends(Turns(d, inputs[..last]), inputs[last], k);
  }

  lemma {:induction false} TimerBehind(k: Kind, d: Desk, t: Time, inputs: seq<Inputs>)
    requires Monotone(t, inputs) && Timer(d, k) <= t
    ensures Timer(Turns(d, inputs), k) <= LastAttended(k, d, inputs) <= Latest(t, inputs)
  {
    if inputs != [] {
      var last := |inputs| - 1;
      TimerBehind(k, d, t, inputs[..last]);
      TurnAttends(Turns(d, inputs[..last]), inputs[last], k);
    }
  }

  // ----- exactly what an online iteration sends -----

  /** The interval has passed, on a timer that is not ahead of the clock. */
  predicate Passed(now: Time, last: Time, interval: Time) {
    now - last >= interval
  }

  lemma DueIsPassed(now: Time, last: Time, unit: Time, interval: int)
    requires (unit == SECOND || unit == MILLISECOND) && last <= now
    ensures Due(now, last, unit, interval) <==> Passed(now, last, interval * unit)
  {
    if Due(now, last, unit, interval) {
      WholeBound(now, last, unit, interval);
    } else {
      NotYetDue(now, last, unit, interval);
    }
  }

  function Only(sends: bool, m: Message): seq<Message> {
    if sends then [m] else []
  }

  /** A stage for which something is due, or not: it sends it, or drops the connection; other timers stay. */
  ghost predicate SendsWhenDue(d: Desk, e: Desk, due: bool, goes: bool, ms: seq<Message>) {
    if d.phase.Online? && (due ==> goes) then e.phase.Online? && e.sent == d.sent + (if due then ms else [])
    else !e.phase.Online?
  }

  lemma BeatSends(d: Desk, i: Inputs)
    requires d.lastHeartbeat <= i.now
    ensures SendsWhenDue(d, Beat(d, i), Passed(i.now, d.lastHeartbeat, 2 * SECOND), Goes(i.heartbeatSend), [Heartbeat])
  {
    DueIsPassed(i.now, d.lastHeartbeat, SECOND, 2);
  }

  lemma StatsSends(d: Desk, i: Inputs)
    requires d.lastStats <= i.now
    ensures SendsWhenDue(d, ReportStats(d, i), Passed(i.now, d.lastStats, i.statsEvery * MILLISECOND),
                         Goes(i.statsSend), [StatsReport(i.stats)])
  {
    DueIsPassed(i.now, d.lastStats, MILLISECOND, i.statsEvery);
  }

  lemma GitSends(d: Desk, i: Inputs)
    requires d.lastGit <= i.now
    ensures SendsWhenDue(d, ReportGit(d, i), i.gitOn && Passed(i.now, d.lastGit, i.gitEvery * MILLISECOND),
                         Goes(i.gitSend), [i.git])
  {
    DueIsPassed(i.now, d.lastGit, MILLISECOND, i.gitEvery);
  }

  lemma NotifSends(d: Desk, i: Inputs)
    requires d.lastNotif <= i.now
    ensures SendsWhenDue(d, ReportNotif(d, i),
                         i.notifOn && i.latest.Some? && Passed(i.now, d.lastNotif, i.notifEvery * MILLISECOND),
                         Goes(i.notifSend), if i.latest.Some? then [i.latest.value] else [])
  {
    DueIsPassed(i.now, d.lastNotif, MILLISECOND, i.notifEvery);
  }

  /** What a kind has to send in an iteration, going by the timers it begins with. */
  function Owed(d: Desk, k: Kind, i: Inputs): seq<Message> {
    if !Passed(i.now, Timer(d, k), Interval(k, i)) then []
    else match k
      case HeartbeatKind => [Heartbeat]
      case StatsKind => [StatsReport(i.stats)]
      case GitKind => if i.gitOn then [i.git] else []
      case NotifKind => if i.notifOn && i.latest.Some? then [i.latest.value] else []
  }

  function SendOf(k: Kind, i: Inputs): Sending {
    match k
    case HeartbeatKind => i.heartbeatSend
    case StatsKind => i.statsSend
    case GitKind => i.gitSend
    case NotifKind => i.notifSend
  }

  /**
   The online part stays online exactly when every send that is owed goes through and the receive does not fail; then
   it has sent exactly the reports that were owed, in this order.
   */
  lemma ServeOutcome(d: Desk, i: Inputs)
    requires d.phase.Online? && forall k :: Timer(d, k) <= i.now
    ensures Serve(d, i).phase.Online? <==> !i.drain.Failed? && forall k :: Owed(d, k, i) != [] ==> Goes(SendOf(k, i))
    ensures Serve(d, i).phase.Online? ==>
              Serve(d, i).sent == d.sent + Owed(d, HeartbeatKind, i) + Owed(d, StatsKind, i) + Owed(d, GitKind, i)
                                  + Owed(d, NotifKind, i)
  {
    var b := Beat(d, i);
    var s := ReportStats(b, i);
    var t := ReportGit(s, i);
    TimersUntilServed(d, i);
    BeatSends(d, i);
    StatsSends(b, i);
    GitSends(s, i);
    NotifSends(t, i);
    assert Serve(d, i).phase.Online? <==> ReportNotif(t, i).phase.Online? && !i.drain.Failed?;
    AllKinds(d, i);
  }

  /** A kind's timer is the one the iteration began with until its own stage. */
  lemma TimersUntilServed(d: Desk, i: Inputs)
    requires forall k :: Timer(d, k) <= i.now
    ensures var b := Beat(d, i);
            var s := ReportStats(b, i);
            var t := ReportGit(s, i);
            b.lastStats == d.lastStats && s.lastGit == d.lastGit && t.lastNotif == d.lastNotif
            && d.lastHeartbeat <= i.now && d.lastStats <= i.now && d.lastGit <= i.now && d.lastNotif <= i.now
  {
    var b := Beat(d, i);
    var s := ReportStats(b, i);
    BeatStage(d, i);
    StatsStage(b, i);
    GitStage(s, i);
    assert Spares(d, b, StatsKind) && Spares(d, b, GitKind) && Spares(d, b, NotifKind);
    assert Spares(b, s, GitKind) && Spares(b, s, NotifKind) && Spares(s, ReportGit(s, i), NotifKind);
    assert Timer(d, HeartbeatKind) <= i.now && Timer(d, StatsKind) <= i.now;
    assert Timer(d, GitKind) <= i.now && Timer(d, NotifKind) <= i.now;
  }

  lemma AllKinds(d: Desk, i: Inputs)
    ensures (forall k :: Owed(d, k, i) != [] ==> Goes(SendOf(k, i)))
            <==> (Owed(d, HeartbeatKind, i) != [] ==> Goes(i.heartbeatSend))
                 && (Owed(d, StatsKind, i) != [] ==> Goes(i.statsSend))
                 && (Owed(d, GitKind, i) != [] ==> Goes(i.gitSend))
                 && (Owed(d, NotifKind, i) != [] ==> Goes(i.notifSend))
  {
    assert SendOf(HeartbeatKind, i) == i.heartbeatSend && SendOf(StatsKind, i) == i.statsSend;
    assert SendOf(GitKind, i) == i.gitSend && SendOf(NotifKind, i) == i.notifSend;
  }
}
