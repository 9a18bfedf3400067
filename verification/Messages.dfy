/** What the desktop has to say, and the packets apps/desktop/src/main.cpp builds for it. */
module Messages {
  import opened Bytes
  import opened Options
  import PacketCodec
  import PayloadCodec
  import opened Protocol

  /** Strings are whatever the scraping services produced: any bytes, any length, NULs included. */
  datatype Message =
    | Hello
    | Heartbeat
    | StatsReport(stats: Stats)
    | GitReport(modified: uint32, untracked: uint32, branch: seq<byte>)
    | NotifReport(app: seq<byte>, summary: seq<byte>, body: seq<byte>)
    | Command(id: byte)

  function IdOf(m: Message): uint32 {
    match m
    case Hello => HELLO
    case Heartbeat => HEARTBEAT
    case StatsReport(_) => SYSTEM_STATS
    case GitReport(_, _, _) => GIT_STATUS
    case NotifReport(_, _, _) => NOTIFICATION
    case Command(_) => CONTROL
  }

  /** The structs the desktop fills: `memset` to zero, then `strncpy` of all but the last byte. */
  function GitOf(m: Message): Git
    requires m.GitReport?
  {
    Git(m.modified, m.untracked, Field(m.branch, 32))
  }

  function NotifOf(m: Message): Notif
    requires m.NotifReport?
  {
    Notif(Field(m.app, 24), Field(m.summary, 52), Field(m.body, 52))
  }

  function BodyOf(m: Message): (b: seq<byte>)
    ensures |b| <= NOTIFICATION_SIZE
  {
    match m
    case Hello => []
    case Heartbeat => []
    case StatsReport(v) => StatsBytes(v)
    case GitReport(_, _, _) => GitBytes(GitOf(m))
    case NotifReport(_, _, _) => NotifBytes(NotifOf(m))
    case Command(id) => [id]
  }

  function HeaderOf(m: Message): Header {
    Header(MAGIC, VERSION, IdOf(m), |BodyOf(m)|)
  }

  function WireBytes(m: Message): (w: seq<byte>)
    ensures w != []
  {
    HeaderBytes(HeaderOf(m)) + BodyOf(m)
  }

  /** `memset(dst, 0, width); strncpy(dst, src.c_str(), width - 1)`. */
  method CopyIn(src: seq<byte>, width: nat) returns (dst: seq<byte>)
    requires width > 0
    ensures dst == Field(src, width)
  {
    dst := Zeros(width);
    var i := 0;
    while i < width - 1 && i < |src| && src[i] != 0
      invariant 0 <= i <= width - 1 && i <= |src| && 0 !in src[..i]
      invariant dst == src[..i] + Zeros(width - i)
    {
      dst := dst[i := src[i]];
      i := i + 1;
      assert src[..i] == src[..i - 1] + [src[i - 1]];
    }
    CutOfCStr(src, width - 1, i);
  }

  method FillGit(m: Message) returns (git: Git)
    requires m.GitReport?
    ensures git == GitOf(m)
  {
    var name := CopyIn(m.branch, 32);
    git := Git(m.modified, m.untracked, name);
  }

  method FillNotif(m: Message) returns (notif: Notif)
    requires m.NotifReport?
    ensures notif == NotifOf(m)
  {
    var app := CopyIn(m.app, 24);
    var summary := CopyIn(m.summary, 52);
    var body := CopyIn(m.body, 52);
    notif := Notif(app, summary, body);
  }

  /** The structs come out of the wire as the desktop filled them: they were cut before. */
  lemma GitSurvives(m: Message)
    requires m.GitReport?
    ensures ParseGit(BodyOf(m)) == GitOf(m)
  {
    GitRoundTrip(GitOf(m));
    CStrOfField(m.branch, 32);
  }

  lemma NotifSurvives(m: Message)
    requires m.NotifReport?
    ensures ParseNotif(BodyOf(m)) == NotifOf(m)
  {
    FieldsCutOnce(m);
    CutIsKept(NotifOf(m));
  }

  lemma CutIsKept(v: Notif)
    requires CutNotif(v) == v
    ensures ParseNotif(NotifBytes(v)) == v
  {
    NotifRoundTrip(v);
  }

  lemma FieldsCutOnce(m: Message)
    requires m.NotifReport?
    ensures CutNotif(NotifOf(m)) == NotifOf(m)
  {
    CStrOfField(m.app, 24);
    CStrOfField(m.summary, 52);
    CStrOfField(m.body, 52);
  }

  /** Fills the transmit buffer with one packet, as each sender block of the desktop loop does. */
  method BuildPacket(m: Message) returns (txBuf: array<byte>)
    ensures fresh(txBuf) && txBuf[..] == WireBytes(m)
  {
    var h := HeaderOf(m);
    txBuf := new byte[HEADER_SIZE + h.payloadSize](_ => 0);
    var _ := PacketCodec.SerializeHeader(Some(h), txBuf, 0, HEADER_SIZE);
    ghost var head := txBuf[0..HEADER_SIZE];
    BuildBody(m, txBuf);
    assert txBuf[0..HEADER_SIZE] == head;
    Cleave(txBuf[..], HEADER_SIZE);
  }

  lemma Cleave(s: seq<byte>, k: nat)
    requires k <= |s|
    ensures s == s[0..k] + s[k..|s|]
  {
  }

  /** The payload part: the struct is filled and serialized behind the header. */
  method BuildBody(m: Message, txBuf: array<byte>)
    requires txBuf.Length == HEADER_SIZE + |BodyOf(m)|
    modifies txBuf
    ensures txBuf[HEADER_SIZE..HEADER_SIZE + |BodyOf(m)|] == BodyOf(m)
            && PacketCodec.OnlyWrote(txBuf, HEADER_SIZE, txBuf.Length)
  {
    match m {
      case Hello =>
      case Heartbeat =>
      case StatsReport(v) =>
        var _ := PayloadCodec.SerializeStats(Some(v), txBuf, HEADER_SIZE, STATS_SIZE);
      case GitReport(_, _, _) =>
        var git := FillGit(m);
        var _ := PayloadCodec.SerializeGit(Some(git), txBuf, HEADER_SIZE, GIT_SIZE);
      case NotifReport(_, _, _) =>
        var notif := FillNotif(m);
        var _ := PayloadCodec.SerializeNotif(Some(notif), txBuf, HEADER_SIZE, NOTIFICATION_SIZE);
      case Command(id) =>
        var _ := PayloadCodec.SerializeControl(Some(id), txBuf, HEADER_SIZE, CONTROL_SIZE);
    }
  }
}
