/** The DevLink wire protocol: message formats as values, their encodings and what the encodings keep. */
module Protocol {
  import opened Bytes

  const MAGIC: uint16 := 0x5053
  const VERSION_MAJOR := 1
  const VERSION_MINOR := 0
  const HEADER_SIZE := 12
  const STATS_SIZE := 20
  const GIT_SIZE := 40
  const NOTIFICATION_SIZE := 128
  const CONTROL_SIZE := 1

  const HELLO: uint32 := 1
  const HEARTBEAT: uint32 := 2
  const SYSTEM_STATS: uint32 := 3
  const GIT_STATUS: uint32 := 4
  const NOTIFICATION: uint32 := 5
  const CONTROL: uint32 := 6

  /** `(MAJOR << 8) | MINOR`, the version both programs are built with. */
  const VERSION: uint16 := VERSION_MAJOR * 0x100 + VERSION_MINOR

  datatype Header = Header(magic: uint16, version: uint16, messageId: uint32, payloadSize: uint32)

  type Chars24 = s: seq<byte> | |s| == 24 witness Zeros(24)
  type Chars32 = s: seq<byte> | |s| == 32 witness Zeros(32)
  type Chars52 = s: seq<byte> | |s| == 52 witness Zeros(52)

  datatype Stats = Stats(cpuUsage: byte, ramUsage: byte, cpuTemp: uint16, ramTotal: uint64, ramFree: uint64)
  datatype Git = Git(modified: uint32, untracked: uint32, branch: Chars32)
  datatype Notif = Notif(app: Chars24, summary: Chars52, body: Chars52)

  /** Every string of a notification ends within its array. */
  predicate Terminated(n: Notif) {
    n.app[23] == 0 && n.summary[51] == 0 && n.body[51] == 0
  }

  const NO_STATS := Stats(0, 0, 0, 0, 0)
  const NO_GIT := Git(0, 0, Zeros(32))
  const NO_NOTIF := Notif(Zeros(24), Zeros(52), Zeros(52))

  // ----- encodings -----

  function HeaderBytes(h: Header): (s: seq<byte>)
    ensures |s| == HEADER_SIZE
  {
    ToLE(h.magic, 2) + ToLE(h.version, 2) + ToLE(h.messageId, 4) + ToLE(h.payloadSize, 4)
  }

  lemma FromLEBound(s: seq<byte>, n: nat)
    requires |s| == n
    ensures FromLE(s) < Pow256(n)
  {
    ToFromLE(s);
  }

  function LE16(s: seq<byte>): uint16
    requires |s| == 2
  {
    PowersOf256(); FromLEBound(s, 2);
    FromLE(s)
  }

  function LE32(s: seq<byte>): uint32
    requires |s| == 4
  {
    PowersOf256(); FromLEBound(s, 4);
    FromLE(s)
  }

  function LE64(s: seq<byte>): uint64
    requires |s| == 8
  {
    PowersOf256(); FromLEBound(s, 8);
    FromLE(s)
  }

  function ParseHeader(s: seq<byte>): Header
    requires |s| >= HEADER_SIZE
  {
    Header(LE16(s[0..2]), LE16(s[2..4]), LE32(s[4..8]), LE32(s[8..12]))
  }

  function StatsBytes(v: Stats): (s: seq<byte>)
    ensures |s| == STATS_SIZE
  {
    [v.cpuUsage, v.ramUsage] + ToLE(v.cpuTemp, 2) + ToLE(v.ramTotal, 8) + ToLE(v.ramFree, 8)
  }

  function ParseStats(s: seq<byte>): Stats
    requires |s| >= STATS_SIZE
  {
    Stats(s[0], s[1], LE16(s[2..4]), LE64(s[4..12]), LE64(s[12..20]))
  }

  function GitBytes(v: Git): (s: seq<byte>)
    ensures |s| == GIT_SIZE
  {
    ToLE(v.modified, 4) + ToLE(v.untracked, 4) + Field(v.branch, 32)
  }

  function ParseGit(s: seq<byte>): Git
    requires |s| >= GIT_SIZE
  {
    Git(LE32(s[0..4]), LE32(s[4..8]), s[8..39] + [0])
  }

  function NotifBytes(v: Notif): (s: seq<byte>)
    ensures |s| == NOTIFICATION_SIZE
  {
    Field(v.app, 24) + Field(v.summary, 52) + Field(v.body, 52)
  }

  function ParseNotif(s: seq<byte>): Notif
    requires |s| >= NOTIFICATION_SIZE
  {
    Notif(s[0..23] + [0], s[24..75] + [0], s[76..127] + [0])
  }

  // ----- what a round trip keeps -----

  lemma LERoundTrip(x: nat, n: nat, s: seq<byte>)
    requires x < Pow256(n) && s == ToLE(x, n)
    ensures FromLE(s) == x
  {
    FromToLE(x, n);
  }

  /** Every header survives the wire, and every 12 bytes parse to a header that re-serializes to them. */
  lemma HeaderRoundTrip(h: Header)
    ensures ParseHeader(HeaderBytes(h)) == h
  {
    var s := HeaderBytes(h);
    PowersOf256();
    LERoundTrip(h.magic, 2, s[0..2]);
    LERoundTrip(h.version, 2, s[2..4]);
    LERoundTrip(h.messageId, 4, s[4..8]);
    LERoundTrip(h.payloadSize, 4, s[8..12]);
  }

  lemma HeaderBytesRoundTrip(s: seq<byte>)
    requires |s| == HEADER_SIZE
    ensures HeaderBytes(ParseHeader(s)) == s
  {
    ToFromLE(s[0..2]);
    ToFromLE(s[2..4]);
    ToFromLE(s[4..8]);
    ToFromLE(s[8..12]);
    assert s == s[0..2] + s[2..4] + s[4..8] + s[8..12];
  }

  lemma StatsRoundTrip(v: Stats)
    ensures ParseStats(StatsBytes(v)) == v
  {
    var s := StatsBytes(v);
    PowersOf256();
    assert s[12..20] == ToLE(v.ramFree, 8);
    assert s[4..12] == ToLE(v.ramTotal, 8);
    LERoundTrip(v.cpuTemp, 2, s[2..4]);
    LERoundTrip(v.ramTotal, 8, s[4..12]);
    LERoundTrip(v.ramFree, 8, s[12..20]);
  }

  lemma StatsBytesRoundTrip(s: seq<byte>)
    requires |s| == STATS_SIZE
    ensures StatsBytes(ParseStats(s)) == s
  {
    ToFromLE(s[2..4]);
    ToFromLE(s[4..12]);
    ToFromLE(s[12..20]);
    assert s == [s[0], s[1]] + s[2..4] + s[4..12] + s[12..20];
  }

  /** The fields of a notification or a git status after one trip: each string cut to what its field holds. */
  function CutGit(v: Git): Git {
    Git(v.modified, v.untracked, Field(v.branch, 32))
  }

  function CutNotif(v: Notif): Notif {
    Notif(Field(v.app, 24), Field(v.summary, 52), Field(v.body, 52))
  }

  lemma FieldEndsInNul(s: seq<byte>, width: nat)
    requires width > 0
    ensures Field(s, width) == Field(s, width)[..width - 1] + [0]
  {
  }

  /** Where the fields of a header are on the wire, least significant byte first. */
  lemma HeaderLayout(h: Header, k: nat)
    ensures var s := HeaderBytes(h);
            && (k < 2 ==> s[k] == ByteAt(h.magic, k)) && (k < 2 ==> s[2 + k] == ByteAt(h.version, k))
            && (k < 4 ==> s[4 + k] == ByteAt(h.messageId, k)) && (k < 4 ==> s[8 + k] == ByteAt(h.payloadSize, k))
  {
    if k < 2 {
      ToLEAt(h.magic, 2, k);
      ToLEAt(h.version, 2, k);
    }
    if k < 4 {
      ToLEAt(h.messageId, 4, k);
      ToLEAt(h.payloadSize, 4, k);
    }
  }

  lemma StatsLayout(v: Stats, k: nat)
    ensures var s := StatsBytes(v);
            && s[0] == v.cpuUsage && s[1] == v.ramUsage && (k < 2 ==> s[2 + k] == ByteAt(v.cpuTemp, k))
            && (k < 8 ==> s[4 + k] == ByteAt(v.ramTotal, k)) && (k < 8 ==> s[12 + k] == ByteAt(v.ramFree, k))
  {
    if k < 2 {
      ToLEAt(v.cpuTemp, 2, k);
    }
    if k < 8 {
      ToLEAt(v.ramTotal, 8, k);
      ToLEAt(v.ramFree, 8, k);
    }
  }

  /** The counts, then the branch up to its NUL or 31 bytes, then zeros. */
  lemma GitLayout(v: Git, k: nat)
    ensures var s, c := GitBytes(v), Cut(CStr(v.branch), 31);
            && (k < 4 ==> s[k] == ByteAt(v.modified, k)) && (k < 4 ==> s[4 + k] == ByteAt(v.untracked, k))
            && (k < 32 ==> s[8 + k] == if k < |c| then c[k] else 0)
  {
    if k < 4 {
      ToLEAt(v.modified, 4, k);
      ToLEAt(v.untracked, 4, k);
    }
  }

  /** App, summary and body, each up to its NUL or one byte less than its field, then zeros. */
  lemma NotifLayout(v: Notif, k: nat)
    ensures var s, a, b, c := NotifBytes(v), Cut(CStr(v.app), 23), Cut(CStr(v.summary), 51), Cut(CStr(v.body), 51);
            && (k < 24 ==> s[k] == if k < |a| then a[k] else 0)
            && (k < 52 ==> s[24 + k] == if k < |b| then b[k] else 0)
            && (k < 52 ==> s[76 + k] == if k < |c| then c[k] else 0)
  {
  }

  /** Decode after encode keeps the numbers and the C string of the branch up to 31 bytes. */
  lemma GitRoundTrip(v: Git)
    ensures ParseGit(GitBytes(v)) == CutGit(v)
    ensures CStr(CutGit(v).branch) == Cut(CStr(v.branch), 31)
    ensures GitBytes(ParseGit(GitBytes(v))) == GitBytes(v)
  {
    var s := GitBytes(v);
    PowersOf256();
    LERoundTrip(v.modified, 4, s[0..4]);
    LERoundTrip(v.untracked, 4, s[4..8]);
    FieldEndsInNul(v.branch, 32);
    assert s[8..39] == Field(v.branch, 32)[..31];
    CStrOfField(v.branch, 32);
  }

  /** Decode after encode keeps every string of a notification as a C string of 23, 51 and 51 bytes. */
  lemma NotifRoundTrip(v: Notif)
    ensures ParseNotif(NotifBytes(v)) == CutNotif(v)
    ensures CStr(CutNotif(v).app) == Cut(CStr(v.app), 23)
    ensures CStr(CutNotif(v).summary) == Cut(CStr(v.summary), 51)
    ensures CStr(CutNotif(v).body) == Cut(CStr(v.body), 51)
    ensures NotifBytes(ParseNotif(NotifBytes(v))) == NotifBytes(v)
  {
    var s := NotifBytes(v);
    FieldEndsInNul(v.app, 24);
    FieldEndsInNul(v.summary, 52);
    FieldEndsInNul(v.body, 52);
    assert s[0..23] == Field(v.app, 24)[..23];
    assert s[24..75] == Field(v.summary, 52)[..51];
    assert s[76..127] == Field(v.body, 52)[..51];
    CStrOfField(v.app, 24);
    CStrOfField(v.summary, 52);
    CStrOfField(v.body, 52);
  }

  /** The wire bytes of a git status tell apart exactly the numbers and the first 31 bytes of the C string. */
  lemma GitBytesInjective(v: Git, w: Git)
    ensures GitBytes(v) == GitBytes(w) <==>
            v.modified == w.modified && v.untracked == w.untracked && Cut(CStr(v.branch), 31) == Cut(CStr(w.branch), 31)
  {
    GitRoundTrip(v);
    GitRoundTrip(w);
    FieldInjective(v.branch, w.branch, 32);
  }

  /** The wire bytes of a notification tell apart exactly the first 23, 51 and 51 bytes of its C strings. */
  lemma NotifBytesInjective(v: Notif, w: Notif)
    ensures NotifBytes(v) == NotifBytes(w) <==>
            Cut(CStr(v.app), 23) == Cut(CStr(w.app), 23)
            && Cut(CStr(v.summary), 51) == Cut(CStr(w.summary), 51)
            && Cut(CStr(v.body), 51) == Cut(CStr(w.body), 51)
  {
    NotifRoundTrip(v);
    NotifRoundTrip(w);
    FieldInjective(v.app, w.app, 24);
    FieldInjective(v.summary, w.summary, 52);
    FieldInjective(v.body, w.body, 52);
  }
}
