/** The payload codecs of shared/protocol/src/payload.c, over caller buffers. */
module PayloadCodec {
  import opened Bytes
  import opened Options
  import opened PacketCodec
  import opened Protocol

  /** Packs a 64-bit field, least significant byte first. */
  method PackU64(x: uint64, buffer: array<byte>, at: nat)
    requires at + 8 <= buffer.Length
    modifies buffer
    ensures buffer[at..at + 8] == ToLE(x, 8) && OnlyWrote(buffer, at, at + 8)
  {
    buffer[at] := ByteAt(x, 0);
    buffer[at + 1] := ByteAt(x, 1);
    buffer[at + 2] := ByteAt(x, 2);
    buffer[at + 3] := ByteAt(x, 3);
    buffer[at + 4] := ByteAt(x, 4);
    buffer[at + 5] := ByteAt(x, 5);
    buffer[at + 6] := ByteAt(x, 6);
    buffer[at + 7] := ByteAt(x, 7);
    ToLE8(x);
  }

  method SerializeStats(stats: Option<Stats>, buffer: array?<byte>, at: nat, size: nat) returns (ret: int)
    requires buffer != null ==> at + size <= buffer.Length
    modifies buffer
    ensures ret == if stats.None? || buffer == null || size < STATS_SIZE then -1 else 0
    ensures ret == 0 ==> buffer[at..at + STATS_SIZE] == StatsBytes(stats.value)
    ensures ret == 0 ==> OnlyWrote(buffer, at, at + STATS_SIZE)
    ensures ret != 0 && buffer != null ==> buffer[..] == old(buffer[..])
  {
    if stats.None? || buffer == null || size < STATS_SIZE {
      return -1;
    }
    var v := stats.value;
    buffer[at] := v.cpuUsage;
    buffer[at + 1] := v.ramUsage;

    PackU16(v.cpuTemp, buffer, at + 2);
    ghost var head := [v.cpuUsage, v.ramUsage] + ToLE(v.cpuTemp, 2);
    assert buffer[at..at + 4] == head;
    PackU64(v.ramTotal, buffer, at + 4);
    ghost var middle := head + ToLE(v.ramTotal, 8);
    assert buffer[at..at + 12] == middle by {
      assert forall k :: 0 <= k < 4 ==> buffer[at + k] == head[k];
      assert buffer[at..at + 12] == buffer[at..at + 4] + buffer[at + 4..at + 12];
    }
    PackU64(v.ramFree, buffer, at + 12);
    assert buffer[at..at + 20] == middle + ToLE(v.ramFree, 8) by {
      assert forall k :: 0 <= k < 12 ==> buffer[at + k] == middle[k];
      assert buffer[at..at + 20] == buffer[at..at + 12] + buffer[at + 12..at + 20];
    }
    return 0;
  }

  /** `b0 | (b1 << 8) | ... | (b7 << 56)`. */
  function Combine8(b0: byte, b1: byte, b2: byte, b3: byte, b4: byte, b5: byte, b6: byte, b7: byte): uint64 {
    b0 as int + 0x100 * b1 as int + 0x1_0000 * b2 as int + 0x100_0000 * b3 as int
    + 0x1_0000_0000 * b4 as int + 0x100_0000_0000 * b5 as int
    + 0x1_0000_0000_0000 * b6 as int + 0x100_0000_0000_0000 * b7 as int
  }

  lemma CombineIsLE8(s: seq<byte>)
    requires |s| == 8
    ensures Combine8(s[0], s[1], s[2], s[3], s[4], s[5], s[6], s[7]) == LE64(s)
  {
    FromLE8(s);
    FromLE4(s[..4]);
    FromLE4(s[4..]);
  }

  method DeserializeStats(buffer: array?<byte>, size: nat, previous: Option<Stats>)
    returns (ret: int, stats: Option<Stats>)
    requires buffer != null ==> size <= buffer.Length
    ensures ret == if buffer == null || previous.None? || size < STATS_SIZE then -1 else 0
    ensures stats == if ret == 0 then Some(ParseStats(buffer[..size])) else previous
  {
    if buffer == null || previous.None? || size < STATS_SIZE {
      return -1, previous;
    }
    var cpuTemp := Combine2(buffer[2], buffer[3]);
    var ramTotal := Combine8(buffer[4], buffer[5], buffer[6], buffer[7], buffer[8], buffer[9], buffer[10], buffer[11]);
    var ramFree := Combine8(buffer[12], buffer[13], buffer[14], buffer[15],
                            buffer[16], buffer[17], buffer[18], buffer[19]);
    ghost var s := buffer[..size];
    CombineIsLE2(s[2..4]);
    CombineIsLE8(s[4..12]);
    CombineIsLE8(s[12..20]);
    return 0, Some(Stats(buffer[0], buffer[1], cpuTemp, ramTotal, ramFree));
  }

  /** `memset(buffer + at, 0, n)`. */
  method ZeroFill(buffer: array<byte>, at: nat, n: nat)
    requires at + n <= buffer.Length
    modifies buffer
    ensures (forall k :: at <= k < at + n ==> buffer[k] == 0) && OnlyWrote(buffer, at, at + n)
  {
    for i := 0 to n
      invariant forall k :: at <= k < at + i ==> buffer[k] == 0
      invariant forall k :: 0 <= k < buffer.Length && !(at <= k < at + i) ==> buffer[k] == old(buffer[k])
    {
      buffer[at + i] := 0;
    }
  }

  /** Copies `src` up to its NUL, at most `width - 1` bytes, over a zeroed field of `width` bytes. */
  method CopyString(src: seq<byte>, buffer: array<byte>, at: nat, width: nat)
    requires 0 < width == |src| && at + width <= buffer.Length
    requires forall k :: at <= k < at + width ==> buffer[k] == 0
    modifies buffer
    ensures buffer[at..at + width] == Field(src, width)
    ensures OnlyWrote(buffer, at, at + width)
  {
    var i := 0;
    while i < width - 1 && src[i] != 0
      invariant 0 <= i < width && 0 !in src[..i]
      invariant buffer[at..at + i] == src[..i]
      invariant forall k :: at + i <= k < at + width ==> buffer[k] == 0
      invariant forall k :: 0 <= k < buffer.Length && !(at <= k < at + width) ==> buffer[k] == old(buffer[k])
    {
      buffer[at + i] := src[i];
      i := i + 1;
      assert src[..i] == src[..i - 1] + [src[i - 1]];
      assert buffer[at..at + i] == buffer[at..at + i - 1] + [src[i - 1]];
    }
    CutOfCStr(src, width - 1, i);
  }

  method SerializeGit(git: Option<Git>, buffer: array?<byte>, at: nat, size: nat) returns (ret: int)
    requires buffer != null ==> at + size <= buffer.Length
    modifies buffer
    ensures ret == if git.None? || buffer == null || size < GIT_SIZE then -1 else 0
    ensures ret == 0 ==> buffer[at..at + GIT_SIZE] == GitBytes(git.value)
    ensures ret == 0 ==> OnlyWrote(buffer, at, at + GIT_SIZE)
    ensures ret != 0 && buffer != null ==> buffer[..] == old(buffer[..])
  {
    if git.None? || buffer == null || size < GIT_SIZE {
      return -1;
    }
    var v := git.value;
    PackWords(v.modified, v.untracked, buffer, at);
    label numbers:
    ZeroFill(buffer, at + 8, 32);
    CopyString(v.branch, buffer, at + 8, 32);
    assert buffer[at..at + 8] == old@numbers(buffer[at..at + 8]);
    assert buffer[at..at + 40] == buffer[at..at + 8] + buffer[at + 8..at + 40];
    return 0;
  }

  /** `for (i = 0; i < width - 1; i++) chars[i] = buffer[at + i]; chars[width - 1] = 0`. */
  method ReadChars(buffer: array<byte>, at: nat, width: nat) returns (chars: seq<byte>)
    requires 0 < width && at + width <= buffer.Length
    ensures chars == buffer[at..at + width - 1] + [0]
  {
    chars := Zeros(width);
    for i := 0 to width - 1
      invariant |chars| == width && chars[..i] == buffer[at..at + i]
    {
      chars := chars[i := buffer[at + i]];
    }
    chars := chars[width - 1 := 0];
  }

  method DeserializeGit(buffer: array?<byte>, size: nat, previous: Option<Git>) returns (ret: int, git: Option<Git>)
    requires buffer != null ==> size <= buffer.Length
    ensures ret == if buffer == null || previous.None? || size < GIT_SIZE then -1 else 0
    ensures git == if ret == 0 then Some(ParseGit(buffer[..size])) else previous
  {
    if buffer == null || previous.None? || size < GIT_SIZE {
      return -1, previous;
    }
    var modified := Combine4(buffer[0], buffer[1], buffer[2], buffer[3]);
    var untracked := Combine4(buffer[4], buffer[5], buffer[6], buffer[7]);
    ghost var s := buffer[..size];
    CombineIsLE4(s[0..4]);
    CombineIsLE4(s[4..8]);
    var branch := ReadChars(buffer, 8, 32);
    assert buffer[8..39] == s[8..39];
    return 0, Some(Git(modified, untracked, branch));
  }

  method SerializeNotif(notif: Option<Notif>, buffer: array?<byte>, at: nat, size: nat) returns (ret: int)
    requires buffer != null ==> at + size <= buffer.Length
    modifies buffer
    ensures ret == if notif.None? || buffer == null || size < NOTIFICATION_SIZE then -1 else 0
    ensures ret == 0 ==> buffer[at..at + NOTIFICATION_SIZE] == NotifBytes(notif.value)
    ensures ret == 0 ==> OnlyWrote(buffer, at, at + NOTIFICATION_SIZE)
    ensures ret != 0 && buffer != null ==> buffer[..] == old(buffer[..])
  {
    if notif.None? || buffer == null || size < NOTIFICATION_SIZE {
      return -1;
    }
    var v := notif.value;
    ZeroFill(buffer, at, NOTIFICATION_SIZE);
    CopyString(v.app, buffer, at, 24);
    label app:
    CopyString(v.summary, buffer, at + 24, 52);
    label summary:
    CopyString(v.body, buffer, at + 76, 52);
    assert buffer[at..at + 24] == old@app(buffer[at..at + 24]);
    assert buffer[at + 24..at + 76] == old@summary(buffer[at + 24..at + 76]);
    assert buffer[at..at + 128] == buffer[at..at + 24] + buffer[at + 24..at + 76] + buffer[at + 76..at + 128];
    return 0;
  }

  method DeserializeNotif(buffer: array?<byte>, size: nat, previous: Option<Notif>)
    returns (ret: int, notif: Option<Notif>)
    requires buffer != null ==> size <= buffer.Length
    ensures ret == if buffer == null || previous.None? || size < NOTIFICATION_SIZE then -1 else 0
    ensures notif == if ret == 0 then Some(ParseNotif(buffer[..size])) else previous
  {
    if buffer == null || previous.None? || size < NOTIFICATION_SIZE {
      return -1, previous;
    }
    var app := ReadChars(buffer, 0, 24);
    var summary := ReadChars(buffer, 24, 52);
    var body := ReadChars(buffer, 76, 52);
    ghost var s := buffer[..size];
    assert buffer[0..23] == s[0..23] && buffer[24..75] == s[24..75] && buffer[76..127] == s[76..127];
    return 0, Some(Notif(app, summary, body));
  }

  method SerializeControl(command: Option<byte>, buffer: array?<byte>, at: nat, size: nat) returns (ret: int)
    requires buffer != null ==> at + size <= buffer.Length
    modifies buffer
    ensures ret == if command.None? || buffer == null || size < CONTROL_SIZE then -1 else 0
    ensures ret == 0 ==> buffer[at..at + CONTROL_SIZE] == [command.value]
    ensures ret == 0 ==> OnlyWrote(buffer, at, at + CONTROL_SIZE)
    ensures ret != 0 && buffer != null ==> buffer[..] == old(buffer[..])
  {
    if command.None? || buffer == null || size < CONTROL_SIZE {
      return -1;
    }
    buffer[at] := command.value;
    return 0;
  }

  method DeserializeControl(buffer: array?<byte>, size: nat, previous: Option<byte>)
    returns (ret: int, command: Option<byte>)
    requires buffer != null ==> size <= buffer.Length
    ensures ret == if buffer == null || previous.None? || size < CONTROL_SIZE then -1 else 0
    ensures command == if ret == 0 then Some(buffer[0]) else previous
  {
    if buffer == null || previous.None? || size < CONTROL_SIZE {
      return -1, previous;
    }
    return 0, Some(buffer[0]);
  }
}
