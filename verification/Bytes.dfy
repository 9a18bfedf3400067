/** Bytes, little-endian integers and C strings: the vocabulary of both wire formats. */
module Bytes {

  /** A size the headers outside this model fix: any positive number. */
  type Positive = n: int | n > 0 witness 1

  type byte = x: int | 0 <= x < 0x100
  type uint16 = x: int | 0 <= x < 0x1_0000
  type uint32 = x: int | 0 <= x < 0x1_0000_0000
  type uint64 = x: int | 0 <= x < 0x1_0000_0000_0000_0000

  /** `x >> (8 * k)`. */
  function ShiftRight(x: nat, k: nat): nat {
    if k == 0 then x else ShiftRight(x / 0x100, k - 1)
  }

  /** `(x >> (8 * k)) & 0xFF`. */
  function ByteAt(x: nat, k: nat): byte {
    ShiftRight(x, k) % 0x100
  }

  function Pow256(n: nat): nat {
    if n == 0 then 1 else 0x100 * Pow256(n - 1)
  }

  /** The `n` low bytes of `x`, least significant first. */
  function ToLE(x: nat, n: nat): (s: seq<byte>)
    ensures |s| == n
  {
    if n == 0 then [] else [x % 0x100] + ToLE(x / 0x100, n - 1)
  }

  function FromLE(s: seq<byte>): nat {
    if s == [] then 0 else s[0] + 0x100 * FromLE(s[1..])
  }

  lemma {:induction false} ToLEAt(x: nat, n: nat, k: nat)
    requires k < n
    ensures ToLE(x, n)[k] == ByteAt(x, k)
  {
    if k > 0 { ToLEAt(x / 0x100, n - 1, k - 1); }
  }

  lemma ToLE2(x: nat)
    ensures ToLE(x, 2) == [ByteAt(x, 0), ByteAt(x, 1)]
  {
    ToLEAt(x, 2, 0);
    ToLEAt(x, 2, 1);
  }

  lemma ToLE4(x: nat)
    ensures ToLE(x, 4) == [ByteAt(x, 0), ByteAt(x, 1), ByteAt(x, 2), ByteAt(x, 3)]
  {
    forall k | 0 <= k < 4 ensures ToLE(x, 4)[k] == ByteAt(x, k) {
      ToLEAt(x, 4, k);
    }
  }

  lemma ToLE8(x: nat)
    ensures ToLE(x, 8) == [ByteAt(x, 0), ByteAt(x, 1), ByteAt(x, 2), ByteAt(x, 3),
                           ByteAt(x, 4), ByteAt(x, 5), ByteAt(x, 6), ByteAt(x, 7)]
  {
    forall k | 0 <= k < 8 ensures ToLE(x, 8)[k] == ByteAt(x, k) {
      ToLEAt(x, 8, k);
    }
  }

  lemma {:induction false} FromToLE(x: nat, n: nat)
    requires x < Pow256(n)
    ensures FromLE(ToLE(x, n)) == x
  {
    if n > 0 {
      FromToLE(x / 0x100, n - 1);
      assert ToLE(x, n)[1..] == ToLE(x / 0x100, n - 1);
    }
  }

  lemma {:induction false} ToFromLE(s: seq<byte>)
    ensures FromLE(s) < Pow256(|s|)
    ensures ToLE(FromLE(s), |s|) == s
  {
    if s != [] {
      ToFromLE(s[1..]);
      assert FromLE(s) / 0x100 == FromLE(s[1..]);
    }
  }

  lemma PowersOf256()
    ensures Pow256(2) == 0x1_0000 && Pow256(4) == 0x1_0000_0000
    ensures Pow256(8) == 0x1_0000_0000_0000_0000
  {
    assert Pow256(3) == 0x100_0000;
    assert Pow256(5) == 0x100_0000_0000 && Pow256(6) == 0x1_0000_0000_0000;
  }

  /** Four bytes combined with shifts and ors. */
  lemma FromLE4(s: seq<byte>)
    requires |s| == 4
    ensures FromLE(s) == s[0] as int + s[1] as int * 0x100 + s[2] as int * 0x1_0000 + s[3] as int * 0x100_0000
  {
    assert s[1..][1..][1..] == [s[3]];
    assert FromLE([s[3]]) == s[3];
    assert FromLE(s[1..][1..]) == s[2] as int + 0x100 * s[3] as int;
  }

  lemma {:induction false} FromLESplit(s: seq<byte>, k: nat)
    requires k <= |s|
    ensures FromLE(s) == FromLE(s[..k]) + Pow256(k) * FromLE(s[k..])
  {
    if k == 0 {
      assert s[0..] == s;
    } else {
      FromLESplit(s[1..], k - 1);
      assert s[1..][..k - 1] == s[..k][1..] && s[1..][k - 1..] == s[k..];
      Distribute(FromLE(s[..k][1..]), Pow256(k - 1), FromLE(s[k..]));
    }
  }

  lemma Distribute(low: int, power: int, high: int)
    ensures 0x100 * (low + power * high) == 0x100 * low + 0x100 * power * high
  {
  }

  lemma FromLE8(s: seq<byte>)
    requires |s| == 8
    ensures FromLE(s) == FromLE(s[..4]) + 0x1_0000_0000 * FromLE(s[4..])
  {
    FromLE4(s[..4]);
    FromLESplit(s, 4);
    assert Pow256(4) == 0x1_0000_0000 by { PowersOf256(); }
  }

  /** The C string held in a character array: the bytes before the first NUL. */
  function CStr(s: seq<byte>): (c: seq<byte>)
    ensures |c| <= |s| && c == s[..|c|] && 0 !in c
    ensures |c| < |s| ==> s[|c|] == 0
  {
    if s == [] || s[0] == 0 then [] else [s[0]] + CStr(s[1..])
  }

  function Zeros(n: nat): (s: seq<byte>)
    ensures |s| == n && forall i :: 0 <= i < n ==> s[i] == 0
  {
    seq(n, _ => 0)
  }

  function Min(a: int, b: int): int { if a < b then a else b }

  /** The first `n` bytes of a sequence, or all of it. */
  function Cut(s: seq<byte>, n: nat): (c: seq<byte>)
    ensures |c| <= n && c <= s
  {
    s[..Min(|s|, n)]
  }

  /** A NUL-terminated, NUL-padded field of `width` bytes holding the C string of `s`. */
  function Field(s: seq<byte>, width: nat): (f: seq<byte>)
    requires width > 0
    ensures |f| == width
  {
    var c := Cut(CStr(s), width - 1);
    c + Zeros(width - |c|)
  }

  /** A beginning without a NUL belongs to the C string, which ends behind it if a NUL follows. */
  lemma {:induction false} CStrBegins(s: seq<byte>, n: nat)
    requires n <= |s| && 0 !in s[..n]
    ensures n <= |CStr(s)| && ((n == |s| || s[n] == 0) ==> |CStr(s)| == n)
  {
    if n > 0 {
      assert s[0] == s[..n][0] && s[1..][..n - 1] == s[..n][1..];
      CStrBegins(s[1..], n - 1);
    }
  }

  /** A loop that copies up to a NUL or a limit has copied the C string cut at the limit. */
  lemma CutOfCStr(s: seq<byte>, limit: nat, n: nat)
    requires n <= limit && n <= |s| && 0 !in s[..n] && (n < limit && n < |s| ==> s[n] == 0)
    ensures Cut(CStr(s), limit) == s[..n]
  {
    CStrBegins(s, n);
  }

  /** What a fixed-width field keeps of a string: its first `width - 1` bytes before the NUL. */
  lemma CStrOfField(s: seq<byte>, width: nat)
    requires width > 0
    ensures CStr(Field(s, width)) == Cut(CStr(s), width - 1)
    ensures Field(Field(s, width), width) == Field(s, width)
  {
    var c := Cut(CStr(s), width - 1);
    assert forall b :: b in c ==> b in CStr(s);
    var f := Field(s, width);
    assert f[..|c|] == c;
    CutOfCStr(f, width, |c|);
    assert Cut(CStr(f), width) == CStr(f);
  }

  /** Two strings fill a field alike exactly when they agree on the bytes that fit. */
  lemma FieldInjective(s: seq<byte>, t: seq<byte>, width: nat)
    requires width > 0
    ensures Field(s, width) == Field(t, width) <==> Cut(CStr(s), width - 1) == Cut(CStr(t), width - 1)
  {
    CStrOfField(s, width);
    CStrOfField(t, width);
  }
}
