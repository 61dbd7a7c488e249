/** Bytes, fixed-width integers and alignment, as the D-Bus wire format uses them.

    Go's `int` is taken to be wide enough for every length the router handles (it has 64 bits
    on the supported platforms), so it is modelled by `int`; `uint32` wraps explicitly. */
module Bytes {

  type byte = x: int | 0 <= x < 0x100

  const UINT32_LIMIT := 0x1_0000_0000

  type uint32 = x: int | 0 <= x < 0x1_0000_0000

  /** A Go string: any bytes, no encoding attached. */
  type Text = seq<byte>

  datatype Order = Little | Big

  /** The bytes of an ASCII literal. */
  function Ascii(s: string): (t: Text)
    ensures |t| == |s|
  {
    seq(|s|, i requires 0 <= i < |s| => if s[i] as int < 0x100 then s[i] as int else 0)
  }

  lemma AsciiJoins(a: string, b: string)
    ensures Ascii(a + b) == Ascii(a) + Ascii(b)
  {
  }

  /** Conversion of a Go integer to `uint32`. */
  function Wrap(x: int): uint32 {
    x % UINT32_LIMIT
  }

  lemma WrapKeeps(n: nat)
    requires n < UINT32_LIMIT
    ensures Wrap(n) == n
  {
  }

  function Zeros(n: nat): (z: seq<byte>)
    ensures |z| == n
  {
    seq(n, _ => 0)
  }

  /** `align(offset, 4)`: the smallest multiple of four that is not below `offset`. */
  function Align4(offset: nat): (a: nat)
    ensures offset <= a < offset + 4 && a % 4 == 0
  {
    if offset % 4 != 0 then offset + (4 - offset % 4) else offset
  }

  /** `align(offset, 8)`: the smallest multiple of eight that is not below `offset`. */
  function Align8(offset: nat): (a: nat)
    ensures offset <= a < offset + 8 && a % 8 == 0
  {
    if offset % 8 != 0 then offset + (8 - offset % 8) else offset
  }

  function GetUint32(order: Order, b: seq<byte>, at: nat): uint32
    requires at + 4 <= |b|
  {
    var b0: int, b1: int, b2: int, b3: int := b[at], b[at + 1], b[at + 2], b[at + 3];
    match order
    case Little => b0 + 0x100 * b1 + 0x1_0000 * b2 + 0x100_0000 * b3
    case Big => b3 + 0x100 * b2 + 0x1_0000 * b1 + 0x100_0000 * b0
  }

  function Uint32Bytes(order: Order, v: uint32): (b: seq<byte>)
    ensures |b| == 4
  {
    var b0, b1, b2, b3 := v % 0x100, v / 0x100 % 0x100, v / 0x1_0000 % 0x100, v / 0x100_0000;
    match order
    case Little => [b0, b1, b2, b3]
    case Big => [b3, b2, b1, b0]
  }

  /** A number is made up of its four digits to the base of 256. */
  lemma FourDigits(v: uint32)
    ensures v == v % 0x100 + 0x100 * (v / 0x100 % 0x100) + 0x1_0000 * (v / 0x1_0000 % 0x100) + 0x100_0000 * (v / 0x100_0000)
  {
    assert v == v % 0x100 + 0x100 * (v / 0x100);
    assert v / 0x100 == v / 0x100 % 0x100 + 0x100 * (v / 0x1_0000);
    assert v / 0x1_0000 == v / 0x1_0000 % 0x100 + 0x100 * (v / 0x100_0000);
  }

  /** Storing an integer and reading it back at the same place, in either byte order. */
  lemma StoredUint32(order: Order, v: uint32, b: seq<byte>, at: nat)
    requires at + 4 <= |b| && b[at..at + 4] == Uint32Bytes(order, v)
    ensures GetUint32(order, b, at) == v
  {
    var w := Uint32Bytes(order, v);
    var c := b[at..at + 4];
    assert b[at] == c[0] && b[at + 1] == c[1] && b[at + 2] == c[2] && b[at + 3] == c[3];
    FourDigits(v);
  }

  /** Reading an integer depends on its four bytes only. */
  lemma SameUint32(order: Order, a: seq<byte>, b: seq<byte>, at: nat)
    requires at + 4 <= |a| && at + 4 <= |b| && a[at..at + 4] == b[at..at + 4]
    ensures GetUint32(order, a, at) == GetUint32(order, b, at)
  {
    var c := a[at..at + 4];
    assert a[at] == c[0] && a[at + 1] == c[1] && a[at + 2] == c[2] && a[at + 3] == c[3];
    assert b[at] == c[0] && b[at + 1] == c[1] && b[at + 2] == c[2] && b[at + 3] == c[3];
  }

  lemma SliceOfSlice(b: seq<byte>, lo: nat, hi: nat, i: nat, j: nat)
    requires lo <= hi <= |b| && i <= j <= hi - lo
    ensures b[lo..hi][i..j] == b[lo + i..lo + j]
  {
    var s, t := b[lo..hi][i..j], b[lo + i..lo + j];
    assert |s| == |t|;
    forall k | 0 <= k < |s| ensures s[k] == t[k] {
      assert s[k] == b[lo..hi][i + k] == b[lo + i + k];
    }
  }

  /** `PutUint32` of encoding/binary, on a slice that starts at `at`. */
  method PutUint32(order: Order, buf: array<byte>, at: nat, v: uint32)
    requires at + 4 <= buf.Length
    modifies buf
    ensures buf[..] == old(buf[..at]) + Uint32Bytes(order, v) + old(buf[at + 4..])
  {
    var b0, b1, b2, b3 := v % 0x100, v / 0x100 % 0x100, v / 0x1_0000 % 0x100, v / 0x100_0000;
    if order.Little? {
      buf[at], buf[at + 1], buf[at + 2], buf[at + 3] := b0, b1, b2, b3;
    } else {
      buf[at], buf[at + 1], buf[at + 2], buf[at + 3] := b3, b2, b1, b0;
    }
  }

  /** A new buffer of four bytes with an integer in it. */
  method NewUint32(order: Order, v: uint32) returns (b: seq<byte>)
    ensures b == Uint32Bytes(order, v)
  {
    hide Uint32Bytes;
    var buf := new byte[4](_ => 0);
    PutUint32(order, buf, 0, v);
    b := buf[..];
  }

  /** Go's `copy(buf[at:], src)` where the source fits. */
  method CopyInto(buf: array<byte>, at: nat, src: seq<byte>)
    requires at + |src| <= buf.Length
    modifies buf
    ensures buf[..] == old(buf[..at]) + src + old(buf[at + |src|..])
  {
    forall i | 0 <= i < |src| {
      buf[at + i] := src[i];
    }
  }
}
