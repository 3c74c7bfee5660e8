/** Fixed-width integers and their big-endian byte order (Go's `encoding/binary.BigEndian`). */
module Bytes {
  type uint8 = n: int | 0 <= n < 0x100
  type uint16 = n: int | 0 <= n < 0x1_0000
  type uint32 = n: int | 0 <= n < 0x1_0000_0000
  type uint64 = n: int | 0 <= n < 0x1_0000_0000_0000_0000
  type int16 = n: int | -0x8000 <= n < 0x8000
  type int32 = n: int | -0x8000_0000 <= n < 0x8000_0000

  function Uint16(s: seq<uint8>): uint16
    requires |s| == 2
  {
    var hi: int, lo: int := s[0], s[1];
    hi * 0x100 + lo
  }

  function Uint32(s: seq<uint8>): uint32
    requires |s| == 4
  {
    Uint16(s[..2]) * 0x1_0000 + Uint16(s[2..])
  }

  function Uint64(s: seq<uint8>): uint64
    requires |s| == 8
  {
    Uint32(s[..4]) * 0x1_0000_0000 + Uint32(s[4..])
  }

  function PutUint16(n: uint16): (s: seq<uint8>)
    ensures |s| == 2 && Uint16(s) == n
  {
    [n / 0x100, n % 0x100]
  }

  function PutUint32(n: uint32): (s: seq<uint8>)
    ensures |s| == 4 && Uint32(s) == n
  {
    PutUint16(n / 0x1_0000) + PutUint16(n % 0x1_0000)
  }

  function PutUint64(n: uint64): (s: seq<uint8>)
    ensures |s| == 8 && Uint64(s) == n
  {
    var hi, lo := PutUint32(n / 0x1_0000_0000), PutUint32(n % 0x1_0000_0000);
    assert (hi + lo)[..4] == hi && (hi + lo)[4..] == lo;
    hi + lo
  }

  lemma PutUint16Inverts(s: seq<uint8>)
    requires |s| == 2
    ensures PutUint16(Uint16(s)) == s
  {
  }

  lemma PutUint32Inverts(s: seq<uint8>)
    requires |s| == 4
    ensures PutUint32(Uint32(s)) == s
  {
    hide PutUint16, Uint16;
    PutUint16Inverts(s[..2]);
    PutUint16Inverts(s[2..]);
    assert s == s[..2] + s[2..];
  }

  lemma PutUint64Inverts(s: seq<uint8>)
    requires |s| == 8
    ensures PutUint64(Uint64(s)) == s
  {
    hide PutUint32, Uint32;
    PutUint32Inverts(s[..4]);
    PutUint32Inverts(s[4..]);
    assert s == s[..4] + s[4..];
  }

  /** Go's conversions `int32(u)` and `int16(n)`: keep the low bits, read them as two's complement. */
  /** The number written by the bytes, most significant first: the sum of byte `i` from the end times 256^i. */
  function BigEndian(s: seq<uint8>): nat {
    if s == [] then 0 else BigEndian(s[..|s| - 1]) * 0x100 + s[|s| - 1]
  }

  lemma Uint16Is(s: seq<uint8>)
    requires |s| == 2
    ensures Uint16(s) == BigEndian(s)
  {
    assert s[..1][..0] == [];
    assert BigEndian(s[..1]) == s[0];
  }

  lemma {:induction false} BigEndianCat(s: seq<uint8>, t: seq<uint8>)
    requires |t| == 2
    ensures BigEndian(s + t) == BigEndian(s) * 0x1_0000 + BigEndian(t)
  {
    assert (s + t)[..|s| + 1] == s + t[..1] && (s + t[..1])[..|s|] == s;
    Uint16Is(t);
  }

  lemma Uint32Is(s: seq<uint8>)
    requires |s| == 4
    ensures Uint32(s) == BigEndian(s)
  {
    assert s == s[..2] + s[2..];
    BigEndianCat(s[..2], s[2..]);
    Uint16Is(s[..2]);
    Uint16Is(s[2..]);
  }

  lemma Uint64Is(s: seq<uint8>)
    requires |s| == 8
    ensures Uint64(s) == BigEndian(s)
  {
    hide Uint16;
    assert s == s[..6] + s[6..] && s[..6] == s[..4] + s[4..6];
    assert s[4..][..2] == s[4..6] && s[4..][2..] == s[6..];
    BigEndianCat(s[..6], s[6..]);
    BigEndianCat(s[..4], s[4..6]);
    Uint32Is(s[..4]);
    Uint16Is(s[4..6]);
    Uint16Is(s[6..]);
  }

  function ToInt32(n: int): int32 {
    var u := n % 0x1_0000_0000;
    if u < 0x8000_0000 then u else u - 0x1_0000_0000
  }

  function ToInt16(n: int): int16 {
    var u := n % 0x1_0000;
    if u < 0x8000 then u else u - 0x1_0000
  }

  function Zeros(n: nat): (s: seq<uint8>)
    ensures |s| == n
  {
    seq(n, _ => 0)
  }
}
