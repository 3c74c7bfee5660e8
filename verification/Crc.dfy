/**
 The checksum of the packet: the byte loop with the reflected polynomial 0xA001 and initial value 0xFFFF,
 as in section 6.2.2 of "MODBUS over Serial Line Specification and Implementation Guide V1.02".

 The loop is proved equal to a bit-serial register, the register to the remainder of a division of
 polynomials over GF(2), and from the register follow linearity, burst detection and the zero residue.
 */
module Crc {

  // ---------------------------------------------------------------- the register

  /** Addition of polynomials over GF(2). */
  function Add(a: bv16, b: bv16): bv16 {
    a ^ b
  }

  /** One shift of the register: out comes the lowest bit, and the polynomial is folded in when it is set. */
  function Shift(s: bv16): bv16 {
    if s & 1 != 0 then (s >> 1) ^ 0xA001 else s >> 1
  }

  function Shifts(n: nat, s: bv16): bv16
    decreases n
  {
    if n == 0 then s else Shifts(n - 1, Shift(s))
  }

  function FromBool(bit: bool): bv16 {
    if bit then 1 else 0
  }

  /** The register takes one message bit. */
  function Clock(s: bv16, bit: bool): bv16 {
    Shift(Add(s, FromBool(bit)))
  }

  function Serial(s: bv16, bits: seq<bool>): bv16
    decreases |bits|
  {
    if bits == [] then s else Serial(Clock(s, bits[0]), bits[1..])
  }

  predicate TestBit(b: bv8, mask: bv8) {
    b & mask != 0
  }

  /** The bits of a byte, lowest first. */
  function BitsOf(b: bv8): (bits: seq<bool>)
    ensures |bits| == 8
  {
    [TestBit(b, 1), TestBit(b, 2), TestBit(b, 4), TestBit(b, 8),
     TestBit(b, 16), TestBit(b, 32), TestBit(b, 64), TestBit(b, 128)]
  }

  function Bits(data: seq<bv8>): (bits: seq<bool>)
    ensures |bits| == 8 * |data|
  {
    if data == [] then [] else BitsOf(data[0]) + Bits(data[1..])
  }

  const INITIAL: bv16 := 0xFFFF

  function Checksum(data: seq<bv8>): bv16 {
    Serial(INITIAL, Bits(data))
  }

  lemma {:induction false} SerialCat(s: bv16, a: seq<bool>, b: seq<bool>)
    ensures Serial(s, a + b) == Serial(Serial(s, a), b)
    decreases |a|
  {
    hide Clock;
    if a == [] {
      assert a + b == b;
    } else {
      assert (a + b)[1..] == a[1..] + b;
      SerialCat(Clock(s, a[0]), a[1..], b);
    }
  }

  lemma {:induction false} BitsCat(a: seq<bv8>, b: seq<bv8>)
    ensures Bits(a + b) == Bits(a) + Bits(b)
  {
    hide BitsOf;
    if a == [] {
      assert a + b == b;
    } else {
      assert (a + b)[1..] == a[1..] + b;
      BitsCat(a[1..], b);
    }
  }

  /** The checksum can be continued from the register after any part of the message. */
  lemma ChecksumContinues(a: seq<bv8>, b: seq<bv8>)
    ensures Checksum(a + b) == Serial(Checksum(a), Bits(b))
  {
    BitsCat(a, b);
    SerialCat(INITIAL, Bits(a), Bits(b));
  }

  // ---------------------------------------------------------------- a window of up to 16 bits at once

  function Double(w: bv16): bv16 {
    w << 1
  }

  /** At most 16 bits as a number, the first one lowest. */
  function Word(bits: seq<bool>): bv16 {
    if bits == [] then 0 else Add(Double(Word(bits[1..])), FromBool(bits[0]))
  }

  function High(k: nat): bv16 {
    match k
    case 0 => 0xffff
    case 1 => 0xfffe
    case 2 => 0xfffc
    case 3 => 0xfff8
    case 4 => 0xfff0
    case 5 => 0xffe0
    case 6 => 0xffc0
    case 7 => 0xff80
    case 8 => 0xff00
    case 9 => 0xfe00
    case 10 => 0xfc00
    case 11 => 0xf800
    case 12 => 0xf000
    case 13 => 0xe000
    case 14 => 0xc000
    case 15 => 0x8000
    case _ => 0
  }

  /** The number fits in `k` bits. */
  predicate Small(w: bv16, k: nat) {
    w & High(k) == 0
  }

  lemma SmallStep(w: bv16, k: nat, b: bool)
    requires k < 16 && Small(w, k)
    ensures Small(Add(Double(w), FromBool(b)), k + 1)
  {
  }

  lemma {:induction false} WordSmall(bits: seq<bool>)
    requires |bits| <= 16
    ensures Small(Word(bits), |bits|)
    decreases |bits|
  {
    hide Small, Add, Double, FromBool;
    if bits == [] {
      assert Small(0, 0) by { SmallZero(); }
    } else {
      WordSmall(bits[1..]);
      SmallStep(Word(bits[1..]), |bits| - 1, bits[0]);
    }
  }

  lemma SmallZero()
    ensures Small(0, 0)
  {
  }

  lemma ShiftAhead(s: bv16, w: bv16, k: nat, b: bool)
    requires k < 16 && Small(w, k)
    ensures Add(Clock(s, b), w) == Shift(Add(s, Add(Double(w), FromBool(b))))
  {
    hide Add, Shift, Double, FromBool, Small;
    ShiftSum(Add(s, FromBool(b)), Double(w));
    ShiftDouble(w, k);
    AddAssoc(s, FromBool(b), Double(w));
    AddComm(FromBool(b), Double(w));
  }

  lemma ShiftDouble(w: bv16, k: nat)
    requires k < 16 && Small(w, k)
    ensures Shift(Double(w)) == w
  {
    assert w & 0x8000 == 0;
    assert (w << 1) & 1 == 0;
  }

  lemma AddZero(s: bv16)
    ensures Add(s, 0) == s
  {
  }

  /** Feeding up to 16 bits one by one is adding them to the register all at once and shifting. */
  lemma {:induction false} Window(s: bv16, bits: seq<bool>)
    requires |bits| <= 16
    ensures Serial(s, bits) == Shifts(|bits|, Add(s, Word(bits)))
    decreases |bits|
  {
    hide Shift, FromBool, Small, Add, Double, Clock;
    if bits == [] {
      AddZero(s);
    } else {
      Window(Clock(s, bits[0]), bits[1..]);
      WordSmall(bits[1..]);
      ShiftAhead(s, Word(bits[1..]), |bits| - 1, bits[0]);
    }
  }

  function Fold4(a: bool, b: bool, c: bool, d: bool, w: bv16): bv16 {
    Add(Double(Add(Double(Add(Double(Add(Double(w), FromBool(d))), FromBool(c))), FromBool(b))), FromBool(a))
  }

  lemma WordOfFour(a: bool, b: bool, c: bool, d: bool, later: seq<bool>)
    ensures Word([a, b, c, d] + later) == Fold4(a, b, c, d, Word(later))
  {
    hide Add, Double, FromBool;
    assert ([a, b, c, d] + later)[1..] == [b, c, d] + later && ([b, c, d] + later)[1..] == [c, d] + later;
    assert ([c, d] + later)[1..] == [d] + later && ([d] + later)[1..] == later;
    assert Word([d] + later) == Add(Double(Word(later)), FromBool(d));
    assert Word([c, d] + later) == Add(Double(Word([d] + later)), FromBool(c));
    assert Word([b, c, d] + later) == Add(Double(Word([c, d] + later)), FromBool(b));
  }

  /** The word of `lo` followed by bits whose word is `w`. */
  function Above(lo: bv8, w: bv16): bv16 {
    (lo as bv16) ^ (w << 8)
  }

  lemma WordOfByte(b: bv8, later: seq<bool>)
    ensures Word(BitsOf(b) + later) == Above(b, Word(later))
  {
    hide Word, Fold4, Above, TestBit;
    var t := BitsOf(b);
    var high := [t[4], t[5], t[6], t[7]];
    assert t + later == [t[0], t[1], t[2], t[3]] + (high + later);
    WordOfFour(t[0], t[1], t[2], t[3], high + later);
    WordOfFour(t[4], t[5], t[6], t[7], later);
    ByteFromBits(b, Word(later));
  }

  lemma FourShifts(w: bv16, a: bv16, b: bv16, c: bv16, d: bv16)
    ensures Add(Double(Add(Double(Add(Double(Add(Double(w), d)), c)), b)), a)
         == a ^ (b << 1) ^ (c << 2) ^ (d << 3) ^ (w << 4)
  {
  }

  lemma LowBits(b: bv8)
    ensures FromBool(TestBit(b, 1)) == (b & 1) as bv16
    ensures FromBool(TestBit(b, 2)) << 1 == (b & 2) as bv16
    ensures FromBool(TestBit(b, 4)) << 2 == (b & 4) as bv16
    ensures FromBool(TestBit(b, 8)) << 3 == (b & 8) as bv16
  {
  }

  lemma LowNibble(b: bv8)
    ensures (b & 1) as bv16 ^ (b & 2) as bv16 ^ (b & 4) as bv16 ^ (b & 8) as bv16 == (b & 15) as bv16
  {
  }

  /** The low half of `b`, followed by `w`. */
  function OnNibble(b: bv8, w: bv16): bv16 {
    ((b & 15) as bv16) ^ (w << 4)
  }

  function HighHalf(b: bv8): bv8 {
    b >> 4
  }

  lemma FoldLow(b: bv8, w: bv16)
    ensures Fold4(TestBit(b, 1), TestBit(b, 2), TestBit(b, 4), TestBit(b, 8), w) == OnNibble(b, w)
  {
    hide FromBool, Add, Double, TestBit;
    FourShifts(w, FromBool(TestBit(b, 1)), FromBool(TestBit(b, 2)), FromBool(TestBit(b, 4)),
               FromBool(TestBit(b, 8)));
    LowBits(b);
    LowNibble(b);
  }

  lemma HighBits(b: bv8)
    ensures TestBit(HighHalf(b), 1) == TestBit(b, 16) && TestBit(HighHalf(b), 2) == TestBit(b, 32)
            && TestBit(HighHalf(b), 4) == TestBit(b, 64) && TestBit(HighHalf(b), 8) == TestBit(b, 128)
  {
  }

  lemma JoinNibbles(b: bv8, w: bv16)
    ensures OnNibble(b, OnNibble(HighHalf(b), w)) == Above(b, w)
  {
  }

  lemma ByteFromBits(b: bv8, w: bv16)
    ensures Fold4(TestBit(b, 1), TestBit(b, 2), TestBit(b, 4), TestBit(b, 8),
                  Fold4(TestBit(b, 16), TestBit(b, 32), TestBit(b, 64), TestBit(b, 128), w))
         == Above(b, w)
  {
    hide Fold4, TestBit, HighHalf, OnNibble, Above;
    HighBits(b);
    FoldLow(HighHalf(b), w);
    FoldLow(b, OnNibble(HighHalf(b), w));
    JoinNibbles(b, w);
  }

  lemma ByteWindow(s: bv16, b: bv8)
    ensures Serial(s, BitsOf(b)) == Shifts(8, Add(s, b as bv16))
  {
    hide BitsOf, Shift, Add, Above;
    Window(s, BitsOf(b));
    WordOfByte(b, []);
    assert BitsOf(b) + [] == BitsOf(b);
    AboveZero(b);
  }

  lemma AboveZero(b: bv8)
    ensures Above(b, 0) == b as bv16
  {
  }

  // ---------------------------------------------------------------- the byte loop

  lemma {:induction false} ShiftsLast(n: nat, s: bv16)
    ensures Shifts(n + 1, s) == Shift(Shifts(n, s))
    decreases n
  {
    hide Shift;
    if n == 0 {
    } else {
      ShiftsLast(n - 1, Shift(s));
    }
  }

  method CalculateCRC16(data: seq<bv8>) returns (crc: bv16)
    ensures crc == Checksum(data)
  {
    hide Shift, BitsOf;
    crc := 0xFFFF;
    for n := 0 to |data|
      invariant crc == Checksum(data[..n])
    {
      var b := data[n];
      ghost var before := crc;
      crc := crc ^ (b as bv16);
      ghost var start := crc;
      for i := 0 to 8
        invariant crc == Shifts(i, start)
      {
        ghost var s := crc;
        if crc & 0x0001 != 0 {
          crc := crc >> 1;
          crc := crc ^ 0xA001;
        } else {
          crc := crc >> 1;
        }
        assert crc == Shift(s) by { ShiftIs(s); }
        ShiftsLast(i, start);
      }
      ByteWindow(before, b);
      assert data[..n + 1] == data[..n] + [b];
      ChecksumContinues(data[..n], [b]);
      OneByte(b);
    }
    assert data[..|data|] == data;
  }

  lemma ShiftIs(s: bv16)
    ensures Shift(s) == if s & 0x0001 != 0 then (s >> 1) ^ 0xA001 else s >> 1
  {
  }

  lemma OneByte(b: bv8)
    ensures Bits([b]) == BitsOf(b)
  {
    assert [b][1..] == [];
    assert BitsOf(b) + [] == BitsOf(b);
  }

  // ---------------------------------------------------------------- differences are not forgotten

  lemma ShiftInjective(s: bv16, t: bv16)
    ensures Shift(s) == Shift(t) <==> s == t
  {
  }

  lemma {:induction false} ShiftsInjective(n: nat, s: bv16, t: bv16)
    ensures Shifts(n, s) == Shifts(n, t) <==> s == t
    decreases n
  {
    hide Shift;
    if n == 0 {
    } else {
      ShiftsInjective(n - 1, Shift(s), Shift(t));
      ShiftInjective(s, t);
    }
  }

  lemma ClockInjective(s: bv16, t: bv16, bit: bool)
    ensures Clock(s, bit) == Clock(t, bit) <==> s == t
  {
  }

  lemma {:induction false} SerialInjective(s: bv16, t: bv16, bits: seq<bool>)
    ensures Serial(s, bits) == Serial(t, bits) <==> s == t
    decreases |bits|
  {
    hide Clock;
    if bits == [] {
    } else {
      SerialInjective(Clock(s, bits[0]), Clock(t, bits[0]), bits[1..]);
      ClockInjective(s, t, bits[0]);
    }
  }

  lemma Pop(w: bv16, a: bool, k: nat)
    requires k < 16 && Small(w, k)
    ensures var x := Add(Double(w), FromBool(a)); x >> 1 == w && (x & 1 != 0) == a
  {
  }

  lemma PushInjective(v: bv16, w: bv16, a: bool, b: bool, k: nat)
    requires k < 16 && Small(v, k) && Small(w, k)
    ensures Add(Double(v), FromBool(a)) == Add(Double(w), FromBool(b)) <==> v == w && a == b
  {
    hide Add, Double, FromBool, Small;
    Pop(v, a, k);
    Pop(w, b, k);
  }

  lemma {:induction false} WordInjective(x: seq<bool>, y: seq<bool>)
    requires |x| == |y| <= 16
    ensures Word(x) == Word(y) <==> x == y
    decreases |x|
  {
    hide Small, Add, Double, FromBool;
    if x == [] {
    } else {
      WordInjective(x[1..], y[1..]);
      WordSmall(x[1..]);
      WordSmall(y[1..]);
      PushInjective(Word(x[1..]), Word(y[1..]), x[0], y[0], |x| - 1);
      assert x == [x[0]] + x[1..] && y == [y[0]] + y[1..];
    }
  }

  lemma AddInjective(s: bv16, v: bv16, w: bv16)
    ensures Add(s, v) == Add(s, w) <==> v == w
  {
  }

  lemma WindowTells(s: bv16, x: seq<bool>, y: seq<bool>)
    requires |x| == |y| <= 16
    ensures Serial(s, x) == Serial(s, y) <==> x == y
  {
    hide Serial, Shifts, Word, Add;
    Window(s, x);
    Window(s, y);
    ShiftsInjective(|x|, Add(s, Word(x)), Add(s, Word(y)));
    AddInjective(s, Word(x), Word(y));
    WordInjective(x, y);
  }

  /** Two bit strings that agree outside the window from `lo` to `hi`. */
  predicate AgreeOutside(x: seq<bool>, y: seq<bool>, lo: nat, hi: nat) {
    lo <= hi <= |x| == |y| && x[..lo] == y[..lo] && x[hi..] == y[hi..]
  }

  lemma BurstBits(s: bv16, x: seq<bool>, y: seq<bool>, lo: nat, hi: nat)
    requires AgreeOutside(x, y, lo, hi) && hi - lo <= 16
    ensures Serial(s, x) == Serial(s, y) <==> x == y
  {
    hide Serial;
    var start := Serial(s, x[..lo]);
    assert x == x[..lo] + (x[lo..hi] + x[hi..]) && y == y[..lo] + (y[lo..hi] + y[hi..]);
    SerialCat(s, x[..lo], x[lo..hi] + x[hi..]);
    SerialCat(s, y[..lo], y[lo..hi] + y[hi..]);
    SerialCat(start, x[lo..hi], x[hi..]);
    SerialCat(start, y[lo..hi], y[hi..]);
    SerialInjective(Serial(start, x[lo..hi]), Serial(start, y[lo..hi]), x[hi..]);
    WindowTells(start, x[lo..hi], y[lo..hi]);
  }

  lemma ByteBits(a: bv8, b: bv8)
    ensures BitsOf(a) == BitsOf(b) <==> a == b
  {
    hide BitsOf, Above;
    WordOfByte(a, []);
    WordOfByte(b, []);
    assert BitsOf(a) + [] == BitsOf(a) && BitsOf(b) + [] == BitsOf(b);
    AboveZero(a);
    AboveZero(b);
    Widen(a, b);
  }

  lemma Widen(a: bv8, b: bv8)
    ensures a as bv16 == b as bv16 <==> a == b
  {
  }

  lemma {:induction false} BitsInjective(x: seq<bv8>, y: seq<bv8>)
    requires |x| == |y|
    ensures Bits(x) == Bits(y) <==> x == y
  {
    hide BitsOf;
    if x != [] && Bits(x) == Bits(y) {
      assert Bits(x)[..8] == BitsOf(x[0]) && Bits(y)[..8] == BitsOf(y[0]);
      assert Bits(x)[8..] == Bits(x[1..]) && Bits(y)[8..] == Bits(y[1..]);
      ByteBits(x[0], y[0]);
      BitsInjective(x[1..], y[1..]);
      assert x == [x[0]] + x[1..] && y == [y[0]] + y[1..];
    }
  }

  /** A change confined to 16 consecutive bits, lowest bit of a byte first, changes the checksum. */
  lemma BurstDetected(x: seq<bv8>, y: seq<bv8>, lo: nat, hi: nat)
    requires |x| == |y| && AgreeOutside(Bits(x), Bits(y), lo, hi) && hi - lo <= 16
    ensures Checksum(x) == Checksum(y) <==> x == y
  {
    hide Serial, Bits;
    BurstBits(INITIAL, Bits(x), Bits(y), lo, hi);
    BitsInjective(x, y);
  }

  // ---------------------------------------------------------------- residue

  lemma {:induction false} ShiftsZero(n: nat)
    ensures Shifts(n, 0) == 0
    decreases n
  {
    if n == 0 {
    } else {
      ShiftsZero(n - 1);
    }
  }

  /** The low and the high byte of `c`. */
  predicate LowAndHigh(c: bv16, lo: bv8, hi: bv8) {
    lo == (c & 0xFF) as bv8 && hi == (c >> 8) as bv8
  }

  lemma ResidueBytes(c: bv16, lo: bv8, hi: bv8)
    ensures Add(c, Above(lo, Above(hi, 0))) == 0 <==> LowAndHigh(c, lo, hi)
  {
  }

  lemma EmptyWord()
    ensures Word([]) == 0
  {
  }

  lemma TwoBytes(s: bv16, lo: bv8, hi: bv8)
    ensures Serial(s, Bits([lo, hi])) == Shifts(16, Add(s, Above(lo, Above(hi, 0))))
  {
    hide *;
    assert [lo, hi] == [lo] + [hi];
    BitsCat([lo], [hi]);
    OneByte(lo);
    OneByte(hi);
    Window(s, BitsOf(lo) + BitsOf(hi));
    WordOfByte(lo, BitsOf(hi));
    WordOfByte(hi, []);
    assert BitsOf(hi) + [] == BitsOf(hi);
    EmptyWord();
  }

  /** Two more bytes bring the checksum to zero exactly when they are its low and then its high byte. */
  lemma ZeroResidue(m: seq<bv8>, lo: bv8, hi: bv8)
    ensures Checksum(m + [lo, hi]) == 0 <==> LowAndHigh(Checksum(m), lo, hi)
  {
    hide *;
    var c := Checksum(m);
    ChecksumContinues(m, [lo, hi]);
    TwoBytes(c, lo, hi);
    ShiftsInjective(16, Add(c, Above(lo, Above(hi, 0))), 0);
    ShiftsZero(16);
    ResidueBytes(c, lo, hi);
  }

  // ---------------------------------------------------------------- linearity

  lemma AddComm(s: bv16, t: bv16)
    ensures Add(s, t) == Add(t, s) && Add(s, s) == 0
  {
  }

  lemma AddAssoc(s: bv16, t: bv16, u: bv16)
    ensures Add(Add(s, t), u) == Add(s, Add(t, u))
  {
  }

  lemma AddSwap(s: bv16, t: bv16, x: bv16, y: bv16)
    ensures Add(Add(s, x), Add(t, y)) == Add(Add(s, t), Add(x, y))
  {
    hide Add;
    AddAssoc(s, x, Add(t, y));
    AddAssoc(x, t, y);
    AddComm(x, t);
    AddAssoc(t, x, y);
    AddAssoc(s, t, Add(x, y));
  }

  function Half(s: bv16): bv16 {
    s >> 1
  }

  predicate Odd(s: bv16) {
    s & 1 != 0
  }

  lemma OddSum(s: bv16, t: bv16)
    ensures Odd(s ^ t) == (Odd(s) != Odd(t))
  {
    assert (s ^ t) & 1 == (s & 1) ^ (t & 1);
    assert s & 1 == 0 || s & 1 == 1;
    assert t & 1 == 0 || t & 1 == 1;
  }

  lemma HalfSum(s: bv16, t: bv16)
    ensures Half(Add(s, t)) == Add(Half(s), Half(t)) && Odd(Add(s, t)) == (Odd(s) != Odd(t))
  {
    OddSum(s, t);
  }

  lemma ShiftSplit(s: bv16)
    ensures Shift(s) == if Odd(s) then Add(Half(s), 0xA001) else Half(s)
  {
  }

  lemma ShiftSum(s: bv16, t: bv16)
    ensures Shift(Add(s, t)) == Add(Shift(s), Shift(t))
  {
    hide Shift, Add, Half, Odd;
    ShiftSplit(s);
    ShiftSplit(t);
    ShiftSplit(Add(s, t));
    HalfSum(s, t);
    AddSwap(Half(s), Half(t), 0xA001, 0xA001);
    AddComm(0xA001, 0xA001);
    AddZero(Add(Half(s), Half(t)));
    AddAssoc(Half(s), Half(t), 0xA001);
    AddSwap(Half(s), Half(t), 0xA001, 0);
    AddZero(Half(t));
    AddZero(0xA001);
  }

  lemma AddBools(a: bool, b: bool)
    ensures Add(FromBool(a), FromBool(b)) == FromBool(a != b)
  {
  }

  lemma ClockSum(s: bv16, t: bv16, a: bool, b: bool)
    ensures Add(Clock(s, a), Clock(t, b)) == Clock(Add(s, t), a != b)
  {
    hide Shift, Add, FromBool;
    AddBools(a, b);
    AddSwap(s, t, FromBool(a), FromBool(b));
    ShiftSum(Add(s, FromBool(a)), Add(t, FromBool(b)));
  }

  function AddBits(a: seq<bool>, b: seq<bool>): (c: seq<bool>)
    requires |a| == |b|
    ensures |c| == |a| && forall i | 0 <= i < |a| :: c[i] == (a[i] != b[i])
  {
    seq(|a|, i requires 0 <= i < |a| => a[i] != b[i])
  }

  lemma {:induction false} SerialLinear(s: bv16, t: bv16, a: seq<bool>, b: seq<bool>)
    requires |a| == |b|
    ensures Serial(Add(s, t), AddBits(a, b)) == Add(Serial(s, a), Serial(t, b))
    decreases |a|
  {
    hide Clock, Add;
    if a == [] {
    } else {
      ClockSum(s, t, a[0], b[0]);
      SerialLinear(Clock(s, a[0]), Clock(t, b[0]), a[1..], b[1..]);
      assert AddBits(a, b)[1..] == AddBits(a[1..], b[1..]);
    }
  }

  function AddByte(a: bv8, b: bv8): bv8 {
    a ^ b
  }

  function AddBytes(a: seq<bv8>, b: seq<bv8>): (c: seq<bv8>)
    requires |a| == |b|
    ensures |c| == |a| && forall i | 0 <= i < |a| :: c[i] == AddByte(a[i], b[i])
  {
    seq(|a|, i requires 0 <= i < |a| => AddByte(a[i], b[i]))
  }

  lemma TestSum(a: bv8, b: bv8, m: bv8)
    requires m == 1 || m == 2 || m == 4 || m == 8 || m == 16 || m == 32 || m == 64 || m == 128
    ensures TestBit(AddByte(a, b), m) == (TestBit(a, m) != TestBit(b, m))
  {
    assert (a ^ b) & m == (a & m) ^ (b & m);
    assert a & m == 0 || a & m == m;
    assert b & m == 0 || b & m == m;
    assert m ^ m == 0 && m ^ 0 == m && 0 ^ m == m;
  }

  lemma ByteSum(a: bv8, b: bv8)
    ensures BitsOf(AddByte(a, b)) == AddBits(BitsOf(a), BitsOf(b))
  {
    hide BitsOf, AddByte;
    forall i | 0 <= i < 8 ensures BitsOf(AddByte(a, b))[i] == (BitsOf(a)[i] != BitsOf(b)[i]) {
      BitAt(a, i);
      BitAt(b, i);
      BitAt(AddByte(a, b), i);
      TestSum(a, b, Mask(i));
    }
  }

  function Mask(i: nat): (m: bv8)
    requires i < 8
    ensures m == 1 || m == 2 || m == 4 || m == 8 || m == 16 || m == 32 || m == 64 || m == 128
  {
    if i == 0 then 1 else if i == 1 then 2 else if i == 2 then 4 else if i == 3 then 8
    else if i == 4 then 16 else if i == 5 then 32 else if i == 6 then 64 else 128
  }

  lemma BitAt(b: bv8, i: nat)
    requires i < 8
    ensures BitsOf(b)[i] == TestBit(b, Mask(i))
  {
    hide TestBit;
  }

  lemma {:induction false} BitsSum(a: seq<bv8>, b: seq<bv8>)
    requires |a| == |b|
    ensures Bits(AddBytes(a, b)) == AddBits(Bits(a), Bits(b))
  {
    hide BitsOf, AddByte;
    if a == [] {
    } else {
      ByteSum(a[0], b[0]);
      assert AddBytes(a, b)[1..] == AddBytes(a[1..], b[1..]);
      BitsSum(a[1..], b[1..]);
    }
  }

  /** The checksum is affine: it commutes with the sum of three messages of one length. */
  lemma Affine(x: seq<bv8>, y: seq<bv8>, z: seq<bv8>)
    requires |x| == |y| == |z|
    ensures Checksum(AddBytes(AddBytes(x, y), z)) == Checksum(x) ^ Checksum(y) ^ Checksum(z)
  {
    hide Serial, Bits;
    BitsSum(x, y);
    BitsSum(AddBytes(x, y), z);
    SerialLinear(INITIAL, INITIAL, Bits(x), Bits(y));
    SerialLinear(0, INITIAL, Bits(AddBytes(x, y)), Bits(z));
  }

  // ---------------------------------------------------------------- byte-wise table

  lemma {:induction false} ShiftsSum(n: nat, s: bv16, t: bv16)
    ensures Shifts(n, Add(s, t)) == Add(Shifts(n, s), Shifts(n, t))
    decreases n
  {
    hide Shift, Add;
    if n == 0 {
    } else {
      ShiftSum(s, t);
      ShiftsSum(n - 1, Shift(s), Shift(t));
    }
  }

  /** Entry `i` of the table used by byte-wise implementations. */
  function Table(i: bv8): bv16 {
    Shifts(8, i as bv16)
  }

  lemma EightShifts(s: bv16)
    ensures Shifts(8, s) == Shift(Shift(Shift(Shift(Shift(Shift(Shift(Shift(s))))))))
  {
    hide Shift;
    assert Shifts(4, s) == Shift(Shift(Shift(Shift(s))));
    var t := Shift(Shift(Shift(Shift(s))));
    assert Shifts(4, t) == Shift(Shift(Shift(Shift(t))));
    assert Shifts(8, s) == Shifts(6, Shift(Shift(s))) == Shifts(4, t);
  }

  lemma HighShifts(s: bv16)
    requires s & 0xFF == 0
    ensures Shifts(8, s) == s >> 8
  {
    EightShifts(s);
    assert Shift(s) == s >> 1;
    assert Shift(s >> 1) == s >> 2;
    assert Shift(s >> 2) == s >> 3;
    assert Shift(s >> 3) == s >> 4;
    assert Shift(s >> 4) == s >> 5;
    assert Shift(s >> 5) == s >> 6;
    assert Shift(s >> 6) == s >> 7;
    assert Shift(s >> 7) == s >> 8;
  }

  lemma SplitRegister(s: bv16, b: bv8)
    ensures Add(s, b as bv16) == Add((((s & 0xFF) as bv8) ^ b) as bv16, s & 0xFF00)
    ensures s & 0xFF00 & 0xFF == 0 && (s & 0xFF00) >> 8 == s >> 8
  {
  }

  /** The eight steps of the inner loop are one look-up in a table of 256 entries. */
  lemma TableStep(s: bv16, b: bv8)
    ensures Serial(s, BitsOf(b)) == (s >> 8) ^ Table(((s & 0xFF) as bv8) ^ b)
  {
    hide Serial, BitsOf, Shifts;
    ByteWindow(s, b);
    SplitRegister(s, b);
    var lo := (((s & 0xFF) as bv8) ^ b) as bv16;
    ShiftsSum(8, lo, s & 0xFF00);
    HighShifts(s & 0xFF00);
  }

  /** What the table-driven loop does with one byte. */
  function LookUp(s: bv16, b: bv8): bv16 {
    (s >> 8) ^ Table(((s & 0xFF) as bv8) ^ b)
  }

  lemma OneLookUp(s: bv16, b: bv8)
    ensures LookUp(s, b) == Serial(s, BitsOf(b))
  {
    hide Serial, BitsOf, Table;
    TableStep(s, b);
  }

  /** The register after a message taken byte by byte through the table. */
  function TableRun(s: bv16, data: seq<bv8>): bv16
    decreases |data|
  {
    if data == [] then s else TableRun(LookUp(s, data[0]), data[1..])
  }

  /** The table-driven loop and the bit loop agree on every message, from every register. */
  lemma {:induction false} TableDriven(s: bv16, data: seq<bv8>)
    ensures TableRun(s, data) == Serial(s, Bits(data))
    decreases |data|
  {
    hide BitsOf, LookUp, Clock;
    if data == [] {
    } else {
      OneLookUp(s, data[0]);
      SerialCat(s, BitsOf(data[0]), Bits(data[1..]));
      TableDriven(Serial(s, BitsOf(data[0])), data[1..]);
    }
  }

  // ---------------------------------------------------------------- division of polynomials

  /** Coefficient of x^e in the polynomial whose coefficients are `bits`, highest power first. */
  function Coef(bits: seq<bool>, e: int): bool {
    0 <= e < |bits| && bits[|bits| - 1 - e]
  }

  predicate BitSet(s: bv16, k: nat) {
    if k == 0 then Odd(s) else BitSet(Half(s), k - 1)
  }

  /** The register as a polynomial of degree below 16; its lowest bit is the coefficient of x^15. */
  function RegCoef(s: bv16, e: int): bool {
    0 <= e < 16 && BitSet(s, 15 - e)
  }

  /** What the checksum divides: the start value in front of the message, times x^16. */
  function DividendCoef(init: bv16, message: seq<bool>, e: int): bool {
    RegCoef(init, e - |message|) != Coef(message, e - 16)
  }

  /** `q` times x^16 + x^15 + x^2 + 1. */
  function ProductCoef(q: seq<bool>, e: int): bool {
    ((Coef(q, e - 16) != Coef(q, e - 15)) != Coef(q, e - 2)) != Coef(q, e)
  }

  ghost predicate Divides(init: bv16, message: seq<bool>, q: seq<bool>, r: bv16) {
    forall e: int :: DividendCoef(init, message, e) == (ProductCoef(q, e) != RegCoef(r, e))
  }

  /** The bit the register gives out when it takes `b`. */
  function Feedback(s: bv16, b: bool): bool {
    BitSet(s, 0) != b
  }

  lemma {:induction false} BitSum(s: bv16, t: bv16, k: nat)
    ensures BitSet(Add(s, t), k) == (BitSet(s, k) != BitSet(t, k))
    decreases k
  {
    hide Half, Odd, Add;
    HalfSum(s, t);
    if k == 0 {
    } else {
      BitSum(Half(s), Half(t), k - 1);
    }
  }

  lemma {:induction false} BitOfZero(k: nat)
    ensures !BitSet(0, k)
    decreases k
  {
    if k == 0 {
    } else {
      BitOfZero(k - 1);
    }
  }

  lemma BitOfBool(b: bool, k: nat)
    ensures BitSet(FromBool(b), k) == (b && k == 0)
  {
    assert Half(1) == 0;
    if k == 0 {
    } else {
      BitOfZero(k - 1);
    }
    BitOfZero(k);
  }

  lemma BitOfPolynomial(k: nat)
    ensures BitSet(0xA001, k) == (k == 0 || k == 13 || k == 15)
  {
    hide BitSet, Odd;
    BitsFollow(0xA001, 0x5000, k);
    BitsFollow(0x5000, 0x2800, k - 1);
    BitsFollow(0x2800, 0x1400, k - 2);
    BitsFollow(0x1400, 0xA00, k - 3);
    BitsFollow(0xA00, 0x500, k - 4);
    BitsFollow(0x500, 0x280, k - 5);
    BitsFollow(0x280, 0x140, k - 6);
    BitsFollow(0x140, 0xA0, k - 7);
    BitsFollow(0xA0, 0x50, k - 8);
    BitsFollow(0x50, 0x28, k - 9);
    BitsFollow(0x28, 0x14, k - 10);
    BitsFollow(0x14, 0xA, k - 11);
    BitsFollow(0xA, 5, k - 12);
    BitsFollow(5, 2, k - 13);
    BitsFollow(2, 1, k - 14);
    BitsFollow(1, 0, k - 15);
    if k >= 16 { BitOfZero(k - 16); }
  }

  lemma BitsFollow(s: bv16, half: bv16, k: int)
    requires half == s >> 1
    ensures k == 0 ==> BitSet(s, k) == (s & 1 != 0)
    ensures k > 0 ==> BitSet(s, k) == BitSet(half, k - 1)
  {
  }

  lemma ClockBit(s: bv16, b: bool, k: nat)
    ensures BitSet(Clock(s, b), k)
         == (BitSet(s, k + 1) != (Feedback(s, b) && (k == 0 || k == 13 || k == 15)))
  {
    hide Shift, Add, Half, Odd, FromBool;
    var x := Add(s, FromBool(b));
    ShiftSplit(x);
    BitSum(s, FromBool(b), 0);
    BitSum(s, FromBool(b), k + 1);
    BitOfBool(b, 0);
    BitOfBool(b, k + 1);
    BitSum(Half(x), 0xA001, k);
    BitOfPolynomial(k);
  }

  /** A number of `n` bits has no bit `n`; the register has sixteen. */
  lemma {:induction false} NoBitAbove(s: bv16, n: nat)
    requires n <= 16 && Small(s, n)
    ensures !BitSet(s, n)
    decreases n
  {
    hide Small, Half;
    if n == 0 {
      OnlyZeroSmall(s);
    } else {
      SmallHalf(s, n);
      NoBitAbove(Half(s), n - 1);
    }
  }

  lemma ClockCoef(s: bv16, b: bool, e: int)
    ensures RegCoef(Clock(s, b), e)
         == (RegCoef(s, if e == 16 then -1 else e - 1) != (Feedback(s, b) && (e == 0 || e == 2 || e == 15)))
  {
    hide BitSet, Clock, Feedback, Small;
    if 0 <= e < 16 {
      ClockBit(s, b, 15 - e);
      AllSmall(s);
      NoBitAbove(s, 16);
    }
  }

  lemma CoefAppend(bits: seq<bool>, b: bool, e: int)
    ensures Coef(bits + [b], e) == (Coef(bits, e - 1) != (e == 0 && b))
  {
  }

  lemma DivisionStep(init: bv16, message: seq<bool>, b: bool, q: seq<bool>, r: bv16)
    requires Divides(init, message, q, r)
    ensures Divides(init, message + [b], q + [Feedback(r, b)], Clock(r, b))
  {
    hide RegCoef, Coef, Clock;
    var f := Feedback(r, b);
    forall e: int
      ensures DividendCoef(init, message + [b], e)
           == (ProductCoef(q + [f], e) != RegCoef(Clock(r, b), e))
    {
      assert DividendCoef(init, message, e - 1) == (ProductCoef(q, e - 1) != RegCoef(r, e - 1));
      CoefAppend(message, b, e - 16);
      CoefAppend(q, f, e - 16);
      CoefAppend(q, f, e - 15);
      CoefAppend(q, f, e - 2);
      CoefAppend(q, f, e);
      ClockCoef(r, b, e);
      RegOutside(r);
    }
  }

  lemma RegOutside(s: bv16)
    ensures !RegCoef(s, -1) && !RegCoef(s, 16) && RegCoef(s, 15) == BitSet(s, 0)
  {
  }

  /** The register is the remainder of the division: there is a quotient, one bit per message bit. */
  lemma {:induction false} Remainder(init: bv16, message: seq<bool>) returns (q: seq<bool>)
    ensures |q| == |message| && Divides(init, message, q, Serial(init, message))
    decreases |message|
  {
    hide RegCoef, Clock;
    if message == [] {
      q := [];
    } else {
      var n := |message| - 1;
      q := Remainder(init, message[..n]);
      var r := Serial(init, message[..n]);
      DivisionStep(init, message[..n], message[n], q, r);
      assert message == message[..n] + [message[n]];
      SerialCat(init, message[..n], [message[n]]);
      SerialOne(r, message[n]);
      q := q + [Feedback(r, message[n])];
    }
  }

  lemma SerialOne(s: bv16, b: bool)
    ensures Serial(s, [b]) == Clock(s, b)
  {
    hide Clock;
    assert [b][1..] == [];
  }

  lemma QuotientUnique(init: bv16, message: seq<bool>, q: seq<bool>, r: bv16, q': seq<bool>, r': bv16)
    requires Divides(init, message, q, r) && Divides(init, message, q', r') && |q| == |q'|
    ensures q == q'
  {
    hide RegCoef, DividendCoef;
    if q != q' {
      var i := FirstDifference(q, q');
      var e := |q| - 1 - i + 16;
      SameCoef(q, q', i, e - 15);
      SameCoef(q, q', i, e - 2);
      SameCoef(q, q', i, e);
      assert DividendCoef(init, message, e) == (ProductCoef(q, e) != RegCoef(r, e));
      assert DividendCoef(init, message, e) == (ProductCoef(q', e) != RegCoef(r', e));
      RegHigh(r, e);
      RegHigh(r', e);
      assert false;
    }
  }

  lemma SameCoef(q: seq<bool>, q': seq<bool>, i: nat, e: int)
    requires i < |q| == |q'| && q[..i] == q'[..i] && e > |q| - 1 - i
    ensures Coef(q, e) == Coef(q', e)
  {
    if e < |q| {
      assert q[|q| - 1 - e] == q[..i][|q| - 1 - e] && q'[|q| - 1 - e] == q'[..i][|q| - 1 - e];
    }
  }

  /** Quotient and remainder of a division are unique, so `Remainder` determines the checksum. */
  lemma DivisionUnique(init: bv16, message: seq<bool>, q: seq<bool>, r: bv16, q': seq<bool>, r': bv16)
    requires Divides(init, message, q, r) && Divides(init, message, q', r') && |q| == |q'|
    ensures q == q' && r == r'
  {
    hide RegCoef, DividendCoef, ProductCoef;
    QuotientUnique(init, message, q, r, q', r');
    forall e: int ensures RegCoef(r, e) == RegCoef(r', e) {
      assert DividendCoef(init, message, e) == (ProductCoef(q, e) != RegCoef(r, e));
      assert DividendCoef(init, message, e) == (ProductCoef(q', e) != RegCoef(r', e));
    }
    RegDetermined(r, r');
  }

  lemma RegHigh(s: bv16, e: int)
    requires e >= 16
    ensures !RegCoef(s, e)
  {
  }

  lemma {:induction false} FirstDifference(a: seq<bool>, b: seq<bool>) returns (i: nat)
    requires |a| == |b| && a != b
    ensures i < |a| && a[i] != b[i] && a[..i] == b[..i]
    decreases |a|
  {
    if a[0] != b[0] {
      i := 0;
    } else {
      assert a == [a[0]] + a[1..] && b == [b[0]] + b[1..];
      var j := FirstDifference(a[1..], b[1..]);
      i := j + 1;
      assert a[..i] == [a[0]] + a[1..][..j] && b[..i] == [b[0]] + b[1..][..j];
    }
  }

  lemma RegDetermined(s: bv16, t: bv16)
    requires forall e: int :: RegCoef(s, e) == RegCoef(t, e)
    ensures s == t
  {
    hide BitSet, Small;
    forall k: nat | k < 16 ensures BitSet(s, k) == BitSet(t, k) {
      assert RegCoef(s, 15 - k) == RegCoef(t, 15 - k);
    }
    AllSmall(s);
    AllSmall(t);
    BitsDetermine(s, t, 16);
  }

  lemma SmallHalf(s: bv16, k: nat)
    requires 0 < k <= 16 && Small(s, k)
    ensures Small(Half(s), k - 1)
  {
  }

  lemma HalfAndOdd(s: bv16, t: bv16)
    requires Half(s) == Half(t) && Odd(s) == Odd(t)
    ensures s == t
  {
    assert s == (s >> 1 << 1) | (s & 1) && t == (t >> 1 << 1) | (t & 1);
    assert s & 1 == 0 || s & 1 == 1;
    assert t & 1 == 0 || t & 1 == 1;
  }

  lemma OnlyZeroSmall(s: bv16)
    requires Small(s, 0)
    ensures s == 0
  {
  }

  lemma {:induction false} BitsDetermine(s: bv16, t: bv16, n: nat)
    requires n <= 16 && Small(s, n) && Small(t, n)
    requires forall k: nat | k < n :: BitSet(s, k) == BitSet(t, k)
    ensures s == t
    decreases n
  {
    hide Small, Half, Odd;
    if n == 0 {
      OnlyZeroSmall(s);
      OnlyZeroSmall(t);
    } else {
      SmallHalf(s, n);
      SmallHalf(t, n);
      forall k: nat | k < n - 1 ensures BitSet(Half(s), k) == BitSet(Half(t), k) {
        assert BitSet(s, k + 1) == BitSet(t, k + 1);
      }
      BitsDetermine(Half(s), Half(t), n - 1);
      assert BitSet(s, 0) == BitSet(t, 0);
      HalfAndOdd(s, t);
    }
  }

  lemma AllSmall(s: bv16)
    ensures Small(s, 16)
  {
  }

  /** The checksum is the remainder of the message, after the start value, divided by the polynomial. */
  lemma ChecksumIsRemainder(data: seq<bv8>, r: bv16)
    ensures r == Checksum(data) <==> exists q: seq<bool> :: |q| == 8 * |data| && Divides(INITIAL, Bits(data), q, r)
  {
    hide Divides, Serial, Bits;
    var q := Remainder(INITIAL, Bits(data));
    forall q': seq<bool> | |q'| == 8 * |data| && Divides(INITIAL, Bits(data), q', r) ensures r == Checksum(data) {
      DivisionUnique(INITIAL, Bits(data), q, Checksum(data), q', r);
    }
  }

  // ---------------------------------------------------------------- which differences go unnoticed

  lemma AddIsZero(s: bv16, t: bv16)
    ensures Add(s, t) == 0 <==> s == t
  {
  }

  /** Two messages of one length have the same checksum exactly when the polynomial divides their difference. */
  lemma DifferenceDecides(x: seq<bv8>, y: seq<bv8>)
    requires |x| == |y|
    ensures Checksum(x) == Checksum(y)
       <==> exists q: seq<bool> :: |q| == 8 * |x| && Divides(0, AddBits(Bits(x), Bits(y)), q, 0)
  {
    hide Divides, Serial, Bits, Add;
    var d := AddBits(Bits(x), Bits(y));
    SameIffZero(INITIAL, Bits(x), Bits(y));
    var q := Remainder(0, d);
    forall q': seq<bool> | |q'| == 8 * |x| && Divides(0, d, q', 0) ensures Serial(0, d) == 0 {
      DivisionUnique(0, d, q, Serial(0, d), q', 0);
    }
  }

  lemma SameIffZero(s: bv16, x: seq<bool>, y: seq<bool>)
    requires |x| == |y|
    ensures Serial(s, x) == Serial(s, y) <==> Serial(0, AddBits(x, y)) == 0
  {
    hide Serial, Add;
    SerialLinear(s, s, x, y);
    AddComm(s, s);
    AddIsZero(Serial(s, x), Serial(s, y));
  }

  lemma WindowDecides(s: bv16, x: seq<bool>, y: seq<bool>, lo: nat, hi: nat)
    requires AgreeOutside(x, y, lo, hi)
    ensures Serial(s, x) == Serial(s, y) <==> Serial(0, AddBits(x[lo..hi], y[lo..hi])) == 0
  {
    hide Serial;
    var start := Serial(s, x[..lo]);
    assert x == x[..lo] + (x[lo..hi] + x[hi..]) && y == y[..lo] + (y[lo..hi] + y[hi..]);
    SerialCat(s, x[..lo], x[lo..hi] + x[hi..]);
    SerialCat(s, y[..lo], y[lo..hi] + y[hi..]);
    SerialCat(start, x[lo..hi], x[hi..]);
    SerialCat(start, y[lo..hi], y[hi..]);
    SerialInjective(Serial(start, x[lo..hi]), Serial(start, y[lo..hi]), x[hi..]);
    SameIffZero(start, x[lo..hi], y[lo..hi]);
  }

  // ---------------------------------------------------------------- sixteen bits is the limit

  lemma PatternShifts()
    ensures Shifts(8, 0x3) == 0x140 && Shifts(8, Add(0x140, 0x40)) == 0x1 && Shifts(8, Add(0x1, 0x1)) == 0
  {
    EightShifts(0x3);
    EightShifts(0x100);
    EightShifts(0x0);
    assert Shift(0x3) == 0xa000 && Shift(0xa000) == 0x5000 && Shift(0x5000) == 0x2800 && Shift(0x2800) == 0x1400
           && Shift(0x1400) == 0xa00 && Shift(0xa00) == 0x500 && Shift(0x500) == 0x280 && Shift(0x280) == 0x140;
    assert Shift(0x100) == 0x80 && Shift(0x80) == 0x40 && Shift(0x40) == 0x20 && Shift(0x20) == 0x10
           && Shift(0x10) == 0x8 && Shift(0x8) == 0x4 && Shift(0x4) == 0x2 && Shift(0x2) == 0x1;
    assert Shift(0x0) == 0x0 && Shift(0x0) == 0x0 && Shift(0x0) == 0x0 && Shift(0x0) == 0x0
           && Shift(0x0) == 0x0 && Shift(0x0) == 0x0 && Shift(0x0) == 0x0 && Shift(0x0) == 0x0;
  }

  /** The polynomial as a message: x^16 + x^15 + x^2 + 1, highest power first. */
  function Pattern(): seq<bv8> {
    [0x03] + ([0x40] + [0x01])
  }

  lemma PatternVanishes()
    ensures Serial(0, Bits(Pattern())) == 0
    ensures Bits(Pattern()) == BitsOf(0x03) + (BitsOf(0x40) + BitsOf(0x01))
  {
    hide Serial, Bits, BitsOf, Shifts;
    BitsCat([0x03], [0x40] + [0x01]);
    BitsCat([0x40], [0x01]);
    OneByte(0x03);
    OneByte(0x40);
    OneByte(0x01);
    SerialCat(0, BitsOf(0x03), BitsOf(0x40) + BitsOf(0x01));
    SerialCat(Serial(0, BitsOf(0x03)), BitsOf(0x40), BitsOf(0x01));
    ByteWindow(0, 0x03);
    ByteWindow(0x140, 0x40);
    ByteWindow(0x1, 0x01);
    PatternShifts();
    AddThree();
  }

  /** The 17 coefficients of the polynomial, highest power first. */
  const POLYNOMIAL: seq<bool> :=
    [true, true, false, false, false, false, false, false, false, false, false, false, false, false, true, false, true]

  predicate NoBits(bits: seq<bool>) {
    forall i | 0 <= i < |bits| :: !bits[i]
  }

  lemma PatternBits()
    ensures Bits(Pattern()) == POLYNOMIAL + [false, false, false, false, false, false, false]
  {
    hide Serial, Bits;
    PatternVanishes();
  }

  lemma ClockIsZero(s: bv16, b: bool)
    ensures Clock(s, b) == 0 <==> s == FromBool(b)
  {
    hide Shift, Add, FromBool;
    ShiftInjective(Add(s, FromBool(b)), 0);
    AddIsZero(s, FromBool(b));
    assert Shift(0) == 0 by { ShiftIs(0); }
  }

  lemma {:induction false} ZerosVanish(bits: seq<bool>)
    requires NoBits(bits)
    ensures Serial(0, bits) == 0
    decreases |bits|
  {
    if bits == [] {
    } else {
      assert Clock(0, bits[0]) == 0 by { ClockIsZero(0, false); }
      ZerosVanish(bits[1..]);
    }
  }

  lemma PolynomialVanishes()
    ensures Serial(0, POLYNOMIAL) == 0
  {
    hide Serial, Bits;
    var zeros := [false, false, false, false, false, false, false];
    PatternVanishes();
    PatternBits();
    SerialCat(0, POLYNOMIAL, zeros);
    ZerosVanish(zeros);
    SerialInjective(Serial(0, POLYNOMIAL), 0, zeros);
  }

  /** Of the 17-bit strings, the register forgets the zero string and the polynomial. */
  lemma SeventeenVanish(w: seq<bool>)
    requires |w| == 17
    ensures Serial(0, w) == 0 <==> NoBits(w) || w == POLYNOMIAL
  {
    hide Serial, FromBool, Clock;
    var p := if w[16] then POLYNOMIAL else [false, false, false, false, false, false, false, false, false,
                                            false, false, false, false, false, false, false, false];
    if w[16] { PolynomialVanishes(); } else { ZerosVanish(p); }
    assert w == w[..16] + [w[16]] && p == p[..16] + [w[16]];
    SerialCat(0, w[..16], [w[16]]);
    SerialCat(0, p[..16], [w[16]]);
    SerialOne(Serial(0, w[..16]), w[16]);
    SerialOne(Serial(0, p[..16]), w[16]);
    ClockIsZero(Serial(0, w[..16]), w[16]);
    ClockIsZero(Serial(0, p[..16]), w[16]);
    WindowTells(0, w[..16], p[..16]);
    if NoBits(w) {
      assert !w[16];
      assert w == p;
    }
  }

  lemma NoDifference(x: seq<bool>, y: seq<bool>, lo: nat, hi: nat)
    requires AgreeOutside(x, y, lo, hi)
    ensures NoBits(AddBits(x[lo..hi], y[lo..hi])) <==> x == y
  {
    var v, w := x[lo..hi], y[lo..hi];
    var d := AddBits(v, w);
    if NoBits(d) {
      forall i | 0 <= i < |v| ensures v[i] == w[i] {
        assert !d[i];
      }
      assert v == w;
      assert x == x[..lo] + (v + x[hi..]) && y == y[..lo] + (w + y[hi..]);
    }
  }

  /**
   A change confined to 17 consecutive bits, anywhere in a message of any length, goes unnoticed exactly when it
   is no change or flips the bits of the polynomial.
   */
  lemma SeventeenBits(x: seq<bv8>, y: seq<bv8>, lo: nat)
    requires |x| == |y| && AgreeOutside(Bits(x), Bits(y), lo, lo + 17)
    ensures Checksum(x) == Checksum(y)
       <==> x == y || AddBits(Bits(x)[lo..lo + 17], Bits(y)[lo..lo + 17]) == POLYNOMIAL
  {
    hide Serial, Bits, AddBits, NoBits;
    WindowDecides(INITIAL, Bits(x), Bits(y), lo, lo + 17);
    SeventeenVanish(AddBits(Bits(x)[lo..lo + 17], Bits(y)[lo..lo + 17]));
    NoDifference(Bits(x), Bits(y), lo, lo + 17);
    BitsInjective(x, y);
  }

  function Mark(bit: bool, mask: bv8): bv8 {
    if bit then mask else 0
  }

  /** The byte with these bits, lowest first. */
  function ByteOf(bits: seq<bool>): bv8
    requires |bits| == 8
  {
    Mark(bits[0], 1) | Mark(bits[1], 2) | Mark(bits[2], 4) | Mark(bits[3], 8)
    | Mark(bits[4], 16) | Mark(bits[5], 32) | Mark(bits[6], 64) | Mark(bits[7], 128)
  }

  lemma ByteOfBits(bits: seq<bool>)
    requires |bits| == 8
    ensures BitsOf(ByteOf(bits)) == bits
  {
  }

  function BytesOf(bits: seq<bool>): (data: seq<bv8>)
    requires |bits| % 8 == 0
    ensures |bits| == 8 * |data|
  {
    if bits == [] then [] else [ByteOf(bits[..8])] + BytesOf(bits[8..])
  }

  lemma {:induction false} BytesOfBits(bits: seq<bool>)
    requires |bits| % 8 == 0
    ensures Bits(BytesOf(bits)) == bits
    decreases |bits|
  {
    hide BitsOf, ByteOf;
    if bits == [] {
    } else {
      BytesOfBits(bits[8..]);
      ByteOfBits(bits[..8]);
      assert BytesOf(bits)[1..] == BytesOf(bits[8..]);
      assert bits == bits[..8] + bits[8..];
    }
  }

  /** In every message, flipping the bits of the polynomial at any position leaves the checksum as it was. */
  lemma SeventeenBitsEscape(m: seq<bv8>, lo: nat) returns (y: seq<bv8>)
    requires lo + 17 <= 8 * |m|
    ensures |y| == |m| && y != m && Checksum(y) == Checksum(m) && AgreeOutside(Bits(y), Bits(m), lo, lo + 17)
  {
    hide Serial, Bits, BitsOf, BytesOf, Checksum;
    var flipped := AddBits(Bits(m)[lo..lo + 17], POLYNOMIAL);
    var bits := Bits(m)[..lo] + flipped + Bits(m)[lo + 17..];
    y := BytesOf(bits);
    BytesOfBits(bits);
    assert bits[..lo] == Bits(m)[..lo] && bits[lo + 17..] == Bits(m)[lo + 17..];
    assert bits[lo..lo + 17] == flipped;
    assert AddBits(flipped, Bits(m)[lo..lo + 17]) == POLYNOMIAL;
    assert flipped[0] != Bits(m)[lo..lo + 17][0];
    SeventeenBits(y, m, lo);
  }

  lemma AddThree()
    ensures Add(0, 0x3) == 0x3
  {
  }

  // ---------------------------------------------------------------- the start value

  /** The first 16 bits turned over. */
  function Inverted(bits: seq<bool>): (c: seq<bool>)
    requires |bits| >= 16
    ensures |c| == |bits| && forall i | 0 <= i < |bits| :: c[i] == (bits[i] != (i < 16))
  {
    seq(|bits|, i requires 0 <= i < |bits| => bits[i] != (i < 16))
  }

  function Repeated(bit: bool, n: nat): (bits: seq<bool>)
    ensures |bits| == n && forall i | 0 <= i < n :: bits[i] == bit
  {
    seq(n, _ => bit)
  }

  lemma OnesWord()
    ensures Word(Repeated(true, 16)) == 0xFFFF
  {
    hide Word;
    assert BitsOf(0xFF) == Repeated(true, 8);
    assert Repeated(true, 16) == BitsOf(0xFF) + BitsOf(0xFF) && BitsOf(0xFF) + [] == BitsOf(0xFF);
    WordOfByte(0xFF, BitsOf(0xFF));
    WordOfByte(0xFF, []);
    EmptyWord();
    assert Above(0xFF, Above(0xFF, 0)) == 0xFFFF;
  }

  lemma {:induction false} ZerosWord(n: nat)
    ensures Word(Repeated(false, n)) == 0
  {
    if n == 0 {
    } else {
      ZerosWord(n - 1);
      assert Repeated(false, n)[1..] == Repeated(false, n - 1);
      assert Add(Double(0), FromBool(false)) == 0;
    }
  }

  /** To start with 0xFFFF is to start with 0 and to send 16 ones instead of 16 zeros. */
  lemma OnesInFront()
    ensures Serial(0xFFFF, Repeated(false, 16)) == Serial(0, Repeated(true, 16))
  {
    hide Serial, Word, Shifts;
    Window(0xFFFF, Repeated(false, 16));
    Window(0, Repeated(true, 16));
    OnesWord();
    ZerosWord(16);
    AddZero(0xFFFF);
    AddComm(0, 0xFFFF);
  }

  lemma StartInverts(bits: seq<bool>)
    requires |bits| >= 16
    ensures Serial(0xFFFF, bits) == Serial(0, Inverted(bits))
  {
    hide Serial, Add, AddBits, Inverted;
    var n := |bits| - 16;
    var zeros, tail, ones := Repeated(false, 16), Repeated(false, n), Repeated(true, 16);
    assert AddBits(bits, zeros + tail) == bits;
    assert AddBits(bits, ones + tail) == Inverted(bits);
    AddZero(0xFFFF);
    AddZero(0);
    AddComm(0, 0xFFFF);
    SerialLinear(0, 0xFFFF, bits, zeros + tail);
    SerialLinear(0, 0, bits, ones + tail);
    SerialCat(0xFFFF, zeros, tail);
    SerialCat(0, ones, tail);
    OnesInFront();
  }

  /**
   The checksum of a message of at least two bytes is the remainder of the message, its first 16 bits turned over,
   times x^16; of a shorter one, that of the message after the start value 0xFFFF.
   */
  lemma ChecksumOfInverted(data: seq<bv8>, r: bv16)
    ensures |data| >= 2 ==>
              (r == Checksum(data)
               <==> exists q: seq<bool> :: |q| == 8 * |data| && Divides(0, Inverted(Bits(data)), q, r))
    ensures r == Checksum(data) <==> exists q: seq<bool> :: |q| == 8 * |data| && Divides(0xFFFF, Bits(data), q, r)
  {
    hide Divides, Serial, Bits, Inverted;
    ChecksumIsRemainder(data, r);
    if |data| >= 2 {
      StartInverts(Bits(data));
      var d := Inverted(Bits(data));
      var q := Remainder(0, d);
      forall q': seq<bool> | |q'| == 8 * |data| && Divides(0, d, q', r) ensures r == Checksum(data) {
        DivisionUnique(0, d, q, Checksum(data), q', r);
      }
    }
  }

  lemma EmptyChecksum()
    ensures Checksum([]) == 0xFFFF
  {
  }

  lemma EightAre(t: bv16, a: bv16, b: bv16, c: bv16, d: bv16, e: bv16, f: bv16, g: bv16, h: bv16)
    requires Shift(t) == a && Shift(a) == b && Shift(b) == c && Shift(c) == d
    requires Shift(d) == e && Shift(e) == f && Shift(f) == g && Shift(g) == h
    ensures Shifts(8, t) == h
  {
    hide Shift, Shifts;
    EightShifts(t);
  }

  lemma OneMore(data: seq<bv8>, b: bv8, t: bv16, r: bv16)
    requires Checksum(data) ^ b as bv16 == t && Shifts(8, t) == r
    ensures Checksum(data + [b]) == r
  {
    hide Shifts, Serial, Bits, BitsOf;
    ChecksumContinues(data, [b]);
    OneByte(b);
    ByteWindow(Checksum(data), b);
  }

  lemma DigitOne(data: seq<bv8>)
    requires Checksum(data) == 0xFFFF
    ensures Checksum(data + [0x31]) == 0x947E
  {
    hide Shifts, Checksum;
    EightAre(0xFFCE, 0x7FE7, 0x9FF2, 0x4FF9, 0x87FD, 0xE3FF, 0xD1FE, 0x68FF, 0x947E);
    OneMore(data, 0x31, 0xFFCE, 0x947E);
  }

  lemma DigitTwo(data: seq<bv8>)
    requires Checksum(data) == 0x947E
    ensures Checksum(data + [0x32]) == 0xF595
  {
    hide Shifts, Checksum;
    EightAre(0x944C, 0x4A26, 0x2513, 0xB288, 0x5944, 0x2CA2, 0x1651, 0xAB29, 0xF595);
    OneMore(data, 0x32, 0x944C, 0xF595);
  }

  lemma DigitThree(data: seq<bv8>)
    requires Checksum(data) == 0xF595
    ensures Checksum(data + [0x33]) == 0x7A75
  {
    hide Shifts, Checksum;
    EightAre(0xF5A6, 0x7AD3, 0x9D68, 0x4EB4, 0x275A, 0x13AD, 0xA9D7, 0xF4EA, 0x7A75);
    OneMore(data, 0x33, 0xF5A6, 0x7A75);
  }

  lemma DigitFour(data: seq<bv8>)
    requires Checksum(data) == 0x7A75
    ensures Checksum(data + [0x34]) == 0x30BA
  {
    hide Shifts, Checksum;
    EightAre(0x7A41, 0x9D21, 0xEE91, 0xD749, 0xCBA5, 0xC5D3, 0xC2E8, 0x6174, 0x30BA);
    OneMore(data, 0x34, 0x7A41, 0x30BA);
  }

  lemma DigitFive(data: seq<bv8>)
    requires Checksum(data) == 0x30BA
    ensures Checksum(data + [0x35]) == 0xA471
  {
    hide Shifts, Checksum;
    EightAre(0x308F, 0xB846, 0x5C23, 0x8E10, 0x4708, 0x2384, 0x11C2, 0x8E1, 0xA471);
    OneMore(data, 0x35, 0x308F, 0xA471);
  }

  lemma DigitSix(data: seq<bv8>)
    requires Checksum(data) == 0xA471
    ensures Checksum(data + [0x36]) == 0x32E4
  {
    hide Shifts, Checksum;
    EightAre(0xA447, 0xF222, 0x7911, 0x9C89, 0xEE45, 0xD723, 0xCB90, 0x65C8, 0x32E4);
    OneMore(data, 0x36, 0xA447, 0x32E4);
  }

  lemma DigitSeven(data: seq<bv8>)
    requires Checksum(data) == 0x32E4
    ensures Checksum(data + [0x37]) == 0x9D73
  {
    hide Shifts, Checksum;
    EightAre(0x32D3, 0xB968, 0x5CB4, 0x2E5A, 0x172D, 0xAB97, 0xF5CA, 0x7AE5, 0x9D73);
    OneMore(data, 0x37, 0x32D3, 0x9D73);
  }

  lemma DigitEight(data: seq<bv8>)
    requires Checksum(data) == 0x9D73
    ensures Checksum(data + [0x38]) == 0x37DD
  {
    hide Shifts, Checksum;
    EightAre(0x9D4B, 0xEEA4, 0x7752, 0x3BA9, 0xBDD5, 0xFEEB, 0xDF74, 0x6FBA, 0x37DD);
    OneMore(data, 0x38, 0x9D4B, 0x37DD);
  }

  lemma DigitNine(data: seq<bv8>)
    requires Checksum(data) == 0x37DD
    ensures Checksum(data + [0x39]) == 0x4B37
  {
    hide Shifts, Checksum;
    EightAre(0x37E4, 0x1BF2, 0xDF9, 0xA6FD, 0xF37F, 0xD9BE, 0x6CDF, 0x966E, 0x4B37);
    OneMore(data, 0x39, 0x37E4, 0x4B37);
  }

  /** The published check value of this checksum, for the digits 1 to 9 in ASCII. */
  lemma CheckValue()
    ensures Checksum([0x31, 0x32, 0x33, 0x34, 0x35, 0x36, 0x37, 0x38, 0x39]) == 0x4B37
  {
    hide Checksum;
    EmptyChecksum();
    var data: seq<bv8> := [];
    DigitOne(data);
    data := data + [0x31];
    DigitTwo(data);
    data := data + [0x32];
    DigitThree(data);
    data := data + [0x33];
    DigitFour(data);
    data := data + [0x34];
    DigitFive(data);
    data := data + [0x35];
    DigitSix(data);
    data := data + [0x36];
    DigitSeven(data);
    data := data + [0x37];
    DigitEight(data);
    data := data + [0x38];
    DigitNine(data);
    data := data + [0x39];
    assert data == [0x31, 0x32, 0x33, 0x34, 0x35, 0x36, 0x37, 0x38, 0x39];
  }
}
