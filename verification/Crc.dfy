/** The 16-bit CRC of the MicroBCSP engine, which is the one of Appendix C.2 of RFC 1662 without the final
    complement: reflected polynomial 0x8408, register preset to 0xFFFF.

    Two definitions meet here. Step is the source's: two nibbles through a sixteen-entry table. Feed is the
    reference: one message bit at a time into a shift register. What a CRC is for is proved about Feed and then
    carried over to whole octet sequences by CrcIsBitSerial. */
module Crc {
  type Octet = bv8
  type Register = bv16
  type Bits = seq<bool>

  const PRESET: Register := 0xffff

  // ---------- register arithmetic ----------

  function Xor(r: Register, s: Register): Register { r ^ s }

  function Half(r: Register): Register { r >> 1 }

  function Quarter(r: Register): Register { r >> 4 }

  function Low(r: Register): Register { r & 1 }

  function Flip(r: Register): Register { r ^ 0x8408 }

  function Bit(b: bool): Register { if b then 1 else 0 }

  // ---------- the bit-serial definition ----------

  function Shift(r: Register): Register {
    if Low(r) == 1 then Flip(Half(r)) else Half(r)
  }

  function Shifts(r: Register, n: nat): Register
    decreases n
  {
    if n == 0 then r else Shifts(Shift(r), n - 1)
  }

  /** The register after the message bits have gone in, first bit first. */
  function Feed(r: Register, bits: Bits): Register
    decreases bits
  {
    if bits == [] then r else Feed(Shift(Xor(r, Bit(bits[0]))), bits[1..])
  }

  /** The n low bits of a register, lowest first. */
  function LowBits(r: Register, n: nat): (bits: Bits)
    ensures |bits| == n
    decreases n
  {
    if n == 0 then [] else [Low(r) == 1] + LowBits(Half(r), n - 1)
  }

  /** An octet is fed low bit first. */
  function OctetBits(ch: Octet): (bits: Bits)
    ensures |bits| == 8
  {
    LowBits(ch as Register, 8)
  }

  function BitsOf(s: seq<Octet>): (bits: Bits)
    ensures |bits| == 8 * |s|
  {
    if s == [] then [] else OctetBits(s[0]) + BitsOf(s[1..])
  }

  // ---------- the source's table-driven definition ----------

  function Table(i: Register): Register {
    if i == 0 then 0x0000 else if i == 1 then 0x1081 else if i == 2 then 0x2102 else if i == 3 then 0x3183
    else if i == 4 then 0x4204 else if i == 5 then 0x5285 else if i == 6 then 0x6306 else if i == 7 then 0x7387
    else if i == 8 then 0x8408 else if i == 9 then 0x9489 else if i == 10 then 0xa50a else if i == 11 then 0xb58b
    else if i == 12 then 0xc60c else if i == 13 then 0xd68d else if i == 14 then 0xe70e else 0xf78f
  }

  /** Four bits at a time: the low nibble of n goes into the register. */
  function Nibble(n: Register, r: Register): Register {
    Xor(Quarter(r), Table(Xor(r, n) & 0x000f))
  }

  function Step(ch: Octet, r: Register): Register {
    Nibble(Quarter(ch as Register), Nibble(ch as Register, r))
  }

  function Crc(s: seq<Octet>, r: Register): Register {
    if s == [] then r else Crc(s[1..], Step(s[0], r))
  }

  lemma {:induction false} CrcConcat(a: seq<Octet>, b: seq<Octet>, r: Register)
    ensures Crc(a + b, r) == Crc(b, Crc(a, r))
  {
    if a == [] {
      assert a + b == b;
    } else {
      CrcConcat(a[1..], b, Step(a[0], r));
      assert (a + b)[1..] == a[1..] + b;
    }
  }

  lemma CrcAppend(s: seq<Octet>, ch: Octet, r: Register)
    ensures Crc(s + [ch], r) == Step(ch, Crc(s, r))
  {
    hide Step;
    CrcConcat(s, [ch], r);
    assert [ch][1..] == [];
  }

  // ---------- the table is four shifts ----------

  lemma HalfXor(x: Register, z: Register)
    ensures Half(Xor(x, z)) == Xor(Half(x), Half(z))
  {
  }

  lemma LowXorEven(x: Register, z: Register)
    requires Low(z) == 0
    ensures Low(Xor(x, z)) == Low(x)
  {
  }

  lemma FlipXor(x: Register, z: Register)
    ensures Flip(Xor(x, z)) == Xor(Flip(x), z)
  {
  }

  /** A bit pattern whose low bit is clear passes through a shift unchanged. */
  lemma ShiftXorEven(x: Register, z: Register)
    requires Low(z) == 0
    ensures Shift(Xor(x, z)) == Xor(Shift(x), Half(z))
  {
    hide Xor, Half, Low, Flip;
    LowXorEven(x, z);
    HalfXor(x, z);
    FlipXor(Half(x), Half(z));
  }

  function FourShifts(r: Register): Register { Shift(Shift(Shift(Shift(r)))) }

  lemma SplitLow(r: Register)
    ensures r == Xor(r & 0x000f, r & 0xfff0)
  {
  }

  lemma HighIsEven(r: Register)
    ensures Low(r & 0xfff0) == 0
    ensures Low(Half(r & 0xfff0)) == 0
    ensures Low(Half(Half(r & 0xfff0))) == 0
    ensures Low(Half(Half(Half(r & 0xfff0)))) == 0
  {
  }

  lemma HighQuartered(r: Register)
    ensures Half(Half(Half(Half(r & 0xfff0)))) == Quarter(r)
  {
  }

  lemma TableEntry(i: Register)
    requires i < 16
    ensures FourShifts(i) == Table(i)
  {
  }

  lemma TableIsFourShifts(r: Register)
    ensures FourShifts(r) == Xor(Table(r & 0x000f), Quarter(r))
  {
    hide Xor, Half, Low, Quarter, Shift, Table;
    var lo, hi := r & 0x000f, r & 0xfff0;
    SplitLow(r);
    HighIsEven(r);
    HighQuartered(r);
    TableEntry(lo);
    ShiftXorEven(lo, hi);
    ShiftXorEven(Shift(lo), Half(hi));
    ShiftXorEven(Shift(Shift(lo)), Half(Half(hi)));
    ShiftXorEven(Shift(Shift(Shift(lo))), Half(Half(Half(hi))));
  }

  lemma QuarterXor(r: Register, n: Register)
    ensures Quarter(Xor(r, n)) == Xor(Quarter(r), Quarter(n))
  {
  }

  lemma XorCommutes(a: Register, b: Register)
    ensures Xor(a, b) == Xor(b, a)
  {
  }

  lemma XorAssociates(a: Register, b: Register, c: Register)
    ensures Xor(Xor(a, b), c) == Xor(a, Xor(b, c))
  {
    assert (a ^ b) ^ c == a ^ (b ^ c);
  }

  lemma NibbleIsFourShifts(n: Register, r: Register)
    ensures FourShifts(Xor(r, n)) == Xor(Nibble(n, r), Quarter(n))
  {
    hide Xor, Quarter, FourShifts, Table;
    TableIsFourShifts(Xor(r, n));
    QuarterXor(r, n);
    var t := Table(Xor(r, n) & 0x000f);
    XorAssociates(t, Quarter(r), Quarter(n));
    XorCommutes(t, Quarter(r));
  }

  lemma OctetHasEightBits(ch: Octet)
    ensures Quarter(Quarter(ch as Register)) == 0
  {
  }

  lemma XorZero(r: Register)
    ensures Xor(r, 0) == r
  {
  }

  lemma StepIsEightShifts(ch: Octet, r: Register)
    ensures Step(ch, r) == FourShifts(FourShifts(Xor(r, ch as Register)))
  {
    hide Xor, Nibble, FourShifts, Quarter;
    var c := ch as Register;
    NibbleIsFourShifts(c, r);
    NibbleIsFourShifts(Quarter(c), Nibble(c, r));
    OctetHasEightBits(ch);
    XorZero(Step(ch, r));
  }

  // ---------- up to sixteen bits at once ----------

  function Double(r: Register): Register { r << 1 }

  /** The bits packed into a register, first bit lowest. */
  function Pack(bits: Bits): Register
    requires |bits| <= 16
  {
    if bits == [] then 0 else Xor(Bit(bits[0]), Double(Pack(bits[1..])))
  }

  /** The register whose n low bits are set. */
  function Mask(n: nat): Register
    requires n <= 16
  {
    if n == 0 then 0x0 else if n == 1 then 0x1 else if n == 2 then 0x3 else if n == 3 then 0x7
    else if n == 4 then 0xf else if n == 5 then 0x1f else if n == 6 then 0x3f else if n == 7 then 0x7f
    else if n == 8 then 0xff else if n == 9 then 0x1ff else if n == 10 then 0x3ff else if n == 11 then 0x7ff
    else if n == 12 then 0xfff else if n == 13 then 0x1fff else if n == 14 then 0x3fff else if n == 15 then 0x7fff
    else 0xffff
  }

  function Grow(m: Register): Register { Double(m) | 1 }

  predicate TopClear(m: Register) { m & 0x8000 == 0 }

  function Kept(r: Register, m: Register): Register { r & m }

  predicate Within(r: Register, m: Register) { Kept(r, m) == r }

  lemma MaskStep(n: nat)
    requires n < 16
    ensures Mask(n + 1) == Grow(Mask(n))
    ensures TopClear(Mask(n))
  {
  }

  lemma KeptEven(p: Register, m: Register)
    ensures Kept(Double(p), Grow(m)) == Double(Kept(p, m))
  {
  }

  lemma KeptOdd(p: Register, m: Register)
    ensures Kept(Xor(1, Double(p)), Grow(m)) == Xor(1, Double(Kept(p, m)))
  {
  }

  lemma WithinStep(b: bool, p: Register, m: Register)
    requires Within(p, m)
    ensures Within(Xor(Bit(b), Double(p)), Grow(m))
  {
    hide Xor, Double, Grow, Kept;
    if b {
      KeptOdd(p, m);
    } else {
      KeptEven(p, m);
      XorCommutes(0, Double(p));
      XorZero(Double(p));
    }
  }

  lemma HalfDouble(b: bool, p: Register, m: Register)
    requires Within(p, m) && TopClear(m)
    ensures Half(Xor(Bit(b), Double(p))) == p
  {
  }

  lemma LowPacked(b: bool, p: Register)
    ensures Low(Xor(Bit(b), Double(p))) == Bit(b)
    ensures Low(Double(p)) == 0
  {
  }

  lemma {:induction false} PackWithin(bits: Bits)
    requires |bits| <= 16
    ensures Within(Pack(bits), Mask(|bits|))
  {
    hide Xor, Double, Within, Mask, Grow, TopClear;
    if bits == [] {
      assert Within(0, Mask(0)) by { MaskStep(0); ZeroWithin(Mask(0)); }
    } else {
      PackWithin(bits[1..]);
      MaskStep(|bits| - 1);
      WithinStep(bits[0], Pack(bits[1..]), Mask(|bits| - 1));
    }
  }

  lemma ZeroWithin(m: Register)
    ensures Within(0, m)
  {
  }

  lemma {:induction false} PackInjective(a: Bits, b: Bits)
    requires |a| == |b| <= 16
    requires Pack(a) == Pack(b)
    ensures a == b
  {
    hide Xor, Double, Half, Low, Within, Mask, Grow, TopClear;
    if a != [] {
      var m := Mask(|a| - 1);
      PackWithin(a[1..]);
      PackWithin(b[1..]);
      MaskStep(|a| - 1);
      HalfDouble(a[0], Pack(a[1..]), m);
      HalfDouble(b[0], Pack(b[1..]), m);
      LowPacked(a[0], Pack(a[1..]));
      LowPacked(b[0], Pack(b[1..]));
      PackInjective(a[1..], b[1..]);
      assert a == [a[0]] + a[1..] && b == [b[0]] + b[1..];
    }
  }

  /** Feeding up to sixteen bits one by one is the same as xoring them in together and then shifting. */
  lemma {:induction false} FeedIsShifts(r: Register, bits: Bits)
    requires |bits| <= 16
    ensures Feed(r, bits) == Shifts(Xor(r, Pack(bits)), |bits|)
    decreases bits
  {
    hide Xor, Double, Half, Low, Shift, Within, Mask, Grow, TopClear;
    if bits == [] {
      XorZero(r);
    } else {
      var b, p := bits[0], Pack(bits[1..]);
      PackWithin(bits[1..]);
      MaskStep(|bits| - 1);
      DoubleHalf(p, Mask(|bits| - 1));
      LowPacked(b, p);
      XorAssociates(r, Bit(b), Double(p));
      ShiftXorEven(Xor(r, Bit(b)), Double(p));
      FeedIsShifts(Shift(Xor(r, Bit(b))), bits[1..]);
    }
  }

  lemma DoubleHalf(p: Register, m: Register)
    requires Within(p, m) && TopClear(m)
    ensures Half(Double(p)) == p
  {
  }

  // ---------- the shift register can be run backwards ----------

  function Unshift(r: Register): Register {
    if r & 0x8000 == 0x8000 then Double(Flip(r)) | 1 else Double(r)
  }

  lemma UnshiftShift(r: Register)
    ensures Unshift(Shift(r)) == r
  {
    if Low(r) == 1 {
      OddUnshift(r);
    } else {
      EvenUnshift(r);
    }
  }

  lemma OddUnshift(r: Register)
    requires Low(r) == 1
    ensures Flip(Half(r)) & 0x8000 == 0x8000
    ensures Double(Flip(Flip(Half(r)))) | 1 == r
  {
  }

  lemma EvenUnshift(r: Register)
    requires Low(r) != 1
    ensures Half(r) & 0x8000 != 0x8000
    ensures Double(Half(r)) == r
  {
  }

  lemma {:induction false} ShiftsInjective(r: Register, s: Register, n: nat)
    requires Shifts(r, n) == Shifts(s, n)
    ensures r == s
    decreases n
  {
    hide Shift;
    if n != 0 {
      ShiftsInjective(Shift(r), Shift(s), n - 1);
      UnshiftShift(r);
      UnshiftShift(s);
    }
  }

  lemma XorInjective(r: Register, s: Register, z: Register)
    requires Xor(r, z) == Xor(s, z)
    ensures r == s
  {
    assert (r ^ z) ^ z == r;
    assert (s ^ z) ^ z == s;
  }

  /** Whatever the message, its effect on the register is one-to-one. */
  lemma {:induction false} FeedInjective(r: Register, s: Register, bits: Bits)
    requires Feed(r, bits) == Feed(s, bits)
    ensures r == s
    decreases bits
  {
    hide Shift, Xor;
    if bits != [] {
      var x, y := Xor(r, Bit(bits[0])), Xor(s, Bit(bits[0]));
      FeedInjective(Shift(x), Shift(y), bits[1..]);
      UnshiftShift(x);
      UnshiftShift(y);
      XorInjective(r, s, Bit(bits[0]));
    }
  }

  lemma CrcOfOne(ch: Octet, r: Register)
    ensures Crc([ch], r) == Step(ch, r)
  {
    hide Step;
    assert [ch][1..] == [];
  }

  lemma {:induction false} FeedConcat(r: Register, a: Bits, b: Bits)
    ensures Feed(r, a + b) == Feed(Feed(r, a), b)
    decreases a
  {
    hide Shift, Xor;
    if a == [] {
      assert a + b == b;
    } else {
      FeedConcat(Shift(Xor(r, Bit(a[0]))), a[1..], b);
      assert (a + b)[1..] == a[1..] + b;
    }
  }

  // ---------- what the CRC detects ----------

  /** a and b are equal-length and agree outside a stretch of at most sixteen consecutive bits. */
  ghost predicate DifferInBurst(a: Bits, b: Bits) {
    && |a| == |b|
    && exists i: nat, j: nat ::
         i <= j <= |a| && j - i <= 16 && a[..i] == b[..i] && a[j..] == b[j..]
  }

  lemma WindowDetected(r: Register, x: Bits, y: Bits)
    requires |x| == |y| <= 16
    requires Feed(r, x) == Feed(r, y)
    ensures x == y
  {
    hide Xor, Pack, Feed, Shifts;
    FeedIsShifts(r, x);
    FeedIsShifts(r, y);
    ShiftsInjective(Xor(r, Pack(x)), Xor(r, Pack(y)), |x|);
    XorCommutes(r, Pack(x));
    XorCommutes(r, Pack(y));
    XorInjective(Pack(x), Pack(y), r);
    PackInjective(x, y);
  }

  lemma FeedInThree(r: Register, a: Bits, i: nat, j: nat)
    requires i <= j <= |a|
    ensures Feed(r, a) == Feed(Feed(Feed(r, a[..i]), a[i..j]), a[j..])
  {
    hide Feed;
    assert a == a[..i] + (a[i..j] + a[j..]);
    FeedConcat(r, a[..i], a[i..j] + a[j..]);
    FeedConcat(Feed(r, a[..i]), a[i..j], a[j..]);
  }

  lemma BurstDetectedInBits(r: Register, a: Bits, b: Bits)
    requires DifferInBurst(a, b)
    requires Feed(r, a) == Feed(r, b)
    ensures a == b
  {
    hide Feed;
    var i: nat, j: nat :| i <= j <= |a| && j - i <= 16 && a[..i] == b[..i] && a[j..] == b[j..];
    var start := Feed(r, a[..i]);
    FeedInThree(r, a, i, j);
    FeedInThree(r, b, i, j);
    FeedInjective(Feed(start, a[i..j]), Feed(start, b[i..j]), a[j..]);
    WindowDetected(start, a[i..j], b[i..j]);
    assert a == a[..i] + a[i..j] + a[j..] && b == b[..i] + b[i..j] + b[j..];
  }

  // ---------- from bits to octets ----------

  lemma LowRemainder(r: Register)
    ensures Xor(Bit(Low(r) == 1), Double(Half(r))) == r
  {
  }

  lemma HalfWithin(r: Register, m: Register)
    requires Within(r, Grow(m)) && TopClear(m)
    ensures Within(Half(r), m)
  {
  }

  lemma WithinZero(r: Register)
    requires Within(r, Mask(0))
    ensures r == 0
  {
  }

  lemma {:induction false} PackLowBits(r: Register, n: nat)
    requires n <= 16 && Within(r, Mask(n))
    ensures Pack(LowBits(r, n)) == r
    decreases n
  {
    hide Xor, Double, Half, Low, Within, Mask, Grow, TopClear, Bit;
    if n == 0 {
      WithinZero(r);
    } else {
      MaskStep(n - 1);
      HalfWithin(r, Mask(n - 1));
      PackLowBits(Half(r), n - 1);
      LowRemainder(r);
      var bits := LowBits(r, n);
      assert bits[0] == (Low(r) == 1) && bits[1..] == LowBits(Half(r), n - 1);
    }
  }

  lemma OctetWithin(ch: Octet)
    ensures Within(ch as Register, Mask(8))
  {
  }

  lemma EightShifts(r: Register)
    ensures Shifts(r, 8) == FourShifts(FourShifts(r))
  {
    hide Shift;
    assert Shifts(r, 8) == Shifts(Shift(Shift(r)), 6);
    assert Shifts(Shift(Shift(r)), 6) == Shifts(FourShifts(r), 4);
    assert Shifts(FourShifts(r), 4) == Shifts(Shift(Shift(FourShifts(r))), 2);
  }

  /** The source's table step is eight steps of the bit-serial register. */
  lemma StepIsBitSerial(ch: Octet, r: Register)
    ensures Step(ch, r) == Feed(r, OctetBits(ch))
  {
    hide Xor, Within, Mask, Step, FourShifts;
    OctetWithin(ch);
    PackLowBits(ch as Register, 8);
    FeedIsShifts(r, OctetBits(ch));
    EightShifts(Xor(r, ch as Register));
    StepIsEightShifts(ch, r);
  }

  lemma {:induction false} CrcIsBitSerial(s: seq<Octet>, r: Register)
    ensures Crc(s, r) == Feed(r, BitsOf(s))
    decreases s
  {
    hide Step, OctetBits;
    if s != [] {
      StepIsBitSerial(s[0], r);
      CrcIsBitSerial(s[1..], Step(s[0], r));
      FeedConcat(r, OctetBits(s[0]), BitsOf(s[1..]));
    }
  }

  lemma {:induction false} BitsInjective(a: seq<Octet>, b: seq<Octet>)
    requires BitsOf(a) == BitsOf(b)
    ensures a == b
  {
    if a != [] {
      var x, y := BitsOf(a), BitsOf(b);
      assert OctetBits(a[0]) == x[..8] && BitsOf(a[1..]) == x[8..];
      assert OctetBits(b[0]) == y[..8] && BitsOf(b[1..]) == y[8..];
      OctetBitsInjective(a[0], b[0]);
      BitsInjective(a[1..], b[1..]);
      assert a == [a[0]] + a[1..] && b == [b[0]] + b[1..];
    }
  }

  lemma OctetBitsInjective(a: Octet, b: Octet)
    requires OctetBits(a) == OctetBits(b)
    ensures a == b
  {
    OctetWithin(a);
    OctetWithin(b);
    PackLowBits(a as Register, 8);
    PackLowBits(b as Register, 8);
  }

  /** Burst detection: two messages that differ, and differ only inside sixteen consecutive bits,
      have different CRCs. */
  lemma BurstDetected(r: Register, a: seq<Octet>, b: seq<Octet>)
    requires a != b
    requires DifferInBurst(BitsOf(a), BitsOf(b))
    ensures Crc(a, r) != Crc(b, r)
  {
    CrcIsBitSerial(a, r);
    CrcIsBitSerial(b, r);
    if Crc(a, r) == Crc(b, r) {
      BurstDetectedInBits(r, BitsOf(a), BitsOf(b));
      BitsInjective(a, b);
    }
  }

  // ---------- odd numbers of bit errors ----------

  /** Whether an odd number of the n low register bits is set. */
  predicate OddLow(r: Register, n: nat)
    decreases n
  {
    if n == 0 then false else (Low(r) == 1) != OddLow(Half(r), n - 1)
  }

  predicate OddRegister(r: Register) {
    OddLow(r, 16)
  }

  lemma LowXor(r: Register, s: Register)
    ensures (Low(Xor(r, s)) == 1) == ((Low(r) == 1) != (Low(s) == 1))
  {
  }

  lemma {:induction false} OddXor(r: Register, s: Register, n: nat)
    ensures OddLow(Xor(r, s), n) == (OddLow(r, n) != OddLow(s, n))
    decreases n
  {
    hide Xor, Half, Low;
    if n != 0 {
      LowXor(r, s);
      HalfXor(r, s);
      OddXor(Half(r), Half(s), n - 1);
    }
  }

  lemma {:induction false} OddAbove(r: Register, n: nat)
    requires n < 16 && Within(r, Mask(n))
    ensures OddLow(r, n + 1) == OddLow(r, n)
    decreases n
  {
    hide Half, Low, Within, Mask, Grow, TopClear;
    if n == 0 {
      WithinZero(r);
      ZeroIsEven();
    } else {
      MaskStep(n - 1);
      HalfWithin(r, Mask(n - 1));
      OddAbove(Half(r), n - 1);
    }
  }

  lemma ZeroIsEven()
    ensures Low(0) == 0 && Half(0) == 0
  {
  }

  lemma HalfIsSmall(r: Register)
    ensures Within(Half(r), Mask(15))
  {
  }

  lemma OddHalf(r: Register)
    ensures OddRegister(Half(r)) == (OddRegister(r) != (Low(r) == 1))
  {
    hide Half, Low, Within, Mask;
    HalfIsSmall(r);
    OddAbove(Half(r), 15);
  }

  lemma {:induction false} OddZero(n: nat)
    ensures !OddLow(0, n)
  {
    ZeroIsEven();
    if n != 0 {
      OddZero(n - 1);
    }
  }

  /** 0x8408 has three bits set. */
  lemma PolynomialIsOdd()
    ensures OddRegister(0x8408)
  {
    hide OddRegister;
    OddHalf(0x8408); OddHalf(0x4204); OddHalf(0x2102); OddHalf(0x1081); OddHalf(0x0840); OddHalf(0x0420);
    OddHalf(0x0210); OddHalf(0x0108); OddHalf(0x0084); OddHalf(0x0042); OddHalf(0x0021); OddHalf(0x0010);
    OddHalf(0x0008); OddHalf(0x0004); OddHalf(0x0002);
    OddBit(true);
  }

  lemma FlipIsXor(r: Register)
    ensures Flip(r) == Xor(r, 0x8408)
  {
  }

  lemma OddBit(b: bool)
    ensures OddRegister(Bit(b)) == b
  {
    OddZero(16);
    OddHalf(1);
    assert Half(1) == 0 && Low(1) == 1;
  }

  /** The polynomial has an odd number of taps, so a shift keeps the register's parity. */
  lemma OddShift(r: Register)
    ensures OddRegister(Shift(r)) == OddRegister(r)
  {
    hide Xor, Half, Low, Flip;
    OddHalf(r);
    FlipIsXor(Half(r));
    OddXor(Half(r), 0x8408, 16);
    PolynomialIsOdd();
  }

  predicate Odd(bits: Bits) {
    if bits == [] then false else bits[0] != Odd(bits[1..])
  }

  lemma {:induction false} OddFeed(r: Register, bits: Bits)
    ensures OddRegister(Feed(r, bits)) == (OddRegister(r) != Odd(bits))
    decreases bits
  {
    hide Xor, Bit, Shift, OddLow;
    if bits != [] {
      var x := Xor(r, Bit(bits[0]));
      OddXor(r, Bit(bits[0]), 16);
      OddBit(bits[0]);
      OddShift(x);
      OddFeed(Shift(x), bits[1..]);
    }
  }

  /** The number of positions at which two bit strings differ. */
  function Errors(a: Bits, b: Bits): nat
    requires |a| == |b|
  {
    if a == [] then 0 else (if a[0] != b[0] then 1 else 0) + Errors(a[1..], b[1..])
  }

  lemma {:induction false} ErrorsParity(a: Bits, b: Bits)
    requires |a| == |b|
    ensures (Errors(a, b) % 2 == 1) == (Odd(a) != Odd(b))
  {
    if a != [] {
      ErrorsParity(a[1..], b[1..]);
    }
  }

  /** Two equal-length messages that differ in an odd number of bits, wherever these are,
      have different CRCs. */
  lemma OddErrorsDetected(r: Register, a: seq<Octet>, b: seq<Octet>)
    requires |a| == |b|
    requires Errors(BitsOf(a), BitsOf(b)) % 2 == 1
    ensures Crc(a, r) != Crc(b, r)
  {
    hide OddRegister;
    CrcIsBitSerial(a, r);
    CrcIsBitSerial(b, r);
    OddFeed(r, BitsOf(a));
    OddFeed(r, BitsOf(b));
    ErrorsParity(BitsOf(a), BitsOf(b));
  }

  // ---------- bit reversal ----------

  /** One round of the source's loop: the low bit of c moves to the low end of rev. */
  function Push(rev: Register, c: Register): Register { Double(rev) | Low(c) }

  function ReverseRounds(c: Register, rev: Register, n: nat): Register
    decreases n
  {
    if n == 0 then rev else ReverseRounds(Half(c), Push(rev, c), n - 1)
  }

  /** Bit i goes to bit 15 - i. */
  function Reverse(r: Register): Register {
    (r >> 15) | ((r >> 13) & 0x0002) | ((r >> 11) & 0x0004) | ((r >> 9) & 0x0008) |
    ((r >> 7) & 0x0010) | ((r >> 5) & 0x0020) | ((r >> 3) & 0x0040) | ((r >> 1) & 0x0080) |
    ((r << 1) & 0x0100) | ((r << 3) & 0x0200) | ((r << 5) & 0x0400) | ((r << 7) & 0x0800) |
    ((r << 9) & 0x1000) | ((r << 11) & 0x2000) | ((r << 13) & 0x4000) | ((r << 15) & 0x8000)
  }

  lemma ReverseIsAnInvolution(r: Register)
    ensures Reverse(Reverse(r)) == r
  {
  }

  /** Four rounds of the loop at once. */
  function FourRounds(c: Register, rev: Register): Register {
    (rev << 4) | ((c >> 3) & 1) | ((c >> 1) & 2) | ((c << 1) & 4) | ((c << 3) & 8)
  }

  lemma FourRoundsAgree(c: Register, rev: Register)
    ensures Push(Push(Push(Push(rev, c), Half(c)), Half(Half(c))), Half(Half(Half(c))))
         == FourRounds(c, rev)
  {
  }

  lemma FourHalves(c: Register)
    ensures Half(Half(Half(Half(c)))) == Quarter(c)
  {
  }

  lemma NextFourRounds(c: Register, rev: Register, n: nat)
    ensures ReverseRounds(c, rev, n + 4) == ReverseRounds(Quarter(c), FourRounds(c, rev), n)
  {
    hide Push, Half, Quarter, FourRounds;
    FourRoundsAgree(c, rev);
    FourHalves(c);
    var c1, rev1 := Half(c), Push(rev, c);
    var c2, rev2 := Half(c1), Push(rev1, c1);
    var c3, rev3 := Half(c2), Push(rev2, c2);
    assert ReverseRounds(c, rev, n + 4) == ReverseRounds(c1, rev1, n + 3);
    assert ReverseRounds(c2, rev2, n + 2) == ReverseRounds(c3, rev3, n + 1);
  }

  lemma SixteenRounds(r: Register)
    ensures FourRounds(Quarter(Quarter(Quarter(r))),
              FourRounds(Quarter(Quarter(r)), FourRounds(Quarter(r), FourRounds(r, 0)))) == Reverse(r)
  {
  }

  lemma ReverseRoundsIsReverse(r: Register)
    ensures ReverseRounds(r, 0, 16) == Reverse(r)
  {
    hide Quarter, FourRounds, Reverse;
    var a := FourRounds(r, 0);
    var b := FourRounds(Quarter(r), a);
    var c := FourRounds(Quarter(Quarter(r)), b);
    NextFourRounds(r, 0, 12);
    NextFourRounds(Quarter(r), a, 8);
    NextFourRounds(Quarter(Quarter(r)), b, 4);
    NextFourRounds(Quarter(Quarter(Quarter(r))), c, 0);
    SixteenRounds(r);
  }

  method CrcReverse(crc: Register) returns (rev: Register)
    ensures rev == Reverse(crc)
  {
    rev := 0;
    var c := crc;
    var b := 0;
    while b < 16
      invariant 0 <= b <= 16
      invariant ReverseRounds(c, rev, 16 - b) == ReverseRounds(crc, 0, 16)
    {
      rev := Double(rev);
      rev := rev | Low(c);
      c := Half(c);
      b := b + 1;
    }
    ReverseRoundsIsReverse(crc);
  }
}
