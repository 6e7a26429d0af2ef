/** The CRC-32 of device_config.cpp (IEEE 802.3, reflected): what one bit, one
    byte and four bytes do to the register, and why a burst of up to 32 bits can
    never cancel out. */
module Crc32 {
  import opened Register

  const POLY: bv32 := 0xEDB8_8320
  const ONES: bv32 := 0xFFFF_FFFF
  const BITS: nat := 8

  function Shift(crc: bv32): bv32 {
    if crc & 1 == 1 then (crc >> 1) ^ POLY else crc >> 1
  }

  function Unshift(crc: bv32): bv32 {
    if crc & 0x8000_0000 != 0 then ((crc ^ POLY) << 1) | 1 else crc << 1
  }

  function Xor(x: bv32, y: bv32): bv32 {
    x ^ y
  }

  function FeedByte(crc: bv32, b: bv8): bv32 {
    Iter(Shift, Xor(crc, b as bv32), BITS)
  }

  function Crc(data: seq<bv8>): bv32 {
    !Fold(FeedByte, ONES, data)
  }

  function Word(b0: bv8, b1: bv8, b2: bv8, b3: bv8): bv32 {
    (b0 as bv32) | ((b1 as bv32) << 8) | ((b2 as bv32) << 16) | ((b3 as bv32) << 24)
  }

  // ---- the shift is a linear bijection -----------------------------------

  lemma UnshiftShift(x: bv32)
    ensures Unshift(Shift(x)) == x
  {
  }

  lemma ShiftInjective()
    ensures Injective(Shift)
  {
    forall x, y | Shift(x) == Shift(y) ensures x == y {
      UnshiftShift(x);
      UnshiftShift(y);
    }
  }

  lemma ShiftXor(x: bv32, y: bv32)
    ensures Shift(Xor(x, y)) == Xor(Shift(x), Shift(y))
  {
    if x & 1 == 1 {
      if y & 1 == 1 { OddOdd(x, y); } else { OddEven(x, y); }
    } else {
      if y & 1 == 1 { EvenOdd(x, y); } else { EvenEven(x, y); }
    }
  }

  /** `s` shifts to the sum of what `x` and `y` shift to, their halves being `a`
      and `b`. */
  lemma SumOfShifts(sx: bv32, sy: bv32, s: bv32, a: bv32, b: bv32)
    ensures sx == a ^ POLY && sy == b ^ POLY && s == a ^ b ==> s == Xor(sx, sy)
    ensures sx == a ^ POLY && sy == b && s == (a ^ b) ^ POLY ==> s == Xor(sx, sy)
    ensures sx == a && sy == b ^ POLY && s == (a ^ b) ^ POLY ==> s == Xor(sx, sy)
    ensures sx == a && sy == b && s == a ^ b ==> s == Xor(sx, sy)
  {
  }

  lemma OddOdd(x: bv32, y: bv32)
    requires x & 1 == 1 && y & 1 == 1
    ensures Shift(Xor(x, y)) == Xor(Shift(x), Shift(y))
  {
    LowBitXor(x, y);
    ShrXor(x, y);
    Odd(x);
    Odd(y);
    Even(x ^ y);
    SumOfShifts(Shift(x), Shift(y), Shift(x ^ y), x >> 1, y >> 1);
  }

  lemma OddEven(x: bv32, y: bv32)
    requires x & 1 == 1 && y & 1 != 1
    ensures Shift(Xor(x, y)) == Xor(Shift(x), Shift(y))
  {
    LowBitXor(x, y);
    ShrXor(x, y);
    Odd(x);
    Even(y);
    Odd(x ^ y);
    SumOfShifts(Shift(x), Shift(y), Shift(x ^ y), x >> 1, y >> 1);
  }

  lemma EvenOdd(x: bv32, y: bv32)
    requires x & 1 != 1 && y & 1 == 1
    ensures Shift(Xor(x, y)) == Xor(Shift(x), Shift(y))
  {
    LowBitXor(x, y);
    ShrXor(x, y);
    Even(x);
    Odd(y);
    Odd(x ^ y);
    SumOfShifts(Shift(x), Shift(y), Shift(x ^ y), x >> 1, y >> 1);
  }

  lemma EvenEven(x: bv32, y: bv32)
    requires x & 1 != 1 && y & 1 != 1
    ensures Shift(Xor(x, y)) == Xor(Shift(x), Shift(y))
  {
    LowBitXor(x, y);
    ShrXor(x, y);
    Even(x);
    Even(y);
    Even(x ^ y);
    SumOfShifts(Shift(x), Shift(y), Shift(x ^ y), x >> 1, y >> 1);
  }

  lemma Odd(x: bv32)
    requires x & 1 == 1
    ensures Shift(x) == (x >> 1) ^ POLY
  {
  }

  lemma Even(x: bv32)
    requires x & 1 != 1
    ensures Shift(x) == x >> 1
  {
  }

  lemma LowBitXor(x: bv32, y: bv32)
    ensures (x ^ y) & 1 == 1 <==> (x & 1 == 1) != (y & 1 == 1)
  {
  }

  lemma ShrXor(x: bv32, y: bv32)
    ensures (x ^ y) >> 1 == (x >> 1) ^ (y >> 1)
  {
  }

  lemma XorCancel(p: bv32, q: bv32, c: bv32)
    ensures Xor(p, c) == Xor(q, c) ==> p == q
    ensures Xor(c, p) == Xor(c, q) ==> p == q
  {
  }

  lemma ShiftLinear()
    ensures Linear(Shift, Xor)
  {
    forall x, y ensures Shift(Xor(x, y)) == Xor(Shift(x), Shift(y)) {
      ShiftXor(x, y);
    }
  }

  lemma ByteInjective()
    ensures InjectiveIn(FeedByte)
  {
    ShiftInjective();
    forall x, y, b | FeedByte(x, b) == FeedByte(y, b) ensures x == y {
      IterInjective(Shift, Xor(x, b as bv32), Xor(y, b as bv32), BITS);
      XorCancel(x, y, b as bv32);
    }
  }

  // ---- four bytes at once ------------------------------------------------

  lemma ShiftDown0(x: bv32)
    requires x & 0xFF == 0
    ensures Shift(x) == x >> 1
  {
  }

  lemma ShiftDown1(x: bv32)
    requires x & 0xFF == 0
    ensures Shift(x >> 1) == x >> 2
  {
  }

  lemma ShiftDown2(x: bv32)
    requires x & 0xFF == 0
    ensures Shift(x >> 2) == x >> 3
  {
  }

  lemma ShiftDown3(x: bv32)
    requires x & 0xFF == 0
    ensures Shift(x >> 3) == x >> 4
  {
  }

  lemma ShiftDown4(x: bv32)
    requires x & 0xFF == 0
    ensures Shift(x >> 4) == x >> 5
  {
  }

  lemma ShiftDown5(x: bv32)
    requires x & 0xFF == 0
    ensures Shift(x >> 5) == x >> 6
  {
  }

  lemma ShiftDown6(x: bv32)
    requires x & 0xFF == 0
    ensures Shift(x >> 6) == x >> 7
  {
  }

  lemma ShiftDown7(x: bv32)
    requires x & 0xFF == 0
    ensures Shift(x >> 7) == x >> 8
  {
  }

  /** Eight shifts of a word whose low byte is zero just move it down. */
  lemma LowByteZero(x: bv32)
    requires x & 0xFF == 0
    ensures Iter(Shift, x, BITS) == x >> 8
  {
    ShiftDown0(x);
    ShiftDown1(x);
    ShiftDown2(x);
    ShiftDown3(x);
    ShiftDown4(x);
    ShiftDown5(x);
    ShiftDown6(x);
    ShiftDown7(x);
    IterEight(Shift, x, x >> 1, x >> 2, x >> 3, x >> 4, x >> 5, x >> 6, x >> 7, x >> 8);
  }

  lemma SplitWord(crc: bv32, w: bv32, b: bv32)
    requires b == w & 0xFF
    ensures Xor(crc, w) == Xor(Xor(crc, b), w & 0xFFFF_FF00)
    ensures (w & 0xFFFF_FF00) & 0xFF == 0 && (w & 0xFFFF_FF00) >> 8 == w >> 8
  {
  }

  /** `b` is the low byte of `w`, `next` what remains of it. */
  predicate Peels(w: bv32, b: bv8, next: bv32) {
    b as bv32 == w & 0xFF && next == w >> 8
  }

  /** Feeding the low byte of `w` leaves the rest of `w` still to be fed. */
  lemma PeelByte(crc: bv32, w: bv32, b: bv8, next: bv32)
    requires Peels(w, b, next)
    ensures Iter(Shift, Xor(crc, w), BITS) == Xor(FeedByte(crc, b), next)
  {
    var rest := w & 0xFFFF_FF00;
    SplitWord(crc, w, b as bv32);
    LowByteZero(rest);
    ShiftLinear();
    PeelPiece(Shift, Xor, crc, w, b as bv32, rest, next, BITS);
  }

  lemma WordShifts(b0: bv8, b1: bv8, b2: bv8, b3: bv8)
    ensures var w := Word(b0, b1, b2, b3);
            Peels(w, b0, w >> 8) && Peels(w >> 8, b1, w >> 16) &&
            Peels(w >> 16, b2, w >> 24) && Peels(w >> 24, b3, 0)
  {
  }

  lemma WordFeeds(crc: bv32, b0: bv8, b1: bv8, b2: bv8, b3: bv8, w: bv32)
    requires Peels(w, b0, w >> 8) && Peels(w >> 8, b1, w >> 16)
    requires Peels(w >> 16, b2, w >> 24) && Peels(w >> 24, b3, 0)
    ensures FeedByte(FeedByte(FeedByte(FeedByte(crc, b0), b1), b2), b3) == Iter(Shift, Xor(crc, w), 4 * BITS)
  {
    FourPeels(crc, b0, b1, b2, b3, w, w >> 8, w >> 16, w >> 24);
  }

  lemma XorZero(x: bv32)
    ensures Xor(x, 0) == x
  {
  }

  lemma FourPeels(c0: bv32, b0: bv8, b1: bv8, b2: bv8, b3: bv8, w0: bv32, w1: bv32, w2: bv32, w3: bv32)
    requires Peels(w0, b0, w1) && Peels(w1, b1, w2) && Peels(w2, b2, w3) && Peels(w3, b3, 0)
    ensures FeedByte(FeedByte(FeedByte(FeedByte(c0, b0), b1), b2), b3) == Iter(Shift, Xor(c0, w0), 4 * BITS)
  {
    var c1 := FeedByte(c0, b0);
    var c2 := FeedByte(c1, b1);
    var c3 := FeedByte(c2, b2);
    var c4 := FeedByte(c3, b3);
    PeelByte(c0, w0, b0, w1);
    PeelByte(c1, w1, b1, w2);
    PeelByte(c2, w2, b2, w3);
    PeelByte(c3, w3, b3, 0);
    FourPieces(Shift, Xor, BITS, c0, c1, c2, c3, c4, w0, w1, w2, w3, 0);
    XorZero(c4);
  }

  /** Four bytes act on the register as the little-endian word they spell,
      followed by 32 shifts. */
  lemma FourBytes(crc: bv32, b0: bv8, b1: bv8, b2: bv8, b3: bv8)
    ensures FeedByte(FeedByte(FeedByte(FeedByte(crc, b0), b1), b2), b3)
            == Iter(Shift, Xor(crc, Word(b0, b1, b2, b3)), 4 * BITS)
  {
    WordShifts(b0, b1, b2, b3);
    WordFeeds(crc, b0, b1, b2, b3, Word(b0, b1, b2, b3));
  }

  lemma WordInjective(b0: bv8, b1: bv8, b2: bv8, b3: bv8, d0: bv8, d1: bv8, d2: bv8, d3: bv8)
    requires Word(b0, b1, b2, b3) == Word(d0, d1, d2, d3)
    ensures b0 == d0 && b1 == d1 && b2 == d2 && b3 == d3
  {
  }

  function WordOf(d: seq<bv8>): bv32
    requires |d| == 4
  {
    Word(d[0], d[1], d[2], d[3])
  }

  lemma {:induction false} FeedFour(crc: bv32, d: seq<bv8>)
    requires |d| == 4
    ensures Fold(FeedByte, crc, d) == Iter(Shift, Xor(crc, WordOf(d)), 4 * BITS)
  {
    FoldFour(FeedByte, crc, d);
    FourBytes(crc, d[0], d[1], d[2], d[3]);
  }

  // ---- whole messages ----------------------------------------------------

  predicate SameOutside(a: seq<bv8>, b: seq<bv8>, i: nat, n: nat) {
    |a| == |b| && forall k :: 0 <= k < |a| && !(i <= k < i + n) ==> a[k] == b[k]
  }

  lemma {:induction false} FourBytesDiffer(crc: bv32, a: seq<bv8>, b: seq<bv8>)
    requires |a| == 4 == |b| && Fold(FeedByte, crc, a) == Fold(FeedByte, crc, b)
    ensures a == b
  {
    FeedFour(crc, a);
    FeedFour(crc, b);
    ShiftInjective();
    IterInjective(Shift, Xor(crc, WordOf(a)), Xor(crc, WordOf(b)), 4 * BITS);
    XorCancel(WordOf(a), WordOf(b), crc);
    WordInjective(a[0], a[1], a[2], a[3], b[0], b[1], b[2], b[3]);
  }

  /** Two messages that differ only within four consecutive bytes leave the
      register in different states. */
  lemma {:induction false} BurstChangesRegister(crc: bv32, a: seq<bv8>, b: seq<bv8>, i: nat)
    requires i + 4 <= |a| && SameOutside(a, b, i, 4) && a != b
    ensures Fold(FeedByte, crc, a) != Fold(FeedByte, crc, b)
  {
    var p, s := a[..i], a[i + 4..];
    var da, db := a[i..i + 4], b[i..i + 4];
    assert b[..i] == p && b[i + 4..] == s;
    assert a == p + da + s && b == p + db + s;
    var r := Fold(FeedByte, crc, p);
    FoldAppend(FeedByte, crc, p + da, s);
    FoldAppend(FeedByte, crc, p, da);
    FoldAppend(FeedByte, crc, p + db, s);
    FoldAppend(FeedByte, crc, p, db);
    ByteInjective();
    FoldInjective(FeedByte, Fold(FeedByte, r, da), Fold(FeedByte, r, db), s);
    if Fold(FeedByte, r, da) == Fold(FeedByte, r, db) { FourBytesDiffer(r, da, db); }
  }

  lemma XorTwice(r: bv32, w: bv32)
    ensures Xor(r, Xor(r, w)) == w
  {
  }

  lemma NotIsXor(r: bv32)
    ensures !r == Xor(r, ONES)
  {
  }

  lemma OnesIffComplement(r: bv32, w: bv32)
    ensures Xor(r, w) == ONES <==> w == !r
  {
    NotIsXor(r);
    XorTwice(r, w);
    XorTwice(r, ONES);
  }

  lemma ResidueWord(r: bv32, w: bv32)
    ensures Iter(Shift, Xor(r, w), 4 * BITS) == Iter(Shift, ONES, 4 * BITS) <==> w == !r
  {
    ShiftInjective();
    IterInjective(Shift, Xor(r, w), ONES, 4 * BITS);
    OnesIffComplement(r, w);
  }

  lemma ResidueOf(end: bv32, r: bv32, w: bv32)
    requires end == Iter(Shift, Xor(r, w), 4 * BITS)
    ensures end == Iter(Shift, ONES, 4 * BITS) <==> w == !r
  {
    ResidueWord(r, w);
  }

  lemma {:induction false} ResidueFrom(r: bv32, tail: seq<bv8>, end: bv32, crc: bv32)
    requires |tail| == 4 && end == Fold(FeedByte, r, tail) && crc == !r
    ensures end == Iter(Shift, ONES, 4 * BITS) <==> WordOf(tail) == crc
  {
    FeedFour(r, tail);
    ResidueOf(end, r, WordOf(tail));
  }

  /** A message followed by its own little-endian CRC drives the register to one
      fixed state, and only its own CRC does. */
  lemma {:induction false} SameResidue(data: seq<bv8>, tail: seq<bv8>)
    requires |tail| == 4
    ensures Fold(FeedByte, ONES, data + tail) == Iter(Shift, ONES, 4 * BITS) <==> WordOf(tail) == Crc(data)
  {
    var end, crc, w := Fold(FeedByte, ONES, data + tail), Crc(data), WordOf(tail);
    FoldAppend(FeedByte, ONES, data, tail);
    ResidueFrom(Fold(FeedByte, ONES, data), tail, end, crc);
    if w == crc {
      assert end == Iter(Shift, ONES, 4 * BITS);
    } else {
      assert end != Iter(Shift, ONES, 4 * BITS);
    }
  }

  // ---- the standard's values ---------------------------------------------

  /** A byte fed in eight given steps. */
  lemma FedInSteps(crc: bv32, b: bv8, x0: bv32, x1: bv32, x2: bv32, x3: bv32, x4: bv32, x5: bv32, x6: bv32, x7: bv32,
                   x8: bv32)
    requires x0 == crc ^ (b as bv32)
    requires Shift(x0) == x1 && Shift(x1) == x2 && Shift(x2) == x3 && Shift(x3) == x4
    requires Shift(x4) == x5 && Shift(x5) == x6 && Shift(x6) == x7 && Shift(x7) == x8
    ensures FeedByte(crc, b) == x8
  {
    IterEight(Shift, x0, x1, x2, x3, x4, x5, x6, x7, x8);
  }

  lemma Digit1()
    ensures FeedByte(0xFFFF_FFFF, 0x31) == 0x7C23_1048
  {
    FedInSteps(0xFFFF_FFFF, 0x31, 0xFFFF_FFCE, 0x7FFF_FFE7, 0xD247_7CD3, 0x849B_3D49, 0xAFF5_1D84,
               0x57FA_8EC2, 0x2BFD_4761, 0xF846_2090, 0x7C23_1048);
  }

  lemma Digit2()
    ensures FeedByte(0x7C23_1048, 0x32) == 0xB0AC_BB32
  {
    FedInSteps(0x7C23_1048, 0x32, 0x7C23_107A, 0x3E11_883D, 0xF2B0_473E, 0x7958_239F, 0xD114_92EF,
               0x8532_CA57, 0xAF21_E60B, 0xBA28_7025, 0xB0AC_BB32);
  }

  lemma Digit3()
    ensures FeedByte(0xB0AC_BB32, 0x33) == 0x77B7_9C2D
  {
    FedInSteps(0xB0AC_BB32, 0x33, 0xB0AC_BB01, 0xB5EE_DEA0, 0x5AF7_6F50, 0x2D7B_B7A8, 0x16BD_DBD4,
               0x0B5E_EDEA, 0x05AF_76F5, 0xEF6F_385A, 0x77B7_9C2D);
  }

  lemma Digit4()
    ensures FeedByte(0x77B7_9C2D, 0x34) == 0x641C_1F5C
  {
    FedInSteps(0x77B7_9C2D, 0x34, 0x77B7_9C19, 0xD663_4D2C, 0x6B31_A696, 0x3598_D34B, 0xF774_EA85,
               0x9602_F662, 0x4B01_7B31, 0xC838_3EB8, 0x641C_1F5C);
  }

  lemma Digit5()
    ensures FeedByte(0x641C_1F5C, 0x35) == 0x340A_C5E3
  {
    FedInSteps(0x641C_1F5C, 0x35, 0x641C_1F69, 0xDFB6_8C94, 0x6FDB_464A, 0x37ED_A325, 0xF64E_52B2,
               0x7B27_2959, 0xD02B_178C, 0x6815_8BC6, 0x340A_C5E3);
  }

  lemma Digit6()
    ensures FeedByte(0x340A_C5E3, 0x36) == 0xF68D_2C9E
  {
    FedInSteps(0x340A_C5E3, 0x36, 0x340A_C5D5, 0xF7BD_E1CA, 0x7BDE_F0E5, 0xD057_FB52, 0x682B_FDA9,
               0xD9AD_7DF4, 0x6CD6_BEFA, 0x366B_5F7D, 0xF68D_2C9E);
  }

  lemma Digit7()
    ensures FeedByte(0xF68D_2C9E, 0x37) == 0xAFFC_9660
  {
    FedInSteps(0xF68D_2C9E, 0x37, 0xF68D_2CA9, 0x96FE_1574, 0x4B7F_0ABA, 0x25BF_855D, 0xFF67_418E,
               0x7FB3_A0C7, 0xD261_5343, 0x8488_2A81, 0xAFFC_9660);
  }

  lemma Digit8()
    ensures FeedByte(0xAFFC_9660, 0x38) == 0x651F_2550
  {
    FedInSteps(0xAFFC_9660, 0x38, 0xAFFC_9658, 0x57FE_4B2C, 0x2BFF_2596, 0x15FF_92CB, 0xE747_4A45,
               0x9E1B_2602, 0x4F0D_9301, 0xCA3E_4AA0, 0x651F_2550);
  }

  lemma Digit9()
    ensures FeedByte(0x651F_2550, 0x39) == 0x340B_C6D9
  {
    FedInSteps(0x651F_2550, 0x39, 0x651F_2569, 0xDF37_1194, 0x6F9B_88CA, 0x37CD_C465, 0xF65E_6112,
               0x7B2F_3089, 0xD02F_1B64, 0x6817_8DB2, 0x340B_C6D9);
  }

  lemma {:induction false} FoldNext(x: bv32, data: seq<bv8>, b: bv8, y: bv32, z: bv32)
    requires Fold(FeedByte, x, data) == y && FeedByte(y, b) == z
    ensures Fold(FeedByte, x, data + [b]) == z
  {
    assert (data + [b])[..|data|] == data;
  }

  /** "123456789" */
  const DIGITS: seq<bv8> := [0x31, 0x32, 0x33, 0x34, 0x35, 0x36, 0x37, 0x38, 0x39]

  /** The register before and after each of them. */
  const REGISTERS: seq<bv32> :=
    [0xFFFF_FFFF, 0x7C23_1048, 0xB0AC_BB32, 0x77B7_9C2D, 0x641C_1F5C,
     0x340A_C5E3, 0xF68D_2C9E, 0xAFFC_9660, 0x651F_2550, 0x340B_C6D9]

  lemma DigitAt(n: nat)
    requires n < 9
    ensures FeedByte(REGISTERS[n], DIGITS[n]) == REGISTERS[n + 1]
  {
    match n
    case 0 => Digit1();
    case 1 => Digit2();
    case 2 => Digit3();
    case 3 => Digit4();
    case 4 => Digit5();
    case 5 => Digit6();
    case 6 => Digit7();
    case 7 => Digit8();
    case 8 => Digit9();
  }

  lemma {:induction false} DigitsFed(n: nat)
    requires n <= 9
    ensures Fold(FeedByte, ONES, DIGITS[..n]) == REGISTERS[n]
  {
    if n == 0 {
    } else {
      DigitsFed(n - 1);
      assert DIGITS[..n] == DIGITS[..n - 1] + [DIGITS[n - 1]];
      DigitAt(n - 1);
      FoldNext(ONES, DIGITS[..n - 1], DIGITS[n - 1], REGISTERS[n - 1], REGISTERS[n]);
    }
  }

  /** The check value that catalogues give for the IEEE 802.3 CRC-32: that of the
      nine characters "123456789". */
  lemma {:induction false} CheckValue()
    ensures Crc([0x31, 0x32, 0x33, 0x34, 0x35, 0x36, 0x37, 0x38, 0x39]) == 0xCBF4_3926
  {
    DigitsFed(9);
    assert DIGITS[..9] == DIGITS;
  }

  lemma ResidueByte1()
    ensures Iter(Shift, 0xFFFF_FFFF, BITS) == 0x2DFD_1072
  {
    IterEight(Shift, 0xFFFF_FFFF, 0x9247_7CDF, 0xA49B_3D4F, 0xBFF5_1D87, 0xB242_0DE3,
              0xB499_85D1, 0xB7F4_41C8, 0x5BFA_20E4, 0x2DFD_1072);
  }

  lemma ResidueByte2()
    ensures Iter(Shift, 0x2DFD_1072, BITS) == 0xBE26_ED00
  {
    IterEight(Shift, 0x2DFD_1072, 0x16FE_8839, 0xE6C7_C73C, 0x7363_E39E, 0x39B1_F1CF,
              0xF160_7BC7, 0x9508_BEC3, 0xA73C_DC41, 0xBE26_ED00);
  }

  lemma ResidueByte3()
    ensures Iter(Shift, 0xBE26_ED00, BITS) == 0x00BE_26ED
  {
    IterEight(Shift, 0xBE26_ED00, 0x5F13_7680, 0x2F89_BB40, 0x17C4_DDA0, 0x0BE2_6ED0,
              0x05F1_3768, 0x02F8_9BB4, 0x017C_4DDA, 0x00BE_26ED);
  }

  lemma ResidueByte4()
    ensures Iter(Shift, 0x00BE_26ED, BITS) == 0xDEBB_20E3
  {
    IterEight(Shift, 0x00BE_26ED, 0xEDE7_9056, 0x76F3_C82B, 0xD6C1_6735, 0x86D8_30BA,
              0x436C_185D, 0xCC0E_8F0E, 0x6607_4787, 0xDEBB_20E3);
  }

  /** What a message and its own CRC leave in the register. */
  const RESIDUE: bv32 := 0xDEBB_20E3

  lemma {:induction false} ResidueValue()
    ensures Iter(Shift, ONES, 4 * BITS) == RESIDUE
  {
    ResidueByte1();
    ResidueByte2();
    ResidueByte3();
    ResidueByte4();
    IterAdd(Shift, ONES, BITS, BITS);
    IterAdd(Shift, ONES, 2 * BITS, BITS);
    IterAdd(Shift, ONES, 3 * BITS, BITS);
  }

  /** That state is the literal residue of the IEEE CRC-32. */
  lemma {:induction false} ResidueIffMatching(data: seq<bv8>, tail: seq<bv8>)
    requires |tail| == 4
    ensures Fold(FeedByte, ONES, data + tail) == 0xDEBB_20E3 <==> WordOf(tail) == Crc(data)
  {
    var end, crc, w := Fold(FeedByte, ONES, data + tail), Crc(data), WordOf(tail);
    SameResidue(data, tail);
    ResidueValue();
    if w == crc {
      assert end == RESIDUE;
    } else {
      assert end != RESIDUE;
    }
  }

  // ---- the loop ----------------------------------------------------------

  lemma MaskValue(crc: bv32)
    ensures 0 - (crc & 1) == if crc & 1 == 1 then ONES else 0
  {
  }

  /** One conditional shift, the condition computed as a mask. */
  method ShiftBit(crc: bv32) returns (next: bv32)
    ensures next == Shift(crc)
  {
    var mask: bv32 := 0 - (crc & 1);
    if crc & 1 == 1 { Odd(crc); } else { Even(crc); }
    MaskValue(crc);
    assert POLY & mask == if crc & 1 == 1 then POLY else 0;
    next := (crc >> 1) ^ (POLY & mask);
    XorZero(crc >> 1);
  }

  method ShiftBits(start: bv32, n: nat) returns (crc: bv32)
    ensures crc == Iter(Shift, start, n)
  {
    crc := start;
    for bit := 0 to n
      invariant crc == Iter(Shift, start, bit)
    {
      crc := ShiftBit(crc);
    }
  }

  method Compute(data: seq<bv8>, len: nat) returns (result: bv32)
    requires len <= |data|
    ensures result == Crc(data[..len])
  {
    var crc := ONES;
    for i := 0 to len
      invariant crc == Fold(FeedByte, ONES, data[..i])
    {
      assert data[..i + 1][..i] == data[..i];
      crc := ShiftBits(Xor(crc, data[i] as bv32), BITS);
    }
    result := !crc;
  }
}
