/** Known answers: the check value of the CRC, and frames as they appear on the wire. */
module KnownAnswers {
  import opened Bytes
  import opened Crc
  import opened CrcPolynomial
  import opened LinkFrame
  import opened Session

  // ---------------------------------------------------------------- registers to compute with

  /** A register as 32 flags, least significant first. */
  datatype Word = Word(
    b0: bool, b1: bool, b2: bool, b3: bool, b4: bool, b5: bool, b6: bool, b7: bool, b8: bool, b9: bool, b10:
    bool, b11: bool, b12: bool, b13: bool, b14: bool, b15: bool, b16: bool, b17: bool, b18: bool, b19: bool,
    b20: bool, b21: bool, b22: bool, b23: bool, b24: bool, b25: bool, b26: bool, b27: bool, b28: bool, b29:
    bool, b30: bool, b31: bool)

  predicate Part0(c: Reg, w: Word) {
    && c[0] == w.b0 && c[1] == w.b1 && c[2] == w.b2 && c[3] == w.b3
    && c[4] == w.b4 && c[5] == w.b5 && c[6] == w.b6 && c[7] == w.b7
  }

  predicate Part1(c: Reg, w: Word) {
    && c[8] == w.b8 && c[9] == w.b9 && c[10] == w.b10 && c[11] == w.b11
    && c[12] == w.b12 && c[13] == w.b13 && c[14] == w.b14 && c[15] == w.b15
  }

  predicate Part2(c: Reg, w: Word) {
    && c[16] == w.b16 && c[17] == w.b17 && c[18] == w.b18 && c[19] == w.b19
    && c[20] == w.b20 && c[21] == w.b21 && c[22] == w.b22 && c[23] == w.b23
  }

  predicate Part3(c: Reg, w: Word) {
    && c[24] == w.b24 && c[25] == w.b25 && c[26] == w.b26 && c[27] == w.b27
    && c[28] == w.b28 && c[29] == w.b29 && c[30] == w.b30 && c[31] == w.b31
  }

  predicate Is(c: Reg, w: Word) {
    Part0(c, w) && Part1(c, w) && Part2(c, w) && Part3(c, w)
  }

  function ShiftWord(w: Word): Word {
    Word(
      w.b1, w.b2, w.b3, w.b4, w.b5, w.b6 != w.b0, w.b7, w.b8, w.b9 != w.b0, w.b10 != w.b0, w.b11, w.b12, w.b13,
      w.b14, w.b15, w.b16 != w.b0, w.b17, w.b18, w.b19, w.b20 != w.b0, w.b21 != w.b0, w.b22 != w.b0, w.b23,
      w.b24 != w.b0, w.b25 != w.b0, w.b26, w.b27 != w.b0, w.b28 != w.b0, w.b29, w.b30 != w.b0, w.b31 != w.b0,
      w.b0)
  }

  function XorWord(w: Word, v: Word): Word {
    Word(
      w.b0 != v.b0, w.b1 != v.b1, w.b2 != v.b2, w.b3 != v.b3, w.b4 != v.b4, w.b5 != v.b5, w.b6 != v.b6, w.b7 !=
      v.b7, w.b8 != v.b8, w.b9 != v.b9, w.b10 != v.b10, w.b11 != v.b11, w.b12 != v.b12, w.b13 != v.b13, w.b14 !=
      v.b14, w.b15 != v.b15, w.b16 != v.b16, w.b17 != v.b17, w.b18 != v.b18, w.b19 != v.b19, w.b20 != v.b20,
      w.b21 != v.b21, w.b22 != v.b22, w.b23 != v.b23, w.b24 != v.b24, w.b25 != v.b25, w.b26 != v.b26, w.b27 !=
      v.b27, w.b28 != v.b28, w.b29 != v.b29, w.b30 != v.b30, w.b31 != v.b31)
  }

  lemma PolyIs()
    ensures Is(POLY,
      Word(false, false, false, false, false, true, false, false, true, true, false, false, false, false, false,
      true, false, false, false, true, true, true, false, true, true, false, true, true, false, true, true,
      true))
  {
    hide NatBits;
    Bits32(0xEDB8_8320, 0x20, 0x83, 0xB8, 0xED);
    PolyBytes();
  }

  lemma ShiftPart0(c: Reg, w: Word)
    requires Is(c, w)
    ensures Part0(Shift(c), ShiftWord(w))
  {
    hide NatBits, Shift, POLY;
    PolyPart0();
    ShiftAt(c, 0);
    ShiftAt(c, 1);
    ShiftAt(c, 2);
    ShiftAt(c, 3);
    ShiftAt(c, 4);
    ShiftAt(c, 5);
    ShiftAt(c, 6);
    ShiftAt(c, 7);
  }

  lemma ShiftPart1(c: Reg, w: Word)
    requires Is(c, w)
    ensures Part1(Shift(c), ShiftWord(w))
  {
    hide NatBits, Shift, POLY;
    PolyPart1();
    ShiftAt(c, 8);
    ShiftAt(c, 9);
    ShiftAt(c, 10);
    ShiftAt(c, 11);
    ShiftAt(c, 12);
    ShiftAt(c, 13);
    ShiftAt(c, 14);
    ShiftAt(c, 15);
  }

  lemma ShiftPart2(c: Reg, w: Word)
    requires Is(c, w)
    ensures Part2(Shift(c), ShiftWord(w))
  {
    hide NatBits, Shift, POLY;
    PolyPart2();
    ShiftAt(c, 16);
    ShiftAt(c, 17);
    ShiftAt(c, 18);
    ShiftAt(c, 19);
    ShiftAt(c, 20);
    ShiftAt(c, 21);
    ShiftAt(c, 22);
    ShiftAt(c, 23);
  }

  lemma ShiftPart3(c: Reg, w: Word)
    requires Is(c, w)
    ensures Part3(Shift(c), ShiftWord(w))
  {
    hide NatBits, Shift, POLY;
    PolyPart3();
    ShiftAt(c, 24);
    ShiftAt(c, 25);
    ShiftAt(c, 26);
    ShiftAt(c, 27);
    ShiftAt(c, 28);
    ShiftAt(c, 29);
    ShiftAt(c, 30);
    ShiftAt(c, 31);
  }

  lemma PolyPart0()
    ensures |POLY| == 32
    ensures !POLY[0] && !POLY[1] && !POLY[2] && !POLY[3] && !POLY[4] && POLY[5] && !POLY[6] && !POLY[7]
  {
    hide NatBits;
    PolyIs();
  }

  lemma PolyPart1()
    ensures |POLY| == 32
    ensures POLY[8] && POLY[9] && !POLY[10] && !POLY[11] && !POLY[12] && !POLY[13] && !POLY[14] && POLY[15]
  {
    hide NatBits;
    PolyIs();
  }

  lemma PolyPart2()
    ensures |POLY| == 32
    ensures !POLY[16] && !POLY[17] && !POLY[18] && POLY[19] && POLY[20] && POLY[21] && !POLY[22] && POLY[23]
  {
    hide NatBits;
    PolyIs();
  }

  lemma PolyPart3()
    ensures |POLY| == 32
    ensures POLY[24] && !POLY[25] && POLY[26] && POLY[27] && !POLY[28] && POLY[29] && POLY[30] && POLY[31]
  {
    hide NatBits;
    PolyIs();
  }

  lemma ShiftIs(c: Reg, w: Word)
    requires Is(c, w)
    ensures Is(Shift(c), ShiftWord(w))
  {
    hide Part0, Part1, Part2, Part3, ShiftWord, Shift;
    ShiftPart0(c, w);
    ShiftPart1(c, w);
    ShiftPart2(c, w);
    ShiftPart3(c, w);
  }

  lemma XorPart0(c: Reg, w: Word, d: Reg, v: Word)
    requires Part0(c, w) && Part0(d, v)
    ensures Part0(Xor(c, d), XorWord(w, v))
  {
    hide Xor;
    XorAt(c, d, 0);
    XorAt(c, d, 1);
    XorAt(c, d, 2);
    XorAt(c, d, 3);
    XorAt(c, d, 4);
    XorAt(c, d, 5);
    XorAt(c, d, 6);
    XorAt(c, d, 7);
  }

  lemma XorPart1(c: Reg, w: Word, d: Reg, v: Word)
    requires Part1(c, w) && Part1(d, v)
    ensures Part1(Xor(c, d), XorWord(w, v))
  {
    hide Xor;
    XorAt(c, d, 8);
    XorAt(c, d, 9);
    XorAt(c, d, 10);
    XorAt(c, d, 11);
    XorAt(c, d, 12);
    XorAt(c, d, 13);
    XorAt(c, d, 14);
    XorAt(c, d, 15);
  }

  lemma XorPart2(c: Reg, w: Word, d: Reg, v: Word)
    requires Part2(c, w) && Part2(d, v)
    ensures Part2(Xor(c, d), XorWord(w, v))
  {
    hide Xor;
    XorAt(c, d, 16);
    XorAt(c, d, 17);
    XorAt(c, d, 18);
    XorAt(c, d, 19);
    XorAt(c, d, 20);
    XorAt(c, d, 21);
    XorAt(c, d, 22);
    XorAt(c, d, 23);
  }

  lemma XorPart3(c: Reg, w: Word, d: Reg, v: Word)
    requires Part3(c, w) && Part3(d, v)
    ensures Part3(Xor(c, d), XorWord(w, v))
  {
    hide Xor;
    XorAt(c, d, 24);
    XorAt(c, d, 25);
    XorAt(c, d, 26);
    XorAt(c, d, 27);
    XorAt(c, d, 28);
    XorAt(c, d, 29);
    XorAt(c, d, 30);
    XorAt(c, d, 31);
  }

  lemma XorIs(c: Reg, w: Word, d: Reg, v: Word)
    requires Is(c, w) && Is(d, v)
    ensures Is(Xor(c, d), XorWord(w, v))
  {
    hide Part0, Part1, Part2, Part3, XorWord, Xor;
    XorPart0(c, w, d, v);
    XorPart1(c, w, d, v);
    XorPart2(c, w, d, v);
    XorPart3(c, w, d, v);
  }

  lemma XorAt(c: Reg, d: Reg, i: nat)
    requires i < 32
    ensures Xor(c, d)[i] == (c[i] != d[i])
  {
  }

  function FourShifts(w: Word): Word {
    ShiftWord(ShiftWord(ShiftWord(ShiftWord(w))))
  }

  function EightShifts(w: Word): Word {
    FourShifts(FourShifts(w))
  }

  lemma EightShiftsIs(c: Reg, w: Word)
    requires Is(c, w)
    ensures Is(Shifts(c, 8), EightShifts(w))
  {
    hide Is, ShiftWord, Shift;
    var c1, w1 := Shift(c), ShiftWord(w);
    ShiftIs(c, w);
    var c2, w2 := Shift(c1), ShiftWord(w1);
    ShiftIs(c1, w1);
    var c3, w3 := Shift(c2), ShiftWord(w2);
    ShiftIs(c2, w2);
    var c4, w4 := Shift(c3), ShiftWord(w3);
    ShiftIs(c3, w3);
    var c5, w5 := Shift(c4), ShiftWord(w4);
    ShiftIs(c4, w4);
    var c6, w6 := Shift(c5), ShiftWord(w5);
    ShiftIs(c5, w5);
    var c7, w7 := Shift(c6), ShiftWord(w6);
    ShiftIs(c6, w6);
    ShiftIs(c7, w7);
  }

  /** The decimal digit `d` as an ASCII byte, in a word. */
  function DigitWord(d: nat): Word {
    Word(
      d % 2 == 1, d / 2 % 2 == 1, d / 4 % 2 == 1, d / 8 % 2 == 1, true, true, false, false,
      false, false, false, false, false, false, false, false, false, false, false, false,
      false, false, false, false, false, false, false, false, false, false, false, false)
  }

  lemma DigitIs(d: nat)
    requires d < 10
    ensures Is(Low(BitsOf((0x30 + d) as byte)), DigitWord(d))
  {
    hide NatBits;
    ByteBits(0x30 + d);
    assert (0x30 + d) % 2 == d % 2 && (0x30 + d) / 2 % 2 == d / 2 % 2;
    assert (0x30 + d) / 4 % 2 == d / 4 % 2 && (0x30 + d) / 8 % 2 == d / 8 % 2;
    assert (0x30 + d) / 16 == 3 && (0x30 + d) / 32 == 1 && (0x30 + d) / 64 == 0 && (0x30 + d) / 128 == 0;
  }

  /** The register after the digit `d`. */
  function AfterDigit(w: Word, d: nat): Word {
    EightShifts(XorWord(w, DigitWord(d)))
  }

  lemma AfterDigitIs(c: Reg, w: Word, d: nat)
    requires Is(c, w) && d < 10
    ensures Is(Absorb(c, BitsOf((0x30 + d) as byte)), AfterDigit(w, d))
  {
    hide Is, EightShifts, XorWord, DigitWord, BitsOf, Shifts;
    var b := (0x30 + d) as byte;
    AbsorbWord(c, BitsOf(b));
    DigitIs(d);
    XorIs(c, w, Low(BitsOf(b)), DigitWord(d));
    EightShiftsIs(Xor(c, Low(BitsOf(b))), XorWord(w, DigitWord(d)));
  }

  /** The digits `d`, `d` + 1, ... up to 9 in ASCII. */
  function DigitsFrom(d: nat): (s: seq<byte>)
    decreases 10 - d
  {
    if d >= 10 then [] else [(0x30 + d) as byte] + DigitsFrom(d + 1)
  }

  function AfterDigitsFrom(w: Word, d: nat): Word
    decreases 10 - d
  {
    if d >= 10 then w else AfterDigitsFrom(AfterDigit(w, d), d + 1)
  }

  lemma {:induction false} DigitsAre(c: Reg, w: Word, d: nat)
    requires Is(c, w)
    ensures Is(Absorb(c, Bits(DigitsFrom(d))), AfterDigitsFrom(w, d))
    decreases 10 - d
  {
    hide Is, AfterDigit, BitsOf;
    if d < 10 {
      var b := (0x30 + d) as byte;
      assert DigitsFrom(d)[1..] == DigitsFrom(d + 1);
      AbsorbConcat(c, BitsOf(b), Bits(DigitsFrom(d + 1)));
      AfterDigitIs(c, w, d);
      DigitsAre(Absorb(c, BitsOf(b)), AfterDigit(w, d), d + 1);
    }
  }

  /** The register before the first digit, and after each. */
  const AFTER_0 :=
    Word(true, true, true, true, true, true, true, true, true, true, true, true, true, true, true, true, true,
    true, true, true, true, true, true, true, true, true, true, true, true, true, true, true)
  const AFTER_1 :=
    Word(false, false, false, true, false, false, true, false, false, false, false, false, true, false, false,
    false, true, true, false, false, false, true, false, false, false, false, true, true, true, true, true,
    false)
  const AFTER_2 :=
    Word(false, true, false, false, true, true, false, false, true, true, false, true, true, true, false, true,
    false, false, true, true, false, true, false, true, false, false, false, false, true, true, false, true)
  const AFTER_3 :=
    Word(true, false, true, true, false, true, false, false, false, false, true, true, true, false, false, true,
    true, true, true, false, true, true, false, true, true, true, true, false, true, true, true, false)
  const AFTER_4 :=
    Word(false, false, true, true, true, false, true, false, true, true, true, true, true, false, false, false,
    false, false, true, true, true, false, false, false, false, false, true, false, false, true, true, false)
  const AFTER_5 :=
    Word(true, true, false, false, false, true, true, true, true, false, true, false, false, false, true, true,
    false, true, false, true, false, false, false, false, false, false, true, false, true, true, false, false)
  const AFTER_6 :=
    Word(false, true, true, true, true, false, false, true, false, false, true, true, false, true, false, false,
    true, false, true, true, false, false, false, true, false, true, true, false, true, true, true, true)
  const AFTER_7 :=
    Word(false, false, false, false, false, true, true, false, false, true, true, false, true, false, false,
    true, false, false, true, true, true, true, true, true, true, true, true, true, false, true, false, true)
  const AFTER_8 :=
    Word(false, false, false, false, true, false, true, false, true, false, true, false, false, true, false,
    false, true, true, true, true, true, false, false, false, true, false, true, false, false, true, true,
    false)
  const AFTER_9 :=
    Word(true, false, false, true, true, false, true, true, false, true, true, false, false, false, true, true,
    true, true, false, true, false, false, false, false, false, false, true, false, true, true, false, false)

  /** The register with each digit added to it. */
  const MIXED_1 :=
    Word(false, true, true, true, false, false, true, true, true, true, true, true, true, true, true, true,
    true, true, true, true, true, true, true, true, true, true, true, true, true, true, true, true)
  const MIXED_2 :=
    Word(false, true, false, true, true, true, true, false, false, false, false, false, true, false, false,
    false, true, true, false, false, false, true, false, false, false, false, true, true, true, true, true,
    false)
  const MIXED_3 :=
    Word(true, false, false, false, false, false, false, false, true, true, false, true, true, true, false,
    true, false, false, true, true, false, true, false, true, false, false, false, false, true, true, false,
    true)
  const MIXED_4 :=
    Word(true, false, false, true, true, false, false, false, false, false, true, true, true, false, false,
    true, true, true, true, false, true, true, false, true, true, true, true, false, true, true, true, false)
  const MIXED_5 :=
    Word(true, false, false, true, false, true, true, false, true, true, true, true, true, false, false, false,
    false, false, true, true, true, false, false, false, false, false, true, false, false, true, true, false)
  const MIXED_6 :=
    Word(true, false, true, false, true, false, true, true, true, false, true, false, false, false, true, true,
    false, true, false, true, false, false, false, false, false, false, true, false, true, true, false, false)
  const MIXED_7 :=
    Word(true, false, false, true, false, true, false, true, false, false, true, true, false, true, false,
    false, true, false, true, true, false, false, false, true, false, true, true, false, true, true, true, true)
  const MIXED_8 :=
    Word(false, false, false, true, true, false, true, false, false, true, true, false, true, false, false,
    true, false, false, true, true, true, true, true, true, true, true, true, true, false, true, false, true)
  const MIXED_9 :=
    Word(true, false, false, true, false, true, true, false, true, false, true, false, false, true, false,
    false, true, true, true, true, true, false, false, false, true, false, true, false, false, true, true,
    false)

  /** And half-way through each. */
  const HALF_1 :=
    Word(false, false, true, false, false, false, false, true, true, false, true, true, true, false, false,
    false, true, false, true, false, true, true, true, true, true, true, true, true, false, true, false, true)
  const HALF_2 :=
    Word(true, true, true, true, false, true, true, true, false, true, false, false, true, false, false, true,
    false, false, true, false, true, false, false, false, true, false, false, false, true, false, true, true)
  const HALF_3 :=
    Word(false, false, true, false, true, false, true, true, true, true, false, true, true, false, true, true,
    true, false, true, true, true, true, false, true, false, true, true, false, true, false, false, false)
  const HALF_4 :=
    Word(true, false, true, false, false, false, false, true, false, true, false, true, false, true, true, true,
    false, false, true, false, true, true, true, false, true, true, true, false, true, true, true, true)
  const HALF_5 :=
    Word(false, true, false, false, true, true, false, true, false, true, false, false, true, false, true,
    false, false, true, true, true, false, false, true, false, false, true, true, false, true, true, true, true)
  const HALF_6 :=
    Word(true, false, false, true, false, true, false, true, true, false, true, true, true, true, true, true,
    true, true, false, true, false, true, false, false, false, false, false, true, false, true, true, false)
  const HALF_7 :=
    Word(false, true, true, true, false, false, false, true, true, false, false, false, false, false, true,
    false, true, true, true, false, false, true, true, false, true, true, true, true, true, true, true, true)
  const HALF_8 :=
    Word(true, false, true, false, false, false, true, false, false, true, false, true, false, false, true,
    false, true, true, true, false, false, false, true, false, true, true, true, false, false, true, true, true)
  const HALF_9 :=
    Word(false, true, false, false, true, false, false, false, true, false, false, false, false, true, true,
    false, false, true, true, true, true, false, true, false, false, true, true, false, true, true, true, true)

  lemma First1()
    ensures XorWord(AFTER_0, DigitWord(1)) == MIXED_1 && FourShifts(MIXED_1) == HALF_1
  {
    Mixed1();
    hide XorWord, DigitWord;
  }

  lemma Mixed1()
    ensures XorWord(AFTER_0, DigitWord(1)) == MIXED_1
  {
    hide FourShifts;
  }

  lemma Second1()
    ensures FourShifts(HALF_1) == AFTER_1
  {
  }

  lemma First2()
    ensures XorWord(AFTER_1, DigitWord(2)) == MIXED_2 && FourShifts(MIXED_2) == HALF_2
  {
    Mixed2();
    hide XorWord, DigitWord;
  }

  lemma Mixed2()
    ensures XorWord(AFTER_1, DigitWord(2)) == MIXED_2
  {
    hide FourShifts;
  }

  lemma Second2()
    ensures FourShifts(HALF_2) == AFTER_2
  {
  }

  lemma First3()
    ensures XorWord(AFTER_2, DigitWord(3)) == MIXED_3 && FourShifts(MIXED_3) == HALF_3
  {
    Mixed3();
    hide XorWord, DigitWord;
  }

  lemma Mixed3()
    ensures XorWord(AFTER_2, DigitWord(3)) == MIXED_3
  {
    hide FourShifts;
  }

  lemma Second3()
    ensures FourShifts(HALF_3) == AFTER_3
  {
  }

  lemma First4()
    ensures XorWord(AFTER_3, DigitWord(4)) == MIXED_4 && FourShifts(MIXED_4) == HALF_4
  {
    Mixed4();
    hide XorWord, DigitWord;
  }

  lemma Mixed4()
    ensures XorWord(AFTER_3, DigitWord(4)) == MIXED_4
  {
    hide FourShifts;
  }

  lemma Second4()
    ensures FourShifts(HALF_4) == AFTER_4
  {
  }

  lemma First5()
    ensures XorWord(AFTER_4, DigitWord(5)) == MIXED_5 && FourShifts(MIXED_5) == HALF_5
  {
    Mixed5();
    hide XorWord, DigitWord;
  }

  lemma Mixed5()
    ensures XorWord(AFTER_4, DigitWord(5)) == MIXED_5
  {
    hide FourShifts;
  }

  lemma Second5()
    ensures FourShifts(HALF_5) == AFTER_5
  {
  }

  lemma First6()
    ensures XorWord(AFTER_5, DigitWord(6)) == MIXED_6 && FourShifts(MIXED_6) == HALF_6
  {
    Mixed6();
    hide XorWord, DigitWord;
  }

  lemma Mixed6()
    ensures XorWord(AFTER_5, DigitWord(6)) == MIXED_6
  {
    hide FourShifts;
  }

  lemma Second6()
    ensures FourShifts(HALF_6) == AFTER_6
  {
  }

  lemma First7()
    ensures XorWord(AFTER_6, DigitWord(7)) == MIXED_7 && FourShifts(MIXED_7) == HALF_7
  {
    Mixed7();
    hide XorWord, DigitWord;
  }

  lemma Mixed7()
    ensures XorWord(AFTER_6, DigitWord(7)) == MIXED_7
  {
    hide FourShifts;
  }

  lemma Second7()
    ensures FourShifts(HALF_7) == AFTER_7
  {
  }

  lemma First8()
    ensures XorWord(AFTER_7, DigitWord(8)) == MIXED_8 && FourShifts(MIXED_8) == HALF_8
  {
    Mixed8();
    hide XorWord, DigitWord;
  }

  lemma Mixed8()
    ensures XorWord(AFTER_7, DigitWord(8)) == MIXED_8
  {
    hide FourShifts;
  }

  lemma Second8()
    ensures FourShifts(HALF_8) == AFTER_8
  {
  }

  lemma First9()
    ensures XorWord(AFTER_8, DigitWord(9)) == MIXED_9 && FourShifts(MIXED_9) == HALF_9
  {
    Mixed9();
    hide XorWord, DigitWord;
  }

  lemma Mixed9()
    ensures XorWord(AFTER_8, DigitWord(9)) == MIXED_9
  {
    hide FourShifts;
  }

  lemma Second9()
    ensures FourShifts(HALF_9) == AFTER_9
  {
  }

  lemma Halves(w: Word, d: nat, half: Word, after: Word)
    requires FourShifts(XorWord(w, DigitWord(d))) == half && FourShifts(half) == after
    ensures AfterDigit(w, d) == after
  {
  }

  lemma AllDigits()
    ensures AfterDigitsFrom(AFTER_0, 1) == AFTER_9
  {
    hide AfterDigit, FourShifts, XorWord, DigitWord;
    hide AFTER_0, AFTER_1, AFTER_2, AFTER_3, AFTER_4, AFTER_5, AFTER_6, AFTER_7, AFTER_8, AFTER_9;
    hide HALF_1, HALF_2, HALF_3, HALF_4, HALF_5, HALF_6, HALF_7, HALF_8, HALF_9;
    First1();
    Second1();
    Halves(AFTER_0, 1, HALF_1, AFTER_1);
    First2();
    Second2();
    Halves(AFTER_1, 2, HALF_2, AFTER_2);
    First3();
    Second3();
    Halves(AFTER_2, 3, HALF_3, AFTER_3);
    First4();
    Second4();
    Halves(AFTER_3, 4, HALF_4, AFTER_4);
    First5();
    Second5();
    Halves(AFTER_4, 5, HALF_5, AFTER_5);
    First6();
    Second6();
    Halves(AFTER_5, 6, HALF_6, AFTER_6);
    First7();
    Second7();
    Halves(AFTER_6, 7, HALF_7, AFTER_7);
    First8();
    Second8();
    Halves(AFTER_7, 8, HALF_8, AFTER_8);
    First9();
    Second9();
    Halves(AFTER_8, 9, HALF_9, AFTER_9);
    assert AfterDigitsFrom(AFTER_9, 10) == AFTER_9;
    assert AfterDigitsFrom(AFTER_6, 7) == AFTER_9;
    assert AfterDigitsFrom(AFTER_3, 4) == AFTER_9;
  }

  // ---------------------------------------------------------------- the check value

  lemma PartSame(c: Reg, d: Reg, k: nat)
    requires k <= 24 && c[k] == d[k] && c[k + 1] == d[k + 1] && c[k + 2] == d[k + 2] && c[k + 3] == d[k + 3]
    requires c[k + 4] == d[k + 4] && c[k + 5] == d[k + 5] && c[k + 6] == d[k + 6] && c[k + 7] == d[k + 7]
    ensures c[k..k + 8] == d[k..k + 8]
  {
  }

  /** Registers with the same flags are the same. */
  lemma IsSame(c: Reg, d: Reg, w: Word)
    requires Is(c, w) && Is(d, w)
    ensures c == d
  {
    PartSame(c, d, 0);
    PartSame(c, d, 8);
    PartSame(c, d, 16);
    PartSame(c, d, 24);
    Joined(c);
    Joined(d);
  }

  lemma Joined(c: Reg)
    ensures c == c[0..8] + c[8..16] + c[16..24] + c[24..32]
  {
  }

  /** The check value. */
  const CHECK :=
    Word(false, true, true, false, false, true, false, false, true, false, false, true, true, true, false,
    false, false, false, true, false, true, true, true, true, true, true, false, true, false, false, true, true)

  lemma CheckWord()
    ensures XorWord(AFTER_9, AFTER_0) == CHECK
  {
  }

  lemma CheckIs()
    ensures Is(NatBits(0xCBF4_3926, 32), CHECK)
  {
    hide NatBits;
    Bits32(0xCBF4_3926, 0x26, 0x39, 0xF4, 0xCB);
    ByteBits(0x26);
    ByteBits(0x39);
    ByteBits(0xF4);
    ByteBits(0xCB);
  }

  lemma OnesIs()
    ensures Is(ONES, AFTER_0)
  {
    hide NatBits;
    OnesAre();
  }

  const DIGITS: seq<byte> := [0x31, 0x32, 0x33, 0x34, 0x35, 0x36, 0x37, 0x38, 0x39]

  lemma DigitsList()
    ensures DigitsFrom(1) == DIGITS
  {
    assert DigitsFrom(10) == [];
    assert DigitsFrom(9) == [0x39];
    assert DigitsFrom(8) == [0x38, 0x39];
    assert DigitsFrom(7) == [0x37, 0x38, 0x39];
    assert DigitsFrom(6) == [0x36, 0x37, 0x38, 0x39];
    assert DigitsFrom(5) == [0x35, 0x36, 0x37, 0x38, 0x39];
    assert DigitsFrom(4) == [0x34, 0x35, 0x36, 0x37, 0x38, 0x39];
    assert DigitsFrom(3) == [0x33, 0x34, 0x35, 0x36, 0x37, 0x38, 0x39];
    assert DigitsFrom(2) == [0x32, 0x33, 0x34, 0x35, 0x36, 0x37, 0x38, 0x39];
  }

  /** The check value of CRC-32: the checksum of the ASCII digits 1 to 9. */
  lemma CheckValue()
    ensures Crc32(DIGITS) == NatBits(0xCBF4_3926, 32) && BitsNat(Crc32(DIGITS)) == 0xCBF4_3926
  {
    hide NatBits, Is, AfterDigitsFrom, XorWord, Absorb, Bits, AFTER_0, AFTER_9, CHECK, DIGITS;
    DigitsList();
    OnesIs();
    DigitsAre(ONES, AFTER_0, 1);
    AllDigits();
    XorIs(Absorb(ONES, Bits(DIGITS)), AFTER_9, ONES, AFTER_0);
    CheckWord();
    CheckIs();
    IsSame(Crc32(DIGITS), NatBits(0xCBF4_3926, 32), CHECK);
    WordSize();
    BitsNatInverts(0xCBF4_3926, 32);
  }

  lemma WordSize()
    ensures Pow2(32) == 0x1_0000_0000
  {
    assert Pow2(8) == 0x100;
    assert Pow2(16) == 0x1_0000;
    assert Pow2(24) == 0x100_0000;
  }

  // ---------------------------------------------------------------- frames on the wire

  /** The number that bytes denote, least significant first. */
  function LittleEndian(s: seq<byte>): nat {
    if s == [] then 0 else s[0] as nat + 256 * LittleEndian(s[1..])
  }

  /** Lengths and connection ids travel least significant byte first. */
  lemma PacksLittleEndian(n: nat, lo: byte, hi: byte)
    requires n < 0x1_0000
    ensures LittleEndian(Pack16(n)) == n && Unpack16(lo, hi) == LittleEndian([lo, hi])
  {
    TwoBytes((n % 256) as byte, (n / 256) as byte);
    TwoBytes(lo, hi);
  }

  lemma TwoBytes(lo: byte, hi: byte)
    ensures LittleEndian([lo, hi]) == lo as nat + 256 * (hi as nat)
  {
    assert [lo, hi][1..] == [hi] && [hi][1..] == [];
    assert LittleEndian([hi]) == hi as nat;
  }

  lemma ByteOfNat(n: nat)
    requires n < 256
    ensures ByteOf(NatBits(n, 8)) == n as byte
  {
    assert Pow2(8) == 256;
    BitsNatInverts(n, 8);
  }

  /** A register travels as four bytes, the low one first. */
  lemma RegisterBytes(n: nat, a: nat, b: nat, c: nat, d: nat)
    requires a < 256 && b < 256 && c < 256 && d < 256 && n == a + 256 * (b + 256 * (c + 256 * d))
    ensures RegBytes(NatBits(n, 32)) == [a as byte, b as byte, c as byte, d as byte]
  {
    hide NatBits, ByteOf;
    Bits32(n, a, b, c, d);
    var r := NatBits(n, 32);
    assert r[0..8] == NatBits(a, 8) && r[8..16] == NatBits(b, 8);
    assert r[16..24] == NatBits(c, 8) && r[24..32] == NatBits(d, 8);
    ByteOfNat(a);
    ByteOfNat(b);
    ByteOfNat(c);
    ByteOfNat(d);
  }

  /** The opening frame of a session. */
  lemma HelloOnTheWire()
    ensures Build(HELLO) == [0xAA, 0x55, 0x05, 0, 0, 0, 0, 0, 0, 0]
  {
    hide NatBits, RegBytes;
    assert Crc32([]) == Zeros(32);
    NoHighBits(32);
    RegisterBytes(0, 0, 0, 0, 0);
    var none: seq<byte> := [];
    assert HELLO.payload == none && Checksum(none) == [0, 0, 0, 0];
    assert Pack16(|HELLO.payload|) == [0, 0];
    assert Build(HELLO) == [0xAA, 0x55, 0x05, 0] + [0, 0] + none + [0, 0, 0, 0];
  }

  lemma {:induction false} NoHighBits(k: nat)
    ensures NatBits(0, k) == Zeros(k)
    decreases k
  {
    if k > 0 {
      NoHighBits(k - 1);
    }
  }

  /** A data frame of channel 1 that carries the ASCII digits 1 to 9. */
  lemma DigitsOnTheWire()
    ensures Build(Frame(F_DATA, 1, DIGITS)) ==
            [0xAA, 0x55, 0x01, 0x01, 9, 0] + DIGITS + [0x26, 0x39, 0xF4, 0xCB]
  {
    hide NatBits, RegBytes, Crc32;
    CheckValue();
    RegisterBytes(0xCBF4_3926, 0x26, 0x39, 0xF4, 0xCB);
    assert Pack16(9) == [9, 0];
  }
}
