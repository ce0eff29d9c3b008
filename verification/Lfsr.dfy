/**
 The 16-bit shift register that packet ids are drawn from. The main result, `FullPeriod`, is that
 every nonzero state lies on one cycle of exactly 65535 states, so the search for a free id in
 `__mqtt_next_pid` meets pairwise distinct candidates.
 */
module Lfsr {

  const TAPS: bv16 := 0xB400
  const SEED: bv16 := 163
  const PERIOD: nat := 65535

  /** A register state. */
  datatype Reg = Reg(bits: bv16)

  const UNIT: Reg := Reg(0x8000)
  const ZERO: Reg := Reg(0)

  /** One shift; the product with the low bit stands for the source's conditional exclusive or. */
  function Step(x: Reg): Reg {
    Reg((x.bits >> 1) ^ ((x.bits & 1) * TAPS))
  }

  /** The branch that the source takes on the low bit. */
  lemma StepBranches(x: Reg)
    ensures Step(x) == Reg(if x.bits & 1 == 1 then (x.bits >> 1) ^ TAPS else x.bits >> 1)
    ensures TAPS == 0xB400
  {
    var b := x.bits;
    assert b & 1 == 0 || b & 1 == 1;
    if b & 1 == 0 {
      assert (b & 1) * TAPS == 0;
      assert (b >> 1) ^ 0 == b >> 1;
    } else {
      assert (b & 1) * TAPS == TAPS;
    }
  }

  /** The register after n shifts. */
  function Iter(n: nat, x: Reg): Reg {
    if n == 0 then x else Step(Iter(n - 1, x))
  }

  function Add(x: Reg, y: Reg): Reg {
    Reg(x.bits ^ y.bits)
  }

  /** The low bit of c times x. */
  function Bit(c: bv16, x: Reg): Reg {
    Reg((c & 1) * x.bits)
  }

  /** Distinct states stay distinct, and only zero shifts to zero. */
  lemma StepInjective(x: Reg, y: Reg)
    ensures Step(x) == Step(y) ==> x == y
    ensures Step(x) == ZERO <==> x == ZERO
  {
  }

  /** Every state is the shift of some state. */
  lemma StepSurjective(y: Reg) returns (x: Reg)
    ensures Step(x) == y
  {
    x := Reg(if y.bits & 0x8000 == 0x8000 then ((y.bits ^ TAPS) << 1) | 1 else y.bits << 1);
  }

  lemma StepAdd(x: Reg, y: Reg)
    ensures Step(Add(x, y)) == Add(Step(x), Step(y))
  {
  }

  lemma {:induction false} IterSum(m: nat, n: nat, x: Reg)
    ensures Iter(m + n, x) == Iter(m, Iter(n, x))
  {
    if m > 0 {
      IterSum(m - 1, n, x);
    }
  }

  lemma {:induction false} IterAdd(n: nat, x: Reg, y: Reg)
    ensures Iter(n, Add(x, y)) == Add(Iter(n, x), Iter(n, y))
  {
    if n > 0 {
      IterAdd(n - 1, x, y);
      StepAdd(Iter(n - 1, x), Iter(n - 1, y));
    }
  }

  lemma {:induction false} IterNonzero(n: nat, x: Reg)
    ensures Iter(n, x) == ZERO <==> x == ZERO
  {
    if n > 0 {
      IterNonzero(n - 1, x);
      StepInjective(Iter(n - 1, x), ZERO);
    }
  }

  // ---- Jumping ahead: states multiply like polynomials over GF(2) ----

  function Step4(x: Reg): Reg {
    Step(Step(Step(Step(x))))
  }

  function Sum4(a: Reg, b: Reg, c: Reg, d: Reg): Reg {
    Add(Add(Add(a, b), c), d)
  }

  /** The sum of Step^i(x) over those of the top four bits i of a that are set. */
  function Quad(a: bv16, x: Reg): Reg {
    Sum4(Bit(a >> 15, x), Bit(a >> 14, Step(x)), Bit(a >> 13, Step(Step(x))), Bit(a >> 12, Step(Step(Step(x)))))
  }

  /** The sum of Step^i(x) over all bits i of a, counted from the top, that are set. */
  function Times(a: bv16, x: Reg): Reg {
    Sum4(Quad(a, x), Quad(a << 4, Step4(x)), Quad(a << 8, Step4(Step4(x))), Quad(a << 12, Step4(Step4(Step4(x)))))
  }

  lemma IterStep(n: nat, x: Reg)
    ensures Iter(n, Step(x)) == Step(Iter(n, x))
  {
    IterSum(n, 1, x);
    assert Iter(1, x) == Step(x);
  }

  lemma IterStep4(n: nat, x: Reg)
    ensures Iter(n, Step4(x)) == Step4(Iter(n, x))
  {
    IterStep(n, x);
    IterStep(n, Step(x));
    IterStep(n, Step(Step(x)));
    IterStep(n, Step(Step(Step(x))));
  }

  lemma BitCases(c: bv16, x: Reg)
    ensures Bit(c, x) == if c & 1 == 0 then ZERO else x
  {
  }

  lemma IterBit(n: nat, c: bv16, x: Reg)
    ensures Iter(n, Bit(c, x)) == Bit(c, Iter(n, x))
  {
    IterNonzero(n, ZERO);
    BitCases(c, x);
    BitCases(c, Iter(n, x));
  }

  lemma IterSum4(n: nat, a: Reg, b: Reg, c: Reg, d: Reg)
    ensures Iter(n, Sum4(a, b, c, d)) == Sum4(Iter(n, a), Iter(n, b), Iter(n, c), Iter(n, d))
  {
    IterAdd(n, Add(Add(a, b), c), d);
    IterAdd(n, Add(a, b), c);
    IterAdd(n, a, b);
  }

  lemma IterQuad(n: nat, a: bv16, x: Reg)
    ensures Iter(n, Quad(a, x)) == Quad(a, Iter(n, x))
  {
    var x1 := Step(x);
    var x2 := Step(x1);
    var x3 := Step(x2);
    IterSum4(n, Bit(a >> 15, x), Bit(a >> 14, x1), Bit(a >> 13, x2), Bit(a >> 12, x3));
    IterBit(n, a >> 15, x);
    IterBit(n, a >> 14, x1);
    IterBit(n, a >> 13, x2);
    IterBit(n, a >> 12, x3);
    IterStep(n, x);
    IterStep(n, x1);
    IterStep(n, x2);
  }

  lemma IterTimes(n: nat, a: bv16, x: Reg)
    ensures Iter(n, Times(a, x)) == Times(a, Iter(n, x))
  {
    var x4 := Step4(x);
    var x8 := Step4(x4);
    var x12 := Step4(x8);
    IterSum4(n, Quad(a, x), Quad(a << 4, x4), Quad(a << 8, x8), Quad(a << 12, x12));
    IterQuad(n, a, x);
    IterQuad(n, a << 4, x4);
    IterQuad(n, a << 8, x8);
    IterQuad(n, a << 12, x12);
    IterStep4(n, x);
    IterStep4(n, x4);
    IterStep4(n, x8);
  }

  lemma TimesUnit(a: bv16)
    ensures Times(a, UNIT) == Reg(a)
  {
    assert Step(Reg(0x8000)) == Reg(0x4000) && Step(Reg(0x4000)) == Reg(0x2000) && Step(Reg(0x2000)) == Reg(0x1000);
    assert Step(Reg(0x1000)) == Reg(0x0800) && Step(Reg(0x0800)) == Reg(0x0400) && Step(Reg(0x0400)) == Reg(0x0200);
    assert Step(Reg(0x0200)) == Reg(0x0100) && Step(Reg(0x0100)) == Reg(0x0080) && Step(Reg(0x0080)) == Reg(0x0040);
    assert Step(Reg(0x0040)) == Reg(0x0020) && Step(Reg(0x0020)) == Reg(0x0010) && Step(Reg(0x0010)) == Reg(0x0008);
    assert Step(Reg(0x0008)) == Reg(0x0004) && Step(Reg(0x0004)) == Reg(0x0002) && Step(Reg(0x0002)) == Reg(0x0001);
  }

  /** n shifts of any state follow from n shifts of the unit. */
  lemma IterIsTimes(n: nat, a: bv16)
    ensures Iter(n, Reg(a)) == Times(a, Iter(n, UNIT))
  {
    TimesUnit(a);
    IterTimes(n, a, UNIT);
  }

  lemma Jump(m: nat, n: nat)
    ensures Iter(m + n, UNIT) == Times(Iter(n, UNIT).bits, Iter(m, UNIT))
  {
    IterSum(m, n, UNIT);
    IterIsTimes(m, Iter(n, UNIT).bits);
  }

  lemma Unit15()
    ensures Iter(6, UNIT) == Reg(0x0200)
    ensures Iter(1, UNIT) == Reg(0x4000)
    ensures Iter(3, UNIT) == Reg(0x1000)
    ensures Iter(15, UNIT) == Reg(0x0001)
  {
    assert Iter(1, UNIT) == Reg(0x4000);
    Jump(1, 1);
    assert Times(0x4000, Reg(0x4000)) == Reg(0x2000);
    Jump(2, 1);
    assert Times(0x4000, Reg(0x2000)) == Reg(0x1000);
    Jump(3, 3);
    assert Times(0x1000, Reg(0x1000)) == Reg(0x0200);
    Jump(6, 6);
    assert Times(0x0200, Reg(0x0200)) == Reg(0x0008);
    Jump(12, 3);
    assert Times(0x1000, Reg(0x0008)) == Reg(0x0001);
  }

  lemma Unit255()
    ensures Iter(255, UNIT) == Reg(0xA300)
    ensures Iter(240, UNIT) == Reg(0xF0E3)
    ensures Iter(15, UNIT) == Reg(0x0001)
    ensures Iter(3, UNIT) == Reg(0x1000)
    ensures Iter(1, UNIT) == Reg(0x4000)
  {
    Unit15();
    Jump(15, 15);
    assert Times(0x0001, Reg(0x0001)) == Reg(0xF882);
    Jump(30, 30);
    assert Times(0xF882, Reg(0xF882)) == Reg(0x448B);
    Jump(60, 60);
    assert Times(0x448B, Reg(0x448B)) == Reg(0x361D);
    Jump(120, 120);
    assert Times(0x361D, Reg(0x361D)) == Reg(0xF0E3);
    Jump(240, 15);
    assert Times(0x0001, Reg(0xF0E3)) == Reg(0xA300);
  }

  lemma Unit3855()
    ensures Iter(3855, UNIT) == Reg(0x2D35)
  {
    Unit255();
    Jump(240, 240);
    assert Times(0xF0E3, Reg(0xF0E3)) == Reg(0x9AC9);
    Jump(480, 480);
    assert Times(0x9AC9, Reg(0x9AC9)) == Reg(0xE3BE);
    Jump(960, 960);
    assert Times(0xE3BE, Reg(0xE3BE)) == Reg(0x4F08);
    Jump(1920, 1920);
    assert Times(0x4F08, Reg(0x4F08)) == Reg(0x201E);
    Jump(3840, 15);
    assert Times(0x0001, Reg(0x201E)) == Reg(0x2D35);
  }

  lemma Unit13107()
    ensures Iter(13107, UNIT) == Reg(0x5F61)
  {
    Unit15();
    Jump(6, 6);
    assert Times(0x0200, Reg(0x0200)) == Reg(0x0008);
    Jump(12, 12);
    assert Times(0x0008, Reg(0x0008)) == Reg(0x00B4);
    Jump(24, 24);
    assert Times(0x00B4, Reg(0x00B4)) == Reg(0xBDBD);
    Jump(48, 3);
    assert Times(0x1000, Reg(0xBDBD)) == Reg(0x8EB7);
    Jump(51, 51);
    assert Times(0x8EB7, Reg(0x8EB7)) == Reg(0x9F9C);
    Jump(102, 102);
    assert Times(0x9F9C, Reg(0x9F9C)) == Reg(0x34E3);
    Jump(204, 204);
    assert Times(0x34E3, Reg(0x34E3)) == Reg(0x3AE9);
    Jump(408, 408);
    assert Times(0x3AE9, Reg(0x3AE9)) == Reg(0x60FE);
    Jump(816, 816);
    assert Times(0x60FE, Reg(0x60FE)) == Reg(0xE202);
    Jump(1632, 1632);
    assert Times(0xE202, Reg(0xE202)) == Reg(0xF203);
    Jump(3264, 3264);
    assert Times(0xF203, Reg(0xF203)) == Reg(0x0881);
    Jump(6528, 6528);
    assert Times(0x0881, Reg(0x0881)) == Reg(0x4C02);
    Jump(13056, 51);
    assert Times(0x8EB7, Reg(0x4C02)) == Reg(0x5F61);
  }

  lemma Unit1360()
    ensures Iter(85, UNIT) == Reg(0xCF70)
    ensures Iter(1360, UNIT) == Reg(0x586F)
  {
    assert Iter(1, UNIT) == Reg(0x4000);
    Jump(1, 1);
    assert Times(0x4000, Reg(0x4000)) == Reg(0x2000);
    Jump(2, 2);
    assert Times(0x2000, Reg(0x2000)) == Reg(0x0800);
    Jump(4, 1);
    assert Times(0x4000, Reg(0x0800)) == Reg(0x0400);
    Jump(5, 5);
    assert Times(0x0400, Reg(0x0400)) == Reg(0x0020);
    Jump(10, 10);
    assert Times(0x0020, Reg(0x0020)) == Reg(0x0B40);
    Jump(20, 20);
    assert Times(0x0B40, Reg(0x0B40)) == Reg(0x2D8A);
    Jump(40, 40);
    assert Times(0x2D8A, Reg(0x2D8A)) == Reg(0xE61D);
    Jump(80, 5);
    assert Times(0x0400, Reg(0xE61D)) == Reg(0xCF70);
    Jump(85, 85);
    assert Times(0xCF70, Reg(0xCF70)) == Reg(0x843A);
    Jump(170, 170);
    assert Times(0x843A, Reg(0x843A)) == Reg(0xD30F);
    Jump(340, 340);
    assert Times(0xD30F, Reg(0xD30F)) == Reg(0x001A);
    Jump(680, 680);
    assert Times(0x001A, Reg(0x001A)) == Reg(0x586F);
  }

  lemma Unit65535()
    ensures Iter(21845, UNIT) == Reg(0x5335)
    ensures Iter(65535, UNIT) == Reg(0x8000)
    ensures Iter(43690, UNIT) == Reg(0xD335)
  {
    Unit1360();
    Jump(1360, 1360);
    assert Times(0x586F, Reg(0x586F)) == Reg(0xA6D0);
    Jump(2720, 2720);
    assert Times(0xA6D0, Reg(0xA6D0)) == Reg(0x13F8);
    Jump(5440, 5440);
    assert Times(0x13F8, Reg(0x13F8)) == Reg(0x922E);
    Jump(10880, 10880);
    assert Times(0x922E, Reg(0x922E)) == Reg(0xD3DA);
    Jump(21760, 85);
    assert Times(0xCF70, Reg(0xD3DA)) == Reg(0x5335);
    Jump(21845, 21845);
    assert Times(0x5335, Reg(0x5335)) == Reg(0xD335);
    Jump(43690, 21845);
    assert Times(0x5335, Reg(0xD335)) == Reg(0x8000);
  }

  lemma Unit17()
    ensures Iter(17, UNIT) == Reg(0x5A00)
  {
    assert Iter(1, UNIT) == Reg(0x4000);
    Jump(1, 1);
    assert Times(0x4000, Reg(0x4000)) == Reg(0x2000);
    Jump(2, 2);
    assert Times(0x2000, Reg(0x2000)) == Reg(0x0800);
    Jump(4, 4);
    assert Times(0x0800, Reg(0x0800)) == Reg(0x0080);
    Jump(8, 8);
    assert Times(0x0080, Reg(0x0080)) == Reg(0xB400);
    Jump(16, 1);
    assert Times(0x4000, Reg(0xB400)) == Reg(0x5A00);
  }

  lemma Unit272()
    ensures Iter(272, UNIT) == Reg(0x4D5C)
    ensures Iter(17, UNIT) == Reg(0x5A00)
  {
    Unit17();
    Jump(17, 17);
    assert Times(0x5A00, Reg(0x5A00)) == Reg(0x2288);
    Jump(34, 34);
    assert Times(0x2288, Reg(0x2288)) == Reg(0xBCBC);
    Jump(68, 68);
    assert Times(0xBCBC, Reg(0xBCBC)) == Reg(0x37A9);
    Jump(136, 136);
    assert Times(0x37A9, Reg(0x37A9)) == Reg(0x4D5C);
  }

  lemma Unit4369()
    ensures Iter(4369, UNIT) == Reg(0xF03C)
  {
    Unit272();
    Jump(272, 272);
    assert Times(0x4D5C, Reg(0x4D5C)) == Reg(0x0FEB);
    Jump(544, 544);
    assert Times(0x0FEB, Reg(0x0FEB)) == Reg(0x30D7);
    Jump(1088, 1088);
    assert Times(0x30D7, Reg(0x30D7)) == Reg(0x3374);
    Jump(2176, 2176);
    assert Times(0x3374, Reg(0x3374)) == Reg(0x2EB7);
    Jump(4352, 17);
    assert Times(0x5A00, Reg(0x2EB7)) == Reg(0xF03C);
  }

  lemma Unit61166()
    ensures Iter(61166, UNIT) == Reg(0xDF61)
  {
    Unit4369();
    Jump(4369, 4369);
    assert Times(0xF03C, Reg(0xF03C)) == Reg(0xA309);
    Jump(8738, 8738);
    assert Times(0xA309, Reg(0xA309)) == Reg(0x703C);
    Jump(17476, 17476);
    assert Times(0x703C, Reg(0x703C)) == Reg(0x2309);
    Jump(8738, 17476);
    assert Times(0x703C, Reg(0xA309)) == Reg(0xFC68);
    Jump(34952, 26214);
    assert Times(0xFC68, Reg(0x2309)) == Reg(0xDF61);
  }

  lemma Unit8481()
    ensures Iter(8481, UNIT) == Reg(0xAD35)
  {
    assert Iter(1, UNIT) == Reg(0x4000);
    Jump(1, 1);
    assert Times(0x4000, Reg(0x4000)) == Reg(0x2000);
    Jump(2, 2);
    assert Times(0x2000, Reg(0x2000)) == Reg(0x0800);
    Jump(4, 4);
    assert Times(0x0800, Reg(0x0800)) == Reg(0x0080);
    Jump(8, 8);
    assert Times(0x0080, Reg(0x0080)) == Reg(0xB400);
    Jump(16, 16);
    assert Times(0xB400, Reg(0xB400)) == Reg(0x8A20);
    Jump(32, 1);
    assert Times(0x4000, Reg(0x8A20)) == Reg(0x4510);
    Jump(33, 33);
    assert Times(0x4510, Reg(0x4510)) == Reg(0x22F2);
    Jump(66, 66);
    assert Times(0x22F2, Reg(0x22F2)) == Reg(0xC293);
    Jump(132, 132);
    assert Times(0xC293, Reg(0xC293)) == Reg(0xB451);
    Jump(264, 264);
    assert Times(0xB451, Reg(0xB451)) == Reg(0x5D72);
    Jump(528, 528);
    assert Times(0x5D72, Reg(0x5D72)) == Reg(0x5C39);
    Jump(1056, 1056);
    assert Times(0x5C39, Reg(0x5C39)) == Reg(0xD306);
    Jump(2112, 2112);
    assert Times(0xD306, Reg(0xD306)) == Reg(0xF82C);
    Jump(4224, 4224);
    assert Times(0xF82C, Reg(0xF82C)) == Reg(0xA159);
    Jump(8448, 33);
    assert Times(0x4510, Reg(0xA159)) == Reg(0xAD35);
  }

  lemma Unit3060()
    ensures Iter(245, UNIT) == Reg(0x1A47)
    ensures Iter(3060, UNIT) == Reg(0x9A47)
  {
    Unit255();
    Jump(3, 1);
    assert Times(0x4000, Reg(0x1000)) == Reg(0x0800);
    Jump(4, 1);
    assert Times(0x4000, Reg(0x0800)) == Reg(0x0400);
    Jump(240, 5);
    assert Times(0x0400, Reg(0xF0E3)) == Reg(0x1A47);
    Unit255();
    Jump(255, 255);
    assert Times(0xA300, Reg(0xA300)) == Reg(0x880A);
    Jump(510, 510);
    assert Times(0x880A, Reg(0x880A)) == Reg(0xDA3F);
    Jump(1020, 1020);
    assert Times(0xDA3F, Reg(0xDA3F)) == Reg(0x0908);
    Jump(2040, 1020);
    assert Times(0xDA3F, Reg(0x0908)) == Reg(0x9A47);
  }

  lemma BitAdd(c: bv16, x: Reg, y: Reg)
    ensures Bit(c, Add(x, y)) == Add(Bit(c, x), Bit(c, y))
  {
    BitCases(c, x);
    BitCases(c, y);
    BitCases(c, Add(x, y));
    assert Add(ZERO, ZERO) == ZERO;
  }

  lemma Interchange(a: Reg, b: Reg, c: Reg, d: Reg)
    ensures Add(Add(a, b), Add(c, d)) == Add(Add(a, c), Add(b, d))
  {
  }

  lemma Sum4Add(a: Reg, b: Reg, c: Reg, d: Reg, e: Reg, f: Reg, g: Reg, h: Reg)
    ensures Sum4(Add(a, e), Add(b, f), Add(c, g), Add(d, h)) == Add(Sum4(a, b, c, d), Sum4(e, f, g, h))
  {
    Interchange(a, e, b, f);
    Interchange(Add(a, b), Add(e, f), c, g);
    Interchange(Add(Add(a, b), c), Add(Add(e, f), g), d, h);
  }

  lemma QuadAdd(a: bv16, x: Reg, y: Reg)
    ensures Quad(a, Add(x, y)) == Add(Quad(a, x), Quad(a, y))
    ensures Step4(Add(x, y)) == Add(Step4(x), Step4(y))
  {
    var x1, y1 := Step(x), Step(y);
    var x2, y2 := Step(x1), Step(y1);
    var x3, y3 := Step(x2), Step(y2);
    StepAdd(x, y);
    StepAdd(x1, y1);
    StepAdd(x2, y2);
    StepAdd(x3, y3);
    BitAdd(a >> 15, x, y);
    BitAdd(a >> 14, x1, y1);
    BitAdd(a >> 13, x2, y2);
    BitAdd(a >> 12, x3, y3);
    Sum4Add(Bit(a >> 15, x), Bit(a >> 14, x1), Bit(a >> 13, x2), Bit(a >> 12, x3),
            Bit(a >> 15, y), Bit(a >> 14, y1), Bit(a >> 13, y2), Bit(a >> 12, y3));
  }

  lemma TimesAdd(a: bv16, x: Reg, y: Reg)
    ensures Times(a, Add(x, y)) == Add(Times(a, x), Times(a, y))
  {
    var x4, y4 := Step4(x), Step4(y);
    var x8, y8 := Step4(x4), Step4(y4);
    var x12, y12 := Step4(x8), Step4(y8);
    QuadAdd(a, x, y);
    QuadAdd(a << 4, x4, y4);
    QuadAdd(a << 8, x8, y8);
    QuadAdd(a << 12, x12, y12);
    Sum4Add(Quad(a, x), Quad(a << 4, x4), Quad(a << 8, x8), Quad(a << 12, x12),
            Quad(a, y), Quad(a << 4, y4), Quad(a << 8, y8), Quad(a << 12, y12));
  }

  /** If x^q + 1 is a power of x then only zero returns to itself after q shifts. */
  lemma OnlyZeroReturns(q: nat, j: nat, s: Reg)
    requires Add(Iter(q, UNIT), UNIT) == Iter(j, UNIT)
    requires Iter(q, s) == s
    ensures s == ZERO
  {
    IterIsTimes(q, s.bits);
    IterIsTimes(j, s.bits);
    TimesAdd(s.bits, Iter(q, UNIT), UNIT);
    TimesUnit(s.bits);
    assert Add(s, s) == ZERO;
    IterNonzero(j, s);
  }

  // ---- The length of every cycle ----

  lemma {:induction false} Multiple(d: nat, m: nat, s: Reg)
    requires Iter(d, s) == s
    ensures Iter(d * m, s) == s
  {
    if m > 0 {
      Multiple(d, m - 1, s);
      assert d * m == d * (m - 1) + d;
      IterSum(d * (m - 1), d, s);
    }
  }

  /** Euclid's algorithm on two shift counts that both fix s. */
  lemma {:induction false} CommonCount(a: nat, b: nat, s: Reg) returns (g: nat, m: nat, n: nat)
    requires a > 0 && b > 0 && Iter(a, s) == s && Iter(b, s) == s
    ensures 0 < g && a == g * m && b == g * n && Iter(g, s) == s
    decreases a + b
  {
    if a == b {
      g, m, n := a, 1, 1;
    } else if a < b {
      IterSum(b - a, a, s);
      g, m, n := CommonCount(a, b - a, s);
      n := m + n;
    } else {
      IterSum(a - b, b, s);
      g, m, n := CommonCount(a - b, b, s);
      m := m + n;
    }
  }

  /** An inverse of r modulo the prime p, with the quotient. */
  lemma Inverse(p: nat, r: nat) returns (e: nat, t: nat)
    requires p == 3 || p == 5 || p == 17
    requires 0 < r < p
    ensures r * e == p * t + 1
  {
    e := if p == 3 then [0, 1, 2][r]
         else if p == 5 then [0, 1, 3, 2, 4][r]
         else [0, 1, 9, 6, 13, 7, 3, 5, 15, 2, 12, 14, 10, 4, 11, 8, 16][r];
    t := (r * e - 1) / p;
  }

  lemma Cancel(p: nat, g: nat, n: nat, k: nat, e: nat, f: nat) returns (q: int)
    requires p > 0 && g * n == p * k && n * e == p * f + 1
    ensures g == p * q && q * n == k
  {
    q := k * e - g * f;
    assert g == p * q by {
      assert (g * n) * e == g * (n * e);
      assert g * (p * f + 1) == p * (g * f) + g;
      assert (p * k) * e == p * (k * e);
      assert p * (k * e - g * f) == p * (k * e) - p * (g * f);
    }
    assert n * g == p * k;
  }

  lemma Divide(n: nat, p: nat) returns (a: nat, r: nat)
    requires p > 0
    ensures n == p * a + r && r < p
  {
    a, r := n / p, n % p;
  }

  /** A small prime that divides a product divides one of its factors. */
  lemma PrimeSplits(p: nat, g: nat, n: nat, k: nat) returns (q: int)
    requires p == 3 || p == 5 || p == 17
    requires g * n == p * k
    ensures (n == p * q && g * q == k) || (g == p * q && q * n == k)
  {
    var a, r := Divide(n, p);
    if r == 0 {
      q := a;
    } else {
      var e, t := Inverse(p, r);
      q := Cancel(p, g, n, k, e, a * e + t);
    }
  }

  const QUOTIENTS: seq<nat> := [0, 257, 128, 85, 64, 51, 42, 36, 32, 28, 25, 23, 21, 19, 18, 17, 16]

  lemma Prime257(a: nat, b: nat)
    requires a * b == 257
    ensures a == 1 || b == 1
  {
    var small, big := if a <= b then a else b, if a <= b then b else a;
    assert small * small <= small * big == 257;
    assert small <= 16;
    var q := QUOTIENTS[small];
    assert small * q <= 257 < small * (q + 1);
  }

  /** A proper divisor of 65535 divides one of its four maximal proper divisors. */
  lemma ProperDivisor(g: nat, n: nat) returns (m: nat)
    requires g * n == PERIOD && n > 1
    ensures g * m in {21845, 13107, 3855, 255}
  {
    var q3 := PrimeSplits(3, g, n, 21845);
    if g * q3 == 21845 {
      return q3;
    }
    var q5 := PrimeSplits(5, q3, n, 4369);
    if q3 * q5 == 4369 {
      assert 3 * q3 * q5 == 3 * (q3 * q5);
      return q5;
    }
    var q17 := PrimeSplits(17, q5, n, 257);
    if q5 * q17 == 257 {
      assert g * q17 == 15 * (q5 * q17);
      return q17;
    }
    Prime257(q17, n);
    return 1;
  }

  /** Every nonzero state lies on a cycle of exactly 65535 states. */
  lemma FullPeriod(s: Reg, d: nat)
    requires s != ZERO
    ensures Iter(PERIOD, s) == s
    ensures 0 < d < PERIOD ==> Iter(d, s) != s
  {
    ReturnsAtPeriod(s);
    if 0 < d < PERIOD && Iter(d, s) == s {
      NoEarlierReturn(s, d);
    }
  }

  lemma ReturnsAtPeriod(s: Reg)
    ensures Iter(PERIOD, s) == s
  {
    Unit65535();
    IterIsTimes(PERIOD, s.bits);
    TimesUnit(s.bits);
  }

  lemma NoEarlierReturn(s: Reg, d: nat)
    requires 0 < d < PERIOD && Iter(d, s) == s
    ensures s == ZERO
  {
    ReturnsAtPeriod(s);
    var g, k, n := CommonCount(d, PERIOD, s);
    assert n > 1 by {
      assert k >= 1;
      assert g * k >= g;
    }
    var m := ProperDivisor(g, n);
    Multiple(g, m, s);
    if g * m == 255 {
      Unit3060();
      Multiple(255, 12, s);
      OnlyZeroReturns(3060, 245, s);
    } else if g * m == 3855 {
      Unit3855();
      Unit8481();
      OnlyZeroReturns(3855, 8481, s);
    } else if g * m == 13107 {
      Unit13107();
      Unit61166();
      OnlyZeroReturns(13107, 61166, s);
    } else {
      Unit65535();
      OnlyZeroReturns(21845, 43690, s);
    }
  }

  /** The first 65535 states reached from a nonzero state are pairwise distinct and nonzero. */
  lemma DistinctStates(s: Reg, i: nat, j: nat)
    requires s != ZERO && i < j < i + PERIOD
    ensures Iter(i, s) != Iter(j, s) && Iter(i, s) != ZERO
  {
    IterNonzero(i, s);
    IterSum(j - i, i, s);
    FullPeriod(Iter(i, s), j - i);
  }
}
