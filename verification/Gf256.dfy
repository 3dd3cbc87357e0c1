/** Bytes, and the field of 256 elements whose arithmetic Reed-Solomon codes over bytes
    use: polynomials over GF(2) modulo x^8 + x^4 + x^3 + x^2 + 1. */
module Gf256 {
  import opened Field

  datatype Byte = Byte(bits: bv8)

  const ZERO := Byte(0)
  const ONE := Byte(1)

  function Xor(a: Byte, b: Byte): Byte {
    Byte(a.bits ^ b.bits)
  }

  /** Multiplication by x, reduced. */
  function Twice(a: Byte): Byte {
    Byte((a.bits << 1) ^ ((a.bits >> 7) * 0x1d))
  }

  function Bits(b: Byte): seq<bool> {
    [b.bits & 0x01 != 0, b.bits & 0x02 != 0, b.bits & 0x04 != 0, b.bits & 0x08 != 0,
     b.bits & 0x10 != 0, b.bits & 0x20 != 0, b.bits & 0x40 != 0, b.bits & 0x80 != 0]
  }

  /** Shift and add: the sum of a * x^i over the positions i at which `bits` holds. */
  function MulBits(a: Byte, bits: seq<bool>): Byte
    decreases |bits|
  {
    if bits == [] then ZERO
    else Xor(if bits[0] then a else ZERO, MulBits(Twice(a), bits[1..]))
  }

  function Mul(a: Byte, b: Byte): Byte {
    MulBits(a, Bits(b))
  }

  function Square(a: Byte): Byte {
    Mul(a, a)
  }

  /** p * p^2 * p^4 * ... with n factors. */
  function PowerProduct(p: Byte, n: nat): Byte
    decreases n
  {
    if n == 0 then ONE else Mul(p, PowerProduct(Square(p), n - 1))
  }

  /** The inverse of a non-zero element is its 254th power. */
  function Inv(a: Byte): Byte {
    PowerProduct(Square(a), 7)
  }

  const FIELD: Field<Byte> := Field(ZERO, ONE, Xor, (a: Byte) => a, Mul, Inv)

  // The facts about machine words that are left to the solver.

  lemma WordXor(a: bv8, b: bv8, c: bv8, d: bv8)
    ensures a ^ (b ^ c) == (a ^ b) ^ c
    ensures (a ^ b) ^ (c ^ d) == (a ^ c) ^ (b ^ d)
  {}

  lemma XorAssociates(a: Byte, b: Byte, c: Byte)
    ensures Xor(a, Xor(b, c)) == Xor(Xor(a, b), c)
  {
    assert Xor(a, Xor(b, c)) == Byte(a.bits ^ (b.bits ^ c.bits));
    assert Xor(Xor(a, b), c) == Byte((a.bits ^ b.bits) ^ c.bits);
    WordXor(a.bits, b.bits, c.bits, 0);
  }

  lemma XorLaws(a: Byte, b: Byte)
    ensures Xor(a, b) == Xor(b, a)
    ensures Xor(ZERO, a) == a && Xor(a, ZERO) == a && Xor(a, a) == ZERO
  {}

  lemma XorSwap(a: Byte, b: Byte, c: Byte, d: Byte)
    ensures Xor(Xor(a, b), Xor(c, d)) == Xor(Xor(a, c), Xor(b, d))
  {}

  lemma TwiceLinear(a: Byte, b: Byte)
    ensures Twice(Xor(a, b)) == Xor(Twice(a), Twice(b))
    ensures Twice(ZERO) == ZERO
  {}

  lemma {:induction false} MulBitsOfSum(a: Byte, b: Byte, bits: seq<bool>)
    ensures MulBits(Xor(a, b), bits) == Xor(MulBits(a, bits), MulBits(b, bits))
    ensures MulBits(ZERO, bits) == ZERO
    decreases |bits|
  {
    hide Xor, Twice;
    XorLaws(ZERO, ZERO);
    if bits != [] {
      var m, n := MulBits(Twice(a), bits[1..]), MulBits(Twice(b), bits[1..]);
      TwiceLinear(a, b);
      MulBitsOfSum(Twice(a), Twice(b), bits[1..]);
      XorSwap(if bits[0] then a else ZERO, if bits[0] then b else ZERO, m, n);
    }
  }

  lemma {:induction false} MulBitsOfTwice(a: Byte, bits: seq<bool>)
    ensures MulBits(Twice(a), bits) == Twice(MulBits(a, bits))
    decreases |bits|
  {
    hide Xor, Twice;
    TwiceLinear(if bits != [] && bits[0] then a else ZERO, if bits == [] then ZERO else MulBits(Twice(a), bits[1..]));
    if bits != [] {
      MulBitsOfTwice(Twice(a), bits[1..]);
    }
  }

  /** (p * bs) * cs == (p * cs) * bs. With p == 1 this is commutativity. */
  lemma {:induction false} MulBitsExchange(p: Byte, bs: seq<bool>, cs: seq<bool>)
    ensures MulBits(MulBits(p, bs), cs) == MulBits(MulBits(p, cs), bs)
    decreases |bs|
  {
    hide Xor, Twice;
    if bs == [] {
      MulBitsOfSum(ZERO, ZERO, cs);
    } else {
      var head, rest := if bs[0] then p else ZERO, MulBits(Twice(p), bs[1..]);
      MulBitsOfSum(head, rest, cs);
      MulBitsOfSum(ZERO, ZERO, cs);
      MulBitsExchange(Twice(p), bs[1..], cs);
      MulBitsOfTwice(p, cs);
    }
  }

  /** The eight steps of a multiplication, written out. */
  lemma EightSteps(a: Byte, s: seq<bool>, p: seq<Byte>)
    requires |s| == |p| == 8 && p[0] == a
    requires forall i :: 0 <= i < 7 ==> p[i + 1] == Twice(p[i])
    ensures MulBits(a, s) ==
      Xor(if s[0] then p[0] else ZERO, Xor(if s[1] then p[1] else ZERO, Xor(if s[2] then p[2] else ZERO,
      Xor(if s[3] then p[3] else ZERO, Xor(if s[4] then p[4] else ZERO, Xor(if s[5] then p[5] else ZERO,
      Xor(if s[6] then p[6] else ZERO, Xor(if s[7] then p[7] else ZERO, ZERO))))))))
  {
    hide Xor, Twice;
    assert s[0..] == s;
    forall i | 0 <= i < 8
      ensures MulBits(p[i], s[i..]) == Xor(if s[i] then p[i] else ZERO, MulBits(Twice(p[i]), s[i + 1..]))
    {
      assert s[i..][1..] == s[i + 1..];
    }
  }

  lemma SumOfBits(b: Byte)
    ensures b ==
      Xor(if b.bits & 0x01 != 0 then Byte(0x01) else ZERO, Xor(if b.bits & 0x02 != 0 then Byte(0x02) else ZERO,
      Xor(if b.bits & 0x04 != 0 then Byte(0x04) else ZERO, Xor(if b.bits & 0x08 != 0 then Byte(0x08) else ZERO,
      Xor(if b.bits & 0x10 != 0 then Byte(0x10) else ZERO, Xor(if b.bits & 0x20 != 0 then Byte(0x20) else ZERO,
      Xor(if b.bits & 0x40 != 0 then Byte(0x40) else ZERO, Xor(if b.bits & 0x80 != 0 then Byte(0x80) else ZERO,
      ZERO))))))))
  {}

  lemma Powers()
    ensures Twice(ONE) == Byte(0x02) && Twice(Byte(0x02)) == Byte(0x04) && Twice(Byte(0x04)) == Byte(0x08)
    ensures Twice(Byte(0x08)) == Byte(0x10) && Twice(Byte(0x10)) == Byte(0x20) && Twice(Byte(0x20)) == Byte(0x40)
    ensures Twice(Byte(0x40)) == Byte(0x80) && Twice(Byte(0x80)) == Byte(0x1d) && Twice(Byte(0x1d)) == Byte(0x3a)
    ensures Twice(Byte(0x3a)) == Byte(0x74) && Twice(Byte(0x74)) == Byte(0xe8) && Twice(Byte(0xe8)) == Byte(0xcd)
    ensures Twice(Byte(0xcd)) == Byte(0x87) && Twice(Byte(0x87)) == Byte(0x13)
  {}

  lemma MulOne(b: Byte)
    ensures Mul(ONE, b) == b
  {
    hide Xor, Twice;
    Powers();
    EightSteps(ONE, Bits(b), [ONE, Byte(0x02), Byte(0x04), Byte(0x08), Byte(0x10), Byte(0x20), Byte(0x40), Byte(0x80)]);
    SumOfBits(b);
  }

  lemma TwiceReduces(b: Byte)
    ensures Twice(b) == if b.bits < 0x80 then Byte(b.bits << 1) else Byte((b.bits << 1) ^ 0x1d)
    ensures Twice(ONE) == Byte(2)
  {}

  /** Multiplying by x shifts by one, and takes away x^8 + x^4 + x^3 + x^2 + 1 if x^8 comes
      up. With the laws of a field this determines all products. */
  lemma TimesX(b: Byte)
    ensures Mul(Byte(2), b) == if b.bits < 0x80 then Byte(b.bits << 1) else Byte((b.bits << 1) ^ 0x1d)
  {
    TwiceReduces(b);
    hide Twice, Bits, MulBits;
    MulBitsOfTwice(ONE, Bits(b));
    MulOne(b);
  }

  lemma MulCommutes(a: Byte, b: Byte)
    ensures Mul(a, b) == Mul(b, a)
  {
    hide Xor, Twice, MulBits, Bits;
    MulOne(a);
    MulOne(b);
    MulBitsExchange(ONE, Bits(a), Bits(b));
  }

  lemma MulAssociates(a: Byte, b: Byte, c: Byte)
    ensures Mul(a, Mul(b, c)) == Mul(Mul(a, b), c)
  {
    hide Xor, Twice, MulBits, Bits;
    MulCommutes(a, Mul(b, c));
    MulCommutes(a, b);
    MulBitsExchange(b, Bits(a), Bits(c));
  }

  lemma MulDistributes(a: Byte, b: Byte, c: Byte)
    ensures Mul(a, Xor(b, c)) == Xor(Mul(a, b), Mul(a, c))
  {
    hide Xor, Twice, MulBits, Bits;
    MulCommutes(a, Xor(b, c));
    MulCommutes(a, b);
    MulCommutes(a, c);
    MulBitsOfSum(b, c, Bits(a));
  }

  lemma SquareLinear(a: Byte, b: Byte)
    ensures Square(Xor(a, b)) == Xor(Square(a), Square(b))
  {
    hide Xor, Twice, MulBits, Bits;
    var s, ab := Xor(a, b), Mul(a, b);
    MulBitsOfSum(a, b, Bits(s));
    MulDistributes(a, a, b);
    MulDistributes(b, a, b);
    MulCommutes(a, b);
    XorSwap(Square(a), ab, ab, Square(b));
    XorSwap(Square(a), ab, Square(b), ab);
    XorLaws(ab, Square(b));
    XorLaws(Xor(Square(a), Square(b)), ab);
  }

  lemma SquareOfTwice(a: Byte)
    ensures Square(Twice(a)) == Twice(Twice(Square(a)))
  {
    hide Xor, Twice, MulBits, Bits;
    MulBitsOfTwice(a, Bits(Twice(a)));
    MulCommutes(a, Twice(a));
    MulBitsOfTwice(a, Bits(a));
  }

  /** Squaring as a linear map: bit i goes to x^(2*i). */
  function SpreadBits(w: bv8): bv8 {
    (w & 1) ^ (((w >> 1) & 1) * 0x04) ^ (((w >> 2) & 1) * 0x10) ^ (((w >> 3) & 1) * 0x40) ^
    (((w >> 4) & 1) * 0x1d) ^ (((w >> 5) & 1) * 0x74) ^ (((w >> 6) & 1) * 0xcd) ^ (((w >> 7) & 1) * 0x13)
  }

  function Spread(a: Byte): Byte {
    Byte(SpreadBits(a.bits))
  }

  lemma SquareOfPowers()
    ensures Square(ZERO) == ZERO == Spread(ZERO) && Square(Byte(0x01)) == Byte(0x01) && Square(Byte(0x02)) == Byte(0x04)
    ensures Square(Byte(0x04)) == Byte(0x10) && Square(Byte(0x08)) == Byte(0x40)
    ensures Square(Byte(0x10)) == Byte(0x1d) && Square(Byte(0x20)) == Byte(0x74)
    ensures Square(Byte(0x40)) == Byte(0xcd) && Square(Byte(0x80)) == Byte(0x13)
  {
    hide Xor, Twice, MulBits, Bits;
    Powers();
    MulBitsOfSum(ZERO, ZERO, Bits(ZERO));
    MulOne(ONE);
    SquareOfTwice(Byte(0x01));
    SquareOfTwice(Byte(0x02));
    SquareOfTwice(Byte(0x04));
    SquareOfTwice(Byte(0x08));
    SquareOfTwice(Byte(0x10));
    SquareOfTwice(Byte(0x20));
    SquareOfTwice(Byte(0x40));
  }

  lemma SpreadPlus0(a: Byte)
    ensures Spread(Xor(Byte(0x01), a)) == Xor(Byte(0x01), Spread(a))
    ensures Spread(Xor(Byte(0x02), a)) == Xor(Byte(0x04), Spread(a))
  {}

  lemma SpreadPlus2(a: Byte)
    ensures Spread(Xor(Byte(0x04), a)) == Xor(Byte(0x10), Spread(a))
    ensures Spread(Xor(Byte(0x08), a)) == Xor(Byte(0x40), Spread(a))
  {}

  lemma SpreadPlus4(a: Byte)
    ensures Spread(Xor(Byte(0x10), a)) == Xor(Byte(0x1d), Spread(a))
    ensures Spread(Xor(Byte(0x20), a)) == Xor(Byte(0x74), Spread(a))
  {}

  lemma SpreadPlus6(a: Byte)
    ensures Spread(Xor(Byte(0x40), a)) == Xor(Byte(0xcd), Spread(a))
    ensures Spread(Xor(Byte(0x80), a)) == Xor(Byte(0x13), Spread(a))
  {}

  /** If squaring a is spreading it, the same holds for a plus zero or a power of x. */
  lemma SquareStep(t: Byte, a: Byte)
    requires Square(a) == Spread(a)
    requires t == ZERO || t == Byte(0x01) || t == Byte(0x02) || t == Byte(0x04) || t == Byte(0x08)
      || t == Byte(0x10) || t == Byte(0x20) || t == Byte(0x40) || t == Byte(0x80)
    ensures Square(Xor(t, a)) == Spread(Xor(t, a))
  {
    hide Square, Spread, Xor;
    SquareOfPowers();
    SquareLinear(t, a);
    SpreadPlus0(a);
    SpreadPlus2(a);
    SpreadPlus4(a);
    SpreadPlus6(a);
    XorLaws(a, a);
  }

  lemma SquareOfSum(b0: bool, b1: bool, b2: bool, b3: bool, b4: bool, b5: bool, b6: bool, b7: bool)
    ensures var sum :=
        Xor(if b0 then Byte(0x01) else ZERO, Xor(if b1 then Byte(0x02) else ZERO, Xor(if b2 then Byte(0x04) else ZERO,
        Xor(if b3 then Byte(0x08) else ZERO, Xor(if b4 then Byte(0x10) else ZERO, Xor(if b5 then Byte(0x20) else ZERO,
        Xor(if b6 then Byte(0x40) else ZERO, Xor(if b7 then Byte(0x80) else ZERO, ZERO))))))));
      Square(sum) == Spread(sum)
  {
    hide *;
    SquareOfPowers();
    SquareStep(if b7 then Byte(0x80) else ZERO, ZERO);
    var s7 := Xor(if b7 then Byte(0x80) else ZERO, ZERO);
    SquareStep(if b6 then Byte(0x40) else ZERO, s7);
    var s6 := Xor(if b6 then Byte(0x40) else ZERO, s7);
    SquareStep(if b5 then Byte(0x20) else ZERO, s6);
    var s5 := Xor(if b5 then Byte(0x20) else ZERO, s6);
    SquareStep(if b4 then Byte(0x10) else ZERO, s5);
    var s4 := Xor(if b4 then Byte(0x10) else ZERO, s5);
    SquareStep(if b3 then Byte(0x08) else ZERO, s4);
    var s3 := Xor(if b3 then Byte(0x08) else ZERO, s4);
    SquareStep(if b2 then Byte(0x04) else ZERO, s3);
    var s2 := Xor(if b2 then Byte(0x04) else ZERO, s3);
    SquareStep(if b1 then Byte(0x02) else ZERO, s2);
    SquareStep(if b0 then Byte(0x01) else ZERO, Xor(if b1 then Byte(0x02) else ZERO, s2));
  }

  lemma SquareIsSpread(a: Byte)
    ensures Square(a) == Spread(a)
  {
    hide *;
    SumOfBits(a);
    SquareOfSum(a.bits & 0x01 != 0, a.bits & 0x02 != 0, a.bits & 0x04 != 0, a.bits & 0x08 != 0,
      a.bits & 0x10 != 0, a.bits & 0x20 != 0, a.bits & 0x40 != 0, a.bits & 0x80 != 0);
  }

  /** The reduction polynomial is irreducible: squaring fixes only 0 and 1 (Berlekamp),
      and squaring eight times is the identity. */
  lemma SpreadFixedPoints(a: Byte)
    requires Spread(a) == a
    ensures a == ZERO || a == ONE
  {}

  lemma SpreadEightTimes(a: Byte)
    ensures Spread(Spread(Spread(Spread(Spread(Spread(Spread(Spread(a)))))))) == a
  {}

  function Squares(p: Byte, n: nat): Byte
    decreases n
  {
    if n == 0 then p else Squares(Square(p), n - 1)
  }

  lemma SquareEightTimes(a: Byte)
    ensures Squares(a, 8) == a
  {
    hide Square, Spread;
    forall b ensures Square(b) == Spread(b) {
      SquareIsSpread(b);
    }
    SpreadEightTimes(a);
  }

  /** p * (p * p^2 * p^4 * ...) == p^(2^n), with n factors in the parentheses. */
  lemma {:induction false} MulPowerProduct(p: Byte, n: nat)
    ensures Mul(p, PowerProduct(p, n)) == Squares(p, n)
    decreases n
  {
    hide Mul, MulBits, Xor, Twice, Bits;
    if n == 0 {
      MulCommutes(p, ONE);
      MulOne(p);
    } else {
      MulAssociates(p, p, PowerProduct(Square(p), n - 1));
      MulPowerProduct(Square(p), n - 1);
    }
  }

  lemma MulInverse(a: Byte)
    requires a != ZERO
    ensures Mul(a, Inv(a)) == ONE
  {
    hide Mul, Spread;
    var i, e := Inv(a), Mul(a, Inv(a));
    assert e == PowerProduct(a, 8);
    MulPowerProduct(a, 8);
    SquareEightTimes(a);
    assert Mul(a, e) == a;
    assert Square(e) == e by {
      MulCommutes(a, i);
      MulAssociates(i, a, e);
    }
    SquareIsSpread(e);
    SpreadFixedPoints(e);
    if e == ZERO {
      MulZero(a);
    }
  }

  lemma MulZero(a: Byte)
    ensures Mul(a, ZERO) == ZERO
  {}

  lemma FieldLaws(a: Byte, b: Byte, c: Byte)
    ensures Laws(FIELD, a, b, c)
  {
    hide Xor, Mul, Inv;
    XorAssociates(a, b, c);
    XorLaws(a, b);
    MulCommutes(a, b);
    MulAssociates(a, b, c);
    MulDistributes(a, b, c);
    MulOne(a);
    if a != ZERO {
      MulInverse(a);
    }
  }

  lemma BytesFormAField()
    ensures IsField(FIELD)
  {
    forall a: Byte, b: Byte, c: Byte ensures Laws(FIELD, a, b, c) {
      FieldLaws(a, b, c);
    }
  }
}
