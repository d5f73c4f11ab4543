/** The substitution box by its definition, section 5.1.1 of FIPS 197: an inverse in GF(2^8), then an affine map. */
module Field {
  import opened Boxes
  import opened Aes

  function When(bit: bool, v: bv8): bv8 { if bit then v else 0 }

  /** The product of two elements of the field. */
  function Times(a: bv8, b: bv8): bv8 {
    var a1 := XTime(a);
    var a2 := XTime(a1);
    var a3 := XTime(a2);
    var a4 := XTime(a3);
    var a5 := XTime(a4);
    var a6 := XTime(a5);
    var a7 := XTime(a6);
    When(b & 0x01 != 0, a) ^ When(b & 0x02 != 0, a1) ^ When(b & 0x04 != 0, a2) ^ When(b & 0x08 != 0, a3)
    ^ When(b & 0x10 != 0, a4) ^ When(b & 0x20 != 0, a5) ^ When(b & 0x40 != 0, a6) ^ When(b & 0x80 != 0, a7)
  }

  /** Every bit plus the four bits above it, cyclically, plus a constant. */
  function Affine(y: bv8): bv8 {
    y ^ y.RotateLeft(1) ^ y.RotateLeft(2) ^ y.RotateLeft(3) ^ y.RotateLeft(4) ^ 0x63
  }

  function InvAffine(s: bv8): bv8 {
    s.RotateLeft(1) ^ s.RotateLeft(3) ^ s.RotateLeft(6) ^ 0x05
  }

  lemma AffineInverse(s: bv8)
    ensures Affine(InvAffine(s)) == s
  {
  }

  lemma Quarter0(x: bv8)
    requires 0x00 <= x <= 0x3f
    ensures if x == 0 then InvAffine(S(x)) == 0 else Times(x, InvAffine(S(x))) == 1
  {
  }

  lemma Quarter1(x: bv8)
    requires 0x40 <= x <= 0x7f
    ensures if x == 0 then InvAffine(S(x)) == 0 else Times(x, InvAffine(S(x))) == 1
  {
  }

  lemma Quarter2(x: bv8)
    requires 0x80 <= x <= 0xbf
    ensures if x == 0 then InvAffine(S(x)) == 0 else Times(x, InvAffine(S(x))) == 1
  {
  }

  lemma Quarter3(x: bv8)
    requires 0xc0 <= x <= 0xff
    ensures if x == 0 then InvAffine(S(x)) == 0 else Times(x, InvAffine(S(x))) == 1
  {
  }

  /** The box is the affine image of the inverse in the field; of zero it is the affine image of zero. */
  lemma BoxMeans(x: bv8)
    ensures exists y: bv8 :: S(x) == Affine(y) && if x == 0 then y == 0 else Times(x, y) == 1
  {
    hide S, Affine, InvAffine, Times;
    var y := InvAffine(S(x));
    AffineInverse(S(x));
    if x <= 0x3f {
      Quarter0(x);
    } else if x <= 0x7f {
      Quarter1(x);
    } else if x <= 0xbf {
      Quarter2(x);
    } else {
      Quarter3(x);
    }
    assert S(x) == Affine(y) && if x == 0 then y == 0 else Times(x, y) == 1;
  }

  lemma Times2(a: bv8)
    ensures Mul2(a) == Times(a, 0x02)
  {
  }

  lemma Times3(a: bv8)
    ensures Mul3(a) == Times(a, 0x03)
  {
  }

  lemma Times9(a: bv8)
    ensures Mul9(a) == Times(a, 0x09)
  {
  }

  lemma TimesB(a: bv8)
    ensures MulB(a) == Times(a, 0x0b)
  {
  }

  lemma TimesD(a: bv8)
    ensures MulD(a) == Times(a, 0x0d)
  {
  }

  lemma TimesE(a: bv8)
    ensures MulE(a) == Times(a, 0x0e)
  {
  }

  /** The multiples that the tables are made of are products in the field. */
  lemma Multiples(a: bv8)
    ensures Mul2(a) == Times(a, 0x02) && Mul3(a) == Times(a, 0x03) && Mul9(a) == Times(a, 0x09)
    ensures MulB(a) == Times(a, 0x0b) && MulD(a) == Times(a, 0x0d) && MulE(a) == Times(a, 0x0e)
  {
    hide Times, Mul2, Mul3, Mul9, MulB, MulD, MulE;
    Times2(a);
    Times3(a);
    Times9(a);
    TimesB(a);
    TimesD(a);
    TimesE(a);
  }
}
