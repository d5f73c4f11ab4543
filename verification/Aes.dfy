/** The AES block cipher in the form with tables, and the plain rounds of FIPS 197 that it computes. */
module Aes {
  import opened Boxes

  // ---------------------------------------------------------------------------------------
  // Arithmetic in GF(2^8)

  function Xor(a: bv8, b: bv8): bv8 { a ^ b }

  function Shift(b: bv8): bv8 { b << 1 }

  function Reduction(b: bv8): bv8 { if b & 0x80 != 0 then 0x1b else 0 }

  /** Multiplication by x, modulo x^8 + x^4 + x^3 + x + 1. */
  function XTime(b: bv8): bv8 { Xor(Shift(b), Reduction(b)) }

  function X2(b: bv8): bv8 { XTime(XTime(b)) }
  function X3(b: bv8): bv8 { XTime(X2(b)) }

  function Mul2(b: bv8): bv8 { XTime(b) }
  function Mul3(b: bv8): bv8 { Xor(XTime(b), b) }
  function Mul9(b: bv8): bv8 { Xor(X3(b), b) }
  function MulB(b: bv8): bv8 { Xor(X3(b), Xor(XTime(b), b)) }
  function MulD(b: bv8): bv8 { Xor(X3(b), Xor(X2(b), b)) }
  function MulE(b: bv8): bv8 { Xor(X3(b), Xor(X2(b), XTime(b))) }

  lemma XorCommutes(a: bv8, b: bv8)
    ensures Xor(a, b) == Xor(b, a)
  {
  }

  lemma XorAssociates(a: bv8, b: bv8, c: bv8)
    ensures Xor(Xor(a, b), c) == Xor(a, Xor(b, c))
  {
  }

  lemma XorSwap(a: bv8, b: bv8, c: bv8, d: bv8)
    ensures Xor(Xor(a, b), Xor(c, d)) == Xor(Xor(a, c), Xor(b, d))
  {
    hide Xor;
    calc {
      Xor(Xor(a, b), Xor(c, d));
      { XorAssociates(a, b, Xor(c, d)); XorAssociates(b, c, d); }
      Xor(a, Xor(Xor(b, c), d));
      { XorCommutes(b, c); XorAssociates(c, b, d); }
      Xor(a, Xor(c, Xor(b, d)));
      { XorAssociates(a, c, Xor(b, d)); }
      Xor(Xor(a, c), Xor(b, d));
    }
  }

  lemma XorCancel(a: bv8, b: bv8)
    ensures Xor(Xor(a, b), b) == a && Xor(a, 0) == a && Xor(0, a) == a
  {
  }

  lemma XTimeLinear(a: bv8, b: bv8)
    ensures XTime(Xor(a, b)) == Xor(XTime(a), XTime(b))
  {
    hide Xor, Shift, Reduction;
    ShiftAdds(a, b);
    ReductionAdds(a, b);
    XorSwap(Shift(a), Shift(b), Reduction(a), Reduction(b));
  }

  lemma ShiftAdds(a: bv8, b: bv8)
    ensures Shift(Xor(a, b)) == Xor(Shift(a), Shift(b))
  {
  }

  lemma ReductionAdds(a: bv8, b: bv8)
    ensures Reduction(Xor(a, b)) == Xor(Reduction(a), Reduction(b))
  {
    TopBitAdds(a, b);
  }

  lemma TopBitAdds(a: bv8, b: bv8)
    ensures (a ^ b) & 0x80 != 0 <==> (a & 0x80 != 0) != (b & 0x80 != 0)
  {
  }

  lemma PowersLinear(a: bv8, b: bv8)
    ensures XTime(Xor(a, b)) == Xor(XTime(a), XTime(b))
    ensures X2(Xor(a, b)) == Xor(X2(a), X2(b)) && X3(Xor(a, b)) == Xor(X3(a), X3(b))
  {
    hide XTime, Xor;
    XTimeLinear(a, b);
    XTimeLinear(XTime(a), XTime(b));
    XTimeLinear(X2(a), X2(b));
  }

  /** Multiplication distributes over addition. */
  lemma MulLinear(a: bv8, b: bv8)
    ensures Mul9(Xor(a, b)) == Xor(Mul9(a), Mul9(b)) && MulB(Xor(a, b)) == Xor(MulB(a), MulB(b))
    ensures MulD(Xor(a, b)) == Xor(MulD(a), MulD(b)) && MulE(Xor(a, b)) == Xor(MulE(a), MulE(b))
  {
    hide XTime, X2, X3, Xor;
    PowersLinear(a, b);
    XorSwap(X3(a), X3(b), a, b);
    XorSwap(XTime(a), XTime(b), a, b);
    XorSwap(X3(a), X3(b), Xor(XTime(a), a), Xor(XTime(b), b));
    XorSwap(X2(a), X2(b), a, b);
    XorSwap(X3(a), X3(b), Xor(X2(a), a), Xor(X2(b), b));
    XorSwap(X2(a), X2(b), XTime(a), XTime(b));
    XorSwap(X3(a), X3(b), Xor(X2(a), XTime(a)), Xor(X2(b), XTime(b)));
  }

  /** The sum of four products. */
  function Sum(a: bv8, b: bv8, c: bv8, d: bv8): bv8 { Xor(Xor(a, b), Xor(c, d)) }

  lemma Product1(a: bv8)
    ensures Sum(MulE(Mul2(a)), MulB(a), MulD(a), Mul9(Mul3(a))) == a
  {
  }

  lemma Product2(a: bv8)
    ensures Sum(MulE(Mul3(a)), MulB(Mul2(a)), MulD(a), Mul9(a)) == 0
  {
  }

  lemma Product3(a: bv8)
    ensures Sum(MulE(a), MulB(Mul3(a)), MulD(Mul2(a)), Mul9(a)) == 0
  {
  }

  lemma Product4(a: bv8)
    ensures Sum(MulE(a), MulB(a), MulD(Mul3(a)), Mul9(Mul2(a))) == 0
  {
  }

  /** A sum of sums, by rows or by columns. */
  lemma SumSwap(a: bv8, b: bv8, c: bv8, d: bv8, e: bv8, f: bv8, g: bv8, h: bv8,
                i: bv8, j: bv8, k: bv8, l: bv8, m: bv8, n: bv8, o: bv8, p: bv8)
    ensures Sum(Sum(a, b, c, d), Sum(e, f, g, h), Sum(i, j, k, l), Sum(m, n, o, p))
         == Sum(Sum(a, e, i, m), Sum(b, f, j, n), Sum(c, g, k, o), Sum(d, h, l, p))
  {
    hide Xor;
    PairSwap(a, b, c, d, e, f, g, h);
    PairSwap(i, j, k, l, m, n, o, p);
    PairSwap(Xor(a, e), Xor(b, f), Xor(c, g), Xor(d, h), Xor(i, m), Xor(j, n), Xor(k, o), Xor(l, p));
    XorSwap(a, e, i, m);
    XorSwap(b, f, j, n);
    XorSwap(c, g, k, o);
    XorSwap(d, h, l, p);
  }

  lemma PairSwap(a: bv8, b: bv8, c: bv8, d: bv8, e: bv8, f: bv8, g: bv8, h: bv8)
    ensures Xor(Sum(a, b, c, d), Sum(e, f, g, h)) == Sum(Xor(a, e), Xor(b, f), Xor(c, g), Xor(d, h))
  {
    hide Xor;
    XorSwap(Xor(a, b), Xor(c, d), Xor(e, f), Xor(g, h));
    XorSwap(a, b, e, f);
    XorSwap(c, d, g, h);
  }

  // ---------------------------------------------------------------------------------------
  // Words and states

  /** A 32-bit word, most significant byte first: a column of the state. */
  datatype Word = Word(a: bv8, b: bv8, c: bv8, d: bv8)

  const NULL_WORD := Word(0, 0, 0, 0)

  function Add(v: Word, w: Word): Word {
    Word(Xor(v.a, w.a), Xor(v.b, w.b), Xor(v.c, w.c), Xor(v.d, w.d))
  }

  function MixWord(w: Word): Word {
    Word(Sum(Mul2(w.a), Mul3(w.b), w.c, w.d), Sum(w.a, Mul2(w.b), Mul3(w.c), w.d),
         Sum(w.a, w.b, Mul2(w.c), Mul3(w.d)), Sum(Mul3(w.a), w.b, w.c, Mul2(w.d)))
  }

  function UnmixWord(w: Word): Word {
    Word(Sum(MulE(w.a), MulB(w.b), MulD(w.c), Mul9(w.d)), Sum(Mul9(w.a), MulE(w.b), MulB(w.c), MulD(w.d)),
         Sum(MulD(w.a), Mul9(w.b), MulE(w.c), MulB(w.d)), Sum(MulB(w.a), MulD(w.b), Mul9(w.c), MulE(w.d)))
  }

  /** A row of the inverse matrix, applied to a sum of four. */
  function RowE(a: bv8, b: bv8, c: bv8, d: bv8): bv8 { Sum(MulE(a), MulB(b), MulD(c), Mul9(d)) }

  lemma SumLinear(a: bv8, b: bv8, c: bv8, d: bv8)
    ensures MulE(Sum(a, b, c, d)) == Sum(MulE(a), MulE(b), MulE(c), MulE(d))
    ensures MulB(Sum(a, b, c, d)) == Sum(MulB(a), MulB(b), MulB(c), MulB(d))
    ensures MulD(Sum(a, b, c, d)) == Sum(MulD(a), MulD(b), MulD(c), MulD(d))
    ensures Mul9(Sum(a, b, c, d)) == Sum(Mul9(a), Mul9(b), Mul9(c), Mul9(d))
  {
    hide Xor, Mul9, MulB, MulD, MulE;
    MulLinear(a, b);
    MulLinear(c, d);
    MulLinear(Xor(a, b), Xor(c, d));
  }

  /** One row of the product of the two matrices. */
  lemma RowInverse(a: bv8, b: bv8, c: bv8, d: bv8)
    ensures RowE(Sum(Mul2(a), Mul3(b), c, d), Sum(a, Mul2(b), Mul3(c), d), Sum(a, b, Mul2(c), Mul3(d)), Sum(Mul3(a), b, c, Mul2(d))) == a
  {
    hide Xor, Mul2, Mul3, Mul9, MulB, MulD, MulE, Sum;
    SumLinear(Mul2(a), Mul3(b), c, d);
    SumLinear(a, Mul2(b), Mul3(c), d);
    SumLinear(a, b, Mul2(c), Mul3(d));
    SumLinear(Mul3(a), b, c, Mul2(d));
    SumSwap(MulE(Mul2(a)), MulE(Mul3(b)), MulE(c), MulE(d), MulB(a), MulB(Mul2(b)), MulB(Mul3(c)), MulB(d),
            MulD(a), MulD(b), MulD(Mul2(c)), MulD(Mul3(d)), Mul9(Mul3(a)), Mul9(b), Mul9(c), Mul9(Mul2(d)));
    Product1(a);
    Product2(b);
    Product3(c);
    Product4(d);
    SumZeros(a);
  }

  lemma SumZeros(a: bv8)
    ensures Sum(a, 0, 0, 0) == a
  {
  }

  lemma SumTurn(a: bv8, b: bv8, c: bv8, d: bv8)
    ensures Sum(a, b, c, d) == Sum(b, c, d, a)
  {
    hide Xor;
    XorCommutes(Xor(a, b), Xor(c, d));
    XorSwap(c, d, a, b);
    XorCommutes(c, a);
    XorSwap(a, c, d, b);
    XorCommutes(Xor(a, d), Xor(c, b));
    XorCommutes(c, b);
    XorCommutes(a, d);
  }

  lemma UnmixMix(w: Word)
    ensures UnmixWord(MixWord(w)) == w
  {
    hide Sum, Mul2, Mul3, Mul9, MulB, MulD, MulE;
    var m := MixWord(w);
    RowInverse(w.a, w.b, w.c, w.d);
    RowInverse(w.b, w.c, w.d, w.a);
    RowInverse(w.c, w.d, w.a, w.b);
    RowInverse(w.d, w.a, w.b, w.c);
    MixTurn(w);
    SumTurn(Mul9(m.a), MulE(m.b), MulB(m.c), MulD(m.d));
    SumTurn(MulD(m.a), Mul9(m.b), MulE(m.c), MulB(m.d));
    SumTurn(Mul9(m.b), MulE(m.c), MulB(m.d), MulD(m.a));
    SumTurn(MulE(m.d), MulB(m.a), MulD(m.b), Mul9(m.c));
    SumTurn(MulB(m.a), MulD(m.b), Mul9(m.c), MulE(m.d));
    SumTurn(MulD(m.b), Mul9(m.c), MulE(m.d), MulB(m.a));
    SumTurn(Mul9(m.c), MulE(m.d), MulB(m.a), MulD(m.b));
  }

  /** Each row of the matrix is the first one, turned. */
  lemma MixTurn(w: Word)
    ensures MixWord(Word(w.b, w.c, w.d, w.a)) == Word(MixWord(w).b, MixWord(w).c, MixWord(w).d, MixWord(w).a)
    ensures MixWord(Word(w.c, w.d, w.a, w.b)) == Word(MixWord(w).c, MixWord(w).d, MixWord(w).a, MixWord(w).b)
    ensures MixWord(Word(w.d, w.a, w.b, w.c)) == Word(MixWord(w).d, MixWord(w).a, MixWord(w).b, MixWord(w).c)
  {
    MixTurnOnce(w);
    MixTurnOnce(Word(w.b, w.c, w.d, w.a));
    MixTurnOnce(Word(w.c, w.d, w.a, w.b));
  }

  lemma MixTurnOnce(w: Word)
    ensures MixWord(Word(w.b, w.c, w.d, w.a)) == Word(MixWord(w).b, MixWord(w).c, MixWord(w).d, MixWord(w).a)
  {
    hide Sum, Mul2, Mul3;
    SumTurn(w.a, Mul2(w.b), Mul3(w.c), w.d);
    SumTurn(w.a, w.b, Mul2(w.c), Mul3(w.d));
    SumTurn(Mul3(w.a), w.b, w.c, Mul2(w.d));
    SumTurn(Mul2(w.a), Mul3(w.b), w.c, w.d);
  }

  lemma UnmixLinear(v: Word, w: Word)
    ensures UnmixWord(Add(v, w)) == Add(UnmixWord(v), UnmixWord(w))
  {
    hide Xor, Sum, Mul9, MulB, MulD, MulE;
    MulLinear(v.a, w.a);
    MulLinear(v.b, w.b);
    MulLinear(v.c, w.c);
    MulLinear(v.d, w.d);
    PairSwap(MulE(v.a), MulB(v.b), MulD(v.c), Mul9(v.d), MulE(w.a), MulB(w.b), MulD(w.c), Mul9(w.d));
    PairSwap(Mul9(v.a), MulE(v.b), MulB(v.c), MulD(v.d), Mul9(w.a), MulE(w.b), MulB(w.c), MulD(w.d));
    PairSwap(MulD(v.a), Mul9(v.b), MulE(v.c), MulB(v.d), MulD(w.a), Mul9(w.b), MulE(w.c), MulB(w.d));
    PairSwap(MulB(v.a), MulD(v.b), Mul9(v.c), MulE(v.d), MulB(w.a), MulD(w.b), Mul9(w.c), MulE(w.d));
  }

  lemma AddCancel(v: Word, w: Word)
    ensures Add(Add(v, w), w) == v
  {
    hide Xor;
    XorCancel(v.a, w.a);
    XorCancel(v.b, w.b);
    XorCancel(v.c, w.c);
    XorCancel(v.d, w.d);
  }

  lemma AddAssociates(u: Word, v: Word, w: Word)
    ensures Add(Add(u, v), w) == Add(u, Add(v, w))
  {
    hide Xor;
    XorAssociates(u.a, v.a, w.a);
    XorAssociates(u.b, v.b, w.b);
    XorAssociates(u.c, v.c, w.c);
    XorAssociates(u.d, v.d, w.d);
  }

  // ---------------------------------------------------------------------------------------
  // The plain rounds, sections 5.1 and 5.3.5 of FIPS 197

  datatype State = State(s0: Word, s1: Word, s2: Word, s3: Word)

  function AddKey(s: State, k: State): State {
    State(Add(s.s0, k.s0), Add(s.s1, k.s1), Add(s.s2, k.s2), Add(s.s3, k.s3))
  }

  function SubWord(w: Word): Word { Word(S(w.a), S(w.b), S(w.c), S(w.d)) }
  function InvSubWord(w: Word): Word { Word(Si(w.a), Si(w.b), Si(w.c), Si(w.d)) }

  function SubBytes(s: State): State { State(SubWord(s.s0), SubWord(s.s1), SubWord(s.s2), SubWord(s.s3)) }
  function InvSubBytes(s: State): State { State(InvSubWord(s.s0), InvSubWord(s.s1), InvSubWord(s.s2), InvSubWord(s.s3)) }

  /** Row r moves r places to the left. */
  function ShiftRows(s: State): State {
    State(Word(s.s0.a, s.s1.b, s.s2.c, s.s3.d), Word(s.s1.a, s.s2.b, s.s3.c, s.s0.d),
          Word(s.s2.a, s.s3.b, s.s0.c, s.s1.d), Word(s.s3.a, s.s0.b, s.s1.c, s.s2.d))
  }

  function InvShiftRows(s: State): State {
    State(Word(s.s0.a, s.s3.b, s.s2.c, s.s1.d), Word(s.s1.a, s.s0.b, s.s3.c, s.s2.d),
          Word(s.s2.a, s.s1.b, s.s0.c, s.s3.d), Word(s.s3.a, s.s2.b, s.s1.c, s.s0.d))
  }

  function MixColumns(s: State): State { State(MixWord(s.s0), MixWord(s.s1), MixWord(s.s2), MixWord(s.s3)) }
  function InvMixColumns(s: State): State { State(UnmixWord(s.s0), UnmixWord(s.s1), UnmixWord(s.s2), UnmixWord(s.s3)) }

  function RoundKey(rk: seq<Word>, r: nat): State
    requires 4 * r + 4 <= |rk|
  {
    State(rk[4 * r], rk[4 * r + 1], rk[4 * r + 2], rk[4 * r + 3])
  }

  /** The state after the first r full rounds. */
  function Rounds(rk: seq<Word>, r: nat, s: State): State
    requires 4 * r + 4 <= |rk|
  {
    if r == 0 then AddKey(s, RoundKey(rk, 0))
    else AddKey(MixColumns(ShiftRows(SubBytes(Rounds(rk, r - 1, s)))), RoundKey(rk, r))
  }

  function Encrypted(rk: seq<Word>, n: nat, s: State): State
    requires n >= 1 && 4 * n + 4 <= |rk|
  {
    AddKey(ShiftRows(SubBytes(Rounds(rk, n - 1, s))), RoundKey(rk, n))
  }

  /** The same for the equivalent inverse cipher. */
  function InvRounds(dk: seq<Word>, r: nat, s: State): State
    requires 4 * r + 4 <= |dk|
  {
    if r == 0 then AddKey(s, RoundKey(dk, 0))
    else AddKey(InvMixColumns(InvShiftRows(InvSubBytes(InvRounds(dk, r - 1, s)))), RoundKey(dk, r))
  }

  function Decrypted(dk: seq<Word>, n: nat, s: State): State
    requires n >= 1 && 4 * n + 4 <= |dk|
  {
    AddKey(InvShiftRows(InvSubBytes(InvRounds(dk, n - 1, s))), RoundKey(dk, n))
  }

  /** The keys in reverse order, all but the first and the last through InvMixColumns. */
  ghost predicate Inverts(rk: seq<Word>, dk: seq<Word>, n: nat) {
    && |rk| >= 4 * n + 4 && |dk| >= 4 * n + 4 && n >= 1
    && RoundKey(dk, 0) == RoundKey(rk, n) && RoundKey(dk, n) == RoundKey(rk, 0)
    && forall r: nat :: 1 <= r < n ==> RoundKey(dk, r) == InvMixColumns(RoundKey(rk, n - r))
  }

  lemma SubInverse(s: State)
    ensures InvShiftRows(InvSubBytes(ShiftRows(SubBytes(s)))) == s
  {
    hide S, Si;
    SubWordInverse(s.s0);
    SubWordInverse(s.s1);
    SubWordInverse(s.s2);
    SubWordInverse(s.s3);
  }

  lemma SubWordInverse(w: Word)
    ensures Si(S(w.a)) == w.a && Si(S(w.b)) == w.b && Si(S(w.c)) == w.c && Si(S(w.d)) == w.d
  {
    hide S, Si;
    SubstitutionInverse(w.a);
    SubstitutionInverse(w.b);
    SubstitutionInverse(w.c);
    SubstitutionInverse(w.d);
  }

  lemma MixInverse(s: State, k: State)
    ensures AddKey(InvMixColumns(AddKey(MixColumns(s), k)), InvMixColumns(k)) == s
  {
    hide Add, MixWord, UnmixWord;
    forall v: Word, w: Word ensures Add(UnmixWord(Add(MixWord(v), w)), UnmixWord(w)) == v {
      UnmixLinear(MixWord(v), w);
      UnmixMix(v);
      AddCancel(v, UnmixWord(w));
    }
  }

  lemma KeyCancel(s: State, k: State)
    ensures AddKey(AddKey(s, k), k) == s
  {
    hide Add;
    AddCancel(s.s0, k.s0);
    AddCancel(s.s1, k.s1);
    AddCancel(s.s2, k.s2);
    AddCancel(s.s3, k.s3);
  }

  /** r rounds of decryption undo the last r rounds of encryption. */
  lemma {:induction false} RoundsUndone(rk: seq<Word>, dk: seq<Word>, n: nat, r: nat, s: State)
    requires Inverts(rk, dk, n) && r < n
    ensures InvRounds(dk, r, Encrypted(rk, n, s)) == ShiftRows(SubBytes(Rounds(rk, n - 1 - r, s)))
  {
    hide AddKey, ShiftRows, SubBytes, MixColumns, InvShiftRows, InvSubBytes, InvMixColumns;
    if r == 0 {
      KeyCancel(ShiftRows(SubBytes(Rounds(rk, n - 1, s))), RoundKey(rk, n));
      return;
    }
    RoundsUndone(rk, dk, n, r - 1, s);
    var before := Rounds(rk, n - 1 - r, s);
    SubInverse(Rounds(rk, n - r, s));
    MixInverse(ShiftRows(SubBytes(before)), RoundKey(rk, n - r));
  }

  /** Decryption undoes encryption. */
  lemma DecryptEncrypt(rk: seq<Word>, dk: seq<Word>, n: nat, s: State)
    requires Inverts(rk, dk, n)
    ensures Decrypted(dk, n, Encrypted(rk, n, s)) == s
  {
    hide AddKey, ShiftRows, SubBytes, MixColumns, InvShiftRows, InvSubBytes, InvMixColumns;
    RoundsUndone(rk, dk, n, n - 1, s);
    SubInverse(Rounds(rk, 0, s));
    KeyCancel(s, RoundKey(rk, 0));
  }
}
