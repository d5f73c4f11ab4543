/** The AES cipher and its key schedule byte by byte, as sections 5.1 and 5.2 of FIPS 197 write them, on the substitution box and
    on products in GF(2^8) alone. Byte r + 4 * c of a block is row r, column c of the state. */
module Fips {
  import opened Boxes
  import opened Aes
  import opened AesKey
  import opened Field

  type Grid = s: seq<bv8> | |s| == 16 witness seq(16, _ => 0)

  /** Byte r of a word of the schedule. */
  function KeyByte(w: Word, r: nat): bv8
    requires r < 4
  {
    if r == 0 then w.a else if r == 1 then w.b else if r == 2 then w.c else w.d
  }

  function At(s: Grid, r: nat, c: nat): bv8
    requires r < 4 && c < 4
  {
    s[r + 4 * c]
  }

  /** The key of round i is added. */
  ghost predicate KeyAdded(s: Grid, t: Grid, rk: seq<Word>, i: nat)
    requires 4 * i + 4 <= |rk|
  {
    forall r: nat, c: nat :: r < 4 && c < 4 ==> At(t, r, c) == Xor(At(s, r, c), KeyByte(rk[4 * i + c], r))
  }

  /** Each byte is substituted, and row r moves r columns to the left. */
  ghost predicate SubstitutedShifted(s: Grid, t: Grid) {
    forall r: nat, c: nat :: r < 4 && c < 4 ==> At(t, r, c) == S(At(s, r, (c + r) % 4))
  }

  /** Each column is multiplied by the polynomial 3 x^3 + x^2 + x + 2. */
  ghost predicate Mixed(s: Grid, t: Grid) {
    forall r: nat, c: nat :: r < 4 && c < 4 ==>
      At(t, r, c) == Xor(Xor(Times(At(s, r, c), 0x02), Times(At(s, (r + 1) % 4, c), 0x03)),
                         Xor(At(s, (r + 2) % 4, c), At(s, (r + 3) % 4, c)))
  }

  /** One inner round. */
  ghost predicate InnerRound(s: Grid, t: Grid, rk: seq<Word>, i: nat)
    requires 4 * i + 4 <= |rk|
  {
    exists u: Grid, v: Grid :: SubstitutedShifted(s, u) && Mixed(u, v) && KeyAdded(v, t, rk, i)
  }

  ghost predicate LastRound(s: Grid, t: Grid, rk: seq<Word>, i: nat)
    requires 4 * i + 4 <= |rk|
  {
    exists u: Grid :: SubstitutedShifted(s, u) && KeyAdded(u, t, rk, i)
  }

  /** The states from the first key to the last inner round, and the cipher text. */
  ghost predicate Ciphers(input: Grid, states: seq<Grid>, output: Grid, rk: seq<Word>, n: nat)
    requires n >= 1 && 4 * n + 4 <= |rk|
  {
    && |states| == n && KeyAdded(input, states[0], rk, 0)
    && (forall i: nat :: 1 <= i < n ==> InnerRound(states[i - 1], states[i], rk, i))
    && LastRound(states[n - 1], output, rk, n)
  }

  // ---------------------------------------------------------------------------------------
  // The plain rounds are these rounds

  /** Column c of a state. */
  function Column(s: State, c: nat): Word
    requires c < 4
  {
    if c == 0 then s.s0 else if c == 1 then s.s1 else if c == 2 then s.s2 else s.s3
  }

  lemma AtState(s: State, r: nat, c: nat)
    requires r < 4 && c < 4
    ensures At(FromState(s), r, c) == KeyByte(Column(s, c), r)
  {
  }

  lemma AddKeyBytes(s: State, rk: seq<Word>, i: nat)
    requires 4 * i + 4 <= |rk|
    ensures KeyAdded(FromState(s), FromState(AddKey(s, RoundKey(rk, i))), rk, i)
  {
    hide Xor, FromState, At;
    forall r: nat, c: nat | r < 4 && c < 4
      ensures At(FromState(AddKey(s, RoundKey(rk, i))), r, c) == Xor(At(FromState(s), r, c), KeyByte(rk[4 * i + c], r))
    {
      AtState(s, r, c);
      AtState(AddKey(s, RoundKey(rk, i)), r, c);
    }
  }

  lemma ShiftBytes(s: State)
    ensures SubstitutedShifted(FromState(s), FromState(ShiftRows(SubBytes(s))))
  {
    hide S, FromState, At;
    forall r: nat, c: nat | r < 4 && c < 4
      ensures At(FromState(ShiftRows(SubBytes(s))), r, c) == S(At(FromState(s), r, (c + r) % 4))
    {
      AtState(s, r, (c + r) % 4);
      AtState(ShiftRows(SubBytes(s)), r, c);
      ShiftByte(s, r, c);
    }
  }

  lemma ShiftByte(s: State, r: nat, c: nat)
    requires r < 4 && c < 4
    ensures KeyByte(Column(ShiftRows(SubBytes(s)), c), r) == S(KeyByte(Column(s, (c + r) % 4), r))
  {
    hide S;
  }

  lemma MixBytes(s: State)
    ensures Mixed(FromState(s), FromState(MixColumns(s)))
  {
    hide Times, Mul2, Mul3, FromState, At, Xor, MixWord;
    forall r: nat, c: nat | r < 4 && c < 4
      ensures At(FromState(MixColumns(s)), r, c)
           == Xor(Xor(Times(At(FromState(s), r, c), 0x02), Times(At(FromState(s), (r + 1) % 4, c), 0x03)),
                  Xor(At(FromState(s), (r + 2) % 4, c), At(FromState(s), (r + 3) % 4, c)))
    {
      AtState(MixColumns(s), r, c);
      AtState(s, r, c);
      AtState(s, (r + 1) % 4, c);
      AtState(s, (r + 2) % 4, c);
      AtState(s, (r + 3) % 4, c);
      assert Column(MixColumns(s), c) == MixWord(Column(s, c));
      MixWordBytes(Column(s, c), r);
    }
  }

  lemma MixWordBytes(w: Word, r: nat)
    requires r < 4
    ensures KeyByte(MixWord(w), r) == Xor(Xor(Times(KeyByte(w, r), 0x02), Times(KeyByte(w, (r + 1) % 4), 0x03)),
                                          Xor(KeyByte(w, (r + 2) % 4), KeyByte(w, (r + 3) % 4)))
  {
    hide Times, Xor, MixWord;
    if r == 0 {
      MixFirst(w);
    } else if r == 1 {
      MixSecond(w);
    } else if r == 2 {
      MixThird(w);
    } else {
      MixFourth(w);
    }
  }

  lemma MixFirst(w: Word)
    ensures MixWord(w).a == Xor(Xor(Times(w.a, 0x02), Times(w.b, 0x03)), Xor(w.c, w.d))
  {
    hide Times, Mul2, Mul3, Xor;
    Multiples(w.a);
    Multiples(w.b);
  }

  lemma MixSecond(w: Word)
    ensures MixWord(w).b == Xor(Xor(Times(w.b, 0x02), Times(w.c, 0x03)), Xor(w.d, w.a))
  {
    hide Times, Mul2, Mul3, Xor;
    Multiples(w.b);
    Multiples(w.c);
    SumTurn(w.a, Mul2(w.b), Mul3(w.c), w.d);
  }

  lemma MixThird(w: Word)
    ensures MixWord(w).c == Xor(Xor(Times(w.c, 0x02), Times(w.d, 0x03)), Xor(w.a, w.b))
  {
    hide Times, Mul2, Mul3, Xor;
    Multiples(w.c);
    Multiples(w.d);
    SumTurnTwo(w.a, w.b, Mul2(w.c), Mul3(w.d));
  }

  lemma MixFourth(w: Word)
    ensures MixWord(w).d == Xor(Xor(Times(w.d, 0x02), Times(w.a, 0x03)), Xor(w.b, w.c))
  {
    hide Times, Mul2, Mul3, Xor;
    Multiples(w.d);
    Multiples(w.a);
    SumTurn(Mul2(w.d), Mul3(w.a), w.b, w.c);
  }

  lemma SumTurnTwo(a: bv8, b: bv8, c: bv8, d: bv8)
    ensures Sum(a, b, c, d) == Xor(Xor(c, d), Xor(a, b))
  {
    XorCommutes(Xor(a, b), Xor(c, d));
  }

  /** The state after r full rounds, for every round up to n. */
  function States(rk: seq<Word>, n: nat, s: State): (g: seq<Grid>)
    requires 4 * n + 4 <= |rk|
    ensures |g| == n
  {
    seq<Grid>(n, i requires 0 <= i < n => FromState(Rounds(rk, i, s)))
  }

  lemma RoundBytes(rk: seq<Word>, i: nat, s: State)
    requires 1 <= i && 4 * i + 4 <= |rk|
    ensures InnerRound(FromState(Rounds(rk, i - 1, s)), FromState(Rounds(rk, i, s)), rk, i)
  {
    hide FromState, MixColumns, ShiftRows, SubBytes, AddKey, KeyAdded, Mixed, SubstitutedShifted, RoundKey, At;
    var t := Rounds(rk, i - 1, s);
    var u := ShiftRows(SubBytes(t));
    ShiftBytes(t);
    MixBytes(u);
    AddKeyBytes(MixColumns(u), rk, i);
  }

  /** The block function is the cipher of section 5.1. */
  lemma CipherBytes(rk: seq<Word>, n: nat, block: Grid)
    requires n >= 1 && 4 * n + 4 <= |rk|
    ensures Ciphers(block, States(rk, n, ToState(block)), EncryptedBlock(rk, n, block), rk, n)
  {
    hide FromState, ToState, MixColumns, ShiftRows, SubBytes, AddKey, KeyAdded, InnerRound, SubstitutedShifted, RoundKey;
    var s := ToState(block);
    var g := States(rk, n, s);
    StateInverse(block);
    AddKeyBytes(s, rk, 0);
    forall i: nat | 1 <= i < n ensures InnerRound(g[i - 1], g[i], rk, i) { RoundBytes(rk, i, s); }
    var t := Rounds(rk, n - 1, s);
    ShiftBytes(t);
    AddKeyBytes(ShiftRows(SubBytes(t)), rk, n);
    assert SubstitutedShifted(g[n - 1], FromState(ShiftRows(SubBytes(t))));
  }
}
