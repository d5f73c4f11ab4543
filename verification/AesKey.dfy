/** Key schedules and the block functions with tables, proved to compute the plain rounds. */
module AesKey {
  import opened Boxes
  import opened Aes
  import opened ByteAccess

  // ---------------------------------------------------------------------------------------
  // The tables: products of a substituted byte with a column of the matrix

  function Te0(x: bv8): Word { Word(Mul2(S(x)), S(x), S(x), Mul3(S(x))) }
  function Te1(x: bv8): Word { Word(Mul3(S(x)), Mul2(S(x)), S(x), S(x)) }
  function Te2(x: bv8): Word { Word(S(x), Mul3(S(x)), Mul2(S(x)), S(x)) }
  function Te3(x: bv8): Word { Word(S(x), S(x), Mul3(S(x)), Mul2(S(x))) }
  function Te4(x: bv8): Word { Word(S(x), S(x), S(x), S(x)) }

  function Td0(x: bv8): Word { Word(MulE(Si(x)), Mul9(Si(x)), MulD(Si(x)), MulB(Si(x))) }
  function Td1(x: bv8): Word { Word(MulB(Si(x)), MulE(Si(x)), Mul9(Si(x)), MulD(Si(x))) }
  function Td2(x: bv8): Word { Word(MulD(Si(x)), MulB(Si(x)), MulE(Si(x)), Mul9(Si(x))) }
  function Td3(x: bv8): Word { Word(Mul9(Si(x)), MulD(Si(x)), MulB(Si(x)), MulE(Si(x))) }
  function Td4(x: bv8): Word { Word(Si(x), Si(x), Si(x), Si(x)) }

  /** The sum of four words, in the order of the code. */
  function Sum4(v: Word, w: Word, x: Word, y: Word): Word { Add(Add(Add(v, w), x), y) }

  /** The sum of four words, each masked to another byte. */
  function Gather(v: Word, w: Word, x: Word, y: Word): Word {
    Sum4(Word(v.a, 0, 0, 0), Word(0, w.b, 0, 0), Word(0, 0, x.c, 0), Word(0, 0, 0, y.d))
  }

  lemma Gathered(v: Word, w: Word, x: Word, y: Word)
    ensures Gather(v, w, x, y) == Word(v.a, w.b, x.c, y.d)
  {
    hide Xor;
    XorCancel(v.a, 0);
    XorCancel(w.b, 0);
    XorCancel(x.c, 0);
    XorCancel(y.d, 0);
    XorCancel(0, 0);
  }

  lemma SumLeft(a: bv8, b: bv8, c: bv8, d: bv8)
    ensures Xor(Xor(Xor(a, b), c), d) == Sum(a, b, c, d)
  {
    XorAssociates(Xor(a, b), c, d);
  }

  lemma EncryptionTables(a: bv8, b: bv8, c: bv8, d: bv8)
    ensures Sum4(Te0(a), Te1(b), Te2(c), Te3(d)) == MixWord(SubWord(Word(a, b, c, d)))
  {
    hide S, Xor, Mul2, Mul3, Sum;
    SumLeft(Mul2(S(a)), Mul3(S(b)), S(c), S(d));
    SumLeft(S(a), Mul2(S(b)), Mul3(S(c)), S(d));
    SumLeft(S(a), S(b), Mul2(S(c)), Mul3(S(d)));
    SumLeft(Mul3(S(a)), S(b), S(c), Mul2(S(d)));
  }

  lemma DecryptionTables(a: bv8, b: bv8, c: bv8, d: bv8)
    ensures Sum4(Td0(a), Td1(b), Td2(c), Td3(d)) == UnmixWord(InvSubWord(Word(a, b, c, d)))
  {
    hide Si, Xor, Mul9, MulB, MulD, MulE, Sum;
    SumLeft(MulE(Si(a)), MulB(Si(b)), MulD(Si(c)), Mul9(Si(d)));
    SumLeft(Mul9(Si(a)), MulE(Si(b)), MulB(Si(c)), MulD(Si(d)));
    SumLeft(MulD(Si(a)), Mul9(Si(b)), MulE(Si(c)), MulB(Si(d)));
    SumLeft(MulB(Si(a)), MulD(Si(b)), Mul9(Si(c)), MulE(Si(d)));
  }

  /** Looking a word up through Te4 first leaves only the multiplication. */
  lemma KeyTables(w: Word)
    ensures Sum4(Td0(Te4(w.a).d), Td1(Te4(w.b).d), Td2(Te4(w.c).d), Td3(Te4(w.d).d)) == UnmixWord(w)
  {
    hide S, Si, Xor, Sum4, Td0, Td1, Td2, Td3, UnmixWord;
    DecryptionTables(S(w.a), S(w.b), S(w.c), S(w.d));
    SubWordInverse(w);
  }

  // ---------------------------------------------------------------------------------------
  // Key expansion, section 5.2 of FIPS 197

  const RCON: seq<bv8> := [0x01, 0x02, 0x04, 0x08, 0x10, 0x20, 0x40, 0x80, 0x1b, 0x36]

  /** x to the power i. */
  function Power(i: nat): bv8 { if i == 0 then 1 else XTime(Power(i - 1)) }

  function RotWord(w: Word): Word { Word(w.b, w.c, w.d, w.a) }

  ghost predicate KeySize(nk: nat) { nk == 4 || nk == 6 || nk == 8 }

  /** Word i of the schedule of the given key words. */
  ghost function Expanded(key: seq<Word>, i: nat): Word
    requires KeySize(|key|)
  {
    if i < |key| then key[i]
    else if i % |key| == 0 then
      Add(Expanded(key, i - |key|), Add(SubWord(RotWord(Expanded(key, i - 1))), Word(Power(i / |key| - 1), 0, 0, 0)))
    else if |key| > 6 && i % |key| == 4 then
      Add(Expanded(key, i - |key|), SubWord(Expanded(key, i - 1)))
    else
      Add(Expanded(key, i - |key|), Expanded(key, i - 1))
  }

  /** The words before m hold the schedule. */
  ghost predicate Filled(rk: seq<Word>, key: seq<Word>, m: nat)
    requires KeySize(|key|)
  {
    m <= |rk| && forall i: nat :: i < m ==> rk[i] == Expanded(key, i)
  }

  /** The constants of the code are the powers of x. */
  lemma {:induction false} RconPower(i: nat)
    requires i < 10
    ensures RCON[i] == Power(i)
  {
    hide XTime, Power;
    if i == 0 {
      PowerZero();
    } else {
      RconPower(i - 1);
      PowerOf(i);
      Doubles();
    }
  }

  lemma PowerZero()
    ensures Power(0) == 1
  {
  }

  lemma PowerOf(i: nat)
    requires i > 0
    ensures Power(i) == XTime(Power(i - 1))
  {
    hide XTime;
  }

  lemma Doubles()
    ensures XTime(0x01) == 0x02 && XTime(0x02) == 0x04 && XTime(0x04) == 0x08
    ensures XTime(0x08) == 0x10 && XTime(0x10) == 0x20 && XTime(0x20) == 0x40
    ensures XTime(0x40) == 0x80 && XTime(0x80) == 0x1b && XTime(0x1b) == 0x36
  {
  }

  function Rotated(w: Word): Word { Gather(Te4(w.b), Te4(w.c), Te4(w.d), Te4(w.a)) }
  function Straight(w: Word): Word { Gather(Te4(w.a), Te4(w.b), Te4(w.c), Te4(w.d)) }

  lemma FirstOfRow(rk: seq<Word>, key: seq<Word>, i: nat)
    requires KeySize(|key|) && Filled(rk, key, |key| * (i + 1)) && i < 10
    ensures Add(Add(rk[|key| * i], Rotated(rk[|key| * i + |key| - 1])), Word(RCON[i], 0, 0, 0)) == Expanded(key, |key| * (i + 1))
  {
    hide Add, Te4, S, Gather, Power;
    var n := |key|;
    var w := rk[n * i + n - 1];
    assert Rotated(w) == SubWord(RotWord(w)) by {
      hide Expanded, Filled;
      Gathered(Te4(w.b), Te4(w.c), Te4(w.d), Te4(w.a));
      Looked(w);
    }
    RconPower(i);
    AddAssociates(rk[n * i], Rotated(w), Word(RCON[i], 0, 0, 0));
    assert (n * (i + 1)) % n == 0 && n * (i + 1) / n == i + 1;
  }

  lemma Looked(w: Word)
    ensures Te4(w.b).a == S(w.b) && Te4(w.c).b == S(w.c) && Te4(w.d).c == S(w.d) && Te4(w.a).d == S(w.a)
    ensures Te4(w.a).a == S(w.a) && Te4(w.b).b == S(w.b) && Te4(w.c).c == S(w.c) && Te4(w.d).d == S(w.d)
  {
    hide S;
  }

  lemma MiddleOfRow(rk: seq<Word>, key: seq<Word>, i: nat)
    requires |key| == 8 && Filled(rk, key, 8 * i + 12)
    ensures Add(rk[8 * i + 4], Straight(rk[8 * i + 11])) == Expanded(key, 8 * i + 12)
  {
    hide Add, Te4, S, Gather;
    var w := rk[8 * i + 11];
    Gathered(Te4(w.a), Te4(w.b), Te4(w.c), Te4(w.d));
    Looked(w);
  }

  lemma RowIndex(n: nat, i: nat, j: nat)
    requires (n == 4 || n == 6 || n == 8) && j < n
    ensures (n * (i + 1) + j) % n == j && n * (i + 1) + j == n * i + j + n
  {
    if n == 4 {
      assert (4 * (i + 1) + j) % 4 == j;
    } else if n == 6 {
      assert (6 * (i + 1) + j) % 6 == j;
    } else {
      assert (8 * (i + 1) + j) % 8 == j;
    }
  }

  lemma RestOfRow(rk: seq<Word>, key: seq<Word>, i: nat, j: nat)
    requires KeySize(|key|) && 0 < j < |key| && !(|key| == 8 && j == 4) && Filled(rk, key, |key| * i + j + |key|)
    ensures Add(rk[|key| * i + j], rk[|key| * i + j + |key| - 1]) == Expanded(key, |key| * i + j + |key|)
  {
    hide Add;
    RowIndex(|key|, i, j);
  }

  // ---------------------------------------------------------------------------------------
  // Blocks of bytes

  function ToWord(b: seq<bv8>, i: nat): Word
    requires i + 4 <= |b|
  {
    Word(b[i], b[i + 1], b[i + 2], b[i + 3])
  }

  function FromWord(w: Word): (b: seq<bv8>)
    ensures |b| == 4
  {
    [w.a, w.b, w.c, w.d]
  }

  function ToState(b: seq<bv8>): State
    requires |b| == 16
  {
    State(ToWord(b, 0), ToWord(b, 4), ToWord(b, 8), ToWord(b, 12))
  }

  function FromState(s: State): (b: seq<bv8>)
    ensures |b| == 16
  {
    FromWord(s.s0) + FromWord(s.s1) + FromWord(s.s2) + FromWord(s.s3)
  }

  lemma BytesInverse(s: State)
    ensures ToState(FromState(s)) == s
  {
  }

  lemma StateInverse(b: seq<bv8>)
    requires |b| == 16
    ensures FromState(ToState(b)) == b
  {
  }

  /** The words of a key of 16, 24 or 32 bytes. */
  function KeyWords(b: seq<bv8>): (k: seq<Word>)
    requires |b| % 4 == 0
    ensures |k| == |b| / 4
  {
    seq(|b| / 4, i requires 0 <= i < |b| / 4 => ToWord(b, 4 * i))
  }

  function RoundsFor(bits: int): nat { if bits == 128 then 10 else if bits == 192 then 12 else 14 }

  lemma KeyWord(b: seq<bv8>, i: nat)
    requires |b| % 4 == 0 && i < |b| / 4
    ensures KeyWords(b)[i] == ToWord(b, 4 * i)
  {
  }

  ghost predicate GoodBits(bits: int) { bits == 128 || bits == 192 || bits == 256 }

  lemma KeyFilled(rk: seq<Word>, key: seq<Word>)
    requires KeySize(|key|) && |rk| >= |key| && forall j :: 0 <= j < |key| ==> rk[j] == key[j]
    ensures Filled(rk, key, |key|)
  {
  }

  /** The round keys for the given bytes. */
  ghost predicate Schedule(rk: seq<Word>, key: seq<bv8>, rounds: nat) {
    (|key| == 16 || |key| == 24 || |key| == 32) && Filled(rk, KeyWords(key), 4 * rounds + 4)
  }

  /** The round keys of section 5.3.5 of FIPS 197: in reverse order, the inner ones transformed. */
  ghost predicate InverseSchedule(dk: seq<Word>, key: seq<bv8>, rounds: nat) {
    (|key| == 16 || |key| == 24 || |key| == 32) && Inverts(Expansion(key, rounds), dk, rounds)
  }

  ghost function Expansion(key: seq<bv8>, rounds: nat): (rk: seq<Word>)
    requires |key| == 16 || |key| == 24 || |key| == 32
    ensures Schedule(rk, key, rounds) && |rk| == 4 * rounds + 4
  {
    seq(4 * rounds + 4, i requires i >= 0 => Expanded(KeyWords(key), i))
  }

  // The schedule byte by byte

  /** The first word of a row: the word before it, substituted and turned by one byte, and the constant of the row. */
  ghost predicate FirstBytes(v: Word, w: Word, x: Word, row: nat)
    requires 1 <= row <= 10
  {
    && v.a == w.a ^ S(x.b) ^ [0x01 as bv8, 0x02, 0x04, 0x08, 0x10, 0x20, 0x40, 0x80, 0x1b, 0x36][row - 1]
    && v.b == w.b ^ S(x.c) && v.c == w.c ^ S(x.d) && v.d == w.d ^ S(x.a)
  }

  ghost predicate MiddleBytes(v: Word, w: Word, x: Word) {
    v.a == w.a ^ S(x.a) && v.b == w.b ^ S(x.b) && v.c == w.c ^ S(x.c) && v.d == w.d ^ S(x.d)
  }

  ghost predicate OtherBytes(v: Word, w: Word, x: Word) {
    v.a == w.a ^ x.a && v.b == w.b ^ x.b && v.c == w.c ^ x.c && v.d == w.d ^ x.d
  }

  /** Word i of the schedule for a key of 16, 24 or 32 bytes, section 5.2 of FIPS 197. */
  ghost predicate WordBytes(rk: seq<Word>, key: seq<bv8>, i: nat)
    requires (|key| == 16 || |key| == 24 || |key| == 32) && i < |rk| && i < |key| + 28
  {
    var n := |key| / 4;
    if i < n then rk[i].a == key[4 * i] && rk[i].b == key[4 * i + 1] && rk[i].c == key[4 * i + 2] && rk[i].d == key[4 * i + 3]
    else if i % n == 0 then FirstBytes(rk[i], rk[i - n], rk[i - 1], i / n)
    else if n == 8 && i % 8 == 4 then MiddleBytes(rk[i], rk[i - n], rk[i - 1])
    else OtherBytes(rk[i], rk[i - n], rk[i - 1])
  }

  /** All words of the schedule, 44 for 16 bytes, 52 for 24 and 60 for 32. */
  ghost predicate ScheduleBytes(rk: seq<Word>, key: seq<bv8>) {
    && (|key| == 16 || |key| == 24 || |key| == 32) && |key| + 28 <= |rk|
    && forall i: nat :: i < |key| + 28 ==> WordBytes(rk, key, i)
  }

  lemma WordOfSchedule(rk: seq<Word>, key: seq<bv8>, rounds: nat, i: nat)
    requires Schedule(rk, key, rounds) && 4 * rounds + 4 == |key| + 28 && i < |key| + 28
    ensures WordBytes(rk, key, i)
  {
    hide Add, SubWord, RotWord, FirstBytes, MiddleBytes, OtherBytes, Power;
    var n := |key| / 4;
    var k := KeyWords(key);
    assert rk[i] == Expanded(k, i);
    if i < n {
      KeyWord(key, i);
    } else {
      assert rk[i - n] == Expanded(k, i - n) && rk[i - 1] == Expanded(k, i - 1);
      if i % n == 0 {
        FirstBytesOf(rk[i - n], rk[i - 1], i / n);
      } else if n == 8 && i % 8 == 4 {
        MiddleBytesOf(rk[i - n], rk[i - 1]);
      } else {
        OtherBytesOf(rk[i - n], rk[i - 1]);
      }
    }
  }

  lemma FirstBytesOf(w: Word, x: Word, row: nat)
    requires 1 <= row <= 10
    ensures FirstBytes(Add(w, Add(SubWord(RotWord(x)), Word(Power(row - 1), 0, 0, 0))), w, x, row)
  {
    hide S, Power, Add, SubWord, RotWord;
    RconPower(row - 1);
    TurnedBytes(w, x, Power(row - 1));
  }

  lemma TurnedBytes(w: Word, x: Word, c: bv8)
    ensures var v := Add(w, Add(SubWord(RotWord(x)), Word(c, 0, 0, 0)));
            v.a == w.a ^ S(x.b) ^ c && v.b == w.b ^ S(x.c) && v.c == w.c ^ S(x.d) && v.d == w.d ^ S(x.a)
  {
    hide S, Xor;
    AddsThree(w.a, S(x.b), c);
    AddsThree(w.b, S(x.c), 0);
    AddsThree(w.c, S(x.d), 0);
    AddsThree(w.d, S(x.a), 0);
  }

  lemma AddsThree(a: bv8, b: bv8, c: bv8)
    ensures Xor(a, Xor(b, c)) == a ^ b ^ c
    ensures a ^ b ^ 0 == a ^ b
  {
  }

  lemma MiddleBytesOf(w: Word, x: Word)
    ensures MiddleBytes(Add(w, SubWord(x)), w, x)
  {
    hide S;
  }

  lemma OtherBytesOf(w: Word, x: Word)
    ensures OtherBytes(Add(w, x), w, x)
  {
  }

  /** The two schedules for the same key undo each other. */
  lemma SchedulesInvert(rk: seq<Word>, dk: seq<Word>, key: seq<bv8>, rounds: nat)
    requires Schedule(rk, key, rounds) && InverseSchedule(dk, key, rounds)
    ensures Inverts(rk, dk, rounds)
  {
    hide Expanded, KeyWords, InvMixColumns;
    forall r: nat | r <= rounds ensures RoundKey(rk, r) == RoundKey(Expansion(key, rounds), r) {
      SameRound(rk, Expansion(key, rounds), KeyWords(key), r);
    }
  }

  lemma SameRound(rk: seq<Word>, ek: seq<Word>, key: seq<Word>, r: nat)
    requires KeySize(|key|) && Filled(rk, key, 4 * r + 4) && Filled(ek, key, 4 * r + 4)
    ensures RoundKey(rk, r) == RoundKey(ek, r)
  {
    hide Expanded;
  }

  // ---------------------------------------------------------------------------------------
  // Rounds with tables

  function EncryptWord(v: Word, w: Word, x: Word, y: Word, k: Word): Word {
    Add(Sum4(Te0(v.a), Te1(w.b), Te2(x.c), Te3(y.d)), k)
  }

  function DecryptWord(v: Word, w: Word, x: Word, y: Word, k: Word): Word {
    Add(Sum4(Td0(v.a), Td1(w.b), Td2(x.c), Td3(y.d)), k)
  }

  function LastWord(v: Word, w: Word, x: Word, y: Word, k: Word): Word {
    Add(Gather(Te4(v.a), Te4(w.b), Te4(x.c), Te4(y.d)), k)
  }

  function LastInvWord(v: Word, w: Word, x: Word, y: Word, k: Word): Word {
    Add(Gather(Td4(v.a), Td4(w.b), Td4(x.c), Td4(y.d)), k)
  }

  lemma EncryptRound(s: State, k: State)
    ensures State(EncryptWord(s.s0, s.s1, s.s2, s.s3, k.s0), EncryptWord(s.s1, s.s2, s.s3, s.s0, k.s1),
                  EncryptWord(s.s2, s.s3, s.s0, s.s1, k.s2), EncryptWord(s.s3, s.s0, s.s1, s.s2, k.s3))
         == AddKey(MixColumns(ShiftRows(SubBytes(s))), k)
  {
    hide Add, Sum4, Te0, Te1, Te2, Te3, S, MixWord;
    EncryptionTables(s.s0.a, s.s1.b, s.s2.c, s.s3.d);
    EncryptionTables(s.s1.a, s.s2.b, s.s3.c, s.s0.d);
    EncryptionTables(s.s2.a, s.s3.b, s.s0.c, s.s1.d);
    EncryptionTables(s.s3.a, s.s0.b, s.s1.c, s.s2.d);
  }

  lemma DecryptRound(s: State, k: State)
    ensures State(DecryptWord(s.s0, s.s3, s.s2, s.s1, k.s0), DecryptWord(s.s1, s.s0, s.s3, s.s2, k.s1),
                  DecryptWord(s.s2, s.s1, s.s0, s.s3, k.s2), DecryptWord(s.s3, s.s2, s.s1, s.s0, k.s3))
         == AddKey(InvMixColumns(InvShiftRows(InvSubBytes(s))), k)
  {
    hide Add, Sum4, Td0, Td1, Td2, Td3, Si, UnmixWord;
    DecryptionTables(s.s0.a, s.s3.b, s.s2.c, s.s1.d);
    DecryptionTables(s.s1.a, s.s0.b, s.s3.c, s.s2.d);
    DecryptionTables(s.s2.a, s.s1.b, s.s0.c, s.s3.d);
    DecryptionTables(s.s3.a, s.s2.b, s.s1.c, s.s0.d);
  }

  lemma LastRound(s: State, k: State)
    ensures State(LastWord(s.s0, s.s1, s.s2, s.s3, k.s0), LastWord(s.s1, s.s2, s.s3, s.s0, k.s1),
                  LastWord(s.s2, s.s3, s.s0, s.s1, k.s2), LastWord(s.s3, s.s0, s.s1, s.s2, k.s3))
         == AddKey(ShiftRows(SubBytes(s)), k)
  {
    hide Add, Gather, S;
    Gathered(Te4(s.s0.a), Te4(s.s1.b), Te4(s.s2.c), Te4(s.s3.d));
    Gathered(Te4(s.s1.a), Te4(s.s2.b), Te4(s.s3.c), Te4(s.s0.d));
    Gathered(Te4(s.s2.a), Te4(s.s3.b), Te4(s.s0.c), Te4(s.s1.d));
    Gathered(Te4(s.s3.a), Te4(s.s0.b), Te4(s.s1.c), Te4(s.s2.d));
  }

  lemma LastInvRound(s: State, k: State)
    ensures State(LastInvWord(s.s0, s.s3, s.s2, s.s1, k.s0), LastInvWord(s.s1, s.s0, s.s3, s.s2, k.s1),
                  LastInvWord(s.s2, s.s1, s.s0, s.s3, k.s2), LastInvWord(s.s3, s.s2, s.s1, s.s0, k.s3))
         == AddKey(InvShiftRows(InvSubBytes(s)), k)
  {
    hide Add, Gather, Si;
    Gathered(Td4(s.s0.a), Td4(s.s3.b), Td4(s.s2.c), Td4(s.s1.d));
    Gathered(Td4(s.s1.a), Td4(s.s0.b), Td4(s.s3.c), Td4(s.s2.d));
    Gathered(Td4(s.s2.a), Td4(s.s1.b), Td4(s.s0.c), Td4(s.s3.d));
    Gathered(Td4(s.s3.a), Td4(s.s2.b), Td4(s.s1.c), Td4(s.s0.d));
  }

  /** The first r round keys and the last r have changed places. */
  ghost predicate Swapped(dk: seq<Word>, rk: seq<Word>, n: nat, r: nat)
    requires |rk| == |dk| >= 4 * n + 4
  {
    forall a: nat :: a <= n ==> RoundKey(dk, a) == RoundKey(rk, if a < r || a > n - r then n - a else a)
  }

  /** All round keys are in reverse order, those from 1 up to r transformed. */
  ghost predicate Transformed(dk: seq<Word>, rk: seq<Word>, n: nat, r: nat)
    requires |rk| == |dk| >= 4 * n + 4
  {
    forall a: nat :: a <= n ==>
      RoundKey(dk, a) == if 1 <= a < r then InvMixColumns(RoundKey(rk, n - a)) else RoundKey(rk, n - a)
  }

  /** All but the named round keys are the same. */
  ghost predicate SameBut(dk: seq<Word>, rk: seq<Word>, a: nat, b: nat)
    requires |rk| == |dk| == 60
  {
    forall r: nat :: r < 15 && r != a && r != b ==> RoundKey(dk, r) == RoundKey(rk, r)
  }

  function Exchanged(s: seq<Word>, i: nat, j: nat): (t: seq<Word>)
    requires i < j < |s|
    ensures |t| == |s|
  {
    s[i := s[j]][j := s[i]]
  }

  lemma SwapWords(dk: seq<Word>, rk: seq<Word>, i: nat, j: nat, a: nat, b: nat)
    requires |rk| == 60 && i == 4 * a && j == 4 * b && a < b < 15
    requires dk == Exchanged(Exchanged(Exchanged(Exchanged(rk, i, j), i + 1, j + 1), i + 2, j + 2), i + 3, j + 3)
    ensures SameBut(dk, rk, a, b) && RoundKey(dk, a) == RoundKey(rk, b) && RoundKey(dk, b) == RoundKey(rk, a)
  {
  }

  lemma SwapStep(dk: seq<Word>, ek: seq<Word>, rk: seq<Word>, n: nat, r: nat)
    requires |rk| == |dk| == |ek| == 60 && n <= 14 && 2 * r < n && Swapped(ek, rk, n, r) && SameBut(dk, ek, r, n - r)
    requires RoundKey(dk, r) == RoundKey(ek, n - r) && RoundKey(dk, n - r) == RoundKey(ek, r)
    ensures Swapped(dk, rk, n, r + 1)
  {
    hide RoundKey;
  }

  lemma SwapEnd(dk: seq<Word>, rk: seq<Word>, n: nat, r: nat)
    requires |rk| == |dk| == 60 && n <= 14 && n <= 2 * r && Swapped(dk, rk, n, r)
    ensures Transformed(dk, rk, n, 1)
  {
    hide RoundKey;
  }

  lemma TransformStep(dk: seq<Word>, ek: seq<Word>, rk: seq<Word>, n: nat, r: nat)
    requires |rk| == |dk| == |ek| == 60 && n <= 14 && 1 <= r < n && Transformed(ek, rk, n, r) && SameBut(dk, ek, r, r)
    requires RoundKey(dk, r) == InvMixColumns(RoundKey(ek, r))
    ensures Transformed(dk, rk, n, r + 1)
  {
    hide RoundKey, InvMixColumns;
  }

  lemma TransformEnd(dk: seq<Word>, rk: seq<Word>, key: seq<bv8>, n: nat)
    requires |rk| == |dk| == 60 && 1 <= n <= 14 && Transformed(dk, rk, n, n) && Schedule(rk, key, n)
    ensures InverseSchedule(dk, key, n)
  {
    hide RoundKey, InvMixColumns, Expanded, KeyWords;
    forall r: nat | r <= n ensures RoundKey(rk, r) == RoundKey(Expansion(key, n), r) {
      SameRound(rk, Expansion(key, n), KeyWords(key), r);
    }
  }

  lemma RoundsStart(rk: seq<Word>, s: State)
    requires |rk| >= 4
    ensures Rounds(rk, 0, s) == State(Add(s.s0, rk[0]), Add(s.s1, rk[1]), Add(s.s2, rk[2]), Add(s.s3, rk[3]))
  {
    hide Add;
  }

  lemma RoundsNext(rk: seq<Word>, r: nat, s: State)
    requires r > 0 && 4 * r + 4 <= |rk|
    ensures Rounds(rk, r, s) == AddKey(MixColumns(ShiftRows(SubBytes(Rounds(rk, r - 1, s)))), RoundKey(rk, r))
  {
    hide Add, AddKey;
  }

  lemma InvRoundsStart(rk: seq<Word>, s: State)
    requires |rk| >= 4
    ensures InvRounds(rk, 0, s) == State(Add(s.s0, rk[0]), Add(s.s1, rk[1]), Add(s.s2, rk[2]), Add(s.s3, rk[3]))
  {
    hide Add;
  }

  lemma InvRoundsNext(rk: seq<Word>, r: nat, s: State)
    requires r > 0 && 4 * r + 4 <= |rk|
    ensures InvRounds(rk, r, s) == AddKey(InvMixColumns(InvShiftRows(InvSubBytes(InvRounds(rk, r - 1, s)))), RoundKey(rk, r))
  {
    hide Add, AddKey;
  }

  /** A block of bytes through the plain rounds. */
  function EncryptedBlock(rk: seq<Word>, n: nat, b: seq<bv8>): (c: seq<bv8>)
    requires n >= 1 && 4 * n + 4 <= |rk| && |b| == 16
    ensures |c| == 16
  {
    FromState(Encrypted(rk, n, ToState(b)))
  }

  function DecryptedBlock(dk: seq<Word>, n: nat, c: seq<bv8>): (b: seq<bv8>)
    requires n >= 1 && 4 * n + 4 <= |dk| && |c| == 16
    ensures |b| == 16
  {
    FromState(Decrypted(dk, n, ToState(c)))
  }

  /** For every key of 128, 192 or 256 bits, decryption gives back every block. */
  lemma BlockRoundTrip(rk: seq<Word>, dk: seq<Word>, key: seq<bv8>, n: nat, b: seq<bv8>)
    requires Schedule(rk, key, n) && InverseSchedule(dk, key, n) && |b| == 16
    ensures DecryptedBlock(dk, n, EncryptedBlock(rk, n, b)) == b
  {
    hide Schedule, InverseSchedule, Inverts, Encrypted, Decrypted, FromState, ToState;
    SchedulesInvert(rk, dk, key, n);
    ScheduleShape(rk, dk, n);
    DecryptEncrypt(rk, dk, n, ToState(b));
    BytesInverse(Encrypted(rk, n, ToState(b)));
    StateInverse(b);
  }

  lemma ScheduleShape(rk: seq<Word>, dk: seq<Word>, n: nat)
    requires Inverts(rk, dk, n)
    ensures n >= 1 && |rk| >= 4 * n + 4 && |dk| >= 4 * n + 4
  {
  }

  class Key {
    var rdKey: array<Word>
    var rounds: nat

    ghost predicate Valid()
      reads this
    {
      rdKey.Length == 60
    }

    /** A buffer of bytes is not the array of words. */
    ghost predicate Apart(a: array<bv8>)
      reads this
    {
      var words: object, bytes: object := rdKey, a;
      words != bytes
    }

    /** A schedule for some key is in place. */
    ghost predicate Ready()
      reads this
    {
      Valid() && (rounds == 10 || rounds == 12 || rounds == 14)
    }

    constructor ()
      ensures Valid() && fresh(rdKey)
    {
      rdKey := new Word[60](i => NULL_WORD);
      rounds := 0;
    }

    /** Word m of the schedule is written once the earlier ones are there. */
    method Put(ghost key: seq<Word>, m: nat, w: Word)
      requires Valid() && m < 60 && KeySize(|key|) && Filled(rdKey[..], key, m) && w == Expanded(key, m)
      modifies rdKey
      ensures Filled(rdKey[..], key, m + 1)
    {
      hide Expanded;
      rdKey[m] := w;
    }

    method PutRest(ghost key: seq<Word>, n: nat, p: nat, ghost i: nat, j: nat)
      requires Valid() && n == |key| && p == n * i && 0 < j < n && p + n + j < 60
      requires KeySize(|key|) && !(n == 8 && j == 4) && Filled(rdKey[..], key, p + n + j)
      modifies rdKey
      ensures Filled(rdKey[..], key, p + n + j + 1)
    {
      hide Expanded, Filled, Add;
      RestOfRow(rdKey[..], key, i, j);
      Put(key, p + n + j, Add(rdKey[p + j], rdKey[p + n + j - 1]));
    }

    method PutFirst(ghost key: seq<Word>, n: nat, p: nat, i: nat)
      requires Valid() && n == |key| && p == n * i && i < 10 && p + n < 60
      requires KeySize(|key|) && Filled(rdKey[..], key, p + n)
      modifies rdKey
      ensures Filled(rdKey[..], key, p + n + 1)
    {
      hide Expanded, Filled, Add, Rotated;
      var temp := rdKey[p + n - 1];
      FirstOfRow(rdKey[..], key, i);
      Put(key, p + n, Add(Add(rdKey[p], Rotated(temp)), Word(RCON[i], 0, 0, 0)));
    }

    method PutMiddle(ghost key: seq<Word>, p: nat, ghost i: nat)
      requires Valid() && |key| == 8 && p == 8 * i && p + 12 < 60 && Filled(rdKey[..], key, p + 12)
      modifies rdKey
      ensures Filled(rdKey[..], key, p + 13)
    {
      hide Expanded, Filled, Add, Straight;
      var temp := rdKey[p + 11];
      MiddleOfRow(rdKey[..], key, i);
      Put(key, p + 12, Add(rdKey[p + 4], Straight(temp)));
    }

    method PutKey(userKey: array<bv8>, n: nat)
      requires Valid() && Apart(userKey) && KeySize(n) && userKey.Length >= 4 * n
      modifies rdKey
      ensures Filled(rdKey[..], KeyWords(userKey[..4 * n]), n)
    {
      hide Expanded, KeyWords;
      ghost var bytes := userKey[..4 * n];
      ghost var key := KeyWords(bytes);
      var i := 0;
      while i < n
        invariant userKey[..4 * n] == bytes
        invariant i <= n && forall j :: 0 <= j < i ==> rdKey[j] == key[j]
      {
        KeyWord(bytes, i);
        rdKey[i] := Word(userKey[4 * i], userKey[4 * i + 1], userKey[4 * i + 2], userKey[4 * i + 3]);
        i := i + 1;
      }
      KeyFilled(rdKey[..], key);
    }

    method Expand128(ghost key: seq<Word>)
      requires Valid() && |key| == 4 && Filled(rdKey[..], key, 4)
      modifies rdKey
      ensures Filled(rdKey[..], key, 44)
    {
      hide Expanded, Filled;
      var i, p := 0, 0;
      while true
        invariant 0 <= i < 10 && p == 4 * i && Filled(rdKey[..], key, p + 4)
        decreases 10 - i
      {
        PutFirst(key, 4, p, i);
        PutRest(key, 4, p, i, 1);
        PutRest(key, 4, p, i, 2);
        PutRest(key, 4, p, i, 3);
        i := i + 1;
        if i == 10 {
          return;
        }
        p := p + 4;
      }
    }

    method Expand192(ghost key: seq<Word>)
      requires Valid() && |key| == 6 && Filled(rdKey[..], key, 6)
      modifies rdKey
      ensures Filled(rdKey[..], key, 52)
    {
      hide Expanded, Filled;
      var i, p := 0, 0;
      while true
        invariant 0 <= i < 8 && p == 6 * i && Filled(rdKey[..], key, p + 6)
        decreases 8 - i
      {
        PutFirst(key, 6, p, i);
        PutRest(key, 6, p, i, 1);
        PutRest(key, 6, p, i, 2);
        PutRest(key, 6, p, i, 3);
        i := i + 1;
        if i == 8 {
          return;
        }
        PutRest(key, 6, p, i - 1, 4);
        PutRest(key, 6, p, i - 1, 5);
        p := p + 6;
      }
    }

    method Expand256(ghost key: seq<Word>)
      requires Valid() && |key| == 8 && Filled(rdKey[..], key, 8)
      modifies rdKey
      ensures Filled(rdKey[..], key, 60)
    {
      hide Expanded, Filled;
      var i, p := 0, 0;
      while true
        invariant 0 <= i < 7 && p == 8 * i && Filled(rdKey[..], key, p + 8)
        decreases 7 - i
      {
        PutFirst(key, 8, p, i);
        PutRest(key, 8, p, i, 1);
        PutRest(key, 8, p, i, 2);
        PutRest(key, 8, p, i, 3);
        i := i + 1;
        if i == 7 {
          return;
        }
        PutMiddle(key, p, i - 1);
        PutRest(key, 8, p, i - 1, 5);
        PutRest(key, 8, p, i - 1, 6);
        PutRest(key, 8, p, i - 1, 7);
        p := p + 8;
      }
    }

    /** The encryption schedule of FIPS 197 for keys of 128, 192 and 256 bits, an error for the rest. */
    method SetEncryptKey(userKey: array?<bv8>, bits: int) returns (status: int)
      requires Valid() && (userKey != null ==> Apart(userKey))
      requires userKey != null && GoodBits(bits) ==> 8 * userKey.Length >= bits
      modifies this`rounds, rdKey
      ensures Valid() && rdKey == old(rdKey)
      ensures status == if userKey == null then -1 else if !GoodBits(bits) then -2 else 0
      ensures status < 0 ==> rounds == old(rounds) && rdKey[..] == old(rdKey[..])
      ensures status == 0 ==> rounds == RoundsFor(bits) && Schedule(rdKey[..], userKey[..bits / 8], rounds)
      ensures status == 0 ==> ScheduleBytes(rdKey[..], userKey[..bits / 8])
    {
      hide Expanded, Filled, KeyWords, WordBytes;
      if userKey == null {
        return -1;
      }
      if bits != 128 && bits != 192 && bits != 256 {
        return -2;
      }
      if bits == 128 {
        rounds := 10;
      } else if bits == 192 {
        rounds := 12;
      } else {
        rounds := 14;
      }
      PutKey(userKey, bits / 32);
      ghost var key := KeyWords(userKey[..bits / 8]);
      assert 4 * (bits / 32) == bits / 8;
      if bits == 128 {
        Expand128(key);
      } else if bits == 192 {
        Expand192(key);
      } else {
        Expand256(key);
      }
      forall i: nat | i < bits / 8 + 28 ensures WordBytes(rdKey[..], userKey[..bits / 8], i) {
        WordOfSchedule(rdKey[..], userKey[..bits / 8], rounds, i);
      }
      return 0;
    }

    method SwapWord(i: nat, j: nat)
      requires Valid() && i < j < 60
      modifies rdKey
      ensures rdKey[..] == Exchanged(old(rdKey[..]), i, j)
    {
      var temp := rdKey[i];
      rdKey[i] := rdKey[j];
      rdKey[j] := temp;
    }

    method SwapRound(i: nat, j: nat, ghost a: nat, ghost b: nat)
      requires Valid() && i == 4 * a && j == 4 * b && a < b < 15
      modifies rdKey
      ensures SameBut(rdKey[..], old(rdKey[..]), a, b)
      ensures RoundKey(rdKey[..], a) == RoundKey(old(rdKey[..]), b)
      ensures RoundKey(rdKey[..], b) == RoundKey(old(rdKey[..]), a)
    {
      hide SameBut, RoundKey, Exchanged;
      ghost var rk := rdKey[..];
      SwapWord(i, j);
      SwapWord(i + 1, j + 1);
      SwapWord(i + 2, j + 2);
      SwapWord(i + 3, j + 3);
      SwapWords(rdKey[..], rk, i, j, a, b);
    }

    method TransformWord(p: nat)
      requires Valid() && p < 60
      modifies rdKey
      ensures rdKey[..] == old(rdKey[..])[p := UnmixWord(old(rdKey[p]))]
    {
      hide Sum4, Td0, Td1, Td2, Td3, Te4, UnmixWord;
      var w := rdKey[p];
      KeyTables(w);
      rdKey[p] := Sum4(Td0(Te4(w.a).d), Td1(Te4(w.b).d), Td2(Te4(w.c).d), Td3(Te4(w.d).d));
    }

    method TransformRound(p: nat, ghost r: nat)
      requires Valid() && p == 4 * r && r < 15
      modifies rdKey
      ensures SameBut(rdKey[..], old(rdKey[..]), r, r)
      ensures RoundKey(rdKey[..], r) == InvMixColumns(RoundKey(old(rdKey[..]), r))
    {
      hide UnmixWord;
      TransformWord(p);
      TransformWord(p + 1);
      TransformWord(p + 2);
      TransformWord(p + 3);
    }

    method Reverse()
      requires Ready()
      modifies rdKey
      ensures Transformed(rdKey[..], old(rdKey[..]), rounds, 1)
    {
      hide Swapped, Transformed, SameBut, RoundKey;
      ghost var rk := rdKey[..];
      var i, j := 0, 4 * rounds;
      ghost var r := 0;
      SwapStart(rk, rounds);
      while i < j
        invariant i == 4 * r && j == 4 * rounds - 4 * r && 0 <= j && Swapped(rdKey[..], rk, rounds, r)
        decreases j - i
      {
        ghost var ek := rdKey[..];
        SwapRound(i, j, r, rounds - r);
        SwapStep(rdKey[..], ek, rk, rounds, r);
        i, j, r := i + 4, j - 4, r + 1;
      }
      SwapEnd(rdKey[..], rk, rounds, r);
    }

    /** The decryption schedule for the same keys and errors. */
    method SetDecryptKey(userKey: array?<bv8>, bits: int) returns (status: int)
      requires Valid() && (userKey != null ==> Apart(userKey))
      requires userKey != null && GoodBits(bits) ==> 8 * userKey.Length >= bits
      modifies this`rounds, rdKey
      ensures Valid() && rdKey == old(rdKey)
      ensures status == if userKey == null then -1 else if !GoodBits(bits) then -2 else 0
      ensures status < 0 ==> rounds == old(rounds) && rdKey[..] == old(rdKey[..])
      ensures status == 0 ==> rounds == RoundsFor(bits) && InverseSchedule(rdKey[..], userKey[..bits / 8], rounds)
    {
      hide Schedule, InverseSchedule, Transformed, SameBut, RoundKey, InvMixColumns;
      status := SetEncryptKey(userKey, bits);
      if status < 0 {
        return;
      }
      ghost var rk, key := rdKey[..], userKey[..bits / 8];
      Reverse();
      var i, p := 1, 0;
      while i < rounds
        modifies rdKey
        invariant 1 <= i <= rounds && p == 4 * i - 4 && userKey[..bits / 8] == key
        invariant Transformed(rdKey[..], rk, rounds, i)
      {
        ghost var ek := rdKey[..];
        p := p + 4;
        TransformRound(p, i);
        TransformStep(rdKey[..], ek, rk, rounds, i);
        i := i + 1;
      }
      TransformEnd(rdKey[..], rk, key, rounds);
    }

    method ReadState(input: array<bv8>, i: nat) returns (s: State)
      requires i + 16 <= input.Length
      ensures s == ToState(input[i..i + 16])
    {
      var s0 := Word(input[i], input[i + 1], input[i + 2], input[i + 3]);
      var s1 := Word(input[i + 4], input[i + 5], input[i + 6], input[i + 7]);
      var s2 := Word(input[i + 8], input[i + 9], input[i + 10], input[i + 11]);
      var s3 := Word(input[i + 12], input[i + 13], input[i + 14], input[i + 15]);
      s := State(s0, s1, s2, s3);
    }

    method WriteWord(output: array<bv8>, o: nat, w: Word)
      requires o + 4 <= output.Length
      modifies output
      ensures output[..] == Replaced(old(output[..]), o, FromWord(w))
    {
      output[o] := w.a;
      output[o + 1] := w.b;
      output[o + 2] := w.c;
      output[o + 3] := w.d;
    }

    method WriteState(output: array<bv8>, o: nat, s: State)
      requires o + 16 <= output.Length
      modifies output
      ensures output[..] == Replaced(old(output[..]), o, FromState(s))
    {
      hide Replaced, FromWord;
      WriteWord(output, o, s.s0);
      WriteWord(output, o + 4, s.s1);
      WriteWord(output, o + 8, s.s2);
      WriteWord(output, o + 12, s.s3);
    }

    /** All rounds but the last, two to an iteration. */
    method EncryptRounds(block: State) returns (t0: Word, t1: Word, t2: Word, t3: Word)
      requires Ready()
      ensures State(t0, t1, t2, t3) == Rounds(rdKey[..], rounds - 1, block)
    {
      hide Add, AddKey, MixColumns, ShiftRows, SubBytes, EncryptWord;
      ghost var rk := rdKey[..];
      var s0, s1 := Add(block.s0, rdKey[0]), Add(block.s1, rdKey[1]);
      var s2, s3 := Add(block.s2, rdKey[2]), Add(block.s3, rdKey[3]);
      var r, p := rounds / 2, 0;
      ghost var done := 0;
      RoundsStart(rk, block);
      while true
        invariant rdKey[..] == rk && 1 <= r && done == rounds - 2 * r && p == 4 * done
        invariant State(s0, s1, s2, s3) == Rounds(rk, done, block)
        decreases r
      {
        t0 := EncryptWord(s0, s1, s2, s3, rdKey[p + 4]);
        t1 := EncryptWord(s1, s2, s3, s0, rdKey[p + 5]);
        t2 := EncryptWord(s2, s3, s0, s1, rdKey[p + 6]);
        t3 := EncryptWord(s3, s0, s1, s2, rdKey[p + 7]);
        EncryptRound(State(s0, s1, s2, s3), RoundKey(rk, done + 1));
        RoundsNext(rk, done + 1, block);
        p := p + 8;
        r := r - 1;
        if r == 0 {
          return;
        }
        s0 := EncryptWord(t0, t1, t2, t3, rdKey[p + 0]);
        s1 := EncryptWord(t1, t2, t3, t0, rdKey[p + 1]);
        s2 := EncryptWord(t2, t3, t0, t1, rdKey[p + 2]);
        s3 := EncryptWord(t3, t0, t1, t2, rdKey[p + 3]);
        EncryptRound(State(t0, t1, t2, t3), RoundKey(rk, done + 2));
        RoundsNext(rk, done + 2, block);
        done := done + 2;
      }
    }

    /** Encrypts one block; the buffers may overlap. */
    method Encrypt(input: array<bv8>, i: nat, output: array<bv8>, o: nat)
      requires Ready() && Apart(output) && i + 16 <= input.Length && o + 16 <= output.Length
      modifies output
      ensures output[..] == Replaced(old(output[..]), o, EncryptedBlock(rdKey[..], rounds, old(input[i..i + 16])))
    {
      hide Add, AddKey, MixColumns, ShiftRows, SubBytes, LastWord, Rounds, Replaced, FromState, ToState;
      ghost var rk, before := rdKey[..], output[..];
      var block := ReadState(input, i);
      var t0, t1, t2, t3 := EncryptRounds(block);
      var p := 4 * rounds;
      var w0 := LastWord(t0, t1, t2, t3, rdKey[p + 0]);
      var w1 := LastWord(t1, t2, t3, t0, rdKey[p + 1]);
      var w2 := LastWord(t2, t3, t0, t1, rdKey[p + 2]);
      var w3 := LastWord(t3, t0, t1, t2, rdKey[p + 3]);
      LastRound(State(t0, t1, t2, t3), RoundKey(rk, rounds));
      WriteState(output, o, State(w0, w1, w2, w3));
    }

    /** All rounds but the last, two to an iteration. */
    method DecryptRounds(block: State) returns (t0: Word, t1: Word, t2: Word, t3: Word)
      requires Ready()
      ensures State(t0, t1, t2, t3) == InvRounds(rdKey[..], rounds - 1, block)
    {
      hide Add, AddKey, InvMixColumns, InvShiftRows, InvSubBytes, DecryptWord;
      ghost var rk := rdKey[..];
      var s0, s1 := Add(block.s0, rdKey[0]), Add(block.s1, rdKey[1]);
      var s2, s3 := Add(block.s2, rdKey[2]), Add(block.s3, rdKey[3]);
      var r, p := rounds / 2, 0;
      ghost var done := 0;
      InvRoundsStart(rk, block);
      while true
        invariant rdKey[..] == rk && 1 <= r && done == rounds - 2 * r && p == 4 * done
        invariant State(s0, s1, s2, s3) == InvRounds(rk, done, block)
        decreases r
      {
        t0 := DecryptWord(s0, s3, s2, s1, rdKey[p + 4]);
        t1 := DecryptWord(s1, s0, s3, s2, rdKey[p + 5]);
        t2 := DecryptWord(s2, s1, s0, s3, rdKey[p + 6]);
        t3 := DecryptWord(s3, s2, s1, s0, rdKey[p + 7]);
        DecryptRound(State(s0, s1, s2, s3), RoundKey(rk, done + 1));
        InvRoundsNext(rk, done + 1, block);
        p := p + 8;
        r := r - 1;
        if r == 0 {
          return;
        }
        s0 := DecryptWord(t0, t3, t2, t1, rdKey[p + 0]);
        s1 := DecryptWord(t1, t0, t3, t2, rdKey[p + 1]);
        s2 := DecryptWord(t2, t1, t0, t3, rdKey[p + 2]);
        s3 := DecryptWord(t3, t2, t1, t0, rdKey[p + 3]);
        DecryptRound(State(t0, t1, t2, t3), RoundKey(rk, done + 2));
        InvRoundsNext(rk, done + 2, block);
        done := done + 2;
      }
    }

    /** Decrypts one block; the buffers may overlap. */
    method Decrypt(input: array<bv8>, i: nat, output: array<bv8>, o: nat)
      requires Ready() && Apart(output) && i + 16 <= input.Length && o + 16 <= output.Length
      modifies output
      ensures output[..] == Replaced(old(output[..]), o, DecryptedBlock(rdKey[..], rounds, old(input[i..i + 16])))
    {
      hide Add, AddKey, InvMixColumns, InvShiftRows, InvSubBytes, LastInvWord, InvRounds, Replaced, FromState, ToState;
      ghost var rk, before := rdKey[..], output[..];
      var block := ReadState(input, i);
      var t0, t1, t2, t3 := DecryptRounds(block);
      var p := 4 * rounds;
      var w0 := LastInvWord(t0, t3, t2, t1, rdKey[p + 0]);
      var w1 := LastInvWord(t1, t0, t3, t2, rdKey[p + 1]);
      var w2 := LastInvWord(t2, t1, t0, t3, rdKey[p + 2]);
      var w3 := LastInvWord(t3, t2, t1, t0, rdKey[p + 3]);
      LastInvRound(State(t0, t1, t2, t3), RoundKey(rk, rounds));
      WriteState(output, o, State(w0, w1, w2, w3));
    }
  }

  lemma SwapStart(rk: seq<Word>, n: nat)
    requires |rk| >= 4 * n + 4
    ensures Swapped(rk, rk, n, 0)
  {
  }
}
