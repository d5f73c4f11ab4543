/** Images encrypted under a password: what AES does to the bytes of a sector is a cipher on the words of the image file. */
module Encryption {
  import Aes
  import AesKey
  import Sectors
  import Cbc
  import opened Layout
  import opened Guest
  import opened Forest
  import opened Addresses = Bytes
  import V1 = Qcow1
  import L = Library
  import Qcow2
  import Session
  import TS = TableSizes
  import opened State
  import opened Steps

  const WORD_LIMIT: nat := 0x1_0000_0000_0000_0000
  const FIELDS: nat := 0x4000_0000_0000_0000

  // ---------------------------------------------------------------------------------------
  // Numbers as bytes, the highest first

  function BigEndian(x: nat, n: nat): (b: seq<bv8>)
    ensures |b| == n
  {
    if n == 0 then [] else BigEndian(x / 256, n - 1) + [Sectors.ByteOf(x)]
  }

  function Value(b: seq<bv8>): nat {
    if b == [] then 0 else Value(b[..|b| - 1]) * 256 + Sectors.Digit(b[|b| - 1])
  }

  lemma {:induction false} NumberBack(x: nat, n: nat)
    requires x < Sectors.Limit(n)
    ensures Value(BigEndian(x, n)) == x
  {
    hide Sectors.ByteOf, Sectors.Digit;
    if n > 0 {
      NumberBack(x / 256, n - 1);
      Sectors.ByteDigit(x);
    }
  }

  lemma {:induction false} ValueBelow(b: seq<bv8>)
    ensures Value(b) < Sectors.Limit(|b|)
  {
    hide Sectors.Digit;
    if b != [] {
      ValueBelow(b[..|b| - 1]);
      Sectors.DigitByte(0, b[|b| - 1]);
    }
  }

  lemma {:induction false} BytesBack(b: seq<bv8>)
    ensures BigEndian(Value(b), |b|) == b
  {
    hide Sectors.ByteOf, Sectors.Digit, Sectors.Limit;
    if b != [] {
      var a, c := b[..|b| - 1], b[|b| - 1];
      BytesBack(a);
      Sectors.DigitByte(Value(a), c);
      LastDigit(Value(a), Sectors.Digit(c));
      NextDigit(Value(b), |b|);
      assert b == a + [c];
    }
  }

  lemma NextDigit(x: nat, n: nat)
    requires n > 0
    ensures BigEndian(x, n) == BigEndian(x / 256, n - 1) + [Sectors.ByteOf(x)]
  {
  }

  lemma LastDigit(x: nat, c: nat)
    requires c < 256
    ensures (x * 256 + c) / 256 == x
  {
  }

  lemma EightBytes()
    ensures Sectors.Limit(8) == WORD_LIMIT
  {
    assert Sectors.Limit(2) == 0x1_0000 && Sectors.Limit(4) == 0x1_0000_0000 && Sectors.Limit(6) == 0x1_0000_0000_0000;
  }

  // ---------------------------------------------------------------------------------------
  // Sectors of 64-bit numbers

  type Bytes = b: seq<bv8> | |b| == 512 witness seq(512, _ => 0)
  type Numbers = x: seq<nat> | |x| == 64 witness seq(64, _ => 0)

  function ToBytes(x: Numbers): Bytes {
    seq(512, k requires 0 <= k < 512 => BigEndian(x[k / 8], 8)[k % 8])
  }

  function FromBytes(b: Bytes): Numbers {
    seq(64, i requires 0 <= i < 64 => Value(b[8 * i..8 * i + 8]))
  }

  predicate Fits(x: Numbers) {
    forall i :: 0 <= i < 64 ==> x[i] < WORD_LIMIT
  }

  lemma NumbersBack(x: Numbers)
    requires Fits(x)
    ensures FromBytes(ToBytes(x)) == x
  {
    hide BigEndian, Value;
    EightBytes();
    forall i | 0 <= i < 64 ensures FromBytes(ToBytes(x))[i] == x[i] {
      assert ToBytes(x)[8 * i..8 * i + 8] == BigEndian(x[i], 8);
      NumberBack(x[i], 8);
    }
  }

  lemma SectorBack(b: Bytes)
    ensures Fits(FromBytes(b)) && ToBytes(FromBytes(b)) == b
  {
    hide BigEndian, Value;
    EightBytes();
    forall i | 0 <= i < 64 ensures FromBytes(b)[i] < WORD_LIMIT { ValueBelow(b[8 * i..8 * i + 8]); }
    forall k | 0 <= k < 512 ensures ToBytes(FromBytes(b))[k] == b[k] { BytesBack(b[8 * (k / 8)..8 * (k / 8) + 8]); }
  }

  // ---------------------------------------------------------------------------------------
  // A sector under a key

  function Crypt(enc: bool, f: Cbc.Block -> Cbc.Block, n: nat, x: Numbers): Numbers {
    FromBytes(Sectors.SectorCrypted(enc, f, n, ToBytes(x)))
  }

  lemma CryptBack(f: Cbc.Block -> Cbc.Block, g: Cbc.Block -> Cbc.Block, n: nat, x: Numbers)
    requires Cbc.Undoes(g, f) && Fits(x)
    ensures Fits(Crypt(true, f, n, x)) && Crypt(false, g, n, Crypt(true, f, n, x)) == x
  {
    hide ToBytes, FromBytes, Fits, Cbc.Undoes, Cbc.Encrypted, Cbc.Decrypted, Sectors.Vector;
    var b := ToBytes(x);
    SectorBack(Sectors.SectorCrypted(true, f, n, b));
    Cbc.RoundTrip(f, g, Sectors.Vector(n), b);
    NumbersBack(x);
  }

  predicate Keyed(rk: seq<Aes.Word>, dk: seq<Aes.Word>) {
    |rk| >= 44 && |dk| >= 44
  }

  // ---------------------------------------------------------------------------------------
  // Version 1 images: the words of the file are numbers

  function NumberCipher(rk: seq<Aes.Word>, dk: seq<Aes.Word>): V1.Cipher
    requires Keyed(rk, dk)
  {
    V1.Cipher(true, (n, x) => if Fits(x) then Crypt(true, Sectors.Cipher(rk, 10), n, x) else x,
                    (n, x) => if Fits(x) then Crypt(false, Sectors.Inverse(dk, 10), n, x) else x)
  }

  lemma NumberCipherValid(rk: seq<Aes.Word>, dk: seq<Aes.Word>, key: seq<bv8>)
    requires Keyed(rk, dk) && AesKey.Schedule(rk, key, 10) && AesKey.InverseSchedule(dk, key, 10)
    ensures NumberCipher(rk, dk).Valid()
  {
    hide AesKey.Schedule, AesKey.InverseSchedule, Sectors.Cipher, Sectors.Inverse, Crypt, Fits, Cbc.Undoes;
    Sectors.CiphersUndo(rk, dk, key, 10);
    var c := NumberCipher(rk, dk);
    forall n: nat, x: V1.Sector ensures c.dec(n, c.enc(n, x)) == x {
      if Fits(x) { CryptBack(Sectors.Cipher(rk, 10), Sectors.Inverse(dk, 10), n, x); }
    }
  }

  // ---------------------------------------------------------------------------------------
  // Version 2 images: the words of the file are taken apart into the fields of table entries

  /** Fields that a word of 64 bits has room for. */
  predicate Stored(w: Word) {
    w.low < CLUSTER_BYTES && w.cluster < FIELDS / CLUSTER_BYTES
  }

  function Number(w: Word): nat {
    (if w.copied then 2 * FIELDS else 0) + (if w.compressed then FIELDS else 0) + Fields(w.cluster, w.low)
  }

  function Fields(cluster: nat, low: nat): nat { cluster * CLUSTER_BYTES + low }

  function WordOf(x: nat): Word {
    var rest := x % FIELDS;
    Word(x / (2 * FIELDS) % 2 == 1, x / FIELDS % 2 == 1, rest / CLUSTER_BYTES, rest % CLUSTER_BYTES)
  }

  lemma FieldLimit()
    ensures FIELDS / CLUSTER_BYTES * CLUSTER_BYTES == FIELDS
  {
    assert CLUSTER_SECTORS in {1, 2, 4, 8, 16, 32, 64, 128};
    if CLUSTER_SECTORS == 1 {
    } else if CLUSTER_SECTORS == 2 {
    } else if CLUSTER_SECTORS == 4 {
    } else if CLUSTER_SECTORS == 8 {
    } else if CLUSTER_SECTORS == 16 {
    } else if CLUSTER_SECTORS == 32 {
    } else if CLUSTER_SECTORS == 64 {
    }
  }

  lemma WordBack(w: Word)
    requires Stored(w)
    ensures Number(w) < WORD_LIMIT && WordOf(Number(w)) == w
  {
    hide Fields, Stored;
    FieldsBack(w);
    FlagsBack(w.copied, w.compressed, Fields(w.cluster, w.low));
  }

  lemma FieldsBack(w: Word)
    requires Stored(w)
    ensures var rest := Fields(w.cluster, w.low); rest < FIELDS && rest / CLUSTER_BYTES == w.cluster && rest % CLUSTER_BYTES == w.low
  {
    FieldLimit();
    DivModUnique(Fields(w.cluster, w.low), CLUSTER_BYTES, w.cluster, w.low);
    DividesBelow(Fields(w.cluster, w.low), FIELDS / CLUSTER_BYTES, CLUSTER_BYTES);
  }

  lemma FlagsBack(a: bool, b: bool, rest: nat)
    requires rest < FIELDS
    ensures var x := (if a then 2 * FIELDS else 0) + (if b then FIELDS else 0) + rest;
      x < WORD_LIMIT && x % FIELDS == rest && (x / (2 * FIELDS) % 2 == 1 <==> a) && (x / FIELDS % 2 == 1 <==> b)
  {
  }

  lemma NumberOfWord(x: nat)
    requires x < WORD_LIMIT
    ensures Stored(WordOf(x)) && Number(WordOf(x)) == x
  {
    hide Fields;
    FieldsOf(x % FIELDS);
    FlagsOf(x);
  }

  lemma FieldsOf(rest: nat)
    requires rest < FIELDS
    ensures rest % CLUSTER_BYTES < CLUSTER_BYTES && rest / CLUSTER_BYTES < FIELDS / CLUSTER_BYTES
    ensures Fields(rest / CLUSTER_BYTES, rest % CLUSTER_BYTES) == rest
  {
    FieldLimit();
    DividesBelow(rest, FIELDS / CLUSTER_BYTES, CLUSTER_BYTES);
  }

  lemma FlagsOf(x: nat)
    requires x < WORD_LIMIT
    ensures x == (if x / (2 * FIELDS) % 2 == 1 then 2 * FIELDS else 0) + (if x / FIELDS % 2 == 1 then FIELDS else 0) + x % FIELDS
  {
  }

  predicate AllStored(s: Sector) {
    forall i :: 0 <= i < 64 ==> Stored(s[i])
  }

  function NumbersOf(s: Sector): Numbers {
    seq(64, i requires 0 <= i < 64 => Number(s[i]))
  }

  function WordsOf(x: Numbers): Sector {
    seq(64, i requires 0 <= i < 64 => WordOf(x[i]))
  }

  lemma WordsBack(s: Sector)
    requires AllStored(s)
    ensures Fits(NumbersOf(s)) && WordsOf(NumbersOf(s)) == s
  {
    hide Stored, Number, WordOf;
    forall i | 0 <= i < 64 ensures Number(s[i]) < WORD_LIMIT && WordOf(Number(s[i])) == s[i] { WordBack(s[i]); }
  }

  lemma NumbersOfWords(x: Numbers)
    requires Fits(x)
    ensures AllStored(WordsOf(x)) && NumbersOf(WordsOf(x)) == x
  {
    hide Stored, Number, WordOf;
    forall i | 0 <= i < 64 ensures Stored(WordOf(x[i])) && Number(WordOf(x[i])) == x[i] { NumberOfWord(x[i]); }
  }

  function CryptWords(enc: bool, f: Cbc.Block -> Cbc.Block, n: nat, s: Sector): Sector {
    if AllStored(s) then WordsOf(Crypt(enc, f, n, NumbersOf(s))) else s
  }

  /** A disk image under a key; fields out of range do not occur in a file and stay as they are. */
  function KeyMedium(backing: seq<Sector>, rk: seq<Aes.Word>, dk: seq<Aes.Word>): Medium
    requires Keyed(rk, dk)
  {
    Medium(backing, true, (n, s) => CryptWords(true, Sectors.Cipher(rk, 10), n, s),
                          (n, s) => CryptWords(false, Sectors.Inverse(dk, 10), n, s))
  }

  lemma KeyMediumValid(backing: seq<Sector>, rk: seq<Aes.Word>, dk: seq<Aes.Word>, key: seq<bv8>)
    requires Keyed(rk, dk) && AesKey.Schedule(rk, key, 10) && AesKey.InverseSchedule(dk, key, 10)
    ensures KeyMedium(backing, rk, dk).Valid() && KeyMedium(backing, rk, dk).backing == backing
  {
    hide AesKey.Schedule, AesKey.InverseSchedule, Sectors.Cipher, Sectors.Inverse, Crypt, Fits, Cbc.Undoes, AllStored, NumbersOf, WordsOf;
    Sectors.CiphersUndo(rk, dk, key, 10);
    var f, g := Sectors.Cipher(rk, 10), Sectors.Inverse(dk, 10);
    forall n: nat, s: Sector ensures CryptWords(false, g, n, CryptWords(true, f, n, s)) == s {
      if AllStored(s) {
        WordsBack(s);
        CryptBack(f, g, n, NumbersOf(s));
        NumbersOfWords(Crypt(true, f, n, NumbersOf(s)));
      }
    }
  }

  // ---------------------------------------------------------------------------------------
  // Passwords

  /** The first sixteen bytes of the password, filled up with zeros. */
  function PasswordKey(password: seq<bv8>): (key: seq<bv8>)
    ensures |key| == 16
  {
    seq(16, i requires 0 <= i < 16 => if i < |password| then password[i] else 0)
  }

  /** The first sixteen bytes of the password, zeros behind a shorter one. */
  ghost predicate IsKey(key: seq<bv8>, password: seq<bv8>) {
    |key| == 16 && forall k :: 0 <= k < 16 ==> key[k] == if k < |password| then password[k] else 0
  }

  method SetKey(password: seq<bv8>) returns (encrypt: AesKey.Key, decrypt: AesKey.Key)
    ensures fresh(encrypt) && fresh(decrypt) && encrypt.Ready() && decrypt.Ready() && encrypt.rounds == decrypt.rounds == 10
    ensures AesKey.Schedule(encrypt.rdKey[..], PasswordKey(password), 10)
    ensures AesKey.InverseSchedule(decrypt.rdKey[..], PasswordKey(password), 10)
    ensures forall key: seq<bv8> :: IsKey(key, password) ==> AesKey.ScheduleBytes(encrypt.rdKey[..], key)
  {
    hide AesKey.Schedule, AesKey.InverseSchedule, AesKey.ScheduleBytes;
    var keybuf := new bv8[16](_ => 0);
    var len := |password|;
    if len > 16 { len := 16; }
    for i := 0 to len
      invariant forall k :: 0 <= k < 16 ==> keybuf[k] == if k < i then password[k] else 0
    {
      keybuf[i] := password[i];
    }
    assert keybuf[..128 / 8] == PasswordKey(password);
    encrypt := new AesKey.Key();
    decrypt := new AesKey.Key();
    forall key: seq<bv8> | IsKey(key, password) ensures key == keybuf[..128 / 8] {}
    var status := encrypt.SetEncryptKey(keybuf, 128);
    status := decrypt.SetDecryptKey(keybuf, 128);
  }

  /** The sectors of the image are encrypted under the password. */
  ghost predicate UnderPassword(m: Medium, password: seq<bv8>) {
    exists rk: seq<Aes.Word>, dk: seq<Aes.Word> :: UnderKeys(m, rk, dk, PasswordKey(password))
  }

  ghost predicate UnderKeys(m: Medium, rk: seq<Aes.Word>, dk: seq<Aes.Word>, key: seq<bv8>) {
    && Keyed(rk, dk) && AesKey.Schedule(rk, key, 10) && AesKey.InverseSchedule(dk, key, 10)
    && m == KeyMedium(m.backing, rk, dk)
  }

  /** What an image without encryption would start with. */
  function Plain(backing: seq<Sector>): Medium {
    Medium(backing, false, (_, s) => s, (_, s) => s)
  }

  lemma SameShelf(m: Medium)
    ensures Session.NewShelf(m) == Session.NewShelf(Plain(m.backing))
  {
    var p := Plain(m.backing);
    forall s: nat ensures m.Backing(s) == p.Backing(s) {}
    assert Qcow2.BackingView(m) == Qcow2.BackingView(p);
  }

  method PasswordMedium(password: seq<bv8>, backing: seq<Sector>) returns (m: Medium, ghost rk: seq<Aes.Word>, ghost dk: seq<Aes.Word>)
    ensures m.Valid() && m.encrypted && m.backing == backing && UnderKeys(m, rk, dk, PasswordKey(password))
    ensures forall key: seq<bv8> :: IsKey(key, password) ==> AesKey.ScheduleBytes(rk, key)
  {
    hide AesKey.Schedule, AesKey.InverseSchedule;
    var encrypt, decrypt := SetKey(password);
    rk, dk := encrypt.rdKey[..], decrypt.rdKey[..];
    m := KeyMedium(backing, encrypt.rdKey[..], decrypt.rdKey[..]);
    KeyMediumValid(backing, rk, dk, PasswordKey(password));
  }

  /** The bytes of a sector of the file. */
  function SectorBytes(s: Sector): Bytes { ToBytes(NumbersOf(s)) }

  /** Each sector the file has is the AES text of what the guest sees there, chained on its own from the number of the sector;
      where the file has none the guest sees the backing disk. */
  ghost predicate Ciphered(rk: seq<Aes.Word>, m: Medium, file: File, t: seq<Word>)
    requires |rk| >= 44
  {
    forall x: nat ::
      match CellOf(file, t, x)
      case Hole => ViewSector(m, file, t, x) == if x < |m.backing| then m.backing[x] else ZeroSector()
      case Stored(c) => AllStored(ViewSector(m, file, t, x)) ==>
        SectorBytes(c) == Cbc.Encrypted(Sectors.Cipher(rk, 10), Sectors.Vector(x), SectorBytes(ViewSector(m, file, t, x)))
  }

  lemma SealedCiphered(rk: seq<Aes.Word>, dk: seq<Aes.Word>, m: Medium, file: File, t: seq<Word>)
    requires Keyed(rk, dk) && m == KeyMedium(m.backing, rk, dk) && AllSealed(m, file, t)
    ensures Ciphered(rk, m, file, t)
  {
    hide Sectors.Cipher, Sectors.Inverse, Sectors.Vector, Cbc.Encrypted, Cbc.Decrypted, EntryOf, SectorOf, Read, InCluster, NumbersOf, WordsOf,
         ToBytes, FromBytes, Fits, AllStored;
    forall x: nat | CellOf(file, t, x) != Hole && AllStored(ViewSector(m, file, t, x))
      ensures SectorBytes(CellOf(file, t, x).sector)
           == Cbc.Encrypted(Sectors.Cipher(rk, 10), Sectors.Vector(x), SectorBytes(ViewSector(m, file, t, x)))
    {
      assert Sealed(m, file, t, x);
      CryptBytes(Sectors.Cipher(rk, 10), x, ViewSector(m, file, t, x));
    }
  }

  lemma ImageCiphered(rk: seq<Aes.Word>, dk: seq<Aes.Word>, key: seq<bv8>, img: Qcow2.Image)
    requires UnderKeys(img.medium, rk, dk, key) && Session.SealedImage(img)
    ensures |rk| >= 44 && AesKey.Schedule(rk, key, 10) && Ciphered(rk, img.medium, img.file, img.l1Table)
    ensures forall k :: 0 <= k < |img.snapshots| ==> Ciphered(rk, img.medium, img.file, SnapTable(img.file, img.snapshots[k]))
  {
    hide AesKey.Schedule, AesKey.InverseSchedule, KeyMedium, SnapTable, AllSealed, Ciphered;
    SealedCiphered(rk, dk, img.medium, img.file, img.l1Table);
    forall k | 0 <= k < |img.snapshots| ensures Ciphered(rk, img.medium, img.file, SnapTable(img.file, img.snapshots[k])) {
      SealedCiphered(rk, dk, img.medium, img.file, SnapTable(img.file, img.snapshots[k]));
    }
  }

  lemma CryptBytes(f: Cbc.Block -> Cbc.Block, n: nat, s: Sector)
    requires AllStored(s)
    ensures SectorBytes(CryptWords(true, f, n, s)) == Cbc.Encrypted(f, Sectors.Vector(n), SectorBytes(s))
  {
    hide ToBytes, FromBytes, Fits, NumbersOf, WordsOf, Cbc.Encrypted, Sectors.Vector, AllStored;
    var c := Sectors.SectorCrypted(true, f, n, ToBytes(NumbersOf(s)));
    SectorBack(c);
    NumbersOfWords(FromBytes(c));
  }

  /** Any run on a new image that is encrypted under a password: the guest sees what it would see on plain disks. */
  method CreateAndExecute(password: seq<bv8>, backing: seq<Sector>, totalSectors: nat, headerSize: nat, memory: seq<Cluster>,
                          behind: nat -> Word, ops: seq<L.Op>)
    returns (img: Qcow2.Image, ghost rk: seq<Aes.Word>)
    requires totalSectors >= 1 && headerSize >= 1 && |memory| == L2_CACHE_SIZE
    requires L.Fits(Session.NewShelf(Plain(backing)), ops, MAX_REFCOUNT - 1)
    ensures img.Valid() && UnderPassword(img.medium, password) && img.medium.backing == backing
    ensures |rk| >= 44 && AesKey.Schedule(rk, PasswordKey(password), 10)
    ensures forall key: seq<bv8> :: IsKey(key, password) ==> AesKey.ScheduleBytes(rk, key)
    ensures Ciphered(rk, img.medium, img.file, img.l1Table)
    ensures forall k :: 0 <= k < |img.snapshots| ==> Ciphered(rk, img.medium, img.file, SnapTable(img.file, img.snapshots[k]))
    ensures Session.ShelfOf(img) == L.Run(Session.NewShelf(Plain(backing)), ops)
  {
    hide UnderKeys, Session.NewShelf, Session.ShelfOf, L.Fits, L.Run, L.Ok, TS.AllThrifty, TS.Inside, TS.After, TS.TablesOf,
         TS.Proper, Qcow2.Image.Sound;
    var m;
    ghost var dk;
    m, rk, dk := PasswordMedium(password, backing);
    SameShelf(m);
    img := Session.CreateAndExecute(m, totalSectors, headerSize, memory, behind, ops);
    ImageCiphered(rk, dk, PasswordKey(password), img);
  }
}
