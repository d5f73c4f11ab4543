/** The file allocation table as bytes, with entries of 12, 16 or 32 bits. */
module FatTable {

  // ---------------------------------------------------------------------------------------
  // Words and bytes

  function LowHalf(b: bv8): bv8 { b & 0xf }
  function HighHalf(b: bv8): bv8 { b >> 4 }
  function LowByte(v: bv32): bv8 { (v & 0xff) as bv8 }
  function SecondByte(v: bv32): bv8 { ((v >> 8) & 0xff) as bv8 }
  function LowNibble(v: bv32): bv8 { (v & 0xf) as bv8 }
  function RestOf(v: bv32): bv32 { v >> 4 }
  function Upper(v: bv32): bv32 { v >> 16 }
  function Cut12(v: bv32): bv32 { v & 0xfff }
  function Cut16(v: bv32): bv32 { v & 0xffff }
  function And(v: bv32, m: bv32): bv32 { v & m }
  function Longer(m: bv32): bv32 { (m << 4) | 0xf }
  function Join(n: bv8, rest: bv32): bv32 { (n as bv32) | (rest << 4) }
  function Two(x0: bv8, x1: bv8): bv32 { (x0 as bv32) | ((x1 as bv32) << 8) }
  function Four(x0: bv8, x1: bv8, x2: bv8, x3: bv8): bv32 { Two(x0, x1) | (Two(x2, x3) << 16) }

  /** The low half of a byte keeps its place and the number goes to the high half, and the other way round. */
  function AboveKept(kept: bv8, v: bv32): bv8 { (kept & 0xf) | (LowNibble(v) << 4) }
  function BelowKept(kept: bv8, v: bv32): bv8 { (kept & 0xf0) | (((v >> 8) & 0xf) as bv8) }

  lemma LowJoin(v: bv32, m: bv32)
    ensures Join(LowNibble(v), And(RestOf(v), m)) == And(v, Longer(m)) && And(v, 0) == 0
  {
  }

  lemma AllBits(v: bv32)
    ensures And(v, 0xffffffff) == v && And(v, 0xfff) == Cut12(v) && And(v, 0xffff) == Cut16(v)
  {
  }

  lemma HalvesOf(v: bv32)
    ensures LowHalf(LowByte(v)) == LowNibble(v) && HighHalf(LowByte(v)) == LowNibble(RestOf(v))
    ensures LowHalf(SecondByte(v)) == LowNibble(RestOf(RestOf(v)))
    ensures HighHalf(SecondByte(v)) == LowNibble(RestOf(RestOf(RestOf(v))))
  {
  }

  lemma UpperIs(v: bv32)
    ensures Upper(v) == RestOf(RestOf(RestOf(RestOf(v))))
  {
  }

  lemma PairEven(x0: bv8, x1: bv8)
    ensures Cut12(Two(x0, x1)) == Join(LowHalf(x0), Join(HighHalf(x0), Join(LowHalf(x1), 0)))
  {
  }

  lemma PairOdd(x0: bv8, x1: bv8)
    ensures Cut12(RestOf(Two(x0, x1))) == Join(HighHalf(x0), Join(LowHalf(x1), Join(HighHalf(x1), 0)))
  {
  }

  lemma Pair(x0: bv8, x1: bv8)
    ensures Two(x0, x1) == Join(LowHalf(x0), Join(HighHalf(x0), Join(LowHalf(x1), Join(HighHalf(x1), 0))))
  {
  }

  lemma Pairs(x0: bv8, x1: bv8, x2: bv8, x3: bv8)
    ensures Four(x0, x1, x2, x3) == Join(LowHalf(x0), Join(HighHalf(x0), Join(LowHalf(x1), Join(HighHalf(x1), Two(x2, x3)))))
  {
  }

  lemma KeepHigh(kept: bv8, v: bv32)
    ensures LowHalf(BelowKept(kept, v)) == LowNibble(RestOf(RestOf(v))) && HighHalf(BelowKept(kept, v)) == HighHalf(kept)
  {
  }

  lemma KeepLow(kept: bv8, v: bv32)
    ensures LowHalf(AboveKept(kept, v)) == LowHalf(kept) && HighHalf(AboveKept(kept, v)) == LowNibble(v)
    ensures LowHalf(LowByte(RestOf(v))) == LowNibble(RestOf(v)) && HighHalf(LowByte(RestOf(v))) == LowNibble(RestOf(RestOf(v)))
  {
  }

  // ---------------------------------------------------------------------------------------
  // The table as a stream of half bytes, the low half of each byte first

  function Nibble(s: seq<bv8>, j: nat): bv8
    requires j / 2 < |s|
  {
    if j % 2 == 0 then LowHalf(s[j / 2]) else HighHalf(s[j / 2])
  }

  /** The number made of w half bytes, lowest first. */
  function Number(s: seq<bv8>, at: nat, w: nat): bv32
    requires at + w <= 2 * |s|
    decreases w
  {
    if w == 0 then 0 else Join(Nibble(s, at), Number(s, at + 1, w - 1))
  }

  /** Half byte k of a number. */
  function Digit(v: bv32, k: nat): bv8 { if k == 0 then LowNibble(v) else Digit(RestOf(v), k - 1) }

  /** The number cut to w half bytes. */
  function Low(v: bv32, w: nat): bv32 { if w == 0 then 0 else Join(LowNibble(v), Low(RestOf(v), w - 1)) }

  function Mask(w: nat): bv32 { if w == 0 then 0 else Longer(Mask(w - 1)) }

  lemma {:induction false} DigitsMake(s: seq<bv8>, at: nat, w: nat, v: bv32)
    requires at + w <= 2 * |s| && forall k :: at <= k < at + w ==> Nibble(s, k) == Digit(v, k - at)
    ensures Number(s, at, w) == Low(v, w)
    decreases w
  {
    hide Nibble, Join, LowNibble, RestOf;
    if w > 0 {
      forall k | at + 1 <= k < at + w ensures Nibble(s, k) == Digit(RestOf(v), k - at - 1) {
      }
      DigitsMake(s, at + 1, w - 1, RestOf(v));
    }
  }

  lemma {:induction false} NumberFrame(s: seq<bv8>, t: seq<bv8>, at: nat, w: nat)
    requires at + w <= 2 * |s| && |t| == |s| && forall k :: at <= k < at + w ==> Nibble(t, k) == Nibble(s, k)
    ensures Number(t, at, w) == Number(s, at, w)
    decreases w
  {
    hide Nibble, Join;
    if w > 0 {
      NumberFrame(s, t, at + 1, w - 1);
    }
  }

  lemma {:induction false} LowMasks(v: bv32, w: nat)
    ensures Low(v, w) == And(v, Mask(w))
    decreases w
  {
    hide Join, LowNibble, RestOf, And, Longer;
    if w == 0 {
      LowJoin(v, 0);
    } else {
      LowMasks(RestOf(v), w - 1);
      LowJoin(v, Mask(w - 1));
    }
  }

  lemma Masks()
    ensures Mask(3) == 0xfff && Mask(4) == 0xffff && Mask(8) == 0xffffffff
  {
    assert Mask(2) == 0xff && Mask(6) == 0xffffff;
  }

  lemma LowBits(v: bv32)
    ensures Low(v, 3) == Cut12(v) && Low(v, 4) == Cut16(v) && Low(v, 8) == v
  {
    hide Low, Mask, And, Cut12, Cut16;
    LowMasks(v, 3);
    LowMasks(v, 4);
    LowMasks(v, 8);
    Masks();
    AllBits(v);
  }

  lemma DigitsOf(v: bv32)
    ensures Digit(v, 0) == LowNibble(v) && Digit(v, 1) == LowNibble(RestOf(v))
    ensures Digit(v, 2) == LowNibble(RestOf(RestOf(v))) && Digit(v, 3) == LowNibble(RestOf(RestOf(RestOf(v))))
  {
    hide LowNibble, RestOf;
    var v1 := RestOf(v);
    var v2 := RestOf(v1);
    assert Digit(v2, 0) == LowNibble(v2) && Digit(v1, 1) == Digit(v2, 0) && Digit(v, 2) == Digit(v1, 1);
    assert Digit(v2, 1) == LowNibble(RestOf(v2)) && Digit(v1, 2) == Digit(v2, 1) && Digit(v, 3) == Digit(v1, 2);
  }

  lemma DigitsAbove(v: bv32, k: nat)
    requires k >= 4
    ensures Digit(v, k) == Digit(Upper(v), k - 4)
  {
    hide LowNibble, RestOf, Upper;
    UpperIs(v);
    assert Digit(v, k) == Digit(RestOf(v), k - 1) == Digit(RestOf(RestOf(v)), k - 2) == Digit(RestOf(RestOf(RestOf(v))), k - 3);
  }

  lemma Number3(s: seq<bv8>, at: nat)
    requires at + 3 <= 2 * |s|
    ensures Number(s, at, 3) == Join(Nibble(s, at), Join(Nibble(s, at + 1), Join(Nibble(s, at + 2), 0)))
  {
    hide Nibble, Join;
    assert Number(s, at + 3, 0) == 0 && Number(s, at + 2, 1) == Join(Nibble(s, at + 2), 0);
  }

  lemma Number4(s: seq<bv8>, at: nat, w: nat)
    requires w >= 4 && at + w <= 2 * |s|
    ensures Number(s, at, w)
         == Join(Nibble(s, at), Join(Nibble(s, at + 1), Join(Nibble(s, at + 2), Join(Nibble(s, at + 3), Number(s, at + 4, w - 4)))))
  {
    hide Nibble, Join;
    assert Number(s, at + 2, w - 2) == Join(Nibble(s, at + 2), Join(Nibble(s, at + 3), Number(s, at + 4, w - 4)));
  }

  lemma NumberNone(s: seq<bv8>, at: nat)
    requires at <= 2 * |s|
    ensures Number(s, at, 0) == 0
  {
  }

  // ---------------------------------------------------------------------------------------
  // What reading and writing an entry of each kind amounts to

  lemma ReadEven(s: seq<bv8>, x: nat)
    requires x + 2 <= |s|
    ensures Number(s, 2 * x, 3) == Cut12(Two(s[x], s[x + 1]))
  {
    hide Join, Number, LowHalf, HighHalf, Two, Cut12;
    Number3(s, 2 * x);
    PairEven(s[x], s[x + 1]);
  }

  lemma ReadOdd(s: seq<bv8>, x: nat)
    requires x + 2 <= |s|
    ensures Number(s, 2 * x + 1, 3) == Cut12(RestOf(Two(s[x], s[x + 1])))
  {
    hide Join, Number, LowHalf, HighHalf, Two, Cut12, RestOf;
    Number3(s, 2 * x + 1);
    PairOdd(s[x], s[x + 1]);
  }

  lemma Read16(s: seq<bv8>, x: nat)
    requires x + 2 <= |s|
    ensures Number(s, 2 * x, 4) == Two(s[x], s[x + 1])
  {
    hide Join, Number, LowHalf, HighHalf, Two;
    Number4(s, 2 * x, 4);
    Pair(s[x], s[x + 1]);
    NumberNone(s, 2 * x + 4);
  }

  lemma Read32(s: seq<bv8>, x: nat)
    requires x + 4 <= |s|
    ensures Number(s, 2 * x, 8) == Four(s[x], s[x + 1], s[x + 2], s[x + 3])
  {
    hide Join, Number, LowHalf, HighHalf, Two, Four;
    Number4(s, 2 * x, 8);
    Read16(s, x + 2);
    Pairs(s[x], s[x + 1], s[x + 2], s[x + 3]);
  }

  /** The w half bytes from the given one on have been replaced, and no others. */
  ghost predicate Stored(s: seq<bv8>, t: seq<bv8>, at: nat, w: nat, v: bv32)
    requires |s| == |t|
  {
    forall j: nat :: j < 2 * |s| ==> Nibble(t, j) == if at <= j < at + w then Digit(v, j - at) else Nibble(s, j)
  }

  lemma Write16(s: seq<bv8>, t: seq<bv8>, x: nat, v: bv32)
    requires |t| == |s| && x + 2 <= |s| && t == s[x := LowByte(v)][x + 1 := SecondByte(v)]
    ensures Stored(s, t, 2 * x, 4, v)
  {
    hide LowByte, SecondByte, LowNibble, RestOf, Digit, LowHalf, HighHalf;
    HalvesOf(v);
    DigitsOf(v);
  }

  lemma WriteEven(s: seq<bv8>, t: seq<bv8>, x: nat, v: bv32)
    requires |t| == |s| && x + 2 <= |s| && t == s[x := LowByte(v)][x + 1 := BelowKept(s[x + 1], v)]
    ensures Stored(s, t, 2 * x, 3, v)
  {
    hide LowByte, LowNibble, RestOf, Digit, LowHalf, HighHalf, BelowKept;
    HalvesOf(v);
    DigitsOf(v);
    KeepHigh(s[x + 1], v);
  }

  lemma WriteOdd(s: seq<bv8>, t: seq<bv8>, x: nat, v: bv32)
    requires |t| == |s| && x + 2 <= |s| && t == s[x := AboveKept(s[x], v)][x + 1 := LowByte(RestOf(v))]
    ensures Stored(s, t, 2 * x + 1, 3, v)
  {
    hide LowByte, LowNibble, RestOf, Digit, LowHalf, HighHalf, AboveKept;
    KeepLow(s[x], v);
    DigitsOf(v);
  }

  lemma Write32(s: seq<bv8>, m: seq<bv8>, t: seq<bv8>, at: nat, v: bv32)
    requires |t| == |m| == |s| && at + 8 <= 2 * |s|
    requires Stored(s, m, at, 4, v) && Stored(m, t, at + 4, 4, Upper(v))
    ensures Stored(s, t, at, 8, v)
  {
    hide Upper, Digit, Nibble;
    forall j: nat | j < 2 * |s|
      ensures Nibble(t, j) == if at <= j < at + 8 then Digit(v, j - at) else Nibble(s, j)
    {
      if at + 4 <= j < at + 8 {
        DigitsAbove(v, j - at);
      }
    }
  }

  /** Entries do not overlap. */
  lemma EntriesApart(w: nat, c: nat, d: nat)
    requires d < c
    ensures w * d + w <= w * c
  {
    assert w * (c - d - 1) >= 0;
  }

  /** One entry has the new value, cut to its width; the other entries are as before. */
  lemma StoredEntry(s: seq<bv8>, t: seq<bv8>, c: nat, w: nat, v: bv32, d: nat, from: nat, to: nat)
    requires |t| == |s| && from == w * c && to == w * d && from + w <= 2 * |s| && to + w <= 2 * |s| && Stored(s, t, from, w, v)
    ensures Number(t, to, w) == if d == c then Low(v, w) else Number(s, to, w)
  {
    hide Nibble, Digit, Number, Low;
    if d == c {
      DigitsMake(t, to, w, v);
      return;
    }
    if d < c {
      EntriesApart(w, c, d);
    } else {
      EntriesApart(w, d, c);
    }
    NumberFrame(s, t, to, w);
  }

  // ---------------------------------------------------------------------------------------

  class Table {
    const fatType: int
    const fat: array<bv8>

    /** Half bytes to an entry. */
    ghost function Width(): nat { if fatType == 32 then 8 else if fatType == 16 then 4 else 3 }

    ghost predicate InRange(c: nat) { Width() * c + Width() <= 2 * fat.Length }

    /** Entry c is made of the half bytes from Width() * c on. */
    ghost function Entry(c: nat): bv32
      requires InRange(c)
      reads fat
    {
      Number(fat[..], Width() * c, Width())
    }

    constructor (fatType: int, size: nat)
      ensures this.fatType == fatType && fat.Length == size && fresh(fat) && forall i :: 0 <= i < size ==> fat[i] == 0
    {
      this.fatType := fatType;
      fat := new bv8[size](i => 0);
    }

    method Get(cluster: nat) returns (v: bv32)
      requires InRange(cluster)
      ensures v == Entry(cluster)
    {
      hide Number, Two, Four, Cut12, RestOf;
      if fatType == 32 {
        var x := 4 * cluster;
        Read32(fat[..], x);
        return Four(fat[x], fat[x + 1], fat[x + 2], fat[x + 3]);
      }
      if fatType == 16 {
        var x := 2 * cluster;
        Read16(fat[..], x);
        return Two(fat[x], fat[x + 1]);
      }
      var x := cluster * 3 / 2;
      if cluster % 2 == 0 {
        ReadEven(fat[..], x);
        return Cut12(Two(fat[x], fat[x + 1]));
      }
      ReadOdd(fat[..], x);
      return Cut12(RestOf(Two(fat[x], fat[x + 1])));
    }

    method Set(cluster: nat, value: bv32)
      requires InRange(cluster)
      modifies fat
      ensures Entry(cluster) == if fatType == 32 then value else if fatType == 16 then Cut16(value) else Cut12(value)
      ensures forall c: nat :: c != cluster && InRange(c) ==> Entry(c) == old(Entry(c))
    {
      hide Number, Low, Stored, LowByte, SecondByte, Upper, Cut12, Cut16;
      ghost var before := fat[..];
      if fatType == 32 {
        SetWord(cluster, value);
      } else if fatType == 16 {
        SetPair(2 * cluster, value);
      } else {
        SetNibbles(cluster, value);
      }
      LowBits(value);
      forall c: nat | InRange(c)
        ensures Number(fat[..], Width() * c, Width()) == if c == cluster then Low(value, Width()) else Number(before, Width() * c, Width())
      {
        StoredEntry(before, fat[..], cluster, Width(), value, c, Width() * cluster, Width() * c);
      }
    }

    method SetPair(x: nat, value: bv32)
      requires x + 2 <= fat.Length
      modifies fat
      ensures Stored(old(fat[..]), fat[..], 2 * x, 4, value)
    {
      hide Stored, LowByte, SecondByte;
      ghost var before := fat[..];
      fat[x] := LowByte(value);
      fat[x + 1] := SecondByte(value);
      Write16(before, fat[..], x, value);
    }

    method SetWord(cluster: nat, value: bv32)
      requires 8 * cluster + 8 <= 2 * fat.Length
      modifies fat
      ensures Stored(old(fat[..]), fat[..], 8 * cluster, 8, value)
    {
      hide Stored, Upper;
      ghost var before := fat[..];
      SetPair(4 * cluster, value);
      ghost var middle := fat[..];
      SetPair(4 * cluster + 2, Upper(value));
      Write32(before, middle, fat[..], 8 * cluster, value);
    }

    /** Two neighbours share a byte. */
    method SetNibbles(cluster: nat, value: bv32)
      requires 3 * cluster + 3 <= 2 * fat.Length
      modifies fat
      ensures Stored(old(fat[..]), fat[..], 3 * cluster, 3, value)
    {
      hide Stored, LowByte, LowNibble, BelowKept, AboveKept, RestOf;
      ghost var before := fat[..];
      var p := cluster * 3 / 2;
      if cluster % 2 == 0 {
        fat[p] := LowByte(value);
        fat[p + 1] := BelowKept(fat[p + 1], value);
        WriteEven(before, fat[..], p, value);
      } else {
        fat[p] := AboveKept(fat[p], value);
        fat[p + 1] := LowByte(RestOf(value));
        WriteOdd(before, fat[..], p, value);
      }
    }
  }
}
