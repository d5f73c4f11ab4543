/** Long file names in FAT directories: spread over entries of thirteen characters, last part first. */
module LongNames {

  type Byte = b: nat | b < 0x100

  /** The 32 bytes of a directory entry. */
  type Slot = s: seq<Byte> | |s| == 32 witness seq(32, _ => 0)

  const BUFFER := 258
  /** Longest name whose padding stays inside the buffer. */
  const LONGEST := 116

  /** Where the low byte of character i of a part is; the high byte follows. */
  function Place(i: nat): (p: nat)
    requires i < 13
    ensures p < 31
  {
    if i < 5 then 1 + 2 * i else if i < 11 then 14 + 2 * (i - 5) else 28 + 2 * (i - 11)
  }

  /** Where byte i of a part is. */
  function BytePlace(i: nat): (p: nat)
    requires i < 26
    ensures p < 32
  {
    if i < 10 then 1 + i else if i < 22 then 14 + i - 10 else 28 + i - 22
  }

  /** Byte i of a name in 16-bit characters: the name, a zero character, then 0xff. */
  function WideByte(name: seq<Byte>, i: nat): Byte {
    if i < 2 * |name| then if i % 2 == 0 then name[i / 2] else 0
    else if i < 2 * |name| + 2 then 0
    else 0xff
  }

  /** Parts needed for a name. */
  function Parts(name: seq<Byte>): nat {
    (2 * |name| + 25) / 26
  }

  /** Part q, counted from one, of a long name. */
  ghost predicate IsPart(e: Slot, name: seq<Byte>, q: nat) {
    && q >= 1
    && e[0] == q + (if q == Parts(name) then 0x40 else 0)
    && e[11] == 0xf && e[12] == 0 && e[26] == 0 && e[27] == 0
    && forall i :: 0 <= i < 26 ==> e[BytePlace(i)] == WideByte(name, 26 * (q - 1) + i)
  }

  /** Offsets of the thirteen characters in an entry, each of two bytes, the low one first. */
  const PLACES: seq<nat> := [1, 3, 5, 7, 9, 14, 16, 18, 20, 22, 24, 28, 30]

  /** The two bytes at p are character j of a name, the zero behind it, or the padding behind that. */
  ghost predicate CharIn(e: Slot, p: nat, name: seq<Byte>, j: nat)
    requires p + 1 < 32
  {
    if j < |name| then e[p] == name[j] && e[p + 1] == 0
    else if j == |name| then e[p] == 0 && e[p + 1] == 0
    else e[p] == 0xff && e[p + 1] == 0xff
  }

  /** Part q of a name, offset by offset. */
  ghost predicate Spelled(e: Slot, name: seq<Byte>, q: nat)
    requires q >= 1
  {
    && e[0] == q + (if 13 * q >= |name| then 0x40 else 0)
    && e[11] == 0xf && e[12] == 0 && e[26] == 0 && e[27] == 0
    && forall i :: 0 <= i < 13 ==> CharIn(e, PLACES[i], name, 13 * (q - 1) + i)
  }

  lemma PlacesOf(i: nat)
    requires i < 13
    ensures PLACES[i] < 31 && Place(i) == BytePlace(2 * i) == PLACES[i] && BytePlace(2 * i + 1) == PLACES[i] + 1
  {
  }

  lemma PartSpelled(e: Slot, name: seq<Byte>, q: nat)
    requires 1 <= q <= Parts(name)
    ensures IsPart(e, name, q) <==> Spelled(e, name, q)
  {
    hide Place, BytePlace;
    assert q == Parts(name) <==> 13 * q >= |name|;
    if IsPart(e, name, q) {
      forall i | 0 <= i < 13 ensures CharIn(e, PLACES[i], name, 13 * (q - 1) + i) { CharSpelled(e, name, q, i); }
    }
    if Spelled(e, name, q) {
      forall i | 0 <= i < 26 ensures e[BytePlace(i)] == WideByte(name, 26 * (q - 1) + i) { CharSpelled(e, name, q, i / 2); }
    }
  }

  lemma CharSpelled(e: Slot, name: seq<Byte>, q: nat, i: nat)
    requires q >= 1 && i < 13
    ensures PLACES[i] < 31
    ensures CharIn(e, PLACES[i], name, 13 * (q - 1) + i) <==>
      && e[BytePlace(2 * i)] == WideByte(name, 26 * (q - 1) + 2 * i)
      && e[BytePlace(2 * i + 1)] == WideByte(name, 26 * (q - 1) + 2 * i + 1)
  {
    PlacesOf(i);
  }

  /** All parts of a name, the last one first, with one checksum. */
  ghost predicate AreParts(es: seq<Slot>, name: seq<Byte>, checksum: Byte) {
    && |es| == Parts(name)
    && forall k :: 0 <= k < |es| ==> IsPart(es[k], name, |es| - k) && es[k][13] == checksum
  }

  /** A C string. */
  ghost predicate Text(name: seq<Byte>) {
    forall i :: 0 <= i < |name| ==> name[i] != 0
  }

  /** Widens a name; returns its length in bytes. */
  method Short2LongName(dest: array<Byte>, src: seq<Byte>) returns (len: nat)
    requires dest.Length == BUFFER && Text(src) && |src| <= LONGEST
    modifies dest
    ensures len == 2 * |src|
    ensures 2 * |src| + 2 <= BUFFER && 26 * Parts(src) <= BUFFER
    ensures forall i: nat :: i < 2 * |src| + 2 || i < 26 * Parts(src) ==> dest[i] == WideByte(src, i)
  {
    var i := 0;
    while i < 129 && i < |src|
      invariant i <= |src|
      invariant forall k: nat :: k < 2 * i ==> dest[k] == WideByte(src, k)
    {
      dest[2 * i] := src[i];
      dest[2 * i + 1] := 0;
      i := i + 1;
    }
    len := 2 * i;
    dest[2 * i], dest[2 * i + 1] := 0, 0;
    i := 2 * i + 2;
    while i % 26 != 0
      invariant 2 * |src| + 2 <= i <= 26 * ((2 * |src| + 2 + 25) / 26)
      invariant forall k: nat :: k < i ==> dest[k] == WideByte(src, k)
      decreases 26 * ((2 * |src| + 2 + 25) / 26) - i
    {
      dest[i] := 0xff;
      i := i + 1;
    }
    Rounded(i, 2 * |src| + 2);
    assert i <= BUFFER && 26 * Parts(src) <= i;
  }

  lemma Rounded(i: nat, n: nat)
    requires i % 26 == 0 && i >= n && n >= 2
    ensures i >= 26 * ((n + 23) / 26)
  {
  }

  class Directory {
    var entries: seq<Slot>

    /** Appends the entries of a long name; their checksum is not set yet. Returns the index of the first. */
    method CreateLongFilename(name: seq<Byte>, garbage: seq<Slot>) returns (first: nat)
      requires Text(name) && |name| <= LONGEST && |garbage| == Parts(name)
      modifies this
      ensures first == |old(entries)| && |entries| == first + Parts(name) && entries[..first] == old(entries)
      ensures forall x :: first <= x < |entries| ==> IsPart(entries[x], name, Parts(name) - (x - first))
      ensures forall x :: first <= x < |entries| ==> Spelled(entries[x], name, |entries| - x)
    {
      hide WideByte, Filled, IsPart, Spelled;
      var buffer := new Byte[BUFFER](_ => 0);
      var length := Short2LongName(buffer, name);
      var number := (length + 25) / 26;
      first := |entries|;
      AppendBlanks(name, number, garbage);
      FillParts(name, first, number, buffer);
      forall x | first <= x < |entries| ensures IsPart(entries[x], name, Parts(name) - (x - first)) {
        FilledPart(entries[x], name, number - (x - first));
      }
      forall x | first <= x < |entries| ensures Spelled(entries[x], name, |entries| - x) {
        PartSpelled(entries[x], name, |entries| - x);
      }
    }

    method AppendBlanks(name: seq<Byte>, number: nat, garbage: seq<Slot>)
      requires number == |garbage| == Parts(name) <= 0x3f
      modifies this
      ensures |entries| == |old(entries)| + number && entries[..|old(entries)|] == old(entries)
      ensures forall x :: |old(entries)| <= x < |entries| ==> Blank(entries[x], name, number - (x - |old(entries)|))
    {
      for i := 0 to number
        invariant |entries| == |old(entries)| + i && entries[..|old(entries)|] == old(entries)
        invariant forall x :: |old(entries)| <= x < |entries| ==> Blank(entries[x], name, number - (x - |old(entries)|))
      {
        var e := garbage[i][11 := 0xf][12 := 0][26 := 0][27 := 0];
        entries := entries + [e[0 := number - i + if i == 0 then 0x40 else 0]];
      }
    }

    method FillParts(name: seq<Byte>, first: nat, number: nat, buffer: array<Byte>)
      requires number == Parts(name) && |entries| == first + number
      requires 26 * number <= buffer.Length && forall i: nat :: i < 26 * number ==> buffer[i] == WideByte(name, i)
      requires forall x :: first <= x < |entries| ==> Blank(entries[x], name, number - (x - first))
      modifies this
      ensures |entries| == |old(entries)| && entries[..first] == old(entries)[..first]
      ensures forall x :: first <= x < |entries| ==> Filled(entries[x], name, number - (x - first), 26 * number)
    {
      hide WideByte, Filled, BytePlace, Blank;
      forall x | first <= x < |entries| ensures Filled(entries[x], name, number - (x - first), 0) {
        FillStart(entries[x], name, number - (x - first));
      }
      for i := 0 to 26 * number
        invariant |entries| == first + number && entries[..first] == old(entries)[..first]
        invariant forall x :: first <= x < |entries| ==> Filled(entries[x], name, number - (x - first), i)
      {
        var at := |entries| - 1 - i / 26;
        ghost var was := entries;
        entries := entries[at := entries[at][BytePlace(i % 26) := buffer[i]]];
        forall x | first <= x < |entries| ensures Filled(entries[x], name, number - (x - first), i + 1) {
          FillNext(was[x], name, number - (x - first), i, buffer[i]);
        }
      }
    }

    /** One checksum for all entries from first on that belong to long names. */
    method SetChecksum(first: nat, checksum: Byte)
      requires first <= |entries|
      modifies this
      ensures |entries| == |old(entries)| && entries[..first] == old(entries)[..first]
      ensures forall k :: first <= k < |entries| && (forall j :: first <= j <= k ==> old(entries)[j][11] == 0xf) ==>
                entries[k] == old(entries)[k][13 := checksum]
    {
      var k := first;
      while k < |entries| && entries[k][11] == 0xf
        invariant first <= k <= |entries| == |old(entries)|
        invariant entries[..first] == old(entries)[..first] && entries[k..] == old(entries)[k..]
        invariant forall j :: first <= j < k ==> entries[j] == old(entries)[j][13 := checksum] && old(entries)[j][11] == 0xf
      {
        assert entries[k] == entries[k..][0] == old(entries)[k];
        entries := entries[k := entries[k][13 := checksum]];
        k := k + 1;
        assert entries[k..] == old(entries)[k - 1..][1..];
      }
      assert k < |entries| ==> entries[k] == entries[k..][0] == old(entries)[k];
    }
  }

  /** Byte i goes to the part it belongs to. */
  lemma FillNext(e: Slot, name: seq<Byte>, q: nat, i: nat, b: Byte)
    requires Filled(e, name, q, i) && b == WideByte(name, i)
    ensures q == i / 26 + 1 ==> Filled(e[BytePlace(i % 26) := b], name, q, i + 1)
    ensures q != i / 26 + 1 ==> Filled(e, name, q, i + 1)
  {
    assert i == 26 * (i / 26) + i % 26;
  }

  lemma FillStart(e: Slot, name: seq<Byte>, q: nat)
    requires Blank(e, name, q)
    ensures Filled(e, name, q, 0)
  {
  }

  lemma FilledPart(e: Slot, name: seq<Byte>, q: nat)
    requires Filled(e, name, q, 26 * Parts(name)) && q <= Parts(name)
    ensures IsPart(e, name, q)
  {
  }

  /** The fixed bytes of a part. */
  ghost predicate Blank(e: Slot, name: seq<Byte>, q: nat) {
    && q >= 1 && e[0] == q + (if q == Parts(name) then 0x40 else 0)
    && e[11] == 0xf && e[12] == 0 && e[26] == 0 && e[27] == 0
  }

  /** A part of which the bytes before byte n of the whole name are in place. */
  ghost predicate Filled(e: Slot, name: seq<Byte>, q: nat, n: nat) {
    && Blank(e, name, q)
    && forall i :: 0 <= i < 26 && 26 * (q - 1) + i < n ==> e[BytePlace(i)] == WideByte(name, 26 * (q - 1) + i)
  }

  // ---------------------------------------------------------------------------------------
  // Reading names back

  const NO_CHECKSUM := 0x100
  const NAME_BYTES := 0x3f * 13 + 1

  predicate IsLong(e: Slot) {
    e[11] == 0xf
  }

  /** The entry with the end of the name, which comes first. */
  predicate IsLast(e: Slot) {
    e[0] / 0x40 % 2 == 1
  }

  function Sequence(e: Slot): nat {
    e[0] % 0x40
  }

  /** Character i of a part: a zero where the padding is; -1 when it is no such character. */
  function CharOf(e: Slot, i: nat): int
    requires i < 13
  {
    if e[Place(i) + 1] == 0 then e[Place(i)]
    else if e[Place(i) + 1] == 0xff && IsLast(e) then 0
    else -1
  }

  /** The two bytes at p are a character, or padding in the last part, which is read as zero. */
  ghost predicate CharFrom(e: Slot, p: nat, c: int)
    requires p + 1 < 32
  {
    if e[p + 1] == 0 then c == e[p] else e[p + 1] == 0xff && e[0] / 0x40 % 2 == 1 && c == 0
  }

  /** No character at p. */
  ghost predicate Garbled(e: Slot, p: nat)
    requires p + 1 < 32
  {
    e[p + 1] != 0 && !(e[p + 1] == 0xff && e[0] / 0x40 % 2 == 1)
  }

  /** The thirteen characters of an entry, offset by offset, are those of the text from at on. */
  ghost predicate ReadFrom(e: Slot, text: seq<Byte>, at: nat)
    requires at + 13 <= |text|
  {
    forall i :: 0 <= i < 13 ==> CharFrom(e, PLACES[i], text[at + i])
  }

  lemma CharRead(e: Slot, i: nat)
    requires i < 13
    ensures PLACES[i] < 31
    ensures forall c: nat :: CharOf(e, i) == c <==> CharFrom(e, PLACES[i], c)
    ensures CharOf(e, i) < 0 <==> Garbled(e, PLACES[i])
  {
    PlacesOf(i);
  }

  /** Length of the C string at the start of s. */
  function StringLength(s: seq<Byte>): (n: nat)
    ensures n <= |s| && (forall i :: 0 <= i < n ==> s[i] != 0) && (n < |s| ==> s[n] == 0)
  {
    if s == [] || s[0] == 0 then 0 else 1 + StringLength(s[1..])
  }

  class LongName {
    const name: array<Byte>
    var checksum: nat
    var len: nat
    var sequence: int

    constructor ()
      ensures name.Length == NAME_BYTES && fresh(name) && sequence == 0 && len == 0 && checksum == NO_CHECKSUM
    {
      name := new Byte[NAME_BYTES](_ => 0);
      sequence, len, checksum := 0, 0, NO_CHECKSUM;
    }

    /** The error that a long-name entry starts with, 0 if there is none. */
    ghost function HeadError(e: Slot): int
      reads this
    {
      if e[0] / 0x40 % 2 == 1 then 0
      else if e[0] % 0x40 != sequence - 1 then -1
      else if e[13] != checksum then -2
      else if e[12] != 0 || e[26] != 0 || e[27] != 0 then -3
      else 0
    }

    /** Takes one directory entry: 0 when it continues the long name, 1 when it is none, negative on errors. */
    method ParseLongName(e: Slot) returns (r: int)
      requires name.Length == NAME_BYTES && (IsLong(e) ==> Sequence(e) >= 1)
      modifies this, name
      ensures r == 1 <==> e[11] != 0xf
      ensures e[11] == 0xf && old(HeadError(e)) != 0 ==> r == old(HeadError(e)) && name[..] == old(name[..])
      ensures e[11] == 0xf && old(HeadError(e)) == 0 ==>
        r == (if forall i :: 0 <= i < 13 ==> CharOf(e, i) >= 0 then 0 else -4)
        && sequence == e[0] % 0x40 && checksum == if e[0] / 0x40 % 2 == 1 then e[13] else old(checksum)
      ensures r == 0 ==> forall i :: 0 <= i < 13 ==> name[13 * (sequence - 1) + i] == CharOf(e, i)
      ensures r == 0 ==> ReadFrom(e, name[..], 13 * (sequence - 1))
      ensures r == -4 <==> e[11] == 0xf && old(HeadError(e)) == 0 && exists i :: 0 <= i < 13 && Garbled(e, PLACES[i])
      ensures r == 0 ==> forall x :: 13 * sequence < x < NAME_BYTES ==> name[x] == old(name[..])[x]
      ensures r == 0 ==> if e[0] / 0x40 % 2 == 1 then name[13 * sequence] == 0 else name[13 * sequence] == old(name[..])[13 * sequence]
      ensures r == 0 && e[0] / 0x40 % 2 == 1 ==> len == 13 * (sequence - 1) + StringLength(name[13 * (sequence - 1)..])
      ensures r == 0 && e[0] / 0x40 % 2 == 0 ==> len == old(len)
    {
      if !IsLong(e) { return 1; }
      if IsLast(e) {
        sequence := Sequence(e);
        checksum := e[13];
        name[0] := 0;
        name[sequence * 13] := 0;
      } else {
        sequence := sequence - 1;
        if Sequence(e) != sequence { return -1; }
        if e[13] != checksum { return -2; }
        if e[12] != 0 || e[26] != 0 || e[27] != 0 { return -3; }
      }
      var offset := 13 * (sequence - 1);
      var ok := ReadPart(e, offset);
      forall i: nat | i < 13
        ensures PLACES[i] < 31 && (CharOf(e, i) < 0 <==> Garbled(e, PLACES[i]))
        ensures CharOf(e, i) >= 0 ==> CharFrom(e, PLACES[i], CharOf(e, i))
      {
        CharRead(e, i);
      }
      if !ok { return -4; }
      if IsLast(e) {
        len := offset + StringLength(name[offset..]);
      }
      return 0;
    }

    /** The thirteen characters of a part; stops at one that is none. */
    method ReadPart(e: Slot, offset: nat) returns (ok: bool)
      requires offset + 13 < name.Length
      modifies name
      ensures ok <==> forall i :: 0 <= i < 13 ==> CharOf(e, i) >= 0
      ensures ok ==> forall i :: 0 <= i < 13 ==> name[offset + i] == CharOf(e, i)
      ensures forall x :: offset + 13 <= x < name.Length ==> name[x] == old(name[..])[x]
    {
      for i := 0 to 13
        invariant forall k :: 0 <= k < i ==> CharOf(e, k) >= 0 && name[offset + k] == CharOf(e, k)
        invariant forall x :: offset + 13 <= x < name.Length ==> name[x] == old(name[..])[x]
      {
        if e[Place(i) + 1] == 0 {
          name[offset + i] := e[Place(i)];
        } else if e[Place(i) + 1] != 0xff || !IsLast(e) {
          assert CharOf(e, i) < 0;
          return false;
        } else {
          name[offset + i] := 0;
        }
      }
      return true;
    }
  }

  // ---------------------------------------------------------------------------------------
  // Round trip

  /** What a part says about the characters of the name. */
  lemma PartChars(e: Slot, name: seq<Byte>, q: nat)
    requires IsPart(e, name, q) && 1 <= |name| <= LONGEST && q <= Parts(name)
    ensures IsLong(e) && e[11] == 0xf && Sequence(e) == e[0] % 0x40 == q && e[12] == e[26] == e[27] == 0
    ensures (IsLast(e) <==> q == Parts(name)) && (e[0] / 0x40 % 2 == 1 <==> q == Parts(name))
    ensures forall i :: 0 <= i < 13 ==> CharOf(e, i) == CharAt(name, 13 * (q - 1) + i)
  {
    forall i | 0 <= i < 13 ensures CharOf(e, i) == CharAt(name, 13 * (q - 1) + i) {
      assert BytePlace(2 * i) == Place(i) && BytePlace(2 * i + 1) == Place(i) + 1;
      assert e[BytePlace(2 * i)] == WideByte(name, 26 * (q - 1) + 2 * i);
      assert e[BytePlace(2 * i + 1)] == WideByte(name, 26 * (q - 1) + (2 * i + 1));
    }
  }

  /** The name as a C string with zeros behind it. */
  function CharAt(name: seq<Byte>, x: nat): Byte {
    if x < |name| then name[x] else 0
  }

  /** Reading the entries of a name in the order of the directory gives back the name and its length. */
  method ParseParts(parser: LongName, es: seq<Slot>, ghost name: seq<Byte>, ghost checksum: Byte) returns (ok: bool)
    requires parser.name.Length == NAME_BYTES && Text(name) && 1 <= |name| <= LONGEST && AreParts(es, name, checksum)
    modifies parser, parser.name
    ensures ok && parser.len == |name| && parser.checksum == checksum && parser.sequence == 1
    ensures parser.name[..|name|] == name && parser.name[|name|] == 0
  {
    hide IsPart, CharOf, IsLast, Sequence, IsLong;
    ok := true;
    for k := 0 to |es|
      invariant ok && (k > 0 ==> parser.len == |name| && parser.checksum == checksum && parser.sequence == |es| - k + 1)
      invariant k > 0 ==> forall x :: 13 * (|es| - k) <= x <= |name| ==> parser.name[x] == CharAt(name, x)
    {
      ghost var q := |es| - k;
      ghost var before := parser.name[..];
      PartChars(es[k], name, q);
      var r := parser.ParseLongName(es[k]);
      ok := ok && r == 0;
      NextPart(before, parser.name[..], name, es[k], q);
    }
  }

  /** One more part is in place. */
  lemma NextPart(before: seq<Byte>, now: seq<Byte>, name: seq<Byte>, e: Slot, q: nat)
    requires 1 <= |name| <= LONGEST && Text(name) && 1 <= q <= Parts(name) && |before| == |now| == NAME_BYTES
    requires forall i :: 0 <= i < 13 ==> CharOf(e, i) == CharAt(name, 13 * (q - 1) + i)
    requires forall i :: 0 <= i < 13 ==> now[13 * (q - 1) + i] == CharOf(e, i)
    requires q < Parts(name) ==> forall x :: 13 * q <= x < NAME_BYTES ==> now[x] == before[x]
    requires q < Parts(name) ==> forall x :: 13 * q <= x <= |name| ==> before[x] == CharAt(name, x)
    requires q == Parts(name) ==> now[13 * q] == 0
    ensures forall x :: 13 * (q - 1) <= x <= |name| ==> now[x] == CharAt(name, x)
    ensures q == Parts(name) ==> 13 * (q - 1) + StringLength(now[13 * (q - 1)..]) == |name|
  {
    forall x | 13 * (q - 1) <= x <= |name| ensures now[x] == CharAt(name, x) {
      if x < 13 * q {
        assert now[13 * (q - 1) + (x - 13 * (q - 1))] == CharOf(e, x - 13 * (q - 1));
      }
    }
    if q == Parts(name) {
      var s := now[13 * (q - 1)..];
      var m := |name| - 13 * (q - 1);
      assert s[m] == now[|name|] == 0;
      forall i | 0 <= i < m ensures s[i] != 0 { assert s[i] == now[13 * (q - 1) + i] == name[13 * (q - 1) + i]; }
    }
  }

  /** Writing a long name into a directory and reading the entries back. */
  method RoundTrip(directory: Directory, parser: LongName, name: seq<Byte>, checksum: Byte, garbage: seq<Slot>) returns (ok: bool)
    requires parser.name.Length == NAME_BYTES && Text(name) && 1 <= |name| <= LONGEST && |garbage| == Parts(name)
    modifies directory, parser, parser.name
    ensures ok && parser.len == |name| && parser.name[..|name|] == name && parser.name[|name|] == 0
    ensures parser.checksum == checksum
    ensures |old(directory.entries)| <= |directory.entries| && directory.entries[..|old(directory.entries)|] == old(directory.entries)
    ensures AreParts(directory.entries[|old(directory.entries)|..], name, checksum)
  {
    hide IsPart;
    var first := directory.CreateLongFilename(name, garbage);
    ghost var written := directory.entries;
    forall x | first <= x < |written| ensures written[x][11] == 0xf { IsLongPart(written[x], name, Parts(name) - (x - first)); }
    directory.SetChecksum(first, checksum);
    var es := directory.entries[first..];
    forall k | 0 <= k < |es| ensures IsPart(es[k], name, |es| - k) && es[k][13] == checksum {
      assert es[k] == written[first + k][13 := checksum];
      ChecksumFree(written[first + k], name, |es| - k, checksum);
    }
    ok := ParseParts(parser, es, name, checksum);
  }

  lemma IsLongPart(e: Slot, name: seq<Byte>, q: nat)
    requires IsPart(e, name, q)
    ensures e[11] == 0xf
  {
  }

  lemma ChecksumFree(e: Slot, name: seq<Byte>, q: nat, checksum: Byte)
    requires IsPart(e, name, q)
    ensures IsPart(e[13 := checksum], name, q)
  {
  }
}
