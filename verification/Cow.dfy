/** The bitmap overlay: sectors that were written are in the overlay's file, the others in the backing disk. */
module Cow {
  import opened ByteAccess

  /** Bytes of the header in front of the bitmap. */
  type HeaderSize = n: nat | n > 0 witness 1056
  const HEADER: HeaderSize

  const ALLOCATED_RUN := 65536

  function Mask(k: nat): bv8
    requires k < 8
  {
    if k == 0 then 1 else if k == 1 then 2 else if k == 2 then 4 else if k == 3 then 8
    else if k == 4 then 16 else if k == 5 then 32 else if k == 6 then 64 else 128
  }

  predicate BitOf(b: bv8, k: nat)
    requires k < 8
  {
    b & Mask(k) != 0
  }

  lemma SetOneBit(b: bv8, k: nat, m: nat)
    requires k < 8 && m < 8
    ensures BitOf(b | Mask(k), m) <==> m == k || BitOf(b, m)
  {
    BitwiseOr(b, Mask(k), Mask(m));
    MaskDisjoint(k, m);
  }

  lemma BitwiseOr(b: bv8, x: bv8, y: bv8)
    ensures (b | x) & y == (b & y) | (x & y)
  {
  }

  lemma MaskDisjoint(k: nat, m: nat)
    requires k < 8 && m < 8
    ensures Mask(k) & Mask(m) == if k == m then Mask(k) else 0
  {
  }

  /** Bytes of a bitmap with a bit for each sector. */
  function BitmapBytes(total: nat): nat { (total + 7) / 8 }

  /** Where the data of sector 0 is: behind the bitmap, at a sector boundary. */
  function DataStart(total: nat): nat { (HEADER + BitmapBytes(total) + 511) / 512 * 512 }

  /** The first sector boundary that has the header and a bit for each sector in front of it. */
  ghost predicate Behind(d: nat, total: nat) {
    d % 512 == 0 && HEADER <= d && total <= 8 * (d - HEADER) && 8 * (d - 512 - HEADER) < total
  }

  lemma DataBehind(d: nat, total: nat)
    ensures Behind(d, total) <==> d == DataStart(total)
  {
  }

  lemma MaskShift(k: nat)
    requires k < 8
    ensures Mask(k) == 1 << k
  {
  }

  lemma InBitmap(total: nat, i: nat)
    requires i < total
    ensures HEADER + i / 8 < DataStart(total)
  {
  }

  lemma BitShift(b: bv8, k: nat)
    requires k < 8
    ensures BitOf(b, k) <==> b & (1 << k) != 0
  {
    MaskShift(k);
  }

  class Overlay {
    const total: nat
    /** Header, bitmap and data, as one file. */
    const file: array<bv8>
    const backing: SectorDevice?

    ghost predicate Valid() {
      && file.Length == DataStart(total) + 512 * total
      && (backing != null ==> backing.Valid() && backing.bytes != file && 512 * total <= backing.bytes.Length)
    }

    /** Whether sector i was written; bits behind the bitmap are taken as clear. */
    predicate IsBitSet(i: nat)
      requires file.Length == DataStart(total) + 512 * total
      reads file
    {
      i < total && BitOf(file[HEADER + i / 8], i % 8)
    }

    /** Bit i % 8 of byte i / 8 behind the header. */
    ghost predicate Written(i: nat)
      requires HEADER + i / 8 < file.Length
      reads file
    {
      file[HEADER + i / 8] & (1 << (i % 8)) != 0
    }

    lemma WrittenMeans(i: nat)
      requires Valid() && i < total
      ensures HEADER + i / 8 < file.Length && (IsBitSet(i) <==> Written(i))
    {
      BitShift(file[HEADER + i / 8], i % 8);
    }

    /** The bytes from sector s on, if the data of the overlay begin at d: where the bit of the sector is set they are in the
        file, elsewhere they are those of the backing disk or zeros. */
    ghost predicate Shows(d: nat, s: nat, buf: seq<bv8>)
      requires Valid() && 512 * s + |buf| <= 512 * total && Behind(d, total) && file.Length == d + 512 * total
      reads file, if backing == null then {} else {backing.bytes}
    {
      forall x: nat :: x < |buf| ==>
        buf[x] == if Written((512 * s + x) / 512) then file[d + (512 * s + x)]
                  else if backing == null then 0 else backing.bytes[512 * s + x]
    }

    /** Byte x of the disk that a guest sees. */
    function ViewByte(x: nat): bv8
      requires Valid() && x < 512 * total
      reads file, if backing == null then {} else {backing.bytes}
    {
      if IsBitSet(x / 512) then file[DataStart(total) + x]
      else if backing == null then 0
      else backing.bytes[x]
    }

    /** A new overlay: no sector has been written. */
    constructor (sectors: nat, base: SectorDevice?)
      requires base != null ==> base.Valid() && 512 * sectors <= base.bytes.Length
      ensures Valid() && total == sectors && backing == base && fresh(file)
      ensures forall d: nat :: Behind(d, sectors) ==> file.Length == d + 512 * sectors
      ensures forall i: nat :: !IsBitSet(i)
      ensures forall x: nat :: x < 512 * total ==> ViewByte(x) == if base == null then 0 else base.bytes[x]
    {
      total, backing := sectors, base;
      file := new bv8[DataStart(sectors) + 512 * sectors](_ => 0);
      new;
      forall d: nat | Behind(d, sectors) ensures file.Length == d + 512 * sectors { DataBehind(d, sectors); }
      forall i: nat ensures !IsBitSet(i) { assert i < total ==> file[HEADER + i / 8] == 0; }
    }

    method SetBit(i: nat)
      requires Valid() && i < total
      modifies file
      ensures forall k: nat :: IsBitSet(k) <==> k == i || old(IsBitSet(k))
      ensures forall x :: DataStart(total) <= x < file.Length ==> file[x] == old(file[x])
      ensures file[..] == old(file[..])[HEADER + i / 8 := old(file[HEADER + i / 8]) | (1 << (i % 8))]
    {
      hide Mask, BitOf, DataStart;
      InBitmap(total, i);
      ghost var before := file[..];
      file[HEADER + i / 8] := file[HEADER + i / 8] | Mask(i % 8);
      OneBitMore(before, i);
      MaskShift(i % 8);
    }

    lemma OneBitMore(before: seq<bv8>, i: nat)
      requires Valid() && i < total && |before| == file.Length && HEADER + i / 8 < |before|
      requires file[..] == before[HEADER + i / 8 := before[HEADER + i / 8] | Mask(i % 8)]
      ensures forall k: nat :: k < total ==>
        HEADER + k / 8 < |before| && (IsBitSet(k) <==> k == i || BitOf(before[HEADER + k / 8], k % 8))
    {
      hide Mask, BitOf, DataStart;
      forall k: nat | k < total
        ensures HEADER + k / 8 < |before| && (IsBitSet(k) <==> k == i || BitOf(before[HEADER + k / 8], k % 8))
      {
        InBitmap(total, k);
        assert file[HEADER + k / 8] == file[..][HEADER + k / 8];
        if k / 8 == i / 8 { SetOneBit(before[HEADER + i / 8], i % 8, k % 8); }
      }
    }

    /** The state of sector s, and the length of the run of at most nb sectors from s on that are in this state. */
    method IsChanged(s: nat, nb: nat) returns (changed: bool, same: nat)
      requires Valid()
      ensures same <= nb && (nb > 0 ==> same > 0 && changed == IsBitSet(s))
      ensures forall k :: s <= k < s + same ==> IsBitSet(k) == changed
      ensures 0 < same < nb ==> IsBitSet(s + same) != changed
    {
      if nb == 0 { return false, nb; }
      changed := IsBitSet(s);
      same := 1;
      while same < nb
        invariant 1 <= same <= nb
        invariant forall k :: s <= k < s + same ==> IsBitSet(k) == changed
      {
        if IsBitSet(s + same) != changed { break; }
        same := same + 1;
      }
    }

    /** Reads n sectors, run by run. */
    method CowRead(s: nat, n: nat) returns (buf: seq<bv8>)
      requires Valid() && s + n <= total
      ensures |buf| == 512 * n && forall x: nat :: x < 512 * n ==> buf[x] == ViewByte(512 * s + x)
      ensures forall d: nat :: Behind(d, total) ==> file.Length == d + 512 * total && Shows(d, s, buf)
    {
      var left, sector := n, s;
      buf := [];
      while left > 0
        invariant 0 <= left <= n && sector == s + (n - left) && |buf| == 512 * (n - left)
        invariant forall x: nat :: x < |buf| ==> buf[x] == ViewByte(512 * s + x)
      {
        var changed, m := IsChanged(sector, left);
        var part := ReadRun(sector, m, changed);
        ghost var before := buf;
        buf := buf + part;
        forall x: nat | x < |buf| ensures buf[x] == ViewByte(512 * s + x) {
          if x >= |before| { assert buf[x] == part[x - |before|]; }
        }
        left := left - m;
        sector := sector + m;
      }
      ViewShows(s, buf);
    }

    lemma ViewShows(s: nat, buf: seq<bv8>)
      requires Valid() && 512 * s + |buf| <= 512 * total && forall x: nat :: x < |buf| ==> buf[x] == ViewByte(512 * s + x)
      ensures forall d: nat :: Behind(d, total) ==> file.Length == d + 512 * total && Shows(d, s, buf)
    {
      forall d: nat | Behind(d, total) ensures file.Length == d + 512 * total && Shows(d, s, buf) {
        DataBehind(d, total);
        forall x: nat | x < |buf|
          ensures buf[x] == if Written((512 * s + x) / 512) then file[d + (512 * s + x)]
                            else if backing == null then 0 else backing.bytes[512 * s + x]
        {
          WrittenMeans((512 * s + x) / 512);
        }
      }
    }

    /** The data of sector s are replaced, whose place is d + 512 * s, and bits are set for them. */
    ghost predicate Puts(d: nat, before: seq<bv8>, s: nat, buf: seq<bv8>)
      requires Valid() && 512 * s + |buf| <= 512 * total && Behind(d, total) && file.Length == d + 512 * total == |before|
      reads file
    {
      && file[d..] == before[d..][..512 * s] + buf + before[d..][512 * s + |buf|..]
      && forall k: nat :: k < total ==>
           (Written(k) <==> s <= k < s + |buf| / 512 || before[HEADER + k / 8] & (1 << (k % 8)) != 0)
    }

    /** Sectors that are all in one state, from the file or from the backing disk. */
    method ReadRun(s: nat, n: nat, changed: bool) returns (part: seq<bv8>)
      requires Valid() && s + n <= total && forall k :: s <= k < s + n ==> IsBitSet(k) == changed
      ensures |part| == 512 * n && forall x: nat :: x < 512 * n ==> part[x] == ViewByte(512 * s + x)
    {
      if changed {
        part := file[DataStart(total) + 512 * s..DataStart(total) + 512 * (s + n)];
      } else if backing != null {
        part := backing.Read(s, n);
      } else {
        part := seq(512 * n, _ => 0);
      }
      forall x: nat | x < 512 * n ensures part[x] == ViewByte(512 * s + x) {
        assert IsBitSet((512 * s + x) / 512) == changed;
      }
    }

    /** Writes whole sectors into the overlay and marks them. */
    method CowWrite(s: nat, buf: seq<bv8>)
      requires Valid() && |buf| % 512 == 0 && 512 * s + |buf| <= 512 * total
      modifies file
      ensures forall x: nat :: x < 512 * total ==>
        ViewByte(x) == if 512 * s <= x < 512 * s + |buf| then buf[x - 512 * s] else old(ViewByte(x))
      ensures forall k: nat :: IsBitSet(k) <==> s <= k < s + |buf| / 512 || old(IsBitSet(k))
      ensures forall d: nat :: Behind(d, total) ==> file.Length == d + 512 * total && Puts(d, old(file[..]), s, buf)
    {
      hide BitOf, Mask;
      ghost var before := file[..];
      var at := DataStart(total) + 512 * s;
      forall i | 0 <= i < |buf| { file[at + i] := buf[i]; }
      assert forall k: nat :: IsBitSet(k) == old(IsBitSet(k));
      var n := |buf| / 512;
      for i := 0 to n
        invariant forall k: nat :: IsBitSet(k) <==> s <= k < s + i || old(IsBitSet(k))
        invariant forall x :: DataStart(total) <= x < file.Length ==>
          file[x] == if at <= x < at + |buf| then buf[x - at] else old(file[x])
      {
        SetBit(s + i);
      }
      PutsMeans(before, s, buf);
    }

    lemma PutsMeans(before: seq<bv8>, s: nat, buf: seq<bv8>)
      requires Valid() && 512 * s + |buf| <= 512 * total && |before| == file.Length
      requires forall x :: DataStart(total) <= x < file.Length ==>
        file[x] == if DataStart(total) + 512 * s <= x < DataStart(total) + 512 * s + |buf| then buf[x - DataStart(total) - 512 * s] else before[x]
      requires forall k: nat :: k < total ==> (IsBitSet(k) <==> s <= k < s + |buf| / 512 || BitOf(before[HEADER + k / 8], k % 8))
      ensures forall d: nat :: Behind(d, total) ==> file.Length == d + 512 * total && Puts(d, before, s, buf)
    {
      hide Mask, BitOf, Overlay.Written, DataStart;
      forall d: nat | Behind(d, total) ensures file.Length == d + 512 * total && Puts(d, before, s, buf) {
        DataBehind(d, total);
        forall k: nat | k < total
          ensures Written(k) <==> s <= k < s + |buf| / 512 || before[HEADER + k / 8] & (1 << (k % 8)) != 0
        {
          WrittenMeans(k);
          BitShift(before[HEADER + k / 8], k % 8);
        }
      }
    }

    /** Copies n sectors that were written to the backing disk, one by one. */
    method CommitRun(s: nat, n: nat)
      requires Valid() && backing != null && s + n <= total && forall k :: s <= k < s + n ==> IsBitSet(k)
      modifies backing.bytes
      ensures forall x: nat :: 512 * s <= x < 512 * (s + n) ==> backing.bytes[x] == old(ViewByte(x))
      ensures forall x: nat :: x < backing.bytes.Length && !(512 * s <= x < 512 * (s + n)) ==> backing.bytes[x] == old(backing.bytes[x])
    {
      hide Replaced, DataStart, BitmapBytes;
      for j := 0 to n
        invariant forall x: nat :: 512 * s <= x < 512 * (s + j) ==> backing.bytes[x] == old(ViewByte(x))
        invariant forall x: nat :: x < backing.bytes.Length && !(512 * s <= x < 512 * (s + j)) ==>
          backing.bytes[x] == old(backing.bytes[x])
      {
        ghost var before := backing.bytes[..];
        var sector := CowRead(s + j, 1);
        assert forall x: nat :: x < 512 ==> sector[x] == old(ViewByte(512 * (s + j) + x)) by { assert IsBitSet(s + j); }
        backing.Write(s + j, sector);
        forall x: nat | x < backing.bytes.Length
          ensures backing.bytes[x] == if 512 * (s + j) <= x < 512 * (s + j) + 512 then sector[x - 512 * (s + j)] else before[x]
        {
          assert backing.bytes[..][x] == Replaced(before, (s + j) * SECTOR_SIZE, sector)[x];
        }
      }
    }

    /** Copies every sector that was written to the backing disk; -95 without one. */
    method Commit() returns (r: int)
      requires Valid()
      modifies if backing == null then {} else {backing.bytes}
      ensures backing == null ==> r == -95
      ensures backing != null ==> r == 0 && forall x: nat :: x < 512 * total ==> backing.bytes[x] == old(ViewByte(x))
      ensures backing != null ==> forall x: nat :: 512 * total <= x < backing.bytes.Length ==> backing.bytes[x] == old(backing.bytes[x])
      ensures forall x: nat :: x < 512 * total ==> ViewByte(x) == old(ViewByte(x))
    {
      hide DataStart, BitmapBytes;
      if backing == null { return -95; }
      var i := 0;
      while i < total
        invariant forall x: nat :: x < 512 * i && x < 512 * total ==> backing.bytes[x] == old(ViewByte(x))
        invariant forall x: nat :: x < backing.bytes.Length && (x >= 512 * i || x >= 512 * total) ==> backing.bytes[x] == old(backing.bytes[x])
        decreases total - i
      {
        var changed, n := IsChanged(i, ALLOCATED_RUN);
        if changed {
          assert IsBitSet(i + n - 1);
          CommitRun(i, n);
        } else {
          forall x: nat | 512 * i <= x < 512 * (i + n) && x < 512 * total ensures backing.bytes[x] == old(ViewByte(x)) {
            assert IsBitSet(x / 512) == changed;
          }
        }
        i := i + n;
      }
      r := 0;
    }
  }
}
