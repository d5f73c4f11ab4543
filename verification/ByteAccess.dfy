/** Byte access to a device that only reads and writes whole sectors. */
module ByteAccess {

  const SECTOR_SIZE := 512

  class SectorDevice {
    const bytes: array<bv8>

    ghost predicate Valid() {
      bytes.Length % SECTOR_SIZE == 0
    }

    constructor (sectors: nat)
      ensures Valid() && fresh(bytes) && bytes.Length == sectors * SECTOR_SIZE
    {
      bytes := new bv8[sectors * SECTOR_SIZE];
    }

    method Read(sector: nat, n: nat) returns (buf: seq<bv8>)
      requires (sector + n) * SECTOR_SIZE <= bytes.Length
      ensures buf == bytes[..][sector * SECTOR_SIZE..(sector + n) * SECTOR_SIZE]
    {
      buf := bytes[..][sector * SECTOR_SIZE..(sector + n) * SECTOR_SIZE];
    }

    method Write(sector: nat, buf: seq<bv8>)
      requires |buf| % SECTOR_SIZE == 0 && sector * SECTOR_SIZE + |buf| <= bytes.Length
      modifies bytes
      ensures bytes[..] == Replaced(old(bytes[..]), sector * SECTOR_SIZE, buf)
    {
      forall i | 0 <= i < |buf| { bytes[sector * SECTOR_SIZE + i] := buf[i]; }
    }

    /** Reads any stretch of bytes: up to the first sector boundary, whole sectors, the start of the last sector. */
    method Pread(offset: nat, count: nat) returns (buf: seq<bv8>)
      requires Valid() && offset + count <= bytes.Length
      ensures buf == bytes[..][offset..offset + count]
    {
      hide Head;
      ghost var s := bytes[..];
      HeadFacts(offset, count);
      var len := Head(offset, count);
      var sector := offset / SECTOR_SIZE;
      buf := [];
      if len > 0 {
        buf := ReadPart(sector, offset % SECTOR_SIZE, len);
        if len == count { return; }
        sector := sector + 1;
      }
      var rest := ReadRest(offset + len, sector, count - len);
      Join(s, offset, offset + len, offset + count);
      buf := buf + rest;
    }

    /** The rest of such a read, from a sector boundary on. */
    method ReadRest(offset: nat, start: nat, count: nat) returns (buf: seq<bv8>)
      requires Valid() && offset + count <= bytes.Length && (count > 0 ==> offset == start * SECTOR_SIZE)
      ensures buf == bytes[..][offset..offset + count]
    {
      ghost var s := bytes[..];
      var sector, left := start, count;
      buf := [];
      var n := left / SECTOR_SIZE;
      if n > 0 {
        buf := Read(sector, n);
        sector := sector + n;
        left := left - n * SECTOR_SIZE;
      }
      if left > 0 {
        var tmp := ReadPart(sector, 0, left);
        Join(s, offset, sector * SECTOR_SIZE, offset + count);
        buf := buf + tmp;
      }
    }

    method ReadPart(sector: nat, at: nat, n: nat) returns (buf: seq<bv8>)
      requires (sector + 1) * SECTOR_SIZE <= bytes.Length && at + n <= SECTOR_SIZE
      ensures buf == bytes[..][sector * SECTOR_SIZE + at..sector * SECTOR_SIZE + at + n]
    {
      var tmp := Read(sector, 1);
      PartOf(bytes[..], sector * SECTOR_SIZE, (sector + 1) * SECTOR_SIZE, at, n);
      buf := tmp[at..at + n];
    }

    /** Writes any stretch of bytes; sectors it covers only in part are read first. */
    method Pwrite(offset: nat, buf: seq<bv8>)
      requires Valid() && offset + |buf| <= bytes.Length
      modifies bytes
      ensures bytes[..] == Replaced(old(bytes[..]), offset, buf)
    {
      hide Replaced;
      ghost var s := bytes[..];
      HeadFacts(offset, |buf|);
      var done := Head(offset, |buf|);
      var sector := offset / SECTOR_SIZE;
      ReplacedNothing(s, offset, buf);
      if done > 0 {
        WritePart(sector, offset % SECTOR_SIZE, buf[..done]);
        if done == |buf| {
          assert buf[..done] == buf;
          return;
        }
        sector := sector + 1;
      }
      WriteRest(s, offset, sector, buf, done);
    }

    /** The rest of such a write, from a sector boundary on. */
    method WriteRest(ghost s: seq<bv8>, offset: nat, start: nat, buf: seq<bv8>, already: nat)
      requires Valid() && offset + |buf| <= bytes.Length == |s|
      requires already <= |buf| && (already < |buf| ==> offset + already == start * SECTOR_SIZE)
      requires bytes[..] == Replaced(s, offset, buf[..already])
      modifies bytes
      ensures bytes[..] == Replaced(s, offset, buf)
    {
      hide Replaced;
      var sector, done := start, already;
      var n := (|buf| - done) / SECTOR_SIZE;
      if n > 0 {
        Write(sector, buf[done..done + n * SECTOR_SIZE]);
        ReplacedJoin(s, offset, buf, done, done + n * SECTOR_SIZE);
        sector := sector + n;
        done := done + n * SECTOR_SIZE;
      }
      if done < |buf| {
        WritePart(sector, 0, buf[done..]);
        ReplacedJoin(s, offset, buf, done, |buf|);
        assert buf[done..|buf|] == buf[done..];
      }
      assert buf[..|buf|] == buf;
    }

    /** Reads a sector, replaces some of its bytes, writes it back. */
    method WritePart(sector: nat, at: nat, buf: seq<bv8>)
      requires (sector + 1) * SECTOR_SIZE <= bytes.Length && at + |buf| <= SECTOR_SIZE
      modifies bytes
      ensures bytes[..] == Replaced(old(bytes[..]), sector * SECTOR_SIZE + at, buf)
    {
      var tmp := Read(sector, 1);
      Write(sector, Replaced(tmp, at, buf));
    }
  }

  /** s with the bytes from at on replaced. */
  function Replaced(s: seq<bv8>, at: nat, buf: seq<bv8>): (t: seq<bv8>)
    requires at + |buf| <= |s|
    ensures |t| == |s| && forall i :: 0 <= i < |s| ==> t[i] == if at <= i < at + |buf| then buf[i - at] else s[i]
  {
    s[..at] + buf + s[at + |buf|..]
  }

  /** Bytes up to the next sector boundary, at most count. */
  function Head(offset: nat, count: nat): (len: nat)
    ensures len <= count
  {
    if (SECTOR_SIZE - offset) % SECTOR_SIZE > count then count else (SECTOR_SIZE - offset) % SECTOR_SIZE
  }

  lemma HeadFacts(offset: nat, count: nat)
    ensures offset % SECTOR_SIZE + Head(offset, count) <= SECTOR_SIZE
    ensures offset / SECTOR_SIZE * SECTOR_SIZE + offset % SECTOR_SIZE == offset
    ensures Head(offset, count) < count ==>
      offset + Head(offset, count) == (offset / SECTOR_SIZE + if Head(offset, count) > 0 then 1 else 0) * SECTOR_SIZE
  {
  }

  lemma PartOf(s: seq<bv8>, a: nat, b: nat, at: nat, n: nat)
    requires a <= b <= |s| && at + n <= b - a
    ensures s[a..b][at..at + n] == s[a + at..a + at + n]
  {
    var t, u := s[a..b][at..at + n], s[a + at..a + at + n];
    assert forall i :: 0 <= i < n ==> t[i] == u[i];
  }

  lemma Join(s: seq<bv8>, a: nat, b: nat, c: nat)
    requires a <= b <= c <= |s|
    ensures s[a..b] + s[b..c] == s[a..c]
  {
  }

  lemma ReplacedNothing(s: seq<bv8>, at: nat, buf: seq<bv8>)
    requires at + |buf| <= |s|
    ensures Replaced(s, at, buf[..0]) == s
  {
  }

  lemma ReplacedPart(s: seq<bv8>, at: nat, buf: seq<bv8>)
    requires at + |buf| <= |s|
    ensures Replaced(s, at, buf)[at..at + |buf|] == buf
    ensures |buf| == |s| ==> Replaced(s, at, buf) == buf
  {
  }

  /** Writing two pieces that follow each other is writing both at once. */
  lemma ReplacedJoin(s: seq<bv8>, at: nat, buf: seq<bv8>, d: nat, e: nat)
    requires d <= e <= |buf| && at + |buf| <= |s|
    ensures Replaced(Replaced(s, at, buf[..d]), at + d, buf[d..e]) == Replaced(s, at, buf[..e])
  {
  }
}
