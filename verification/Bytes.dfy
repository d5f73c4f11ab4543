/** Byte addresses in the image file, and the packed table entries of compressed clusters. */
module Bytes {
  import opened Layout
  import opened Counting
  import opened Guest

  const CLUSTER_BYTES: nat := 512 * CLUSTER_SECTORS

  function Ceiling(a: nat, b: nat): nat
    requires b >= 1
  {
    (a + b - 1) / b
  }

  lemma LeastMultiple(a: nat, b: nat, n: nat)
    requires a >= 1 && b >= 1
    ensures n == Ceiling(a, b) <==> n * b - b < a <= n * b
  {
    var m := a + b - 1;
    if n * b - b < a <= n * b { DivModUnique(m, b, n, m - n * b); }
  }

  lemma AtLeastOne(a: nat, b: nat)
    requires a >= 1 && b >= 1
    ensures Ceiling(a, b) >= 1
  {
    DivMonotone(b, a + b - 1, b);
    DivModUnique(b, b, 1, 0);
  }

  /** Clusters needed for a number of bytes. */
  function ByteClusters(size: nat): nat {
    Ceiling(size, CLUSTER_BYTES)
  }

  function ClusterOf(offset: nat): nat {
    offset / CLUSTER_BYTES
  }

  lemma ClusterMonotone(a: nat, b: nat)
    requires a <= b
    ensures ClusterOf(a) <= ClusterOf(b)
  {
    DivMonotone(a, b, CLUSTER_BYTES);
  }

  /** Position inside the cluster. */
  function At(offset: nat): (r: nat)
    ensures r < CLUSTER_BYTES
  {
    offset % CLUSTER_BYTES
  }

  /** The first byte of a cluster. */
  function Start(c: nat): nat {
    c * CLUSTER_BYTES
  }

  lemma Address(offset: nat)
    ensures offset == Start(ClusterOf(offset)) + At(offset)
  {
  }

  lemma AddressUnique(c: nat, at: nat)
    requires at < CLUSTER_BYTES
    ensures ClusterOf(Start(c) + at) == c && At(Start(c) + at) == at
  {
    DivModUnique(Start(c) + at, CLUSTER_BYTES, c, at);
  }

  lemma NextStart(c: nat)
    ensures Start(c + 1) == Start(c) + CLUSTER_BYTES
  {
    Distribute(c, 1, CLUSTER_BYTES);
  }

  /** How many clusters the bytes offset .. offset + size - 1 touch. */
  function Touched(offset: nat, size: nat): nat {
    if size == 0 then 0
    else
      ClusterMonotone(offset, offset + size - 1);
      ClusterOf(offset + size - 1) - ClusterOf(offset) + 1
  }

  /** The clusters they touch, each once. */
  function ByteRun(offset: nat, size: nat): multiset<nat> {
    Run(ClusterOf(offset), Touched(offset, size))
  }

  /** A cluster is touched exactly when one of its bytes is used. */
  lemma TouchedBy(offset: nat, size: nat, c: nat)
    ensures ByteRun(offset, size)[c] == if offset < Start(c + 1) && Start(c) < offset + size && size > 0 then 1 else 0
  {
    RunCounts(ClusterOf(offset), Touched(offset, size));
    if size > 0 {
      Below(offset, c + 1);
      Below(offset + size - 1, c);
    }
  }

  lemma Below(offset: nat, c: nat)
    ensures offset < Start(c) <==> ClusterOf(offset) < c
  {
    DividesBelow(offset, c, CLUSTER_BYTES);
  }

  lemma DividesBelow(a: nat, q: nat, b: nat)
    requires b > 0
    ensures a < q * b <==> a / b < q
  {
    var d := q - a / b;
    Distribute(a / b, 0, b);
    assert q * b == (a / b) * b + d * b;
    MulBound(d, b);
  }

  lemma AlignedRun(c: nat, size: nat)
    ensures ByteRun(Start(c), size) == Run(c, ByteClusters(size))
  {
    AlignedArithmetic(c, size, CLUSTER_BYTES);
  }

  lemma AlignedArithmetic(c: nat, size: nat, b: nat)
    requires b > 0
    ensures c * b / b == c
    ensures Ceiling(size, b) == if size == 0 then 0 else (c * b + size - 1) / b - c + 1
  {
    DivModUnique(c * b, b, c, 0);
    if size == 0 {
      DivModUnique(b - 1, b, 0, b - 1);
    } else {
      CeilingStep(size, b);
      RunArithmetic(c * b, size - 1, b);
    }
  }

  lemma CeilingStep(size: nat, b: nat)
    requires size > 0 && b > 0
    ensures Ceiling(size, b) == (size - 1) / b + 1
  {
    DivModUnique(size - 1 + b, b, (size - 1) / b + 1, (size - 1) % b);
  }

  /** Eight bytes an entry: a table of n entries takes Clusters(n) clusters. */
  lemma TableBytes(n: nat)
    ensures ByteClusters(8 * n) == Clusters(n)
  {
    ClustersIsCeiling(n);
    CeilingIs(n, L2_SIZE, Clusters(n));
  }

  lemma CeilingIs(n: nat, b: nat, k: nat)
    requires b > 0 && b * k >= n && (n > 0 ==> b * (k - 1) < n) && (n == 0 ==> k == 0)
    ensures Ceiling(8 * n, 8 * b) == k
  {
    var r := 8 * n + 8 * b - 1 - k * (8 * b);
    assert k * (8 * b) == 8 * (b * k);
    assert b * (k - 1) == b * k - b;
    DivModUnique(8 * n + 8 * b - 1, 8 * b, k, r);
  }

  // ---------------------------------------------------------------------------------------
  // Packed entries

  /** 2 ^ csize_shift: the byte address of a chunk lies below, its sector count above. */
  const CSIZE_UNIT: nat := 0x2000_0000_0000_0000 / CLUSTER_SECTORS

  /** Bits 0 .. 61 of an entry. */
  function Payload(w: Word): nat {
    w.cluster * CLUSTER_BYTES + w.low
  }

  function ChunkOffset(w: Word): nat {
    Payload(w) % CSIZE_UNIT
  }

  /** The masked field holds the number of sectors less one. */
  function ChunkSectors(w: Word): nat {
    Payload(w) / CSIZE_UNIT % (2 * CLUSTER_SECTORS) + 1
  }

  /** Start of the sector of the first byte. */
  function SectorStart(offset: nat): nat {
    offset / 512 * 512
  }

  /** The clusters that freeing an entry releases and that the consistency check counts for it. */
  function EntryClusters(w: Word): multiset<nat> {
    if w == ZERO then multiset{}
    else if w.compressed then ByteRun(SectorStart(ChunkOffset(w)), ChunkSectors(w) * 512)
    else ByteRun(Payload(w), CLUSTER_BYTES)
  }

  /** The entry for a compressed chunk of size bytes at offset. */
  function Pack(offset: nat, size: nat): Word
    requires size > 0
  {
    DivMonotone(offset, offset + size - 1, 512);
    var payload := ((offset + size - 1) / 512 - offset / 512) * CSIZE_UNIT + offset;
    Word(false, true, payload / CLUSTER_BYTES, payload % CLUSTER_BYTES)
  }

  /** Sector boundaries that the chunk crosses. */
  function Crossed(offset: nat, size: nat): nat
    requires size > 0
  {
    DivMonotone(offset, offset + size - 1, 512);
    (offset + size - 1) / 512 - offset / 512
  }

  lemma PackPayload(offset: nat, size: nat)
    requires size > 0
    ensures var w := Pack(offset, size);
      && w.compressed && !w.copied && Payload(w) == w.cluster * CLUSTER_BYTES + w.low == Crossed(offset, size) * CSIZE_UNIT + offset
  {
  }

  lemma Fields(w: Word, field: nat, offset: nat)
    requires Payload(w) == field * CSIZE_UNIT + offset && offset < CSIZE_UNIT && field <= CLUSTER_SECTORS
    ensures ChunkOffset(w) == offset && ChunkSectors(w) == field + 1
  {
    hide Payload;
    DivModUnique(Payload(w), CSIZE_UNIT, field, offset);
    DivModUnique(field, 2 * CLUSTER_SECTORS, 0, field);
  }

  lemma Covers(offset: nat, size: nat)
    requires size > 0
    ensures SectorStart(offset) <= offset && offset + size <= SectorStart(offset) + (Crossed(offset, size) + 1) * 512
  {
  }

  /** The fields come back; the sectors read contain the chunk and touch the same clusters. */
  lemma PackRoundTrip(offset: nat, size: nat)
    requires 1 <= size <= CLUSTER_BYTES && offset < CSIZE_UNIT
    ensures ChunkOffset(Pack(offset, size)) == offset
    ensures ChunkSectors(Pack(offset, size)) == (offset + size - 1) / 512 - offset / 512 + 1
    ensures SectorStart(offset) <= offset && offset + size <= SectorStart(offset) + ChunkSectors(Pack(offset, size)) * 512
    ensures EntryClusters(Pack(offset, size)) == ByteRun(offset, size)
    ensures var w := Pack(offset, size);
      && w.compressed && !w.copied && w.cluster * CLUSTER_BYTES + w.low < 0x4000_0000_0000_0000
      && w.cluster * CLUSTER_BYTES + w.low == ((offset + size - 1) / 512 - offset / 512) * CSIZE_UNIT + offset
  {
    hide Pack, Payload, ChunkOffset, ChunkSectors, SectorStart, ByteRun;
    FieldFits(offset, size);
    PackPayload(offset, size);
    Fields(Pack(offset, size), Crossed(offset, size), offset);
    Covers(offset, size);
    SameClusters(offset, size);
  }

  lemma FieldFits(offset: nat, size: nat)
    requires 1 <= size <= CLUSTER_BYTES && offset < CSIZE_UNIT
    ensures 0 <= (offset + size - 1) / 512 - offset / 512 <= CLUSTER_SECTORS
    ensures ((offset + size - 1) / 512 - offset / 512) * CSIZE_UNIT + offset < 0x4000_0000_0000_0000
  {
    var field := (offset + size - 1) / 512 - offset / 512;
    UnitTimes(CLUSTER_SECTORS, field, offset);
  }

  lemma UnitTimes(n: ClusterSectors, field: nat, offset: nat)
    requires field <= n && offset < 0x2000_0000_0000_0000 / n
    ensures field * (0x2000_0000_0000_0000 / n) + offset < 0x4000_0000_0000_0000
  {
    var u := 0x2000_0000_0000_0000 / n;
    assert n * u == 0x2000_0000_0000_0000;
    assert field * u <= n * u by { assert (n - field) * u >= 0; }
  }

  /** Rounding a stretch of bytes to whole sectors touches no other cluster. */
  lemma SameClusters(offset: nat, size: nat)
    requires size > 0
    ensures ByteRun(SectorStart(offset), ((offset + size - 1) / 512 - offset / 512 + 1) * 512) == ByteRun(offset, size)
  {
    var last := offset + size - 1;
    SectorCluster(offset);
    SectorCluster(last);
    DivMonotone(offset, last, 512);
    var n := ((last / 512) - offset / 512 + 1) * 512;
    assert SectorStart(offset) + n - 1 == last / 512 * 512 + 511;
  }

  lemma SectorCluster(offset: nat)
    ensures ClusterOf(SectorStart(offset)) == ClusterOf(offset)
    ensures ClusterOf(SectorStart(offset) + 511) == ClusterOf(offset)
  {
    SectorArithmetic(offset, CLUSTER_SECTORS);
  }

  lemma SectorArithmetic(offset: nat, n: nat)
    requires n > 0
    ensures offset / 512 * 512 / (512 * n) == offset / (512 * n)
    ensures (offset / 512 * 512 + 511) / (512 * n) == offset / (512 * n)
  {
    var s := offset / 512;
    var q, r := s / n, s % n;
    assert s * 512 == q * (512 * n) + r * 512;
    DivModUnique(s * 512, 512 * n, q, r * 512);
    DivModUnique(s * 512 + 511, 512 * n, q, r * 512 + 511);
    DivModUnique(offset, 512 * n, q, r * 512 + offset % 512);
  }

  /** An entry for a whole cluster counts that cluster once. */
  lemma PlainEntry(w: Word)
    requires !w.compressed && w.low == 0
    ensures EntryClusters(w) == Ref(w)
  {
    hide Start, ClusterOf, ByteClusters, Run, Payload;
    if w == ZERO { return; }
    assert Payload(w) == Start(w.cluster) by { PlainPayload(w); }
    AlignedRun(w.cluster, CLUSTER_BYTES);
    OneFull();
    RunExtend(w.cluster, 0);
  }

  lemma OneFull()
    ensures ByteClusters(CLUSTER_BYTES) == 1
  {
    CeilingStep(CLUSTER_BYTES, CLUSTER_BYTES);
  }

  lemma PlainPayload(w: Word)
    ensures Payload(w) == Start(w.cluster) + w.low
  {
  }
}
