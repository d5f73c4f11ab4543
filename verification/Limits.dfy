/** Images on which something does not hold: leaks of a switch, counts that run out. */
module Limits {
  import opened Layout
  import opened Forest
  import opened Guest
  import opened State
  import opened Qcow2
  import opened Bytes
  import opened Chunks
  import Counting
  import Check

  // ---------------------------------------------------------------------------------------
  // A switch to a smaller table

  /** A sector so far behind that the L1 table for it takes one more cluster than n entries do. */
  function FarSector(n: nat): nat { Pos(L2_SIZE, 0) * (L2_SIZE * Clusters(n)) }

  lemma FarAway(n: nat)
    ensures L1Index(FarSector(n)) == L2_SIZE * Clusters(n)
  {
    var k := L2_SIZE * Clusters(n);
    Reorder(k);
    DivModUnique(k * L2_SIZE * CLUSTER_SECTORS, CLUSTER_SECTORS, k * L2_SIZE, 0);
    DivModUnique(k * L2_SIZE, L2_SIZE, k, 0);
  }

  lemma Reorder(k: nat)
    ensures Pos(L2_SIZE, 0) * k == k * L2_SIZE * CLUSTER_SECTORS
  {
    assert Pos(L2_SIZE, 0) == L2_SIZE * CLUSTER_SECTORS;
    assert L2_SIZE * CLUSTER_SECTORS * k == k * L2_SIZE * CLUSTER_SECTORS;
  }

  lemma OneClusterMore(n: nat, size: nat)
    requires size >= L2_SIZE * Clusters(n) + 1
    ensures Clusters(size) > Clusters(n)
  {
    hide Clusters;
    ClustersIsCeiling(size);
    if Clusters(size) <= Clusters(n) { TimesMonotone(Clusters(size), Clusters(n)); }
  }

  lemma TimesMonotone(a: nat, b: nat)
    requires a <= b
    ensures L2_SIZE * a <= L2_SIZE * b
  {
  }

  /** On every new disk: a snapshot, a write behind the end of its L1 table, back to the snapshot. The image
      is still valid, but clusters have leaked, and the consistency check reports them. */
  method SwitchLeaks(m: Medium, totalSectors: nat, memory: seq<Cluster>, behind: nat -> Word, data: Sector) returns (img: Image)
    requires m.Valid() && totalSectors >= 1 && |memory| == L2_CACHE_SIZE
    ensures img.Valid() && |img.snapshots| == 1 && img.leaked != multiset{}
    ensures forall nb: nat :: (forall c: nat :: c >= nb ==> img.refcount[c] == 0) ==> !Check.Clean(img, nb)
  {
    hide Image.Sound, L1Size, Check.Clean, Check.MetaClusters, Counting.Run, BackingView, ByteClusters;
    img := new Image.Create(m, totalSectors, 1, memory, behind);
    HeaderFits();
    Check.NewMeta(img);
    TakeAndWrite(img, data);
    SwitchBack(img);
    forall nb: nat | forall c: nat :: c >= nb ==> img.refcount[c] == 0 ensures !Check.Clean(img, nb) {
      Check.ValidClean(img, nb);
    }
  }

  /** Entries of a table that takes one more cluster. */
  function FarSize(n: nat): nat { L2_SIZE * Clusters(n) + 1 }

  /** The active L1 table has outgrown that of the only snapshot. */
  predicate Overgrown(img: Image)
    reads img
  {
    && |img.snapshots| == 1 && img.snapshots[0].id == "1" && img.snapshots[0].size >= 1
    && |img.l1Table| == GrownTo(img.snapshots[0].size, FarSize(img.snapshots[0].size))
  }

  /** A snapshot, then one sector written far behind the end. */
  method TakeAndWrite(img: Image, data: Sector)
    requires img.Valid() && img.snapshots == []
    modifies img
    ensures img.Valid() && img.leaked == old(img.leaked)
    ensures Overgrown(img)
  {
    hide Image.Sound, View, SnapTable, Clusters, GrownTo, L1Index, FarSector, Counting.Run, SameSnapViews, Cells, Spans, Wrote,
         Rewritten;
    img.AnyTable();
    var r := img.SnapshotCreate("1", "");
    FarAway(|img.l1Table|);
    img.QcowWrite(FarSector(|img.l1Table|), [data]);
  }

  method SwitchBack(img: Image)
    requires img.Valid() && Overgrown(img)
    modifies img
    ensures img.Valid() && img.leaked != old(img.leaked) && old(img.leaked) <= img.leaked
    ensures img.snapshots == old(img.snapshots)
  {
    hide Image.Sound, View, SnapTable, Clusters, GrownTo, SameSnapViews, Find, NoWaste;
    FirstSnapshot(img.snapshots);
    GrownEnough(img.snapshots[0].size, FarSize(img.snapshots[0].size));
    var r := img.SnapshotGoto("1");
  }

  lemma HeaderFits()
    ensures ByteClusters(1) == 1
  {
    DivModUnique(CLUSTER_BYTES, CLUSTER_BYTES, 1, 0);
  }

  lemma FirstSnapshot(snaps: seq<Snapshot>)
    requires |snaps| == 1 && snaps[0].id == "1"
    ensures Find(snaps, "1") == 0
  {
  }

  lemma GrownEnough(n: nat, minSize: nat)
    requires n >= 1 && minSize == FarSize(n)
    ensures !NoWaste(GrownTo(n, minSize), n)
  {
    hide Clusters, GrownTo;
    OneClusterMore(n, GrownTo(n, minSize));
  }

  /** A switch to a larger table leaks too when growth overshoots: with clusters of 4 KB, 1025 entries grow to
      1538 for a snapshot of 1026, four clusters for a table of three. */
  lemma GrowthOvershoots()
    requires L2_SIZE == 512
    ensures GrownTo(1025, 1026) == 1538 && !NoWaste(1025, 1026)
  {
    assert GrownTo(1538, 1026) == 1538;
    assert Clusters(2) == 1 && Clusters(514) == 2 && Clusters(1026) == 3 && Clusters(1538) == 4;
  }

  // ---------------------------------------------------------------------------------------
  // A cluster of single bytes

  /** In a cluster of 64 KB all but the last byte can be chunks of their own. The books are right so far, the count is at its
      maximum, and the chunk of the last byte is not counted. */
  method FillCluster(img: Image) returns (ghost rc: multiset<nat>, ghost free: nat, ghost chunks: seq<Chunk>, ghost others: multiset<nat>, offset: nat)
    requires CLUSTER_SECTORS == 128 && 0 in img.refcount && img.freeByteOffset == 0
    modifies img
    ensures Books(rc, free, chunks, others) && Saturated(rc, free)
    ensures !Books(img.refcount, img.freeByteOffset, chunks + [Chunk(offset, 1)], others)
  {
    hide Books, Start, At, ClusterOf, FirstFree;
    chunks, others := [], img.refcount;
    NoChunks(others);
    ghost var c: nat := 0;
    var i := 0;
    while i < MAX_REFCOUNT
      invariant i <= MAX_REFCOUNT && Books(img.refcount, img.freeByteOffset, chunks, others)
      invariant i == 0 ==> img.freeByteOffset == 0
      invariant i > 0 ==> img.freeByteOffset == Start(c) + i && img.refcount[c] == i
      decreases MAX_REFCOUNT - i
    {
      rc, free := img.refcount, img.freeByteOffset;
      ghost var index := img.freeClusterIndex;
      FreeAt(c, i);
      offset := img.AllocBytes(1, chunks, others);
      chunks := chunks + [Chunk(offset, 1)];
      if i == 0 {
        c := img.freeClusterIndex - 1;
        FreeUnreferenced(rc, index, c);
      }
      FreeAt(c, i + 1);
      i := i + 1;
    }
    rc, free := img.refcount, img.freeByteOffset;
    FreeAt(c, i);
    offset := img.AllocBytes(1, chunks, others);
  }

  lemma FreeAt(c: nat, i: nat)
    requires i < CLUSTER_BYTES
    ensures ClusterOf(Start(c) + i) == c && At(Start(c) + i) == i && (i > 0 ==> Start(c) + i != 0)
  {
    AddressUnique(c, i);
  }
}
