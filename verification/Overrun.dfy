/** Reads that leave the span of one L2 table: the run they are served from is looked for past the end of the table. */
module Overrun {
  import opened Layout
  import opened Counting
  import opened Forest
  import opened Guest
  import opened Bytes
  import opened Steps
  import opened State
  import opened Transfer
  import opened Qcow2

  // A disk whose L2 table for L1 entry q is empty, and whose table for entry q + 1 maps one cluster of ones.
  // The clusters: header, L1 table, refcount table, refcount block, the two L2 tables, data.

  function Ones(): Cluster { seq(L2_SIZE, _ => Word(true, true, 1, 1)) }

  function L1Clusters(q: nat): nat { Clusters(q + 2) }

  function FirstTable(q: nat): nat { L1Clusters(q) + 3 }

  function SampleL1(q: nat): (t: seq<Word>)
    ensures |t| == q + 2
  {
    Zeros(q + 2)[q := NewEntry(FirstTable(q))][q + 1 := NewEntry(FirstTable(q) + 1)]
  }

  function SampleTable(q: nat): Cluster {
    seq(L2_SIZE, _ => ZERO)[0 := NewEntry(FirstTable(q) + 2)]
  }

  function SampleFile(q: nat): File {
    WriteTable(map[], 1, SampleL1(q))[FirstTable(q) := seq(L2_SIZE, _ => ZERO)][FirstTable(q) + 1 := SampleTable(q)][FirstTable(q) + 2 := Ones()]
  }

  function SampleHeader(q: nat): multiset<nat> {
    Run(0, 1) + Run(L1Clusters(q) + 1, 2)
  }

  function SampleCounts(q: nat): multiset<nat> {
    Run(0, L1Clusters(q) + 6)
  }

  lemma SampleReads(q: nat)
    ensures var f := SampleFile(q); var a := FirstTable(q);
      && Read(f, a) == seq(L2_SIZE, _ => ZERO) && Read(f, a + 1) == SampleTable(q) && Read(f, a + 2) == Ones()
      && ReadTable(f, 1, q + 2) == SampleL1(q)
  {
    hide WriteTable, ReadTable, Clusters;
    var f0 := WriteTable(map[], 1, SampleL1(q));
    ReadWriteTable(map[], 1, SampleL1(q));
    ReadTableFrame(f0, SampleFile(q), 1, q + 2);
  }

  lemma {:induction false} SkipZeros(file: File, t: seq<Word>, i: nat, q: nat)
    requires i <= q <= |t| && forall j :: i <= j < q ==> t[j] == ZERO
    ensures EntryRefs(t, i) == EntryRefs(t, q) && DataRefs(file, t, i) == DataRefs(file, t, q)
    decreases q - i
  {
    hide EntryRefs, DataRefs, PathRefs;
    if i == q { return; }
    SkipZeros(file, t, i + 1, q);
    SkipZero(file, t, i);
  }

  lemma SkipZero(file: File, t: seq<Word>, i: nat)
    requires i < |t| && t[i] == ZERO
    ensures EntryRefs(t, i) == EntryRefs(t, i + 1) && DataRefs(file, t, i) == DataRefs(file, t, i + 1)
  {
    assert EntryRefs(t, i) == Ref(t[i]) + EntryRefs(t, i + 1);
    assert DataRefs(file, t, i) == PathRefs(file, t[i]) + DataRefs(file, t, i + 1);
  }

  /** What the two tables refer to. */
  lemma SampleRefs(q: nat)
    ensures var a := FirstTable(q);
      && EntryRefs(SampleL1(q), 0) == multiset{a} + multiset{a + 1}
      && DataRefs(SampleFile(q), SampleL1(q), 0) == multiset{a + 2}
  {
    hide Read, SampleFile, FirstTable, PathRefs;
    var a, f, t := FirstTable(q), SampleFile(q), SampleL1(q);
    SamplePaths(q);
    SkipZeros(f, t, 0, q);
    assert EntryRefs(t, q + 1) == Ref(t[q + 1]) + EntryRefs(t, q + 2);
    assert DataRefs(f, t, q + 1) == PathRefs(f, t[q + 1]) + DataRefs(f, t, q + 2);
  }

  lemma SamplePaths(q: nat)
    ensures var a, f := FirstTable(q), SampleFile(q);
      PathRefs(f, NewEntry(a)) == multiset{} && PathRefs(f, NewEntry(a + 1)) == multiset{a + 2}
  {
    hide Read, SampleFile, FirstTable;
    SampleReads(q);
    EntryRefsZeros(seq(L2_SIZE, _ => ZERO), 0);
    EntryRefsZeros(SampleTable(q), 1);
  }

  lemma SampleLedger(q: nat)
    ensures var a := FirstTable(q);
      Ledger(SampleCounts(q), Run(0, a), EntryRefs(SampleL1(q), 0), DataRefs(SampleFile(q), SampleL1(q), 0), multiset{}, multiset{})
  {
    hide EntryRefs, DataRefs, SampleFile, SampleL1, L1Clusters;
    var a := FirstTable(q);
    SampleRefs(q);
    RunCounts(0, a);
    RunCounts(0, a + 3);
    forall c: nat
      ensures Account(SampleCounts(q), Run(0, a), EntryRefs(SampleL1(q), 0), DataRefs(SampleFile(q), SampleL1(q), 0), multiset{}, multiset{}, c)
    {
    }
  }

  lemma SampleRoot(q: nat)
    ensures RootOk(SampleFile(q), SampleL1(q))
    ensures FlagRoot(SampleFile(q), SampleCounts(q), SampleL1(q))
  {
    hide EntryRefs, DataRefs, SampleFile, Read, L1Clusters;
    SampleReads(q);
    SampleRefs(q);
    RunCounts(0, FirstTable(q) + 3);
  }

  function SampleDisk(q: nat): Disk {
    Disk(SampleFile(q), SampleCounts(q), SampleHeader(q), L1Clusters(q) + 1, FirstBlock(L1Clusters(q) + 2), 1, q + 2, [], 0, 0)
  }

  lemma SampleSound(q: nat, memory: seq<Cluster>)
    requires |memory| == L2_CACHE_SIZE
    ensures SoundCore(OpenCore(SampleDisk(q), memory), OpenFixed(SampleDisk(q), multiset{}))
    ensures 0 in SampleHeader(q)
  {
    hide EntryRefs, DataRefs, SampleFile, Read, ReadTable, SampleL1, RootOk, FlagRoot, SampleCounts, Ledger, Clusters;
    SampleReads(q);
    SampleLedger(q);
    SampleRoot(q);
    SampleFixed(q);
  }

  lemma SampleFixed(q: nat)
    ensures OpenFixed(SampleDisk(q), multiset{}) == Run(0, FirstTable(q))
    ensures Run(1, Clusters(q + 2)) + multiset{} <= Run(0, FirstTable(q))
    ensures 0 in Run(0, FirstTable(q)) && 0 in SampleHeader(q)
  {
    hide Clusters, ByteClusters;
    var n := Clusters(q + 2);
    NoBytes();
    RunCounts(0, 1);
    RunCounts(1, n);
    RunCounts(n + 1, 2);
    RunCounts(0, n + 3);
    RunCounts(0, 0);
    var fixed := OpenFixed(SampleDisk(q), multiset{});
    assert forall c: nat :: fixed[c] == Run(0, n + 3)[c];
  }

  lemma NoBytes()
    ensures ByteClusters(0) == 0
  {
    DivModUnique(CLUSTER_BYTES - 1, CLUSTER_BYTES, 0, CLUSTER_BYTES - 1);
  }

  /** The first sector after the span of the L2 table for s. */
  function SpanEnd(s: nat): nat { s + SpanLeft(s) }

  lemma SpanEndAddress(s: nat)
    ensures L1Index(SpanEnd(s)) == L1Index(s) + 1 && L2Index(SpanEnd(s)) == 0 && InCluster(SpanEnd(s)) == 0
  {
    EndArithmetic(s, CLUSTER_SECTORS, L2_SIZE);
  }

  lemma EndArithmetic(s: nat, b: nat, n: nat)
    requires b > 0 && n > 0
    ensures var e := s + ((n - s / b % n) * b - s % b);
      e / b / n == s / b / n + 1 && e / b % n == 0 && e % b == 0
  {
    var g := s / b;
    var q := g / n;
    var e := s + ((n - g % n) * b - s % b);
    Distribute(g, n - g % n, b);
    assert e == (g + (n - g % n)) * b;
    Distribute(q, 1, n);
    assert g + (n - g % n) == (q + 1) * n;
    DivModUnique(e, b, (q + 1) * n, 0);
    DivModUnique((q + 1) * n, n, q + 1, 0);
  }

  /** A request that is not inside one span covers the first sector after it. */
  lemma LeavesSpan(s: nat, n: nat)
    requires !InSpan(s, n)
    ensures SpanLeft(s) < n
  {
    hide InCluster, L2Index, Quot, Pos;
    var k := InCluster(s);
    QuotPos(k + n - 1);
    PosLess(Quot(k + n - 1), InCluster(k + n - 1), L2_SIZE - L2Index(s));
  }

  lemma SampleView(s: nat)
    ensures var q, e := L1Index(s), SpanEnd(s);
      ViewSector(Medium([], false, (_, x) => x, (_, x) => x), SampleFile(q), SampleL1(q), e) == SectorOf(Ones(), 0)
  {
    hide Read, SampleFile, L1Index, L2Index, InCluster, SpanEnd, FirstTable;
    SpanEndAddress(s);
    SampleReads(L1Index(s));
  }

  /** For every request that leaves the span of an L2 table there is an image on which reading it goes wrong:
      where the next table has data, the read finds a hole. */
  method ReadBeyond(s: nat, n: nat) returns (img: Image, buf: seq<Sector>, i: nat)
    requires !InSpan(s, n)
    ensures img.Valid() && |buf| == n && i < n
    ensures buf[i] != ViewSector(img.medium, img.file, img.l1Table, s + i)
  {
    hide Image.Sound, SoundCore, Read, SampleFile, SampleL1, SampleCounts, SampleHeader, ReadTable, InSpan, L1Index, L2Index, SpanLeft, ViewSector;
    var q := L1Index(s);
    var memory: seq<Cluster> := NoTables();
    var m := Medium([], false, (_, x) => x, (_, x) => x);
    SampleSound(q, memory);
    SampleReads(q);
    img := new Image.Open(m, SampleDisk(q), memory, _ => ZERO, multiset{});
    SampleZeros(s, img);
    buf := img.QcowRead(s, n, multiset{});
    LeavesSpan(s, n);
    i := SpanLeft(s);
    SampleView(s);
    assert buf[i] == m.Backing(s + i);
    OnesDiffer();
  }

  lemma OnesDiffer()
    ensures SectorOf(Ones(), 0) != ZeroSector()
  {
    assert SectorOf(Ones(), 0)[0] == Ones()[0];
    assert ZeroSector()[0] == ZERO;
  }

  lemma SampleZeros(s: nat, img: Image)
    requires img.CacheClear() && img.l2Cache == NoTables() && (forall x: nat :: img.behind(x) == ZERO)
    requires img.file == SampleFile(L1Index(s)) && img.l1Table == SampleL1(L1Index(s))
    ensures img.ZerosAhead(s)
  {
    hide Read, SampleFile, L1Index, L2Index, FirstTable;
    SampleReads(L1Index(s));
  }
}
