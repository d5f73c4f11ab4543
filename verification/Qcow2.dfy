/** The qcow2 driver: state of an open image, and the operations on it. */
module Qcow2 {
  import opened Layout
  import opened Counting
  import opened Forest
  import opened Guest
  import opened Bytes
  import opened Steps
  import opened State
  import opened Transfer
  import opened Writing
  import opened Walking
  import opened Snapshots
  import opened Switching
  import opened Chunks

  /** A count after adding addend; out of range it stays as it is. */
  function Bumped(v: nat, addend: int): nat {
    if 0 <= v + addend <= MAX_REFCOUNT then v + addend else v
  }

  /** From some index on no cluster is referenced, so the search for free clusters ends. */
  lemma {:induction false} FiniteRefs(m: multiset<nat>) returns (bound: nat)
    ensures forall x: nat :: x >= bound ==> m[x] == 0
    decreases |m|
  {
    if m == multiset{} { return 0; }
    var y :| y in m;
    var rest := FiniteRefs(m - multiset{y});
    bound := rest + y + 1;
    forall x: nat | x >= bound ensures m[x] == 0 { assert (m - multiset{y})[x] == 0; }
  }

  lemma TakeOut(a: multiset<nat>, b: multiset<nat>, c: multiset<nat>)
    ensures a + (b + c) == a + c + b
  {
  }

  /** Every run of n clusters that starts in lo .. hi - 1 holds a referenced cluster. */
  ghost predicate NoFreeRun(rc: multiset<nat>, lo: nat, hi: nat, n: nat) {
    forall s: nat {:trigger BusyRun(rc, s, n)} :: lo <= s < hi ==> BusyRun(rc, s, n)
  }

  ghost predicate BusyRun(rc: multiset<nat>, s: nat, n: nat) {
    exists x: nat :: s <= x < s + n && rc[x] != 0
  }

  lemma SingleRuns(rc: multiset<nat>, lo: nat, hi: nat)
    requires NoFreeRun(rc, lo, hi, 1)
    ensures forall x: nat :: lo <= x < hi ==> rc[x] != 0
  {
    forall x: nat | lo <= x < hi ensures rc[x] != 0 {
      assert BusyRun(rc, x, 1);
    }
  }

  /** An entry with or without regard to its COPIED flag. */
  function Masked(w: Word, ignoreCopied: bool): Word {
    if ignoreCopied then w.(copied := false) else w
  }

  /** The entry for the x-th cluster of a run that starts with w. */
  function Advance(w: Word, x: nat): Word {
    w.(cluster := w.cluster + x)
  }

  /** Sectors from s to the end of the span of its L2 table. */
  function SpanLeft(s: nat): (n: nat)
    ensures n >= 1
  {
    RunCovers(s, L2_SIZE - L2Index(s));
    Pos(L2_SIZE - L2Index(s), 0) - InCluster(s)
  }

  lemma RunCovers(s: nat, c: nat)
    requires c >= 1
    ensures Pos(c, 0) > InCluster(s)
  {
    MulBound(c, CLUSTER_SECTORS);
  }

  lemma CoversNeeded(needed: nat)
    requires needed > 0
    ensures Pos(Quot(needed - 1) + 1, 0) >= needed
  {
    hide Pos, Quot, InCluster;
    QuotPos(needed - 1);
    PosNext(Quot(needed - 1));
    PosStart(Quot(needed - 1), InCluster(needed - 1));
  }

  /** The size of an L1 table that has to hold minSize entries, by three-halves growth. */
  function GrownTo(size: nat, minSize: nat): (n: nat)
    requires size >= 1
    ensures n >= minSize && n >= size && (minSize <= size ==> n == size)
    decreases minSize - size
  {
    if minSize <= size then size else GrownTo((size * 3 + 1) / 2, minSize)
  }

  /** Sizes on the way to minSize, each half as much again as the one before, rounded up. */
  ghost predicate Growth(sizes: seq<nat>, minSize: nat) {
    forall i: nat :: i + 1 < |sizes| ==> GrowthStep(sizes, minSize, i)
  }

  ghost predicate GrowthStep(sizes: seq<nat>, minSize: nat, i: nat)
    requires i + 1 < |sizes|
  {
    sizes[i] < minSize && 3 * sizes[i] <= 2 * sizes[i + 1] <= 3 * sizes[i] + 1
  }

  lemma GrowthNext(sizes: seq<nat>, minSize: nat)
    requires sizes != [] && Growth(sizes, minSize) && sizes[|sizes| - 1] < minSize
    ensures Growth(sizes + [(sizes[|sizes| - 1] * 3 + 1) / 2], minSize)
  {
    var next := sizes + [(sizes[|sizes| - 1] * 3 + 1) / 2];
    forall i: nat | i + 1 < |next| ensures GrowthStep(next, minSize, i) {
      if i + 1 < |sizes| { assert GrowthStep(sizes, minSize, i); }
    }
  }

  /** Growth goes through the same sizes, whether it stops on the way or not. */
  lemma {:induction false} GrownTwice(size: nat, minSize: nat, more: nat)
    requires size >= 1 && minSize <= more
    ensures GrownTo(GrownTo(size, minSize), more) == GrownTo(size, more)
    decreases minSize - size
  {
    if minSize > size { GrownTwice((size * 3 + 1) / 2, minSize, more); }
  }

  /** Switching from an L1 table to a snapshot's leaves no cluster unused: the table that has grown for
      the snapshot takes as many clusters as that of the snapshot. */
  predicate NoWaste(active: nat, size: nat)
    requires active >= 1
  {
    Clusters(GrownTo(active, size)) == Clusters(size)
  }

  /** The size of an active L1 table after a write of n sectors. */
  function SizeAfter(size: nat, s: nat, n: nat): (r: nat)
    requires size >= 1
    ensures r >= size
  {
    if n == 0 then size else GrownTo(size, L1Index(s + n - 1) + 1)
  }

  lemma SizeStep(size: nat, s: nat, done: nat)
    requires size >= 1
    ensures GrownTo(SizeAfter(size, s, done), L1Index(s + done) + 1) == GrownTo(size, L1Index(s + done) + 1)
  {
    hide GrownTo;
    if done > 0 {
      L1IndexMonotone(s + done - 1, s + done);
      GrownTwice(size, L1Index(s + done - 1) + 1, L1Index(s + done) + 1);
    }
  }

  lemma L1IndexMonotone(s: nat, t: nat)
    requires s <= t
    ensures L1Index(s) <= L1Index(t)
  {
    DivMonotone(s, t, CLUSTER_SECTORS);
    DivMonotone(s / CLUSTER_SECTORS, t / CLUSTER_SECTORS, L2_SIZE);
  }

  /** A run of r clusters of one L2 table stays in this table. */
  lemma RunSpan(s: nat, n: nat, r: nat)
    requires n >= 1 && InCluster(s) + n <= Pos(r, 0) && L2Index(s) + r <= L2_SIZE
    ensures L1Index(s + n - 1) == L1Index(s)
  {
    hide L1Index, L2Index, Pos, Quot;
    var p := InCluster(s) + n - 1;
    QuotPos(p);
    PosLess(Quot(p), InCluster(p), r);
    SpanAddress(s, n, n - 1);
  }

  /** L1 entries for a disk of that many sectors. */
  function L1Size(totalSectors: nat): nat {
    RunCovers(0, L2_SIZE);
    Ceiling(totalSectors, Pos(L2_SIZE, 0))
  }

  /** It is the least number of entries that maps all sectors. */
  lemma L1SizeLeast(totalSectors: nat, n: nat)
    requires totalSectors >= 1
    ensures n == L1Size(totalSectors) <==>
      n * (L2_SIZE * CLUSTER_SECTORS) - L2_SIZE * CLUSTER_SECTORS < totalSectors <= n * (L2_SIZE * CLUSTER_SECTORS)
  {
    RunCovers(0, L2_SIZE);
    LeastMultiple(totalSectors, Pos(L2_SIZE, 0), n);
  }

  lemma NewImageRuns(h: nat, n: nat)
    ensures Run(0, h) + Run(h + n, 1) + Run(h + n + 1, 1) + Run(h, n) == Run(0, h + n + 2)
    ensures Run(0, h) + Run(h, n) + Run(h + n, 1) + Run(h + n + 1, 1) == Run(0, h + n + 2)
  {
  }

  lemma NewImageMeta(metadata: multiset<nat>, meta: multiset<nat>, l1: multiset<nat>, rc: multiset<nat>, h: nat, n: nat)
    requires h >= 1 && meta == Run(0, h) + Run(h + n, 1) + Run(h + n + 1, 1) && l1 == Run(h, n)
    requires metadata == meta + multiset{} + Run(0, ByteClusters(0)) + SnapRuns([], 0)
    requires rc == Run(0, h) + Run(h, n) + Run(h + n, 1) + Run(h + n + 1, 1)
    ensures metadata + multiset{} + l1 == rc && 0 in meta
  {
    assert ByteClusters(0) == 0 by { DivModUnique(512 * CLUSTER_SECTORS - 1, 512 * CLUSTER_SECTORS, 0, 512 * CLUSTER_SECTORS - 1); }
    assert Run(0, 0) == multiset{} by { RunExtend(0, 0); }
    RunCounts(0, h);
    NewImageRuns(h, n);
  }

  lemma SizesPositive(totalSectors: nat, headerSize: nat)
    requires totalSectors >= 1 && headerSize >= 1
    ensures L1Size(totalSectors) >= 1 && ByteClusters(headerSize) >= 1
  {
    hide Pos;
    RunCovers(0, L2_SIZE);
    AtLeastOne(totalSectors, Pos(L2_SIZE, 0));
    AtLeastOne(headerSize, 512 * CLUSTER_SECTORS);
  }

  /** A fresh image: everything counted once, no L2 table, no snapshot. */
  lemma NewImageSound(s: Core, h: nat, l1Size: nat)
    requires h >= 1 && l1Size >= 1 && s.l1 == Zeros(l1Size) && s.l1Cluster == h && s.snaps == [] && s.stale == []
    requires s.file == WriteTable(map[], h, s.l1)
    requires s.rc == Run(0, h) + Run(h, Clusters(l1Size)) + Run(h + Clusters(l1Size), 1) + Run(h + Clusters(l1Size) + 1, 1)
    requires |s.cache.offsets| == |s.cache.tables| == |s.cache.counts| == L2_CACHE_SIZE
    requires forall i :: 0 <= i < L2_CACHE_SIZE ==> s.cache.offsets[i] == 0 && s.cache.counts[i] == 0
    ensures SoundCore(s, s.rc)
  {
    hide Clusters, WriteTable, ReadTable, Read, Run, RootOk, FlagRoot, EntryRefs, DataRefs;
    var n := Clusters(l1Size);
    NewImageRuns(h, n);
    ZeroRoot(s.file, s.rc, l1Size);
    NewLedger(s.rc, h + n + 2);
    NewImageTable(h, n);
    ReadWriteTable(map[], h, s.l1);
    assert s.l1 + s.stale == s.l1;
  }

  lemma NewLedger(rc: multiset<nat>, n: nat)
    requires rc == Run(0, n)
    ensures Ledger(rc, rc, multiset{}, multiset{}, multiset{}, multiset{})
    ensures n > 0 ==> 0 in rc
  {
    RunCounts(0, n);
    forall c: nat ensures Account(rc, rc, multiset{}, multiset{}, multiset{}, multiset{}, c) {}
  }

  lemma NewImageTable(h: nat, n: nat)
    ensures Run(h, n) + multiset{} <= Run(0, h + n + 2)
  {
    RunCounts(h, n);
    RunCounts(0, h + n + 2);
  }

  lemma ZeroRoot(file: File, rc: multiset<nat>, n: nat)
    ensures EntryRefs(Zeros(n), 0) == multiset{} && DataRefs(file, Zeros(n), 0) == multiset{}
    ensures RootOk(file, Zeros(n)) && FlagRoot(file, rc, Zeros(n))
  {
    hide EntryRefs, DataRefs, Read;
    EntryRefsZeros(Zeros(n), 0);
    DataRefsZeros(file, Zeros(n), 0);
  }

  /** A refcount table whose first entry alone is in use. */
  function FirstBlock(c: nat): (t: seq<nat>)
    ensures |t| == L2_SIZE && t[0] == c && forall i :: 1 <= i < L2_SIZE ==> t[i] == 0
  {
    seq(L2_SIZE, i => if i == 0 then c else 0)
  }

  function NoSlots(): (t: seq<nat>)
    ensures |t| == L2_CACHE_SIZE && forall i :: 0 <= i < L2_CACHE_SIZE ==> t[i] == 0
  {
    seq(L2_CACHE_SIZE, _ => 0)
  }

  function NoTables(): (t: seq<Cluster>)
    ensures |t| == L2_CACHE_SIZE
  {
    seq(L2_CACHE_SIZE, _ => seq(L2_SIZE, _ => ZERO))
  }

  /** What an image without any cluster of its own shows. */
  ghost function BackingView(m: Medium): imap<nat, Sector> {
    imap s: nat | true :: m.Backing(s)
  }

  lemma NewImageView(m: Medium, file: File, l1Size: nat)
    ensures View(m, file, Zeros(l1Size)) == BackingView(m)
  {
  }

  const SNAPSHOT_HEADER_BYTES := 40

  /** Size of the snapshot table in the file: each header aligned to 8 bytes, followed by id and name. */
  function SnapshotsBytes(snaps: seq<Snapshot>): nat {
    if snaps == [] then 0
    else
      var sn := snaps[|snaps| - 1];
      (SnapshotsBytes(snaps[..|snaps| - 1]) + 7) / 8 * 8 + SNAPSHOT_HEADER_BYTES + |sn.id| + |sn.name|
  }

  /** Each header begins at the first multiple of 8 behind the one before it, and takes 40 bytes, the id and the name. */
  ghost predicate HeadersAt(at: seq<nat>, snaps: seq<Snapshot>, bytes: nat) {
    && |at| == |snaps| && (snaps != [] ==> at[0] == 0) && (snaps == [] ==> bytes == 0)
    && forall k: nat :: k < |snaps| ==> HeaderAt(at, snaps, bytes, k)
  }

  ghost predicate HeaderAt(at: seq<nat>, snaps: seq<Snapshot>, bytes: nat, k: nat)
    requires k < |at| == |snaps|
  {
    var end := at[k] + 40 + |snaps[k].id| + |snaps[k].name|;
    if k + 1 < |snaps| then at[k + 1] % 8 == 0 && end <= at[k + 1] < end + 8 else end == bytes
  }

  lemma {:induction false} HeadersFit(snaps: seq<Snapshot>) returns (at: seq<nat>)
    ensures HeadersAt(at, snaps, SnapshotsBytes(snaps))
  {
    if snaps == [] { return []; }
    var n, size := |snaps| - 1, SnapshotsBytes(snaps[..|snaps| - 1]);
    var a := HeadersFit(snaps[..n]);
    at := a + [(size + 7) / 8 * 8];
    forall k: nat | k < |snaps| ensures HeaderAt(at, snaps, SnapshotsBytes(snaps), k) {
      if k < n { assert HeaderAt(a, snaps[..n], size, k); }
    }
  }

  /** The first snapshot from index k on with the given id; -1 if there is none. */
  function FindId(snaps: seq<Snapshot>, id: string, k: nat): (r: int)
    requires k <= |snaps|
    ensures r < 0 ==> r == -1 && forall i :: k <= i < |snaps| ==> snaps[i].id != id
    ensures r >= 0 ==> k <= r < |snaps| && snaps[r].id == id && forall i :: k <= i < r ==> snaps[i].id != id
    decreases |snaps| - k
  {
    if k == |snaps| then -1 else if snaps[k].id == id then k else FindId(snaps, id, k + 1)
  }

  /** The first snapshot from index k on with the given name; -1 if there is none. */
  function FindName(snaps: seq<Snapshot>, name: string, k: nat): (r: int)
    requires k <= |snaps|
    ensures r < 0 ==> r == -1 && forall i :: k <= i < |snaps| ==> snaps[i].name != name
    ensures r >= 0 ==> k <= r < |snaps| && snaps[r].name == name && forall i :: k <= i < r ==> snaps[i].name != name
    decreases |snaps| - k
  {
    if k == |snaps| then -1 else if snaps[k].name == name then k else FindName(snaps, name, k + 1)
  }

  /** Snapshot k is the first one whose id is the key; when no id is the key, the first one whose name is. */
  ghost predicate FirstMatch(snaps: seq<Snapshot>, key: string, k: int) {
    && 0 <= k < |snaps|
    && if exists i :: 0 <= i < |snaps| && snaps[i].id == key
       then snaps[k].id == key && forall i :: 0 <= i < k ==> snaps[i].id != key
       else snaps[k].name == key && forall i :: 0 <= i < k ==> snaps[i].name != key
  }

  /** Ids take precedence over names. */
  function Find(snaps: seq<Snapshot>, key: string): (r: int)
    ensures -1 <= r < |snaps|
    ensures r < 0 <==> forall i :: 0 <= i < |snaps| ==> snaps[i].id != key && snaps[i].name != key
    ensures r >= 0 ==> FirstMatch(snaps, key, r)
  {
    if FindId(snaps, key, 0) >= 0 then FindId(snaps, key, 0) else FindName(snaps, key, 0)
  }

  /** A closed image: the clusters of its file, the counts, and where the header says the tables are. */
  datatype Disk = Disk(file: File, counts: multiset<nat>, meta: multiset<nat>, table: nat, blocks: seq<nat>, l1: nat, l1Size: nat,
                       snaps: seq<Snapshot>, snapsCluster: nat, snapsSize: nat)

  /** The state of an image that has just been opened: the active L1 table has as many entries as the header says. */
  ghost function OpenCore(d: Disk, memory: seq<Cluster>): Core {
    State.Core(d.file, d.counts, ReadTable(d.file, d.l1, d.l1Size), d.l1, d.snaps, Cache(NoSlots(), memory, NoSlots()), [])
  }

  ghost function OpenFixed(d: Disk, unused: multiset<nat>): multiset<nat> {
    d.meta + unused + Run(d.snapsCluster, ByteClusters(d.snapsSize)) + SnapRuns(d.snaps, 0) + Run(d.l1, Clusters(d.l1Size))
  }

  /** The L1 entries of the guest sectors s .. s + n - 1. */
  ghost function SpansOf(s: nat, n: nat): set<nat> {
    set x: nat | s <= x < s + n :: L1Index(x)
  }

  lemma SpansOfMore(s: nat, done: nat, n: nat)
    requires n >= 1 && L1Index(s + done + n - 1) == L1Index(s + done)
    ensures SpansOf(s, done + n) == SpansOf(s, done) + {L1Index(s + done)}
  {
    hide L1Index;
    forall x: nat | s + done <= x < s + done + n ensures L1Index(x) == L1Index(s + done) {
      L1IndexMonotone(s + done, x);
      L1IndexMonotone(x, s + done + n - 1);
    }
    assert L1Index(s + done) in SpansOf(s, done + n);
  }

  /** Growth drops what lies behind the active table. */
  ghost predicate BehindKept(t: seq<Word>, stale: seq<Word>, u: seq<Word>, rest: seq<Word>) {
    |t| <= |u| && rest == if |t| == |u| then stale else []
  }

  lemma SpansGrown(t: seq<Word>, n: nat)
    ensures Spans(t + Zeros(n)) == Spans(t)
  {
  }

  lemma SpansZeros(n: nat)
    ensures Spans(Zeros(n)) == {}
  {
  }

  lemma InUseSpan(t: seq<Word>, i: nat)
    requires i < |t| && t[i] != ZERO
    ensures Spans(t) + {i} == Spans(t)
  {
  }

  lemma SpansEntry(t: seq<Word>, i: nat, w: Word)
    requires i < |t| && w != ZERO
    ensures Spans(t[i := w]) == Spans(t) + {i}
  {
  }

  /** The entries in use in the file after the table of a snapshot was copied over the active one. */
  ghost function SpansSwitched(snap: set<nat>, spans: set<nat>, active: nat, n: nat): set<nat> {
    snap + set i | i in spans && n <= i && n <= active
  }

  /** The size in the header after a switch to a table of n entries. */
  function StoredAfter(active: nat, stored: nat, n: nat): nat
    requires active >= 1
  {
    if n <= active then stored else GrownTo(active, n)
  }

  /** What is in use in the file once there is room for a table of n entries. */
  ghost predicate StaysInFile(now: set<nat>, spans: set<nat>, active: nat, n: nat) {
    if n <= active then now == spans else forall i :: i in now ==> i < active
  }

  lemma SpansWithin(t: seq<Word>)
    ensures forall i: nat :: i in Spans(t) ==> i < |t|
  {
  }

  lemma SwitchedSpans(u: seq<Word>, all: seq<Word>, spans: set<nat>, active: nat, n: nat)
    requires |u| == n <= |all| && StaysInFile(Spans(all), spans, active, n)
    ensures Spans(u + all[n..]) == SpansSwitched(Spans(u), spans, active, n)
  {
    SpansAppend(u, all[n..]);
    forall i: nat ensures i in Spans(u + all[n..]) <==> i in SpansSwitched(Spans(u), spans, active, n) {
      assert i >= n ==> (i - n in Spans(all[n..]) <==> i in Spans(all));
    }
  }

  /** A table of the size the header states has room for the active table; the clusters it does not need have leaked. */
  ghost predicate HeaderCovers(c: nat, active: nat, behind: nat, stored: nat, leaked: multiset<nat>) {
    stored == active + behind && Unused(c, Clusters(stored), Clusters(active)) <= leaked
  }

  lemma NothingBehind(c: nat, n: nat, leaked: multiset<nat>)
    ensures HeaderCovers(c, n, 0, n, leaked)
  {
  }

  /** What linking a write into its L2 table needs to know. */
  datatype L2Meta = L2Meta(offset: nat, nStart: nat, nbAvailable: nat, nbClusters: nat)

  const MAX_CRYPT_CLUSTERS := 32

  class Image {
    const medium: Medium
    /** Header, refcount table and refcount blocks. */
    const meta: multiset<nat>
    /** The refcount table: where it is, and the cluster of each refcount block, 0 for none. */
    const refcountTable: nat
    const refcountBlocks: seq<nat>
    /** Whatever lies in memory behind the table cache. */
    const behind: nat -> Word

    var file: File
    var refcount: multiset<nat>
    var freeClusterIndex: nat
    /** Where the next compressed chunk goes in a cluster that has room left; 0 when there is none. */
    var freeByteOffset: nat
    var l1Table: seq<Word>
    var l1Cluster: nat
    /** The number of L1 entries that the header in the file states. */
    var storedSize: nat
    var l2CacheOffsets: seq<nat>
    var l2CacheCounts: seq<nat>
    var l2Cache: seq<Cluster>
    var snapshots: seq<Snapshot>
    var snapshotsCluster: nat
    var snapshotsSize: nat
    /** Clusters still counted although nothing refers to them any more. */
    ghost var leaked: multiset<nat>
    /** What the file has behind the active L1 table, up to the size in the header. */
    ghost var stale: seq<Word>

    /** Creates an image of totalSectors guest sectors: header, L1 table, refcount table, refcount block, in this order. */
    constructor Create(m: Medium, totalSectors: nat, headerSize: nat, memory: seq<Cluster>, other: nat -> Word)
      requires m.Valid() && totalSectors >= 1 && headerSize >= 1 && |memory| == L2_CACHE_SIZE
      ensures Valid() && leaked == multiset{} && snapshots == [] && medium == m
      ensures |l1Table| == storedSize == L1Size(totalSectors) && stale == [] && Spans(l1Table) == {} && View(medium, file, l1Table) == BackingView(m)
      ensures refcount == Run(0, ByteClusters(headerSize) + Clusters(L1Size(totalSectors)) + 2)
      ensures meta == Run(0, ByteClusters(headerSize)) + Run(refcountTable, 1) + Run(refcountTable + 1, 1)
      ensures refcountBlocks == FirstBlock(refcountTable + 1)
      ensures var span := L2_SIZE * CLUSTER_SECTORS; |l1Table| * span - span < totalSectors <= |l1Table| * span
    {
      hide *;
      L1SizeLeast(totalSectors, L1Size(totalSectors));
      var l1Offset := ByteClusters(headerSize);
      var l1Size := L1Size(totalSectors);
      var tableOffset := l1Offset + Clusters(l1Size);
      medium := m;
      behind := other;
      meta := Run(0, l1Offset) + Run(tableOffset, 1) + Run(tableOffset + 1, 1);
      refcountTable := tableOffset;
      refcountBlocks := FirstBlock(tableOffset + 1);
      file := WriteTable(map[], l1Offset, Zeros(l1Size));
      refcount := multiset{};
      freeClusterIndex, freeByteOffset := 0, 0;
      l1Table := Zeros(l1Size);
      l1Cluster, storedSize := l1Offset, l1Size;
      l2CacheOffsets := NoSlots();
      l2CacheCounts := NoSlots();
      l2Cache := memory;
      snapshots := [];
      snapshotsCluster, snapshotsSize := 0, 0;
      leaked, stale := multiset{}, [];
      new;
      SizesPositive(totalSectors, headerSize);
      NothingBehind(l1Offset, l1Size, multiset{});
      SpansZeros(l1Size);
      Format(l1Offset, l1Size);
    }

    /** Opens an image: tables and counts are those of the file, no L2 table is cached; the memory of the
        cache is as it happens to be. The active L1 table is read up to the size in the header. */
    constructor Open(m: Medium, d: Disk, memory: seq<Cluster>, other: nat -> Word, ghost unused: multiset<nat>)
      requires m.Valid() && 0 in d.meta && |memory| == L2_CACHE_SIZE
      ensures OnDisk() == d && medium == m && behind == other && leaked == unused && stale == []
      ensures l1Table == ReadTable(d.file, d.l1, d.l1Size) && CacheClear() && l2Cache == memory
      ensures Valid() <==> SoundCore(OpenCore(d, memory), OpenFixed(d, unused))
    {
      medium, behind, meta, refcountTable, refcountBlocks := m, other, d.meta, d.table, d.blocks;
      file, refcount := d.file, d.counts;
      freeClusterIndex, freeByteOffset := 0, 0;
      l1Table, l1Cluster, storedSize := ReadTable(d.file, d.l1, d.l1Size), d.l1, d.l1Size;
      l2CacheOffsets, l2CacheCounts, l2Cache := NoSlots(), NoSlots(), memory;
      snapshots, snapshotsCluster, snapshotsSize := d.snaps, d.snapsCluster, d.snapsSize;
      leaked, stale := unused, [];
      new;
      hide SoundCore, Run, SnapRuns, ByteClusters, Clusters, ReadTable;
      assert Core() == OpenCore(d, memory);
      assert Metadata() + multiset{} + L1Run() == OpenFixed(d, unused);
    }

    /** What is left in the file when the image is closed. */
    function OnDisk(): Disk
      reads this
    {
      Disk(file, refcount, meta, refcountTable, refcountBlocks, l1Cluster, storedSize, snapshots, snapshotsCluster, snapshotsSize)
    }

    /** The entries that the file has behind the active L1 table, as far as the header covers them, are unused. */
    predicate TailUnused()
      reads this
    {
      forall i :: |l1Table| <= i < storedSize ==> ReadTable(file, l1Cluster, storedSize)[i] == ZERO
    }

    /** No table is cached. */
    predicate CacheClear()
      reads this
    {
      l2CacheOffsets == NoSlots() && l2CacheCounts == NoSlots()
    }

    /** Brings the counts of a new image up to date with its layout. */
    method Format(h: nat, l1Size: nat)
      requires medium.Valid() && h >= 1 && l1Size >= 1 && refcount == multiset{} && leaked == multiset{}
      requires var n := Clusters(l1Size); meta == Run(0, h) + Run(h + n, 1) + Run(h + n + 1, 1)
      requires file == WriteTable(map[], h, Zeros(l1Size)) && l1Table == Zeros(l1Size) && l1Cluster == h && storedSize == l1Size && stale == []
      requires |l2CacheOffsets| == |l2Cache| == |l2CacheCounts| == L2_CACHE_SIZE
      requires forall i :: 0 <= i < L2_CACHE_SIZE ==> l2CacheOffsets[i] == 0 && l2CacheCounts[i] == 0
      requires snapshots == [] && snapshotsCluster == 0 && snapshotsSize == 0
      modifies this`refcount
      ensures Valid() && View(medium, file, l1Table) == BackingView(medium)
      ensures refcount == Run(0, h + Clusters(l1Size) + 2)
    {
      hide Run, Clusters, SoundCore, View, WriteTable, SnapRuns, ByteClusters, BackingView;
      ghost var n := Clusters(l1Size);
      CountLayout(h, Clusters(l1Size));
      NewImageRuns(h, n);
      NewImageSound(Core(), h, l1Size);
      NewImageView(medium, file, l1Size);
      NewImageMeta(Metadata(), meta, L1Run(), refcount, h, n);
    }

    /** Counts header, L1 table, refcount table and refcount block of a new image. */
    method CountLayout(h: nat, n: nat)
      requires refcount == multiset{}
      modifies this`refcount
      ensures refcount == Run(0, h) + Run(h, n) + Run(h + n, 1) + Run(h + n + 1, 1)
    {
      hide Run;
      CreateRefcountUpdate(0, h);
      CreateRefcountUpdate(h, n);
      CreateRefcountUpdate(h + n, 1);
      CreateRefcountUpdate(h + n + 1, 1);
    }

    method CreateRefcountUpdate(c: nat, n: nat)
      modifies this`refcount
      ensures refcount == old(refcount) + Run(c, n)
    {
      hide Run;
      RunExtend(c, 0);
      for i := 0 to n
        invariant refcount == old(refcount) + Run(c, i)
      {
        RunExtend(c, i);
        refcount := refcount[c + i := refcount[c + i] + 1];
      }
    }

    // -------------------------------------------------------------------------------------
    // Reference counts

    function GetRefcount(c: nat): nat
      reads this`refcount
    {
      refcount[c]
    }

    method UpdateClusterRefcount(c: nat, addend: int) returns (r: int)
      requires addend == 1 || addend == -1
      modifies this`refcount, this`freeClusterIndex
      ensures 0 <= old(refcount)[c] + addend <= MAX_REFCOUNT ==> r == old(refcount)[c] + addend
      ensures !(0 <= old(refcount)[c] + addend <= MAX_REFCOUNT) ==> r < 0
      ensures refcount == old(refcount)[c := Bumped(old(refcount)[c], addend)]
      ensures freeClusterIndex == if r == 0 && c < old(freeClusterIndex) then c else old(freeClusterIndex)
    {
      var count := GetRefcount(c) + addend;
      if count < 0 || count > MAX_REFCOUNT { return -22; }
      if count == 0 && c < freeClusterIndex { freeClusterIndex := c; }
      refcount := refcount[c := count];
      return count;
    }

    method UpdateRefcount(c: nat, n: nat, addend: int)
      requires addend == 1 || addend == -1
      modifies this`refcount, this`freeClusterIndex
      ensures forall x: nat :: refcount[x] == if c <= x < c + n then Bumped(old(refcount)[x], addend) else old(refcount)[x]
      ensures freeClusterIndex <= old(freeClusterIndex)
      ensures forall x: nat :: c <= x < c + n && old(refcount)[x] + addend == 0 ==> freeClusterIndex <= x
      ensures freeClusterIndex == old(freeClusterIndex)
              || (c <= freeClusterIndex < c + n && old(refcount)[freeClusterIndex] + addend == 0)
    {
      for i := c to c + n
        invariant forall x: nat :: refcount[x] == if c <= x < i then Bumped(old(refcount)[x], addend) else old(refcount)[x]
        invariant freeClusterIndex <= old(freeClusterIndex)
        invariant forall x: nat :: c <= x < i && old(refcount)[x] + addend == 0 ==> freeClusterIndex <= x
        invariant freeClusterIndex == old(freeClusterIndex)
                  || (c <= freeClusterIndex < i && old(refcount)[freeClusterIndex] + addend == 0)
      {
        var _ := UpdateClusterRefcount(i, addend);
      }
    }

    method FreeClusters(c: nat, n: nat)
      modifies this`refcount, this`freeClusterIndex
      ensures Run(c, n) <= old(refcount) && SmallCounts(old(refcount)) ==>
                refcount == old(refcount) - Run(c, n)
      ensures forall x: nat :: refcount[x] == if c <= x < c + n then Bumped(old(refcount)[x], -1) else old(refcount)[x]
      ensures freeClusterIndex <= old(freeClusterIndex)
      ensures forall x: nat :: c <= x < c + n && old(refcount)[x] == 1 ==> freeClusterIndex <= x
    {
      UpdateRefcount(c, n, -1);
      if Run(c, n) <= old(refcount) && SmallCounts(old(refcount)) {
        RunCounts(c, n);
        forall x: nat ensures refcount[x] == (old(refcount) - Run(c, n))[x] {
          assert Run(c, n)[x] <= old(refcount)[x];
        }
      }
    }

    /** Gives counted clusters back. */
    method GiveBack(c: nat, n: nat)
      requires Run(c, n) <= refcount && SmallCounts(refcount)
      modifies this`refcount, this`freeClusterIndex
      ensures refcount == old(refcount) - Run(c, n)
    {
      FreeClusters(c, n);
    }

    /** First fit: the first run of n unreferenced clusters at or after freeClusterIndex. */
    method AllocClustersNoref(n: nat) returns (c: nat)
      modifies this`freeClusterIndex
      ensures old(freeClusterIndex) <= c && freeClusterIndex == c + n
      ensures forall x: nat :: c <= x < c + n ==> refcount[x] == 0
      ensures NoFreeRun(refcount, old(freeClusterIndex), c, n)
    {
      ghost var bound := FiniteRefs(refcount);
      var i := 0;
      while i < n
        invariant i <= n && old(freeClusterIndex) + i <= freeClusterIndex
        invariant forall x: nat :: freeClusterIndex - i <= x < freeClusterIndex ==> refcount[x] == 0
        invariant NoFreeRun(refcount, old(freeClusterIndex), freeClusterIndex - i, n)
        decreases if freeClusterIndex < bound then bound - freeClusterIndex else 0, n - i
      {
        var k := freeClusterIndex;
        freeClusterIndex := freeClusterIndex + 1;
        if GetRefcount(k) != 0 {
          forall s: nat | k - i <= s <= k ensures BusyRun(refcount, s, n) { assert s <= k < s + n; }
          i := 0;
        } else {
          i := i + 1;
        }
      }
      c := freeClusterIndex - n;
    }

    method AllocClusters(n: nat) returns (c: nat)
      modifies this`refcount, this`freeClusterIndex
      ensures old(freeClusterIndex) <= c && freeClusterIndex == c + n
      ensures forall x: nat :: c <= x < c + n ==> old(refcount)[x] == 0
      ensures NoFreeRun(old(refcount), old(freeClusterIndex), c, n)
      ensures refcount == old(refcount) + Run(c, n)
    {
      c := AllocClustersNoref(n);
      UpdateRefcount(c, n, 1);
      RunCounts(c, n);
      assert forall x: nat :: refcount[x] == (old(refcount) + Run(c, n))[x];
    }

    /** Puts a chunk at the free byte; a cluster that was in use counts one more, unless its count is at the maximum. */
    method PlaceChunk(size: nat, next: nat) returns (offset: nat)
      requires At(freeByteOffset) != 0 ==> refcount[ClusterOf(freeByteOffset)] <= MAX_REFCOUNT
      modifies this`refcount, this`freeClusterIndex, this`freeByteOffset
      ensures offset == old(freeByteOffset) && freeByteOffset == next
      ensures refcount == if At(offset) == 0 then old(refcount) else OneMore(old(refcount), ClusterOf(offset))
      ensures freeClusterIndex == old(freeClusterIndex)
    {
      hide At, ClusterOf;
      offset := freeByteOffset;
      if At(offset) != 0 {
        var _ := UpdateClusterRefcount(ClusterOf(offset), 1);
      }
      freeByteOffset := next;
    }

    /** A new cluster, the first free one, counted once. */
    method TakeCluster() returns (c: nat)
      modifies this`refcount, this`freeClusterIndex
      ensures FirstFree(old(refcount), old(freeClusterIndex), c) && freeClusterIndex == c + 1
      ensures refcount == old(refcount) + multiset{c} && At(Start(c)) == 0 && ClusterOf(Start(c)) == c
    {
      hide At, ClusterOf, Start, Run, NoFreeRun;
      c := AllocClusters(1);
      RunOfOne(c);
      SingleRuns(old(refcount), old(freeClusterIndex), c);
      AddressUnique(c, 0);
    }

    /** Room for a compressed chunk: after the last one, across into the next cluster, or in a new cluster.
        The books stay right unless the chunk needs one more count than its cluster can hold. */
    method AllocBytes(size: nat, ghost chunks: seq<Chunk>, ghost others: multiset<nat>) returns (offset: nat)
      requires 1 <= size <= CLUSTER_BYTES
      requires Books(refcount, freeByteOffset, chunks, others)
      modifies this`refcount, this`freeClusterIndex, this`freeByteOffset
      ensures Placed(old(refcount), old(freeClusterIndex), old(freeByteOffset), size, offset,
                     refcount, freeClusterIndex, freeByteOffset)
      ensures Books(refcount, freeByteOffset, chunks + [Chunk(offset, size)], others)
              <==> !Crowded(old(refcount), old(freeClusterIndex), old(freeByteOffset), size)
    {
      hide Touches, ByteRun, Start, ClusterOf, At, Books, Run, Saturated, NextFree, FirstFree, Placed, Crowded, OneMore;
      ghost var rc, index, free := refcount, freeClusterIndex, freeByteOffset;
      OpenCount(rc, free, chunks, others);
      offset := FindRoom(size);
      PlacedBooks(rc, index, free, size, offset, refcount, freeClusterIndex, freeByteOffset, chunks, others);
    }

    method FindRoom(size: nat) returns (offset: nat)
      requires 1 <= size <= CLUSTER_BYTES
      requires freeByteOffset != 0 ==> At(freeByteOffset) != 0 && 1 <= refcount[ClusterOf(freeByteOffset)] <= MAX_REFCOUNT
      modifies this`refcount, this`freeClusterIndex, this`freeByteOffset
      ensures Placed(old(refcount), old(freeClusterIndex), old(freeByteOffset), size, offset,
                     refcount, freeClusterIndex, freeByteOffset)
    {
      hide Start, ClusterOf, At, NextFree, FirstFree;
      ghost var taken := false;
      if freeByteOffset == 0 {
        var c := TakeCluster();
        taken := true;
        freeByteOffset := Start(c);
      }
      while size > CLUSTER_BYTES - At(freeByteOffset)
        invariant !taken ==> refcount == old(refcount) && freeByteOffset == old(freeByteOffset) != 0
                             && freeClusterIndex == old(freeClusterIndex)
        invariant taken ==> NewCluster(old(refcount), old(freeClusterIndex), old(freeByteOffset), size)
        decreases At(freeByteOffset)
      {
        var c := TakeCluster();
        FreeUnreferenced(old(refcount), old(freeClusterIndex), c);
        if Start(ClusterOf(freeByteOffset)) + CLUSTER_BYTES == Start(c) {
          StartInjective(ClusterOf(freeByteOffset), c);
          offset := PlaceChunk(size, freeByteOffset + size);
          return;
        }
        NextStart(ClusterOf(freeByteOffset));
        taken := true;
        freeByteOffset := Start(c);
      }
      offset := PlaceChunk(size, NextFree(freeByteOffset + size));
    }

    /** A cluster was just taken for a chunk, because it fits neither into the open one nor across. */
    ghost predicate NewCluster(rc: multiset<nat>, index: nat, free: nat, size: nat)
      reads this`refcount, this`freeClusterIndex, this`freeByteOffset
    {
      && freeClusterIndex >= 1 && FirstFree(rc, index, freeClusterIndex - 1)
      && refcount == rc + multiset{freeClusterIndex - 1}
      && freeByteOffset == Start(freeClusterIndex - 1) && At(freeByteOffset) == 0
      && !Fits(free, size) && (free != 0 ==> freeClusterIndex != ClusterOf(free) + 2)
    }

    // -------------------------------------------------------------------------------------
    // The L2 table cache

    method L2CacheReset()
      modifies this`l2Cache, this`l2CacheOffsets, this`l2CacheCounts
      ensures |l2CacheOffsets| == L2_CACHE_SIZE && forall k :: 0 <= k < L2_CACHE_SIZE ==> l2CacheOffsets[k] == 0
      ensures forall f: File, l2s: multiset<nat> :: CacheSound(f, Cache(l2CacheOffsets, l2Cache, l2CacheCounts), l2s)
    {
      l2Cache := NoTables();
      l2CacheOffsets := NoSlots();
      l2CacheCounts := NoSlots();
    }

    /** The victim has the smallest hit count, the first of these. */
    method L2CacheNewEntry() returns (slot: nat)
      requires |l2CacheCounts| == L2_CACHE_SIZE
      requires forall k :: 0 <= k < L2_CACHE_SIZE ==> l2CacheCounts[k] < MAX_HITS
      ensures slot < L2_CACHE_SIZE
      ensures forall k :: 0 <= k < L2_CACHE_SIZE ==> l2CacheCounts[slot] <= l2CacheCounts[k]
      ensures forall k :: 0 <= k < slot ==> l2CacheCounts[slot] < l2CacheCounts[k]
    {
      slot := 0;
      var minCount := MAX_HITS;
      for i := 0 to L2_CACHE_SIZE
        invariant slot < L2_CACHE_SIZE && (i > 0 ==> slot < i && minCount == l2CacheCounts[slot])
        invariant i == 0 ==> minCount == MAX_HITS && slot == 0
        invariant forall k :: 0 <= k < i ==> minCount <= l2CacheCounts[k]
        invariant forall k :: 0 <= k < slot ==> minCount < l2CacheCounts[k]
      {
        if l2CacheCounts[i] < minCount {
          minCount := l2CacheCounts[i];
          slot := i;
        }
      }
    }

    /** Looks a table up and counts the hit; all counters are halved before one can overflow. */
    method SeekL2Table(c: nat) returns (slot: int)
      requires |l2CacheOffsets| == |l2CacheCounts| == L2_CACHE_SIZE
      requires forall k :: 0 <= k < L2_CACHE_SIZE ==> l2CacheCounts[k] < MAX_HITS
      modifies this`l2CacheCounts
      ensures |l2CacheCounts| == L2_CACHE_SIZE
      ensures forall k :: 0 <= k < L2_CACHE_SIZE ==> l2CacheCounts[k] < MAX_HITS
      ensures slot < 0 ==> c !in l2CacheOffsets && l2CacheCounts == old(l2CacheCounts)
      ensures slot >= 0 ==> slot < L2_CACHE_SIZE && l2CacheOffsets[slot] == c
                            && forall k :: 0 <= k < slot ==> l2CacheOffsets[k] != c
    {
      for i := 0 to L2_CACHE_SIZE
        invariant forall k :: 0 <= k < i ==> l2CacheOffsets[k] != c
        invariant l2CacheCounts == old(l2CacheCounts)
      {
        if c == l2CacheOffsets[i] {
          l2CacheCounts := l2CacheCounts[i := l2CacheCounts[i] + 1];
          if l2CacheCounts[i] == MAX_HITS {
            l2CacheCounts := seq(L2_CACHE_SIZE, k requires 0 <= k < L2_CACHE_SIZE && |l2CacheCounts| == L2_CACHE_SIZE reads this =>
              l2CacheCounts[k] / 2);
          }
          return i;
        }
      }
      return -1;
    }

    method L2Load(c: nat, ghost l2s: multiset<nat>) returns (slot: nat)
      requires c != 0 && c in l2s
      requires CacheSound(file, Cache(l2CacheOffsets, l2Cache, l2CacheCounts), l2s)
      modifies this`l2Cache, this`l2CacheOffsets, this`l2CacheCounts
      ensures CacheSound(file, Cache(l2CacheOffsets, l2Cache, l2CacheCounts), l2s)
      ensures slot < L2_CACHE_SIZE && l2CacheOffsets[slot] == c && l2Cache[slot] == Read(file, c)
      ensures old(CacheClear()) ==> slot == 0 && l2Cache == old(l2Cache)[0 := Read(file, c)]
    {
      var found := SeekL2Table(c);
      if found >= 0 { return found; }
      slot := L2CacheNewEntry();
      if slot > 0 { assert l2CacheCounts[slot] < l2CacheCounts[0]; }
      l2Cache := l2Cache[slot := Read(file, c)];
      l2CacheOffsets := l2CacheOffsets[slot := c];
      l2CacheCounts := l2CacheCounts[slot := 1];
    }

    // -------------------------------------------------------------------------------------
    // The invariant

    /** Clusters in use for anything but L2 tables, data and the active L1 table. */
    ghost function Metadata(): multiset<nat>
      reads this
    {
      meta + leaked + Run(snapshotsCluster, ByteClusters(snapshotsSize)) + SnapRuns(snapshots, 0)
    }

    ghost function L1Run(): multiset<nat>
      reads this
    {
      Run(l1Cluster, Clusters(|l1Table|))
    }

    /** No L1 table is empty. */
    lemma AnyTable()
      requires Valid()
      ensures |l1Table| >= 1 && forall k :: 0 <= k < |snapshots| ==> snapshots[k].size >= 1
    {
    }

    /** The header covers the active L1 table; the clusters of what lies behind it have leaked. */
    ghost predicate Headed()
      reads this
    {
      HeaderCovers(l1Cluster, |l1Table|, |stale|, storedSize, leaked)
    }

    lemma HeaderSize()
      requires Valid()
      ensures storedSize == |l1Table| + |stale|
    {
      hide SoundCore;
    }

    lemma TablesFixed()
      requires Headed()
      ensures L1Room(Core()) <= leaked + L1Run()
      ensures L1Room(Core()) + SnapRuns(snapshots, 0) <= Metadata() + L1Run()
    {
      hide Run, SnapRuns, Clusters, Unused;
      ClustersMonotone(|l1Table|, storedSize);
      UnusedSplit(l1Cluster, Clusters(storedSize), Clusters(|l1Table|));
    }

    ghost function Core(): Core
      reads this
    {
      State.Core(file, refcount, l1Table, l1Cluster, snapshots, Cache(l2CacheOffsets, l2Cache, l2CacheCounts), stale)
    }

    /** The invariant, with some clusters taken for a write that is still under way. */
    ghost predicate Sound(extra: multiset<nat>)
      reads this
    {
      && medium.Valid()
      && 0 in meta
      && Headed()
      && SoundCore(Core(), Metadata() + extra + L1Run())
    }

    ghost predicate Valid()
      reads this
    {
      Sound(multiset{})
    }

    // -------------------------------------------------------------------------------------
    // Tables

    /** Three-halves growth until the size suffices. */
    method GrownSize(size: nat, minSize: nat) returns (n: nat)
      requires 1 <= size
      ensures n == GrownTo(size, minSize) >= minSize
      ensures exists sizes: seq<nat> :: sizes != [] && sizes[0] == size && sizes[|sizes| - 1] == n && Growth(sizes, minSize)
    {
      n := size;
      ghost var sizes: seq<nat> := [size];
      while minSize > n
        invariant n >= 1 && GrownTo(n, minSize) == GrownTo(size, minSize)
        invariant sizes != [] && sizes[0] == size && sizes[|sizes| - 1] == n && Growth(sizes, minSize)
        decreases minSize - n
      {
        GrowthNext(sizes, minSize);
        n := (n * 3 + 1) / 2;
        sizes := sizes + [n];
      }
    }

    /** Writes a longer copy of the active L1 table to new clusters and gives the old ones back. */
    method MoveL1Table(newSize: nat)
      requires |l1Table| <= newSize
      requires Run(l1Cluster, Clusters(|l1Table|)) <= refcount && SmallCounts(refcount)
      modifies this`file, this`refcount, this`freeClusterIndex, this`l1Table, this`l1Cluster, this`storedSize, this`stale
      ensures l1Table == old(l1Table) + Zeros(newSize - |old(l1Table)|)
      ensures forall x: nat :: l1Cluster <= x < l1Cluster + Clusters(newSize) ==> old(refcount)[x] == 0
      ensures refcount == old(refcount) + Run(l1Cluster, Clusters(newSize)) - Run(old(l1Cluster), Clusters(|old(l1Table)|))
      ensures file == WriteTable(old(file), l1Cluster, l1Table) && storedSize == newSize && stale == []
    {
      hide Clusters, WriteTable, Read, Run, SmallCounts, Bumped, Zeros;
      var newTable := l1Table + Zeros(newSize - |l1Table|);
      var n := Clusters(newSize);
      var newCluster := AllocClusters(n);
      file := WriteTable(file, newCluster, newTable);
      SmallAfterAlloc(old(refcount), newCluster, n);
      GiveBack(l1Cluster, Clusters(|l1Table|));
      l1Cluster, storedSize, stale := newCluster, newSize, [];
      l1Table := newTable;
    }

    method GrowL1Table(minSize: nat)
      requires |l1Table| >= 1
      requires Run(l1Cluster, Clusters(|l1Table|)) <= refcount && SmallCounts(refcount)
      modifies this`file, this`refcount, this`freeClusterIndex, this`l1Table, this`l1Cluster, this`storedSize, this`stale
      ensures |l1Table| == GrownTo(|old(l1Table)|, minSize)
      ensures |l1Table| >= minSize && |l1Table| >= |old(l1Table)|
      ensures minSize <= |old(l1Table)| ==>
                file == old(file) && refcount == old(refcount) && freeClusterIndex == old(freeClusterIndex)
                && l1Table == old(l1Table) && l1Cluster == old(l1Cluster) && storedSize == old(storedSize) && stale == old(stale)
      ensures minSize > |old(l1Table)| ==>
        && storedSize == |l1Table| && stale == []
        && l1Table == old(l1Table) + Zeros(|l1Table| - |old(l1Table)|)
        && (forall x: nat :: l1Cluster <= x < l1Cluster + Clusters(|l1Table|) ==> old(refcount)[x] == 0)
        && refcount == old(refcount) + Run(l1Cluster, Clusters(|l1Table|)) - Run(old(l1Cluster), Clusters(|old(l1Table)|))
        && file == WriteTable(old(file), l1Cluster, l1Table)
    {
      hide Run, Clusters, WriteTable, ReadTable, Read;
      if minSize <= |l1Table| { return; }
      var newSize := GrownSize(|l1Table|, minSize);
      MoveL1Table(newSize);
    }

    /** A new L2 table for entry i of the active L1 table, a copy of the old one if there is one. */
    method L2Allocate(i: nat) returns (slot: nat, ghost c: nat)
      requires i < |l1Table|
      requires |l2CacheOffsets| == |l2Cache| == |l2CacheCounts| == L2_CACHE_SIZE
      requires forall k :: 0 <= k < L2_CACHE_SIZE ==> l2CacheCounts[k] < MAX_HITS
      modifies this`file, this`refcount, this`freeClusterIndex, this`l1Table, this`l2Cache, this`l2CacheOffsets, this`l2CacheCounts
      ensures slot < L2_CACHE_SIZE
      ensures old(refcount)[c] == 0 && refcount == old(refcount) + multiset{c}
      ensures l1Table == old(l1Table)[i := NewEntry(c)]
      ensures file == CopiedL2(old(file), l1Cluster, i, old(l1Table)[i], c)
      ensures l2CacheOffsets == old(l2CacheOffsets)[slot := c]
      ensures l2Cache == old(l2Cache)[slot := Read(file, c)]
      ensures l2CacheCounts == old(l2CacheCounts)[slot := 1]
    {
      hide WriteEntry, TableOf, Clusters, ReadTable, Run;
      var oldEntry := l1Table[i];
      var taken := AllocClusters(1);
      c := taken;
      RunOfOne(c);
      l1Table := l1Table[i := NewEntry(taken)];
      file := WriteEntry(file, l1Cluster, i, NewEntry(taken));
      slot := L2CacheNewEntry();
      var table := TableOf(file, oldEntry);
      l2Cache := l2Cache[slot := table];
      file := file[taken := table];
      l2CacheOffsets := l2CacheOffsets[slot := taken];
      l2CacheCounts := l2CacheCounts[slot := 1];
    }

    /** Makes the active L1 table long enough for entry i. */
    method GrowForEntry(i: nat, ghost extra: multiset<nat>)
      requires Sound(extra) && i >= |l1Table|
      modifies this`file, this`refcount, this`freeClusterIndex, this`l1Table, this`l1Cluster, this`storedSize, this`stale
      ensures Sound(extra) && i < |l1Table| && |l1Table| == GrownTo(|old(l1Table)|, i + 1)
      ensures Spans(l1Table) == Spans(old(l1Table)) && stale == []
      ensures SameGuest(medium, old(Core()), Core())
    {
      hide Run, Clusters, WriteTable, ReadTable, Read, SameGuest, SoundCore, SnapRuns, GrownTo;
      ghost var before := Core();
      ghost var base := Metadata() + extra;
      SoundRoom(before, base, L1Run());
      GrowL1Table(i + 1);
      assert base == Metadata() + extra;
      GrownSound(medium, before, base, |l1Table| - |before.l1|, l1Cluster);
      assert Core() == Grown(before, |l1Table| - |before.l1|, l1Cluster);
      SpansGrown(before.l1, |l1Table| - |before.l1|);
      NothingBehind(l1Cluster, |l1Table|, leaked);
    }

    /** Gives entry i of the active L1 table an L2 table of its own. */
    method CopyL2(i: nat, ghost extra: multiset<nat>) returns (slot: nat)
      requires Sound(extra) && i < |l1Table| && !l1Table[i].copied
      modifies this`file, this`refcount, this`freeClusterIndex, this`l1Table,
               this`l2Cache, this`l2CacheOffsets, this`l2CacheCounts
      ensures Sound(extra) && |l1Table| == |old(l1Table)| && l1Table[i].copied
      ensures Spans(l1Table) == Spans(old(l1Table)) + {i}
      ensures SameGuest(medium, old(Core()), Core())
      ensures slot < L2_CACHE_SIZE && |l2Cache| == |l2CacheOffsets| == L2_CACHE_SIZE
      ensures l2Cache[slot] == Read(file, l1Table[i].cluster) && l2CacheOffsets[slot] == l1Table[i].cluster
    {
      hide Run, Clusters, CopiedL2, ReadTable, Read, SameGuest, SnapRuns, SoundCore, HeaderCovers, Spans, Bumped;
      ghost var before := Core();
      ghost var fixed := Metadata() + extra + L1Run();
      CacheShape(before, fixed);
      if l1Table[i] != ZERO {
        SharedEntry(before, fixed, i);
        GiveBack(l1Table[i].cluster, 1);
      }
      assert refcount == before.rc - Ref(before.l1[i]);
      ghost var c;
      slot, c := L2Allocate(i);
      SpansEntry(before.l1, i, NewEntry(c));
      CopiedSound(medium, before, fixed, i, c, slot);
      assert Core() == Copied(before, i, c, slot);
    }

    /** Loads an L2 table in use into the cache. */
    method LoadTable(c: nat, ghost extra: multiset<nat>) returns (slot: nat)
      requires Sound(extra) && c != 0 && c in L2s(Core())
      modifies this`l2Cache, this`l2CacheOffsets, this`l2CacheCounts
      ensures Sound(extra)
      ensures slot < L2_CACHE_SIZE && |l2Cache| == |l2CacheOffsets| == L2_CACHE_SIZE
      ensures l2Cache[slot] == Read(file, c) && l2CacheOffsets[slot] == c
      ensures old(CacheClear()) && |old(l2Cache)| == L2_CACHE_SIZE ==> slot == 0 && l2Cache == old(l2Cache)[0 := Read(file, c)]
    {
      hide SoundCore, Run, SnapRuns, L2s, Read;
      ghost var before := Core();
      ghost var fixed := Metadata() + extra + L1Run();
      CacheOf(before, fixed);
      slot := L2Load(c, L2s(before));
      CacheSwap(before, fixed, Cache(l2CacheOffsets, l2Cache, l2CacheCounts));
      assert Core() == before.(cache := Cache(l2CacheOffsets, l2Cache, l2CacheCounts));
    }

    /** The L2 table for guest sector s, private to the active disk, in a slot of the cache. */
    method GetClusterTable(s: nat, ghost extra: multiset<nat>) returns (slot: nat, l2: nat, j: nat)
      requires Sound(extra)
      modifies this`file, this`refcount, this`freeClusterIndex, this`l1Table, this`l1Cluster, this`storedSize, this`stale,
               this`l2Cache, this`l2CacheOffsets, this`l2CacheCounts
      ensures Sound(extra)
      ensures SameGuest(medium, old(Core()), Core())
      ensures L1Index(s) < |l1Table| && l1Table[L1Index(s)] == NewEntry(l2) && j == L2Index(s)
      ensures |l1Table| == GrownTo(|old(l1Table)|, L1Index(s) + 1)
      ensures Spans(l1Table) == Spans(old(l1Table)) + {L1Index(s)} && BehindKept(old(l1Table), old(stale), l1Table, stale)
      ensures slot < L2_CACHE_SIZE && |l2Cache| == |l2CacheOffsets| == L2_CACHE_SIZE
      ensures l2Cache[slot] == Read(file, l2) && l2CacheOffsets[slot] == l2
      ensures L1Index(s) < |old(l1Table)| && old(l1Table)[L1Index(s)].copied ==>
        file == old(file) && refcount == old(refcount) && freeClusterIndex == old(freeClusterIndex)
        && l1Table == old(l1Table) && l1Cluster == old(l1Cluster)
    {
      hide Run, Clusters, Read, SameGuest, SnapRuns, SoundCore, L1Index, L2Index, L2s, GrownTo, HeaderCovers, Spans, Cells, View;
      ghost var before := Core();
      TableSize(before, Metadata() + extra + L1Run());
      var i := L1Index(s);
      SameGuestSelf(medium, before);
      if i >= |l1Table| { GrowForEntry(i, extra); }
      ghost var middle := Core();
      if l1Table[i].copied {
        InUseSpan(l1Table, i);
        CopiedEntry(middle, Metadata() + extra + L1Run(), i);
        l2 := l1Table[i].cluster;
        slot := LoadTable(l2, extra);
        SameGuestCache(medium, before, middle, Core());
      } else {
        slot := CopyL2(i, extra);
        l2 := l1Table[i].cluster;
        SameGuestTrans(medium, before, middle, Core());
        CopiedEntry(Core(), Metadata() + extra + L1Run(), i);
      }
      j := L2Index(s);
    }

    // -------------------------------------------------------------------------------------
    // Runs of table entries

    /** The word x entries after the start of a slot: past its end come the next slots, then other memory. */
    function Memory(slot: nat, x: nat): Word
      reads this`l2Cache
      decreases x
    {
      if slot >= |l2Cache| then behind(x)
      else if x < L2_SIZE then l2Cache[slot][x]
      else Memory(slot + 1, x - L2_SIZE)
    }

    /** The entry x places after entry j of the table in a slot. */
    function RunEntry(slot: nat, j: nat, x: nat): Word
      reads this`l2Cache
    {
      Memory(slot, j + x)
    }

    /** How many entries from start on continue the run of clusters that entry j begins. */
    method CountContiguousClusters(nb: nat, slot: nat, j: nat, start: nat, ignoreCopied: bool) returns (n: nat)
      ensures Masked(RunEntry(slot, j, 0), ignoreCopied) == ZERO ==> n == 0
      ensures Masked(RunEntry(slot, j, 0), ignoreCopied) != ZERO ==>
        && n <= nb
        && (forall x :: start <= x < start + n ==>
              Masked(RunEntry(slot, j, x), ignoreCopied) == Advance(Masked(RunEntry(slot, j, 0), ignoreCopied), x))
        && (n < nb ==> Masked(RunEntry(slot, j, start + n), ignoreCopied)
                       != Advance(Masked(RunEntry(slot, j, 0), ignoreCopied), start + n))
    {
      hide Memory;
      var first := Masked(RunEntry(slot, j, 0), ignoreCopied);
      if first == ZERO { return 0; }
      var i := start;
      while i < start + nb
        invariant start <= i <= start + nb
        invariant forall x :: start <= x < i ==> Masked(RunEntry(slot, j, x), ignoreCopied) == Advance(first, x)
      {
        if Advance(first, i) != Masked(RunEntry(slot, j, i), ignoreCopied) { break; }
        i := i + 1;
      }
      return i - start;
    }

    method CountContiguousFreeClusters(nb: nat, slot: nat, j: nat) returns (n: nat)
      ensures n <= nb
      ensures forall x: nat :: x < n ==> RunEntry(slot, j, x) == ZERO
      ensures n < nb ==> RunEntry(slot, j, n) != ZERO
    {
      hide Memory;
      n := 0;
      while n < nb && RunEntry(slot, j, n) == ZERO
        invariant n <= nb
        invariant forall x: nat :: x < n ==> RunEntry(slot, j, x) == ZERO
      {
        n := n + 1;
      }
    }

    /** How many guest clusters from entry j on, at most nb, are like it: unmapped, or mapped contiguously. */
    method CountLike(nb: nat, slot: nat, j: nat) returns (w: Word, c: nat)
      requires nb > 0 && slot < |l2Cache| && j < L2_SIZE && PlainTable(l2Cache[slot])
      requires forall x: nat :: x < L2_SIZE && l2Cache[slot][x] != ZERO ==> l2Cache[slot][x].cluster != 0
      ensures 1 <= c <= nb && !w.copied && !w.compressed
      ensures LikeRun(l2Cache[slot], j, c, w)
      ensures (forall x: nat :: x < nb ==> RunEntry(slot, j, x) == ZERO) ==> w == ZERO && c == nb
    {
      w := RunEntry(slot, j, 0);
      if w == ZERO {
        c := CountContiguousFreeClusters(nb, slot, j);
      } else {
        c := CountContiguousClusters(nb, slot, j, 0, true);
      }
      forall x | j <= x < j + c && x < L2_SIZE ensures RunEntry(slot, j, x - j) == l2Cache[slot][x] {}
      w := Masked(w, true);
    }

    /** The table for guest sector s is not cached yet and unused from its entry for s on, and all memory behind
        the first slot is zero. */
    ghost predicate ZerosAhead(s: nat)
      reads this
    {
      && CacheClear() && |l2Cache| == L2_CACHE_SIZE
      && (forall k, x :: 1 <= k < L2_CACHE_SIZE && 0 <= x < L2_SIZE ==> l2Cache[k][x] == ZERO)
      && (forall x: nat :: behind(x) == ZERO)
      && L1Index(s) < |l1Table| && l1Table[L1Index(s)] != ZERO
      && forall x :: L2Index(s) <= x < L2_SIZE ==> Read(file, l1Table[L1Index(s)].cluster)[x] == ZERO
    }

    lemma {:induction false} MemoryZeros(slot: nat, x: nat)
      requires forall k, y :: slot <= k < |l2Cache| && 0 <= y < L2_SIZE ==> l2Cache[k][y] == ZERO
      requires forall y: nat :: behind(y) == ZERO
      ensures Memory(slot, x) == ZERO
      decreases x
    {
      if slot < |l2Cache| && x >= L2_SIZE { MemoryZeros(slot + 1, x - L2_SIZE); }
    }

    /** Once that table is in the first slot, every entry the count of unused clusters looks at is zero. */
    lemma ZerosInMemory(j: nat, table: Cluster)
      requires |l2Cache| == L2_CACHE_SIZE && l2Cache[0] == table && j < L2_SIZE
      requires forall x :: j <= x < L2_SIZE ==> table[x] == ZERO
      requires forall k, x :: 1 <= k < L2_CACHE_SIZE && 0 <= x < L2_SIZE ==> l2Cache[k][x] == ZERO
      requires forall x: nat :: behind(x) == ZERO
      ensures forall x: nat :: RunEntry(0, j, x) == ZERO
    {
      forall x: nat ensures RunEntry(0, j, x) == ZERO {
        if j + x >= L2_SIZE {
          MemoryZeros(1, j + x - L2_SIZE);
          assert Memory(0, j + x) == Memory(1, j + x - L2_SIZE);
        } else {
          assert Memory(0, j + x) == l2Cache[0][j + x];
        }
      }
    }

    /** Where guest sector s is, and how many of num sectors from s on can be moved in one go. */
    method GetClusterOffset(s: nat, num: nat, ghost extra: multiset<nat>) returns (w: Word, n: nat)
      requires Sound(extra) && num > 0
      modifies this`l2Cache, this`l2CacheOffsets, this`l2CacheCounts
      ensures Sound(extra)
      ensures 1 <= n <= num && !w.copied && !w.compressed
      ensures InSpan(s, num) ==> MappedRun(file, l1Table, s, n, w)
      ensures old(ZerosAhead(s)) ==> w == ZERO && n == num
    {
      hide L1Index, L2Index, InCluster, Quot, Pos, Read, MappedRun, InSpan, SoundCore, Run, SnapRuns, L2s, LikeRun;
      var k := InCluster(s);
      var needed := num + k;
      var i := L1Index(s);
      ghost var fixed := Metadata() + extra + L1Run();
      if i >= |l1Table| || l1Table[i] == ZERO {
        var available := SpanLeft(s) + k;
        n := (if available > needed then needed else available) - k;
        if InSpan(s, num) {
          UnmappedRun(file, l1Table, s, num);
          MappedPrefix(file, l1Table, s, num, n, ZERO);
        }
        return ZERO, n;
      }
      TableInUse(Core(), fixed, i);
      var slot := LoadTable(l1Table[i].cluster, extra);
      if old(ZerosAhead(s)) { ZerosInMemory(L2Index(s), Read(file, l1Table[i].cluster)); }
      var c;
      w, c := CountLike(Quot(needed - 1) + 1, slot, L2Index(s));
      var available := Pos(c, 0);
      RunCovers(s, c);
      n := (if available > needed then needed else available) - k;
      CoversNeeded(needed);
      if InSpan(s, num) { TableRun(file, l1Table, s, num, n, c, w); }
    }

    // -------------------------------------------------------------------------------------
    // Reading

    /** Reads n sectors. Requests inside one L2 table get exactly what the disk shows. */
    method QcowRead(s: nat, n: nat, ghost extra: multiset<nat>) returns (buf: seq<Sector>)
      requires Sound(extra)
      modifies this`l2Cache, this`l2CacheOffsets, this`l2CacheCounts
      ensures Sound(extra) && |buf| == n
      ensures InSpan(s, n) ==> forall i: nat :: i < n ==> buf[i] == ViewSector(medium, file, l1Table, s + i)
      ensures InSpan(s, n) ==> Reads(medium, file, l1Table, s, buf)
      ensures old(ZerosAhead(s)) ==> forall i: nat :: i < n ==> buf[i] == medium.Backing(s + i)
    {
      hide InSpan, MappedRun, ViewSector, RunData, Sound, ZerosAhead, Reads;
      buf := [];
      while |buf| < n
        invariant |buf| <= n
        invariant Sound(extra)
        invariant InSpan(s, n) ==> forall i: nat :: i < |buf| ==> buf[i] == ViewSector(medium, file, l1Table, s + i)
        invariant old(ZerosAhead(s)) ==> if buf == [] then ZerosAhead(s) else |buf| == n
        invariant old(ZerosAhead(s)) ==> forall i: nat :: i < |buf| ==> buf[i] == medium.Backing(s + i)
      {
        var done := |buf|;
        if InSpan(s, n) { SpanRest(s, n, done); }
        var w, m := GetClusterOffset(s + done, n - done, extra);
        var data := RunData(medium, file, s + done, m, w);
        RunDataLength(medium, file, s + done, m, w);
        if w == ZERO { RunDataBacking(medium, file, s + done, m); }
        if InSpan(s, n) { RunDataView(medium, file, l1Table, s + done, n - done, m, w); }
        buf := buf + data;
        if InSpan(s, n) {
          forall i: nat | i < |buf| ensures buf[i] == ViewSector(medium, file, l1Table, s + i) {
            if i >= done {
              assert buf[i] == data[i - done];
              assert s + i == s + done + (i - done);
            }
          }
        }
      }
      if InSpan(s, n) { ReadsView(medium, file, l1Table, s, buf); }
    }

    /** Copies guest sectors start + nStart .. start + nEnd - 1 to where they belong, off sectors into the clusters from c on. */
    method CopySectors(start: nat, c: nat, off: nat, nStart: nat, nEnd: nat, ghost n: nat) returns (ghost data: seq<Sector>)
      requires Sound(Run(c, n)) && nStart <= nEnd && off + nEnd <= Pos(n, 0)
      requires InSpan(start + nStart, nEnd - nStart)
      modifies this`file, this`l2Cache, this`l2CacheOffsets, this`l2CacheCounts
      ensures Sound(Run(c, n))
      ensures SameGuest(medium, old(Core()), Core())
      ensures |data| == nEnd - nStart
      ensures forall i: nat :: i < |data| ==> data[i] == ViewSector(medium, old(file), l1Table, start + nStart + i)
      ensures file == WriteSectors(old(file), c, off + nStart, EncodeRun(medium, start + nStart, data))
      ensures forall x: nat :: x < c || c + n <= x ==> Read(old(file), x) == Read(file, x)
    {
      hide InSpan, ViewSector, SoundCore, Run, SameGuest, WriteSectors, SnapRuns, Pos, EncodeRun, HeaderCovers, Reads, Cells, View;
      ghost var first := Core();
      SameGuestSelf(medium, first);
      var plain := QcowRead(start + nStart, nEnd - nStart, Run(c, n));
      data := plain;
      ghost var before := Core();
      SameGuestCache(medium, first, first, before);
      ghost var target := WriteSectors(file, c, off + nStart, EncodeRun(medium, start + nStart, plain));
      EncodeLength(medium, start + nStart, plain);
      forall x: nat | x < c || c + n <= x ensures Read(file, x) == Read(target, x) {
        WriteSectorsFrame(file, c, n, off + nStart, EncodeRun(medium, start + nStart, plain), x);
      }
      ghost var base := Metadata() + L1Run();
      Shuffle(Metadata(), Run(c, n), L1Run());
      TablesFixed();
      ExtraWriteSound(medium, before, base, c, n, target);
      SameGuestTrans(medium, first, before, before.(file := target));
      file := WriteSectors(file, c, off + nStart, EncodeRun(medium, start + nStart, plain));
    }

    // -------------------------------------------------------------------------------------
    // Writing

    /** How many entries from entry j on, at most nb, may be given new clusters together. */
    method CountReplaceable(nb: nat, slot: nat, j: nat) returns (n: nat)
      requires nb > 0 && !RunEntry(slot, j, 0).copied && !RunEntry(slot, j, 0).compressed
      ensures 1 <= n <= nb
      ensures forall x :: 0 <= x < n ==> !RunEntry(slot, j, x).copied
    {
      hide Memory;
      n := 0;
      while n < nb
        invariant n <= nb
        invariant forall x :: 0 <= x < n ==> !RunEntry(slot, j, x).copied
        decreases nb - n
      {
        var a := CountContiguousClusters(nb - n, slot, j, n, false);
        n := n + a;
        if RunEntry(slot, j, n) != ZERO { break; }
        var f := CountContiguousFreeClusters(nb - n, slot, j + n);
        forall x | n <= x < n + f ensures RunEntry(slot, j, x) == ZERO {
          assert RunEntry(slot, j + n, x - n) == ZERO;
        }
        n := n + f;
        var w := RunEntry(slot, j, n);
        if w.copied || w.compressed { break; }
      }
    }

    /** Takes a run of clusters for a write. */
    method TakeRun(n: nat) returns (c: nat)
      requires Valid()
      modifies this`refcount, this`freeClusterIndex
      ensures Sound(Run(c, n))
      ensures SameGuest(medium, old(Core()), Core())
    {
      hide SoundCore, SameGuest, Run, SnapRuns;
      ghost var before := Core();
      SameGuestSelf(medium, before);
      c := AllocClusters(n);
      assert Metadata() + multiset{} == Metadata();
      AllocSound(before, Metadata(), L1Run(), c, n);
      SameGuestCache(medium, before, before, Core());
    }

    /** The slot of the cache that holds the private L2 table of guest sector s. */
    ghost predicate HasTable(s: nat, slot: nat)
      reads this
    {
      && L1Index(s) < |l1Table| && l1Table[L1Index(s)].copied
      && slot < |l2Cache| && slot < |l2CacheOffsets|
      && l2Cache[slot] == Read(file, l1Table[L1Index(s)].cluster)
      && l2CacheOffsets[slot] == l1Table[L1Index(s)].cluster
    }

    /** The clusters at the guest cluster of s that may be overwritten, at most nb. */
    method PrivateStretch(s: nat, slot: nat, nb: nat) returns (c: nat, run: nat)
      requires Valid() && HasTable(s, slot)
      requires 1 <= nb && L2Index(s) + nb <= L2_SIZE && RunEntry(slot, L2Index(s), 0).copied
      ensures 1 <= run <= nb && Private(Core(), s, run, c)
    {
      hide L1Index, L2Index, Read, SoundCore, Run, SnapRuns, Private;
      var j := L2Index(s);
      var w := RunEntry(slot, j, 0);
      run := CountContiguousClusters(nb, slot, j, 0, false);
      forall q | j <= q < j + run ensures l2Cache[slot][q] == Advance(w, q - j) {
        assert RunEntry(slot, j, q - j) == Advance(w, q - j);
      }
      PrivateRun(Core(), Metadata() + multiset{} + L1Run(), s, run, w);
      c := w.cluster;
    }

    /** How many guest clusters from that of s on, at most nb, can be given new clusters together. */
    method NewStretch(s: nat, slot: nat, nb: nat) returns (run: nat)
      requires Valid() && HasTable(s, slot)
      requires 1 <= nb && L2Index(s) + nb <= L2_SIZE && !RunEntry(slot, L2Index(s), 0).copied
      ensures 1 <= run <= nb
      ensures !RunEntry(slot, L2Index(s), 0).compressed
      ensures NoneCopied(file, l1Table, s, run)
    {
      hide L1Index, L2Index, Read, SoundCore, Run, SnapRuns;
      var j := L2Index(s);
      CopiedEntry(Core(), Metadata() + multiset{} + L1Run(), L1Index(s));
      TableInUse(Core(), Metadata() + multiset{} + L1Run(), L1Index(s));
      run := CountReplaceable(nb, slot, j);
      forall x | j <= x < j + run ensures !l2Cache[slot][x].copied { assert !RunEntry(slot, j, x - j).copied; }
    }

    /** Where sectors nStart .. nEnd - 1, counted from the cluster of s, may be written: in place when
        the clusters are private, else to a run of new clusters that still has to be linked. */
    method AllocClusterOffset(s: nat, nStart: nat, nEnd: nat) returns (c: nat, num: nat, m: L2Meta, ghost r: nat)
      requires Valid() && nStart == InCluster(s) < nEnd
      modifies this`file, this`refcount, this`freeClusterIndex, this`l1Table, this`l1Cluster, this`storedSize, this`stale,
               this`l2Cache, this`l2CacheOffsets, this`l2CacheCounts
      ensures Sound(Run(c, m.nbClusters))
      ensures SameGuest(medium, old(Core()), Core())
      ensures L1Index(s) < |l1Table| && l1Table[L1Index(s)].copied
      ensures |l1Table| == GrownTo(|old(l1Table)|, L1Index(s) + 1)
      ensures Spans(l1Table) == Spans(old(l1Table)) + {L1Index(s)} && BehindKept(old(l1Table), old(stale), l1Table, stale)
      ensures r >= 1 && L2Index(s) + r <= L2_SIZE
      ensures m.nbClusters == 0 ==> Private(Core(), s, r, c)
      ensures m.nbClusters > 0 ==> m == L2Meta(s, nStart, m.nbAvailable, r) && nEnd > Pos(r - 1, 0)
      ensures m.nbClusters > 0 ==> NoneCopied(file, l1Table, s, r)
      ensures m.nbAvailable == (if Pos(r, 0) < nEnd then Pos(r, 0) else nEnd)
      ensures num == m.nbAvailable - nStart && num >= 1
    {
      hide L1Index, L2Index, InCluster, Quot, Pos, Read, SoundCore, SameGuest, Run, SnapRuns, Private, RunEntry, GrownTo;
      ghost var before := Core();
      var slot, l2, j := GetClusterTable(s, multiset{});
      ghost var first := Core();
      var nb := Quot(nEnd - 1) + 1;
      if nb > L2_SIZE - j { nb := L2_SIZE - j; }
      var run;
      if RunEntry(slot, j, 0).copied {
        c, run := PrivateStretch(s, slot, nb);
        m := L2Meta(0, 0, 0, 0);
        RunExtend(c, 0);
      } else {
        if RunEntry(slot, j, 0).compressed { nb := 1; }
        run := NewStretch(s, slot, nb);
        c := TakeRun(run);
        m := L2Meta(s, nStart, 0, run);
        SameGuestTrans(medium, before, first, Core());
        PosMonotone(run - 1, Quot(nEnd - 1));
        QuotPos(nEnd - 1);
        PosStart(Quot(nEnd - 1), InCluster(nEnd - 1));
      }
      r := run;
      RunCovers(s, run);
      m := m.(nbAvailable := if Pos(run, 0) < nEnd then Pos(run, 0) else nEnd);
      num := m.nbAvailable - nStart;
    }

    /** Puts the clusters c .. c + n - 1 into a cached table; returns the entries that were in use there. */
    method LinkEntries(slot: nat, j: nat, n: nat, c: nat) returns (aside: seq<Word>)
      requires slot < |l2Cache| && j + n <= L2_SIZE
      requires PlainTable(l2Cache[slot]) && forall x :: j <= x < j + n ==> !l2Cache[slot][x].copied
      modifies this`l2Cache
      ensures |l2Cache| == |old(l2Cache)| && l2Cache == old(l2Cache)[slot := l2Cache[slot]]
      ensures Linked(old(l2Cache)[slot], l2Cache[slot], j, n, c)
      ensures Tally(l2Cache[slot], EntryRefs(aside, 0), old(l2Cache)[slot], Run(c, n))
      ensures forall q :: 0 <= q < |aside| ==> aside[q] != ZERO && !aside[q].copied && !aside[q].compressed
    {
      hide EntryRefs, Run, Tally;
      ghost var u := l2Cache[slot];
      aside := [];
      TallyStart(u);
      RunExtend(c, 0);
      for i := 0 to n
        invariant |l2Cache| == |old(l2Cache)| && l2Cache == old(l2Cache)[slot := l2Cache[slot]]
        invariant Linked(u, l2Cache[slot], j, i, c)
        invariant Tally(l2Cache[slot], EntryRefs(aside, 0), u, Run(c, i))
        invariant forall q :: 0 <= q < |aside| ==> aside[q] != ZERO && !aside[q].copied && !aside[q].compressed
      {
        var table := l2Cache[slot];
        ReplaceEntry(table, j + i, NewEntry(c + i), aside, u, Run(c, i));
        RunExtend(c, i);
        aside := SetAside(aside, table[j + i]);
        l2Cache := l2Cache[slot := table[j + i := NewEntry(c + i)]];
      }
    }

    /** Gives back what an entry names: n whole clusters, or the clusters under the sectors of a compressed chunk. */
    method FreeAnyClusters(w: Word, n: nat)
      modifies this`refcount, this`freeClusterIndex
      ensures !w.compressed && Run(w.cluster, n) <= old(refcount) && SmallCounts(old(refcount)) ==>
                refcount == old(refcount) - Run(w.cluster, n)
      ensures w.compressed && EntryClusters(w) <= old(refcount) && SmallCounts(old(refcount)) ==>
                refcount == old(refcount) - EntryClusters(w)
      ensures forall x: nat ::
        refcount[x] == if (if w.compressed then x in EntryClusters(w) else w.cluster <= x < w.cluster + n)
                       then Bumped(old(refcount)[x], -1) else old(refcount)[x]
    {
      hide SmallCounts, Run, Bumped;
      if w.compressed {
        var offset := SectorStart(ChunkOffset(w));
        RunCounts(ClusterOf(offset), Touched(offset, ChunkSectors(w) * 512));
        FreeClusters(ClusterOf(offset), Touched(offset, ChunkSectors(w) * 512));
        return;
      }
      FreeClusters(w.cluster, n);
    }

    method FreeEntry(w: Word, ghost rest: multiset<nat>)
      requires w != ZERO && !w.copied && !w.compressed
      requires refcount == rest + Ref(w) && SmallCounts(refcount)
      modifies this`refcount, this`freeClusterIndex
      ensures refcount == rest && SmallCounts(refcount)
    {
      RunExtend(w.cluster, 0);
      FreeAnyClusters(w, 1);
    }

    method FreeEntries(aside: seq<Word>)
      requires forall q :: 0 <= q < |aside| ==> aside[q] != ZERO && !aside[q].copied && !aside[q].compressed
      requires EntryRefs(aside, 0) <= refcount && SmallCounts(refcount)
      modifies this`refcount, this`freeClusterIndex
      ensures refcount == old(refcount) - EntryRefs(aside, 0)
    {
      hide EntryRefs, SmallCounts, Ref;
      ghost var rest := old(refcount) - EntryRefs(aside, 0);
      for q := 0 to |aside|
        invariant refcount == rest + EntryRefs(aside, q)
        invariant SmallCounts(refcount)
      {
        EntryRefsStep(aside, q);
        TakeOut(rest, Ref(aside[q]), EntryRefs(aside, q + 1));
        FreeEntry(aside[q], rest + EntryRefs(aside, q + 1));
      }
      EntryRefsZeros(aside, |aside|);
    }

    /** A write in progress: sectors lo .. hi - 1 of its run of clusters are in place, the rest of the disk is as before. */
    ghost predicate MetaReady(c: nat, m: L2Meta, want: imap<nat, Sector>, lo: nat, hi: nat)
      reads this
    {
      && Sound(Run(c, m.nbClusters)) && m.nbClusters >= 1
      && m.nStart == InCluster(m.offset) && m.nStart <= m.nbAvailable
      && Pos(m.nbClusters - 1, 0) < m.nbAvailable <= Pos(m.nbClusters, 0)
      && (forall y: nat :: y in want)
      && Filled(medium, file, c, m.offset, lo, hi, want)
      && AgreeOutside(want, View(medium, file, l1Table), Base(m.offset) + m.nStart, Base(m.offset) + m.nbAvailable)
      && NoneCopied(file, l1Table, m.offset, m.nbClusters)
    }

    /** Copies the unmodified sectors in front of a write. */
    method CopyHead(c: nat, m: L2Meta, ghost want: imap<nat, Sector>)
      requires MetaReady(c, m, want, m.nStart, m.nbAvailable)
      modifies this`file, this`l2Cache, this`l2CacheOffsets, this`l2CacheCounts
      ensures MetaReady(c, m, want, 0, m.nbAvailable)
      ensures SameGuest(medium, old(Core()), Core())
    {
      hide InCluster, Pos, SoundCore, SameGuest, Run, SnapRuns, ViewSector, Filled, WriteSectors, InSpan, EncodeRun, SnapTable,
           NoneCopied, Read;
      var s := m.offset;
      ghost var view := View(medium, file, l1Table);
      ghost var before := Core();
      ghost var base := Metadata() + L1Run();
      Shuffle(Metadata(), Run(c, m.nbClusters), L1Run());
      TablesFixed();
      HeadAddress(s);
      ghost var data := CopySectors(Base(s), c, 0, 0, m.nStart, m.nbClusters);
      CopyFills(medium, old(file), c, s, 0, data, m.nStart, m.nbAvailable, view, want);
      FilledJoin(medium, file, c, s, 0, m.nStart, m.nbAvailable, want);
      NoneCopiedFrame(before, base, file, s, m.nbClusters, c, m.nbClusters);
      assert View(medium, file, l1Table) == view by { SameGuestView(medium, old(Core()), Core()); }
    }

    /** Copies the unmodified sectors behind a write. */
    method CopyTail(c: nat, m: L2Meta, ghost want: imap<nat, Sector>)
      requires MetaReady(c, m, want, 0, m.nbAvailable) && InCluster(m.nbAvailable) != 0
      modifies this`file, this`l2Cache, this`l2CacheOffsets, this`l2CacheCounts
      ensures MetaReady(c, m, want, 0, Pos(m.nbClusters, 0))
      ensures SameGuest(medium, old(Core()), Core())
    {
      hide InCluster, Pos, SoundCore, SameGuest, Run, SnapRuns, ViewSector, Filled, WriteSectors, InSpan, EncodeRun, SnapTable,
           NoneCopied, Read;
      var s := m.offset;
      ghost var view := View(medium, file, l1Table);
      ghost var before := Core();
      ghost var base := Metadata() + L1Run();
      Shuffle(Metadata(), Run(c, m.nbClusters), L1Run());
      TablesFixed();
      TailBounds(m.nbAvailable, m.nbClusters);
      TailAddress(s, m.nbAvailable);
      var end := m.nbAvailable - InCluster(m.nbAvailable);
      ghost var data := CopySectors(Base(s) + end, c, end, m.nbAvailable - end, CLUSTER_SECTORS, m.nbClusters);
      CopyFills(medium, old(file), c, s, m.nbAvailable, data, 0, m.nbAvailable, view, want);
      FilledJoin(medium, file, c, s, 0, m.nbAvailable, Pos(m.nbClusters, 0), want);
      NoneCopiedFrame(before, base, file, s, m.nbClusters, c, m.nbClusters);
      assert View(medium, file, l1Table) == view by { SameGuestView(medium, old(Core()), Core()); }
    }

    /** Copies what the write leaves out, then links the new clusters and frees the ones they replace. */
    method AllocClusterLinkL2(c: nat, m: L2Meta, ghost want: imap<nat, Sector>)
      requires MetaReady(c, m, want, m.nStart, m.nbAvailable)
      modifies this`file, this`refcount, this`freeClusterIndex, this`l1Table, this`l1Cluster, this`storedSize, this`stale,
               this`l2Cache, this`l2CacheOffsets, this`l2CacheCounts
      ensures Valid() && |l1Table| == GrownTo(|old(l1Table)|, L1Index(m.offset) + 1)
      ensures Spans(l1Table) == Spans(old(l1Table)) + {L1Index(m.offset)} && BehindKept(old(l1Table), old(stale), l1Table, stale)
      ensures View(medium, file, l1Table) == want
      ensures Rewritten(medium, old(file), old(l1Table), file, l1Table, Base(m.offset) + m.nStart, Base(m.offset) + m.nbAvailable)
      ensures SameSnapViews(medium, old(file), file, snapshots)
    {
      hide L1Index, L2Index, InCluster, Pos, Sound, SameGuest, Run, SnapRuns, Filled, InSpan, Read, AgreeOutside, GrownTo, View, Rewritten,
           SameSnapViews, Spans, Base, Cells;
      ghost var before := Core();
      SameGuestSelf(medium, before);
      if m.nStart > 0 { CopyHead(c, m, want); }
      ghost var middle := Core();
      TailBounds(m.nbAvailable, m.nbClusters);
      SameGuestSelf(medium, middle);
      if InCluster(m.nbAvailable) != 0 { CopyTail(c, m, want); }
      ghost var after := Core();
      SameGuestTrans(medium, before, middle, after);
      LinkNow(c, m, want);
      SameGuestView(medium, before, after);
      RewrittenFrom(medium, before.file, before.l1, after.file, after.l1, file, l1Table, Base(m.offset) + m.nStart, Base(m.offset) + m.nbAvailable);
      SameSnapsTrans(medium, before, after, file);
    }

    /** Updates the cached table and writes the changed entries to the file. */
    method StoreLinks(slot: nat, l2: nat, j: nat, n: nat, c: nat) returns (aside: seq<Word>)
      requires slot < |l2Cache| && l2Cache[slot] == Read(file, l2) && j + n <= L2_SIZE
      requires PlainTable(l2Cache[slot]) && forall x :: j <= x < j + n ==> !l2Cache[slot][x].copied
      modifies this`l2Cache, this`file
      ensures |l2Cache| == |old(l2Cache)| && l2Cache == old(l2Cache)[slot := l2Cache[slot]]
      ensures file == old(file)[l2 := l2Cache[slot]]
      ensures Linked(Read(old(file), l2), l2Cache[slot], j, n, c)
      ensures Tally(l2Cache[slot], EntryRefs(aside, 0), Read(old(file), l2), Run(c, n))
      ensures forall q :: 0 <= q < |aside| ==> aside[q] != ZERO && !aside[q].copied && !aside[q].compressed
    {
      hide EntryRefs, Run, Tally, Read, Linked;
      aside := LinkEntries(slot, j, n, c);
      StoreLinked(Read(file, l2), l2Cache[slot], j, n, c);
      file := file[l2 := StoreRange(Read(file, l2), l2Cache[slot], j, n)];
    }

    method LinkNow(c: nat, m: L2Meta, ghost want: imap<nat, Sector>)
      requires MetaReady(c, m, want, 0, Pos(m.nbClusters, 0))
      modifies this`file, this`refcount, this`freeClusterIndex, this`l1Table, this`l1Cluster, this`storedSize, this`stale,
               this`l2Cache, this`l2CacheOffsets, this`l2CacheCounts
      ensures Valid() && |l1Table| == GrownTo(|old(l1Table)|, L1Index(m.offset) + 1)
      ensures Spans(l1Table) == Spans(old(l1Table)) + {L1Index(m.offset)} && BehindKept(old(l1Table), old(stale), l1Table, stale)
      ensures View(medium, file, l1Table) == want
      ensures Rewritten(medium, old(file), old(l1Table), file, l1Table, Base(m.offset) + m.nStart, Base(m.offset) + m.nbAvailable)
      ensures SameSnapViews(medium, old(file), file, snapshots)
    {
      hide L1Index, L2Index, InCluster, Pos, SoundCore, Run, SnapRuns, Filled, Read, View, SameSnapViews, AgreeOutside, Base, GrownTo, Rewritten, Spans,
           HeaderCovers, Cells;
      ghost var before := Core();
      var slot, l2, j := GetClusterTable(m.offset, Run(c, m.nbClusters));
      ghost var middle := Core();
      SameGuestView(medium, before, middle);
      FinishLink(c, m, slot, want);
      RewrittenFrom(medium, before.file, before.l1, middle.file, middle.l1, file, l1Table, Base(m.offset) + m.nStart, Base(m.offset) + m.nbAvailable);
    }

    method FinishLink(c: nat, m: L2Meta, slot: nat, ghost want: imap<nat, Sector>)
      requires MetaReady(c, m, want, 0, Pos(m.nbClusters, 0)) && HasTable(m.offset, slot)
      modifies this`file, this`refcount, this`freeClusterIndex, this`l2Cache
      ensures Valid()
      ensures View(medium, file, l1Table) == want
      ensures Rewritten(medium, old(file), old(l1Table), file, l1Table, Base(m.offset) + m.nStart, Base(m.offset) + m.nbAvailable)
      ensures SameSnapViews(medium, old(file), file, snapshots)
    {
      hide L1Index, L2Index, InCluster, Pos, SoundCore, Run, SnapRuns, Filled, Read, View, Linked, Tally, SameSnapViews,
           EntryRefs, AgreeOutside, CacheSound, Base, SmallCounts;
      var n := m.nbClusters;
      var i, j := L1Index(m.offset), L2Index(m.offset);
      var l2 := l1Table[i].cluster;
      ghost var before := Core();
      ghost var base := Metadata() + L1Run();
      TableInUse(before, Metadata() + Run(c, n) + L1Run(), i);
      CacheShape(before, Metadata() + Run(c, n) + L1Run());
      SoundRoom(before, Metadata() + Run(c, n), L1Run());
      Shuffle(Metadata(), Run(c, n), L1Run());
      TablesFixed();
      var aside := StoreLinks(slot, l2, j, n, c);
      ghost var v := l2Cache[slot];
      LinkFinish(medium, before, base, m.offset, n, c, v, EntryRefs(aside, 0), slot, m.nStart, m.nbAvailable, want);
      FreeEntries(aside);
      assert Core() == LinkedCore(before, l2, v, EntryRefs(aside, 0), slot);
      assert Metadata() + multiset{} + L1Run() == base;
    }

    /** Overwrites private clusters. */
    method WriteInPlace(s: nat, c: nat, data: seq<Sector>, ghost r: nat)
      requires Valid() && Private(Core(), s, r, c) && InCluster(s) + |data| <= Pos(r, 0)
      modifies this`file
      ensures Valid()
      ensures View(medium, file, l1Table) == Overwrite(old(View(medium, file, l1Table)), s, data)
      ensures Rewritten(medium, old(file), l1Table, file, l1Table, s, s + |data|)
      ensures SameSnapViews(medium, old(file), file, snapshots)
    {
      hide InCluster, Pos, SoundCore, Run, SnapRuns, View, SameSnapViews, AgreeOutside, Base, Private, Overwrite,
           WriteSectors, EncodeRun;
      ghost var view := View(medium, file, l1Table);
      OverwriteFacts(view, s, data);
      InPlaceView(medium, Core(), Metadata() + multiset{} + L1Run(), s, r, c, InCluster(s), data, Overwrite(view, s, data));
      file := WriteSectors(file, c, InCluster(s), EncodeRun(medium, s, data));
    }

    /** Writes to new clusters and links them. */
    method WriteNew(c: nat, m: L2Meta, data: seq<Sector>)
      requires Sound(Run(c, m.nbClusters)) && m.nbClusters >= 1
      requires m.nStart == InCluster(m.offset) && m.nbAvailable == m.nStart + |data|
      requires Pos(m.nbClusters - 1, 0) < m.nbAvailable <= Pos(m.nbClusters, 0)
      requires NoneCopied(file, l1Table, m.offset, m.nbClusters)
      modifies this`file, this`refcount, this`freeClusterIndex, this`l1Table, this`l1Cluster, this`storedSize, this`stale,
               this`l2Cache, this`l2CacheOffsets, this`l2CacheCounts
      ensures Valid() && |l1Table| == GrownTo(|old(l1Table)|, L1Index(m.offset) + 1)
      ensures Spans(l1Table) == Spans(old(l1Table)) + {L1Index(m.offset)} && BehindKept(old(l1Table), old(stale), l1Table, stale)
      ensures View(medium, file, l1Table) == Overwrite(old(View(medium, file, l1Table)), m.offset, data)
      ensures Rewritten(medium, old(file), old(l1Table), file, l1Table, m.offset, m.offset + |data|)
      ensures SameSnapViews(medium, old(file), file, snapshots)
    {
      hide InCluster, Pos, SoundCore, Run, SnapRuns, View, SameSnapViews, AgreeOutside, Base, Private,
           NoneCopied, Overwrite, WriteSectors, EncodeRun, Filled, SnapTable, L1Index, GrownTo, Rewritten, Spans, HeaderCovers, Cells;
      ghost var before := Core();
      ghost var view := View(medium, file, l1Table);
      ghost var want := Overwrite(view, m.offset, data);
      OverwriteFacts(view, m.offset, data);
      Shuffle(Metadata(), Run(c, m.nbClusters), L1Run());
      TablesFixed();
      FillNew(medium, before, Metadata() + L1Run(), m.offset, m.nbClusters, c, m.nStart, data, want);
      file := WriteSectors(file, c, m.nStart, EncodeRun(medium, m.offset, data));
      ghost var written := Core();
      SameGuestView(medium, before, written);
      AllocClusterLinkL2(c, m, want);
      SameSnapsTrans(medium, before, written, file);
      RewrittenFrom(medium, before.file, before.l1, written.file, written.l1, file, l1Table, m.offset, m.offset + |data|);
    }

    /** Writes as many of the given sectors as one run of clusters takes. */
    method WriteRun(s: nat, data: seq<Sector>) returns (n: nat)
      requires Valid() && data != []
      modifies this`file, this`refcount, this`freeClusterIndex, this`l1Table, this`l1Cluster, this`storedSize, this`stale,
               this`l2Cache, this`l2CacheOffsets, this`l2CacheCounts
      ensures Valid() && 1 <= n <= |data|
      ensures L1Index(s + n - 1) == L1Index(s) && |l1Table| == GrownTo(|old(l1Table)|, L1Index(s) + 1)
      ensures Spans(l1Table) == Spans(old(l1Table)) + {L1Index(s)} && BehindKept(old(l1Table), old(stale), l1Table, stale)
      ensures View(medium, file, l1Table) == Overwrite(old(View(medium, file, l1Table)), s, data[..n])
      ensures Rewritten(medium, old(file), old(l1Table), file, l1Table, s, s + n)
      ensures SameSnapViews(medium, old(file), file, snapshots)
    {
      hide L1Index, L2Index, InCluster, Pos, SoundCore, Run, SnapRuns, View, SameSnapViews, Base, Private,
           NoneCopied, Overwrite, SnapTable, GrownTo, HeaderCovers, Spans, SameGuest, Rewritten, Cells, Wrote, Filled, WriteSectors,
           EncodeRun, InSpan;
      ghost var before := Core();
      TableSize(before, Metadata() + multiset{} + L1Run());
      var k := InCluster(s);
      var nEnd := k + |data|;
      if medium.encrypted && nEnd > Pos(MAX_CRYPT_CLUSTERS, 0) { nEnd := Pos(MAX_CRYPT_CLUSTERS, 0); }
      RunCovers(s, MAX_CRYPT_CLUSTERS);
      var c, num, m;
      ghost var r;
      c, num, m, r := AllocClusterOffset(s, k, nEnd);
      ghost var middle := Core();
      SameGuestView(medium, before, middle);
      if m.nbClusters == 0 {
        RunExtend(c, 0);
        WriteInPlace(s, c, data[..num], r);
      } else {
        PosNext(r - 1);
        WriteNew(c, m, data[..num]);
      }
      SameSnapsTrans(medium, before, middle, file);
      RewrittenFrom(medium, before.file, before.l1, middle.file, middle.l1, file, l1Table, s, s + num);
      GrownTwice(|before.l1|, L1Index(s) + 1, L1Index(s) + 1);
      RunSpan(s, num, r);
      n := num;
    }

    /** The write of a guest. */
    method QcowWrite(s: nat, buf: seq<Sector>)
      requires Valid()
      modifies this`file, this`refcount, this`freeClusterIndex, this`l1Table, this`l1Cluster, this`storedSize, this`stale,
               this`l2Cache, this`l2CacheOffsets, this`l2CacheCounts
      ensures Valid()
      ensures View(medium, file, l1Table) == Overwrite(old(View(medium, file, l1Table)), s, buf)
      ensures Wrote(medium, old(file), old(l1Table), file, l1Table, s, buf)
      ensures Rewritten(medium, old(file), old(l1Table), file, l1Table, s, s + |buf|)
      ensures SameSnapViews(medium, old(file), file, snapshots)
      ensures |old(l1Table)| >= 1 && |l1Table| == SizeAfter(|old(l1Table)|, s, |buf|)
      ensures Spans(l1Table) == Spans(old(l1Table)) + SpansOf(s, |buf|) && BehindKept(old(l1Table), old(stale), l1Table, stale)
    {
      hide Sound, View, SameSnapViews, Overwrite, SnapTable, GrownTo, L1Index, Spans, Rewritten, Wrote;
      ghost var view, size := View(medium, file, l1Table), |l1Table|;
      AnyTable();
      var done := 0;
      OverwriteNothing(view, s);
      RewrittenNothing(medium, file, l1Table, s);
      SameSnapsSelf(medium, file, snapshots);
      while done < |buf|
        invariant done <= |buf| && Valid()
        invariant View(medium, file, l1Table) == Overwrite(view, s, buf[..done])
        invariant Rewritten(medium, old(file), old(l1Table), file, l1Table, s, s + done)
        invariant SameSnapViews(medium, old(file), file, snapshots)
        invariant |l1Table| == SizeAfter(size, s, done)
        invariant Spans(l1Table) == Spans(old(l1Table)) + SpansOf(s, done) && BehindKept(old(l1Table), old(stale), l1Table, stale)
      {
        ghost var last, table := file, l1Table;
        SizeStep(size, s, done);
        var n := WriteRun(s + done, buf[done..]);
        OverwriteMore(view, s, buf, done, n);
        WroteOutside(medium, last, table, file, l1Table, s + done, buf[done..][..n]);
        RewrittenMore(medium, old(file), old(l1Table), last, table, file, l1Table, s, s + done, s + done + n);
        SpansOfMore(s, done, n);
        SameSnapsStep(medium, old(file), last, file, snapshots);
        done := done + n;
      }
      assert buf[..done] == buf;
      OverwriteWrote(medium, old(file), old(l1Table), file, l1Table, s, buf);
    }

    // -------------------------------------------------------------------------------------
    // Snapshots

    /** Moves one reference and recomputes the flag of the entry that makes it. */
    method WalkEntry(w: Word, addend: int, ghost from: multiset<nat>, ghost all: multiset<nat>, ghost rest: multiset<nat>)
      returns (flagged: Word)
      requires w != ZERO && w.cluster != 0 && addend in {-1, 0, 1} && Room(addend, from, all)
      requires Moved(addend, from, refcount, all, multiset{w.cluster} + rest)
      modifies this`refcount, this`freeClusterIndex
      ensures Moved(addend, from, refcount, all, rest)
      ensures SameEntry(w, flagged) && FlagDone(addend, refcount, flagged)
      ensures addend == 0 ==> refcount == old(refcount)
    {
      hide Moved, Room;
      MovedStep(addend, from, refcount, all, w.cluster, rest);
      var count: int;
      if addend != 0 {
        count := UpdateClusterRefcount(w.cluster, addend);
      } else {
        count := GetRefcount(w.cluster);
        assert refcount == refcount[w.cluster := refcount[w.cluster] + 0];
      }
      flagged := Flagged(w, count);
    }

    /** Moves the references of one L2 table. */
    method WalkTable(l2: nat, addend: int, ghost from: multiset<nat>, ghost all: multiset<nat>, ghost rest: multiset<nat>)
      requires addend in {-1, 0, 1} && Room(addend, from, all)
      requires 0 !in EntryRefs(Read(file, l2), 0)
      requires Moved(addend, from, refcount, all, EntryRefs(Read(file, l2), 0) + rest)
      modifies this`refcount, this`freeClusterIndex, this`file
      ensures Moved(addend, from, refcount, all, rest)
      ensures SameTable(Read(old(file), l2), Read(file, l2))
      ensures FlagsDone(addend, refcount, Read(file, l2), L2_SIZE)
      ensures forall x: nat :: x != l2 ==> Read(file, x) == Read(old(file), x)
      ensures addend == 0 ==> refcount == old(refcount)
    {
      hide Moved, Room, EntryRefs, Read, FlagDone, SameEntry;
      var u := Read(file, l2);
      var v := u;
      var modified := false;
      forall j | 0 <= j < L2_SIZE ensures SameEntry(u[j], v[j]) { SameEntrySelf(u[j]); }
      for j := 0 to L2_SIZE
        invariant |v| == L2_SIZE && file == old(file)
        invariant Moved(addend, from, refcount, all, EntryRefs(u, j) + rest)
        invariant SameTable(u, v) && v[j..] == u[j..]
        invariant FlagsDone(addend, refcount, v, j)
        invariant !modified ==> v == u
        invariant addend == 0 ==> refcount == old(refcount)
      {
        TableStep(u, j, rest);
        assert v[j] == u[j];
        ghost var before := refcount;
        if u[j] != ZERO {
          EntryRefsMember(u, 0, j);
          var w := WalkEntry(u[j], addend, from, all, EntryRefs(u, j + 1) + rest);
          FlagsKept(addend, before, refcount, v, j);
          if w != u[j] {
            v := v[j := w];
            modified := true;
          }
        } else {
          FlagZero(addend, refcount, u[j]);
        }
      }
      EntryRefsZeros(u, L2_SIZE);
      assert EntryRefs(u, L2_SIZE) + rest == rest;
      ReadPutAll(file, l2, v);
      if modified { file := file[l2 := v]; }
    }

    /** Entry i of an L1 table under way: its L2 table, then the entry itself. */
    method WalkPath(i: nat, addend: int, ghost c: nat, ghost start: File, ghost t: seq<Word>, u: seq<Word>,
                    ghost from: multiset<nat>, ghost all: multiset<nat>) returns (v: seq<Word>)
      requires addend in {-1, 0, 1} && Room(addend, from, all)
      requires i < |t| && Walkable(start, c, t) && OnTheWay(start, file, t, u) && u[i] == t[i]
      requires Moved(addend, from, refcount, all, EntryRefs(t, i) + DataRefs(start, t, i))
      requires FlagsDone(addend, refcount, u, i) && TablesDone(addend, refcount, file, u, i)
      modifies this`refcount, this`freeClusterIndex, this`file
      ensures OnTheWay(start, file, t, v) && v[i + 1..] == u[i + 1..]
      ensures Moved(addend, from, refcount, all, EntryRefs(t, i + 1) + DataRefs(start, t, i + 1))
      ensures FlagsDone(addend, refcount, v, i + 1) && TablesDone(addend, refcount, file, v, i + 1)
    {
      hide Moved, Room, EntryRefs, DataRefs, Read, FlagDone, Walkable, OnTheWay, TablesDone, SameTable;
      assert |u| == |t| by { OnTheWaySize(start, file, t, u); }
      RestStep(start, t, i);
      if u[i] == ZERO {
        FlagZero(addend, refcount, u[i]);
        TablesSkip(addend, refcount, file, u, i);
        return u;
      }
      ghost var rest := EntryRefs(t, i + 1) + DataRefs(start, t, i + 1);
      ghost var before, counts := file, refcount;
      TableOnTheWay(start, file, c, t, u, i);
      WalkTable(u[i].cluster, addend, from, all, multiset{u[i].cluster} + rest);
      TablesKept(addend, counts, refcount, before, file, u, i);
      FlagsKept(addend, counts, refcount, u, i);
      counts := refcount;
      var w := WalkEntry(u[i], addend, from, all, rest);
      OnTheWayStep(start, before, file, t, u, i, w);
      TablesWithEntry(addend, counts, file, u, i, w);
      TablesRecount(addend, counts, refcount, file, u[i := w], i + 1);
      FlagsKept(addend, counts, refcount, u, i);
      v := u[i := w];
    }

    /** Moves all references made through one L1 table, recomputing the COPIED flags on the way. */
    method WalkRoot(c: nat, t: seq<Word>, addend: int) returns (u: seq<Word>)
      requires addend in {-1, 0, 1} && Walkable(file, c, t)
      requires Room(addend, refcount, EntryRefs(t, 0) + DataRefs(file, t, 0))
      modifies this`refcount, this`freeClusterIndex, this`file
      ensures OnTheWay(old(file), file, t, u) && |u| == |t|
      ensures Moved(addend, old(refcount), refcount, EntryRefs(t, 0) + DataRefs(old(file), t, 0), multiset{})
      ensures FlagsDone(addend, refcount, u, |u|) && TablesDone(addend, refcount, file, u, |u|)
    {
      hide Moved, Room, EntryRefs, DataRefs, Read, FlagDone, Walkable, OnTheWay, SameTable;
      ghost var all := EntryRefs(t, 0) + DataRefs(file, t, 0);
      u := t;
      OnTheWayStart(file, t);
      MovedStart(addend, refcount, all);
      for i := 0 to |t|
        invariant |u| == |t| && OnTheWay(old(file), file, t, u) && u[i..] == t[i..]
        invariant Moved(addend, old(refcount), refcount, all, EntryRefs(t, i) + DataRefs(old(file), t, i))
        invariant FlagsDone(addend, refcount, u, i) && TablesDone(addend, refcount, file, u, i)
      {
        assert u[i] == t[i];
        ghost var rest := u[i + 1..];
        u := WalkPath(i, addend, c, old(file), t, u, old(refcount), all);
        OnTheWaySize(old(file), file, t, u);
      }
      EntryRefsZeros(t, |t|);
      DataRefsZeros(old(file), t, |t|);
      assert EntryRefs(t, |t|) + DataRefs(old(file), t, |t|) == multiset{};
    }

    /** Adds addend to the count of everything reachable from an L1 table of n entries at cluster c,
        and brings the COPIED flags in its tables up to date. */
    method UpdateSnapshotRefcount(c: nat, n: nat, addend: int)
      requires addend in {-1, 0, 1}
      requires c == l1Cluster ==> n == |l1Table| && l1Table == ReadTable(file, c, n)
      requires Walkable(file, c, ReadTable(file, c, n))
      requires Room(addend, refcount, RootRefs(file, ReadTable(file, c, n)))
      modifies this`file, this`refcount, this`freeClusterIndex, this`l1Table,
               this`l2Cache, this`l2CacheOffsets, this`l2CacheCounts
      ensures Walked(addend, old(file), file, old(refcount), refcount, c, ReadTable(old(file), c, n), ReadTable(file, c, n))
      ensures l1Table == if c == l1Cluster then ReadTable(file, c, n) else old(l1Table)
      ensures forall f: File, l2s: multiset<nat> :: CacheSound(f, Cache(l2CacheOffsets, l2Cache, l2CacheCounts), l2s)
    {
      hide Moved, Room, EntryRefs, DataRefs, Read, Walkable, OnTheWay, TablesDone, FlagsDone, Walked, CacheSound, WriteTable,
           Clusters, ReadTable;
      ghost var start, counts := file, refcount;
      L2CacheReset();
      var t := if c != l1Cluster then ReadTable(file, c, n) else l1Table;
      var u := WalkRoot(c, t, addend);
      ghost var middle := file;
      WalkedFile(addend, start, middle, counts, refcount, c, t, u);
      if u != t { file := WriteTable(file, c, u); }
      if c == l1Cluster { l1Table := u; }
    }

    /** Writes a new snapshot table and gives the old one back. */
    method WriteSnapshots()
      requires Valid()
      modifies this`refcount, this`freeClusterIndex, this`snapshotsCluster, this`snapshotsSize
      ensures Valid()
      ensures exists at: seq<nat> :: HeadersAt(at, snapshots, snapshotsSize)
    {
      hide SoundCore, Run, SnapRuns, ByteClusters, SnapshotsBytes, SmallCounts, Clusters, Bumped, HeaderCovers, L1Room;
      var size := SnapshotsBytes(snapshots);
      ghost var at := HeadersFit(snapshots);
      var n := ByteClusters(size);
      ghost var before := Core();
      ghost var gone := Run(snapshotsCluster, ByteClusters(snapshotsSize));
      ghost var runs, l1 := SnapRuns(snapshots, 0), L1Run();
      assert SoundCore(before, meta + leaked + gone + runs + multiset{} + l1);
      TablesFixed();
      var c := AllocClusters(n);
      TableMoves(before, meta + leaked, gone, runs, l1, c, n);
      ghost var after := before.(rc := before.rc + Run(c, n) - gone);
      assert gone <= refcount;
      GiveBack(snapshotsCluster, ByteClusters(snapshotsSize));
      snapshotsCluster := c;
      snapshotsSize := size;
      assert refcount == after.rc;
      assert Core() == before.(rc := refcount);
      assert Metadata() + multiset{} + L1Run() == meta + leaked + Run(c, n) + runs + multiset{} + l1;
    }

    function FindSnapshotById(id: string): int
      reads this`snapshots
    {
      FindId(snapshots, id, 0)
    }

    /** Counts everything the active disk reaches once more and stores its L1 table for a snapshot. */
    method StoreSnapshot(id: string, name: string) returns (sn: Snapshot)
      requires Valid() && |snapshots| + 1 < MAX_REFCOUNT
      modifies this`file, this`refcount, this`freeClusterIndex, this`l1Table, this`l2Cache, this`l2CacheOffsets,
               this`l2CacheCounts
      ensures sn.id == id && sn.name == name && sn.size == |l1Table| == |old(l1Table)|
      ensures Headed() && Spans(l1Table) == Spans(old(l1Table))
      ensures SoundCore(Core().(snaps := snapshots + [sn]), Metadata() + Run(sn.cluster, Clusters(sn.size)) + L1Run())
      ensures View(medium, file, l1Table) == old(View(medium, file, l1Table)) && Cells(file, l1Table) == old(Cells(file, l1Table))
      ensures SameSnapViews(medium, old(file), file, snapshots) && SnapTable(file, sn) == l1Table
    {
      hide SoundCore, Run, SnapRuns, Walked, Read, Clusters, ReadTable, View, SameSnapViews, WriteTable, RootRefs,
           EntryRefs, DataRefs, Walkable, Room, CacheSound, Spans, HeaderCovers, SnapTable, Cells;
      ghost var before := Core();
      ghost var base := Metadata();
      assert Metadata() + multiset{} + L1Run() == Metadata() + L1Run();
      ActiveReady(before, base + L1Run(), 1);
      UpdateSnapshotRefcount(l1Cluster, |l1Table|, 1);
      ghost var file1, rc1 := file, refcount;
      WalkedSpans(1, before.file, file, before.rc, refcount, l1Cluster, before.l1, l1Table, stale);
      var c := AllocClusters(Clusters(|l1Table|));
      sn := Snapshot(c, |l1Table|, id, name);
      file := WriteTable(file, c, l1Table);
      ghost var k := Cache(l2CacheOffsets, l2Cache, l2CacheCounts);
      TablesWithin(base, SnapRuns(snapshots, 0), L1Run());
      TakeSound(medium, before, base, file1, rc1, l1Table, sn, k);
      assert Core().(snaps := snapshots + [sn]) == WithSnapshot(before, file1, rc1, l1Table, sn, k);
    }

    /** Takes a snapshot of the active disk; -2 when the id is in use. */
    method SnapshotCreate(id: string, name: string) returns (r: int)
      requires Valid() && (FindId(snapshots, id, 0) < 0 ==> |snapshots| + 1 < MAX_REFCOUNT)
      modifies this`file, this`refcount, this`freeClusterIndex, this`l1Table, this`l2Cache, this`l2CacheOffsets,
               this`l2CacheCounts, this`snapshots, this`snapshotsCluster, this`snapshotsSize
      ensures Valid()
      ensures View(medium, file, l1Table) == old(View(medium, file, l1Table)) && Cells(file, l1Table) == old(Cells(file, l1Table))
      ensures SameSnapViews(medium, old(file), file, old(snapshots))
      ensures r == 0 || r == -2
      ensures |l1Table| == |old(l1Table)| && Spans(l1Table) == Spans(old(l1Table))
      ensures r == 0 <==> forall k :: 0 <= k < |old(snapshots)| ==> old(snapshots)[k].id != id
      ensures r == -2 ==> snapshots == old(snapshots)
      ensures r == 0 ==>
        && |snapshots| == |old(snapshots)| + 1 && snapshots[..|old(snapshots)|] == old(snapshots)
        && var sn := snapshots[|old(snapshots)|];
           sn.id == id && sn.name == name && sn.size == |l1Table|
           && View(medium, file, SnapTable(file, sn)) == old(View(medium, file, l1Table))
           && Cells(file, SnapTable(file, sn)) == old(Cells(file, l1Table))
           && Spans(SnapTable(file, sn)) == Spans(l1Table)
    {
      hide SoundCore, Run, SnapRuns, View, SameSnapViews, SnapTable, Clusters, Spans, HeaderCovers, ByteClusters, FindId, Cells, HeadersAt;
      SameSnapsSelf(medium, file, snapshots);
      if FindSnapshotById(id) >= 0 { return -2; }
      var sn := StoreSnapshot(id, name);
      ghost var base := Metadata() + Run(sn.cluster, Clusters(sn.size)) + L1Run();
      SnapRunAppend(snapshots, sn, 0);
      snapshots := snapshots + [sn];
      assert Metadata() + multiset{} + L1Run() == base;
      WriteSnapshots();
      return 0;
    }

    /** Takes the references of snapshot k out of the counts and recomputes the active disk's flags. */
    method ReleaseSnapshot(k: nat)
      requires Valid() && k < |snapshots|
      modifies this`file, this`refcount, this`freeClusterIndex, this`l1Table, this`l2Cache, this`l2CacheOffsets,
               this`l2CacheCounts
      ensures |l1Table| == |old(l1Table)| && Headed() && Spans(l1Table) == Spans(old(l1Table))
      ensures SoundCore(Core().(snaps := Without(snapshots, k)), Metadata() + L1Run())
      ensures View(medium, file, l1Table) == old(View(medium, file, l1Table)) && Cells(file, l1Table) == old(Cells(file, l1Table))
      ensures SameSnapViews(medium, old(file), file, Without(snapshots, k))
    {
      hide SoundCore, Run, SnapRuns, Walked, Read, Clusters, ReadTable, View, SameSnapViews, RootRefs, EntryRefs, DataRefs,
           Walkable, Room, CacheSound, Without, Consistent;
      ghost var before := Core();
      ghost var fixed := Metadata() + L1Run();
      assert Metadata() + multiset{} + L1Run() == fixed;
      SnapshotReady(before, fixed, k);
      SnapTableIs(file, snapshots[k]);
      UpdateSnapshotRefcount(snapshots[k].cluster, snapshots[k].size, -1);
      SnapTableIs(file, snapshots[k]);
      ghost var file1, rc1 := file, refcount;
      SnapshotReleased(medium, before, fixed, k, file1, rc1);
      L1Within(before, fixed);
      FlagsReady(file1, rc1, fixed, l1Table, Without(snapshots, k), l1Cluster);
      TablePrefix(file1, l1Cluster, |l1Table|, storedSize);
      UpdateSnapshotRefcount(l1Cluster, |l1Table|, 0);
      WalkedSame(file1, file, rc1, refcount, l1Cluster, before.l1, l1Table);
      WalkedSpans(0, file1, file, rc1, refcount, l1Cluster, before.l1, l1Table, stale);
      DropSound(medium, before, fixed, k, file1, rc1, file, l1Table, Cache(l2CacheOffsets, l2Cache, l2CacheCounts));
    }

    /** Gives the clusters of a released snapshot's table back and forgets the snapshot. */
    method ForgetSnapshot(k: nat)
      requires k < |snapshots| && medium.Valid() && 0 in meta && Headed()
      requires SoundCore(Core().(snaps := Without(snapshots, k)), Metadata() + L1Run())
      modifies this`refcount, this`freeClusterIndex, this`snapshots
      ensures Valid() && snapshots == Without(old(snapshots), k)
    {
      hide SoundCore, Run, SnapRuns, Clusters, Without, SmallCounts, ByteClusters;
      var sn := snapshots[k];
      ghost var gone := Run(sn.cluster, Clusters(sn.size));
      ghost var dropped := Core().(snaps := Without(snapshots, k));
      TablesFixed();
      SnapRunRemove(file, snapshots, k, 0);
      TableGone(dropped, meta + leaked + Run(snapshotsCluster, ByteClusters(snapshotsSize)), SnapRuns(Without(snapshots, k), 0),
                L1Run(), gone);
      GiveBack(sn.cluster, Clusters(sn.size));
      snapshots := Without(snapshots, k);
    }

    /** Deletes the snapshot with the given id or name; -2 when there is none. */
    method SnapshotDelete(key: string) returns (r: int)
      requires Valid()
      modifies this`file, this`refcount, this`freeClusterIndex, this`l1Table, this`l2Cache, this`l2CacheOffsets,
               this`l2CacheCounts, this`snapshots, this`snapshotsCluster, this`snapshotsSize
      ensures Valid() && |l1Table| == |old(l1Table)| && Spans(l1Table) == Spans(old(l1Table))
      ensures View(medium, file, l1Table) == old(View(medium, file, l1Table)) && Cells(file, l1Table) == old(Cells(file, l1Table))
      ensures r == 0 <==> exists i :: 0 <= i < |old(snapshots)| && (old(snapshots)[i].id == key || old(snapshots)[i].name == key)
      ensures r == 0 ==> exists k :: FirstMatch(old(snapshots), key, k) && snapshots == old(snapshots)[..k] + old(snapshots)[k + 1..]
      ensures var k := Find(old(snapshots), key);
        if k < 0 then r == -2 && snapshots == old(snapshots) && SameSnapViews(medium, old(file), file, snapshots)
        else r == 0 && snapshots == Without(old(snapshots), k) && SameSnapViews(medium, old(file), file, snapshots)
    {
      hide SoundCore, Run, SnapRuns, View, SameSnapViews, Clusters, Find, SmallCounts, HeaderCovers, Spans, FirstMatch;
      var k := Find(snapshots, key);
      if k < 0 {
        SameSnapsSelf(medium, file, snapshots);
        return -2;
      }
      ReleaseSnapshot(k);
      ForgetSnapshot(k);
      WriteSnapshots();
      return 0;
    }

    /** Between two disks: only snapshots are counted, the clusters of the active L1 table are kept. */
    ghost predicate IdleNow()
      reads this
    {
      && medium.Valid() && 0 in meta
      && |l1Table| >= 1 && Headed()
      && Idle(file, refcount, Metadata() + L1Run(), snapshots, l1Cluster, Clusters(storedSize))
      && ReadTable(file, l1Cluster, storedSize) == l1Table + stale
    }

    method LetGo()
      requires Valid()
      modifies this`file, this`refcount, this`freeClusterIndex, this`l1Table, this`l2Cache, this`l2CacheOffsets,
               this`l2CacheCounts
      ensures IdleNow() && |l1Table| == |old(l1Table)| && Spans(l1Table + stale) == Spans(old(l1Table + stale))
      ensures SameSnapViews(medium, old(file), file, snapshots) && SameTables(old(file), file, snapshots)
    {
      hide SoundCore, Run, SnapRuns, Walked, Read, Clusters, ReadTable, View, SameSnapViews, RootRefs, EntryRefs, DataRefs,
           Walkable, Room, CacheSound, Idle, SameTables;
      ghost var before := Core();
      ghost var fixed := Metadata() + L1Run();
      assert Metadata() + multiset{} + L1Run() == fixed;
      DownReady(before, fixed);
      UpdateSnapshotRefcount(l1Cluster, |l1Table|, -1);
      ActiveReleased(medium, before, fixed, file, refcount, l1Table);
    }

    method GrowIdle(minSize: nat)
      requires IdleNow()
      modifies this`file, this`refcount, this`freeClusterIndex, this`l1Table, this`l1Cluster, this`storedSize, this`stale
      ensures IdleNow() && |l1Table| == GrownTo(|old(l1Table)|, minSize) && |l1Table| >= minSize
      ensures minSize <= |old(l1Table)| ==> l1Table == old(l1Table) && stale == old(stale) && storedSize == old(storedSize)
      ensures minSize > |old(l1Table)| ==> storedSize == |l1Table| && Spans(l1Table + stale) == Spans(old(l1Table))
      ensures SameSnapViews(medium, old(file), file, snapshots) && SameTables(old(file), file, snapshots)
    {
      hide Run, SnapRuns, Read, Clusters, ReadTable, View, SameSnapViews, Idle, WriteTable, SmallCounts, SnapTable, GrownTo, Zeros, Spans, Unused;
      ghost var t, file0, rc0, c0, n0 := l1Table, file, refcount, l1Cluster, Clusters(|l1Table|);
      SameSnapsSelf(medium, file, snapshots);
      ClustersMonotone(|l1Table|, storedSize);
      IdleNarrow(file, refcount, Metadata() + L1Run(), snapshots, l1Cluster, n0, Clusters(storedSize));
      IdleRoom(file, refcount, Metadata() + L1Run(), snapshots, l1Cluster, n0);
      GrowL1Table(minSize);
      if minSize > |t| {
        IdleGrown(medium, file0, rc0, Metadata(), snapshots, c0, n0, l1Table, l1Cluster);
        ReadWriteTable(file0, l1Cluster, l1Table);
        NothingBehind(l1Cluster, |l1Table|, leaked);
        SpansGrown(t, |l1Table| - |t|);
        assert l1Table + stale == l1Table;
      }
    }

    /** The L1 table of snapshot k is copied over the active one, and its references are counted. */
    method Adopt(k: nat)
      requires IdleNow() && k < |snapshots| && snapshots[k].size <= |l1Table|
      modifies this`file, this`refcount, this`freeClusterIndex, this`l1Table, this`l2Cache, this`l2CacheOffsets,
               this`l2CacheCounts, this`leaked, this`stale
      ensures Valid()
      ensures leaked == old(leaked) + Unused(l1Cluster, Clusters(|old(l1Table)|), Clusters(snapshots[k].size))
      ensures |l1Table| == snapshots[k].size && Spans(l1Table) == Spans(SnapTable(old(file), snapshots[k]))
      ensures stale == (old(l1Table) + old(stale))[snapshots[k].size..]
      ensures View(medium, file, l1Table) == View(medium, old(file), SnapTable(old(file), snapshots[k]))
      ensures Cells(file, l1Table) == Cells(old(file), SnapTable(old(file), snapshots[k]))
      ensures SameSnapViews(medium, old(file), file, snapshots)
    {
      hide SoundCore, Run, SnapRuns, Walked, Read, Clusters, ReadTable, View, SameSnapViews, RootRefs, EntryRefs, DataRefs,
           Walkable, Room, CacheSound, Idle, SameTables, WriteTable, SnapTable, Unused, Spans, Cells;
      var sn := snapshots[k];
      ghost var file0, rc0, n, all := file, refcount, Clusters(|l1Table|), Clusters(storedSize);
      ghost var behind := (l1Table + stale)[sn.size..];
      assert |behind| == storedSize - sn.size;
      ghost var fixed := Metadata() + L1Run();
      ClustersMonotone(sn.size, |l1Table|);
      ClustersMonotone(|l1Table|, storedSize);
      SnapTableIs(file, sn);
      IdleCopied(medium, file, refcount, fixed, snapshots, l1Cluster, all, k);
      l1Table := ReadTable(file, sn.cluster, sn.size);
      file := WriteTable(file, l1Cluster, l1Table);
      ghost var file1 := file;
      SameTableAt(file0, file1, snapshots, k);
      SnapViewAt(medium, file0, file1, snapshots, k);
      UpdateSnapshotRefcount(l1Cluster, sn.size, 1);
      Adopted(medium, file1, rc0, fixed, snapshots, l1Cluster, all, k, file, refcount, l1Table,
              Cache(l2CacheOffsets, l2Cache, l2CacheCounts), behind);
      stale := behind;
      leaked := leaked + Unused(l1Cluster, n, Clusters(sn.size));
      UnusedTwice(l1Cluster, all, n, Clusters(sn.size));
      UnusedSplit(l1Cluster, n, Clusters(sn.size));
      assert Metadata() + multiset{} + L1Run() == fixed;
      SameSnapsStep(medium, file0, file1, file, snapshots);
    }

    /** The old disk is let go, and the L1 table made long enough for that of snapshot k. */
    method MakeRoom(k: nat)
      requires Valid() && k < |snapshots|
      modifies this`file, this`refcount, this`freeClusterIndex, this`l1Table, this`l1Cluster, this`storedSize, this`stale,
               this`l2Cache, this`l2CacheOffsets, this`l2CacheCounts
      ensures IdleNow() && |old(l1Table)| >= 1
      ensures |l1Table| == GrownTo(|old(l1Table)|, snapshots[k].size) >= snapshots[k].size
      ensures storedSize == StoredAfter(|old(l1Table)|, old(storedSize), snapshots[k].size)
      ensures StaysInFile(Spans(l1Table + stale), Spans(old(l1Table + stale)), |old(l1Table)|, snapshots[k].size)
      ensures SameSnapViews(medium, old(file), file, snapshots)
    {
      hide SoundCore, Run, SnapRuns, View, SameSnapViews, Clusters, Idle, SameTables, SnapTable, Unused, Read, ReadTable, GrownTo, Spans,
           HeaderCovers;
      ghost var file0 := file;
      LetGo();
      ghost var file1, t := file, l1Table;
      GrowIdle(snapshots[k].size);
      SameSnapsStep(medium, file0, file1, file, snapshots);
      SpansWithin(t);
    }

    /** Makes snapshot k the active disk. */
    method Switch(k: nat)
      requires Valid() && k < |snapshots|
      modifies this`file, this`refcount, this`freeClusterIndex, this`l1Table, this`l1Cluster, this`storedSize, this`stale,
               this`l2Cache, this`l2CacheOffsets, this`l2CacheCounts, this`leaked
      ensures Valid()
      ensures SameSnapViews(medium, old(file), file, snapshots)
      ensures View(medium, file, l1Table) == View(medium, old(file), SnapTable(old(file), snapshots[k]))
      ensures Cells(file, l1Table) == Cells(old(file), SnapTable(old(file), snapshots[k]))
      ensures leaked == old(leaked) + Unused(l1Cluster, Clusters(GrownTo(|old(l1Table)|, snapshots[k].size)), Clusters(snapshots[k].size))
      ensures old(leaked) <= leaked && (leaked == old(leaked) <==> NoWaste(|old(l1Table)|, snapshots[k].size))
      ensures |l1Table| == snapshots[k].size && Spans(l1Table) == Spans(SnapTable(old(file), snapshots[k]))
      ensures storedSize == StoredAfter(|old(l1Table)|, old(storedSize), snapshots[k].size)
      ensures Spans(l1Table + stale)
           == SpansSwitched(Spans(SnapTable(old(file), snapshots[k])), Spans(old(l1Table + stale)), |old(l1Table)|, snapshots[k].size)
    {
      hide SoundCore, Run, SnapRuns, View, SameSnapViews, Clusters, Idle, SnapTable, Unused, Read, ReadTable, GrownTo, Spans, HeaderCovers,
           SpansSwitched, StaysInFile, StoredAfter;
      ghost var file0 := file;
      MakeRoom(k);
      ghost var file2, all := file, l1Table + stale;
      SnapViewAt(medium, file0, file2, snapshots, k);
      ClustersMonotone(snapshots[k].size, |l1Table|);
      NothingUnused(l1Cluster, Clusters(|l1Table|), Clusters(snapshots[k].size));
      Adopt(k);
      SwitchedSpans(l1Table, all, Spans(old(l1Table + stale)), |old(l1Table)|, snapshots[k].size);
      SameSnapsStep(medium, file0, file2, file, snapshots);
    }

    /** Makes the snapshot with the given id or name the active disk; -2 when there is none. */
    method SnapshotGoto(key: string) returns (r: int)
      requires Valid()
      modifies this`file, this`refcount, this`freeClusterIndex, this`l1Table, this`l1Cluster, this`storedSize, this`stale,
               this`l2Cache, this`l2CacheOffsets, this`l2CacheCounts, this`leaked
      ensures Valid()
      ensures SameSnapViews(medium, old(file), file, snapshots)
      ensures r == 0 <==> exists i :: 0 <= i < |snapshots| && (snapshots[i].id == key || snapshots[i].name == key)
      ensures r == 0 ==>
        exists k :: FirstMatch(snapshots, key, k) && View(medium, file, l1Table) == View(medium, old(file), SnapTable(old(file), snapshots[k]))
      ensures var k := Find(snapshots, key);
        if k < 0 then r == -2 && leaked == old(leaked) && View(medium, file, l1Table) == old(View(medium, file, l1Table))
        else r == 0 && View(medium, file, l1Table) == View(medium, old(file), SnapTable(old(file), snapshots[k]))
      ensures var k := Find(snapshots, key); k >= 0 ==>
        leaked == old(leaked) + Unused(l1Cluster, Clusters(GrownTo(|old(l1Table)|, snapshots[k].size)), Clusters(snapshots[k].size))
      ensures old(leaked) <= leaked
      ensures leaked == old(leaked) <==>
        (Find(snapshots, key) >= 0 ==> NoWaste(|old(l1Table)|, snapshots[Find(snapshots, key)].size))
      ensures |l1Table| == if Find(snapshots, key) < 0 then |old(l1Table)| else snapshots[Find(snapshots, key)].size
      ensures Find(snapshots, key) < 0 ==> file == old(file) && l1Table == old(l1Table) && stale == old(stale) && storedSize == old(storedSize)
      ensures var k := Find(snapshots, key); k >= 0 ==>
        && storedSize == StoredAfter(|old(l1Table)|, old(storedSize), snapshots[k].size)
        && Spans(l1Table) == Spans(SnapTable(old(file), snapshots[k]))
        && Cells(file, l1Table) == Cells(old(file), SnapTable(old(file), snapshots[k]))
        && Spans(l1Table + stale)
           == SpansSwitched(Spans(SnapTable(old(file), snapshots[k])), Spans(old(l1Table + stale)), |old(l1Table)|, snapshots[k].size)
    {
      hide SoundCore, Run, SnapRuns, View, SameSnapViews, Clusters, Find, SnapTable, Unused, Read, ReadTable, GrownTo, Spans, HeaderCovers,
           SpansSwitched, NoWaste, StoredAfter, FirstMatch;
      var k := Find(snapshots, key);
      SameSnapsSelf(medium, file, snapshots);
      if k < 0 { return -2; }
      AnyTable();
      Switch(k);
      return 0;
    }
  }
}
