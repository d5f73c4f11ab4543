/** The state of an open image as one value, its invariant, and what each elementary change keeps. */
module State {
  import opened Layout
  import opened Counting
  import opened Forest
  import opened Guest
  import opened Steps

  const L2_CACHE_SIZE := 16
  const MAX_REFCOUNT := 0xffff
  const MAX_HITS := 0xffff_ffff

  ghost predicate SmallCounts(rc: multiset<nat>) {
    forall x: nat :: rc[x] <= MAX_REFCOUNT
  }

  lemma SmallAfterAlloc(rc: multiset<nat>, c: nat, n: nat)
    requires SmallCounts(rc) && forall x: nat :: c <= x < c + n ==> rc[x] == 0
    ensures SmallCounts(rc + Run(c, n))
    ensures forall gone: multiset<nat> :: gone <= rc ==> gone <= rc + Run(c, n)
  {
    RunCounts(c, n);
  }

  /** The sixteen slots of the L2 cache: cluster (0 when unused), table and hit count of each. */
  datatype Cache = Cache(offsets: seq<nat>, tables: seq<Cluster>, counts: seq<nat>)

  /** The entries in stale lie behind the active L1 table: the file still has them, up to the size its header states. */
  datatype Core = Core(file: File, rc: multiset<nat>, l1: seq<Word>, l1Cluster: nat, snaps: seq<Snapshot>, cache: Cache,
                       stale: seq<Word>)

  /** The entries of the L1 table according to the header in the file. */
  function StoredSize(s: Core): nat { |s.l1| + |s.stale| }

  /** The clusters they take. */
  ghost function L1Room(s: Core): multiset<nat> { Run(s.l1Cluster, Clusters(StoredSize(s))) }

  /** Used slots hold the table that is in the file, and belong to different L2 tables in use. */
  ghost predicate CacheSound(file: File, k: Cache, l2s: multiset<nat>) {
    && |k.offsets| == |k.tables| == |k.counts| == L2_CACHE_SIZE
    && (forall i :: 0 <= i < L2_CACHE_SIZE ==> k.counts[i] < MAX_HITS)
    && (forall i :: 0 <= i < L2_CACHE_SIZE && k.offsets[i] != 0 ==> k.tables[i] == Read(file, k.offsets[i]))
    && (forall i :: 0 <= i < L2_CACHE_SIZE && k.offsets[i] != 0 ==> k.offsets[i] in l2s)
    && forall i, j :: 0 <= i < j < L2_CACHE_SIZE && k.offsets[i] != 0 ==> k.offsets[i] != k.offsets[j]
  }

  /** The L2 tables in use. */
  ghost function L2s(s: Core): multiset<nat> {
    EntryRefs(s.l1, 0) + SnapL2(s.file, s.snaps, 0)
  }

  predicate NoEmptyTable(snaps: seq<Snapshot>) {
    forall k :: 0 <= k < |snaps| ==> snaps[k].size >= 1
  }

  ghost predicate SoundCore(s: Core, fixed: multiset<nat>) {
    && |s.l1| >= 1
    && |s.snaps| < MAX_REFCOUNT && NoEmptyTable(s.snaps)
    && L1Room(s) + SnapRuns(s.snaps, 0) <= fixed
    && Consistent(s.file, s.rc, fixed, s.l1, s.snaps)
    && FlagRoot(s.file, s.rc, s.l1)
    && ReadTable(s.file, s.l1Cluster, StoredSize(s)) == s.l1 + s.stale
    && CacheSound(s.file, s.cache, L2s(s))
  }

  lemma TableSize(s: Core, fixed: multiset<nat>)
    requires SoundCore(s, fixed)
    ensures |s.l1| >= 1
  {
  }

  /** The active disk and every snapshot show the same data in both states. */
  ghost predicate SameGuest(m: Medium, s: Core, r: Core) {
    && s.snaps == r.snaps
    && View(m, s.file, s.l1) == View(m, r.file, r.l1)
    && Cells(s.file, s.l1) == Cells(r.file, r.l1)
    && SameSnapViews(m, s.file, r.file, s.snaps)
  }

  lemma CacheFrame(file: File, other: File, k: Cache, l2s: multiset<nat>)
    requires CacheSound(file, k, l2s)
    requires forall c: nat :: c in l2s ==> Read(file, c) == Read(other, c)
    ensures CacheSound(other, k, l2s)
  {
    hide Read;
  }

  /** Clusters of the active L1 table are fixed and no snapshot's. */
  lemma L1RunApart(s: Core, fixed: multiset<nat>, c: nat)
    requires SoundCore(s, fixed)
    requires s.l1Cluster <= c < s.l1Cluster + Clusters(StoredSize(s))
    ensures c in fixed && c !in SnapRuns(s.snaps, 0) && !Named(s.file, s.l1, s.snaps, c)
    ensures s.rc[c] == 1
  {
    hide EntryRefs, DataRefs, SnapL2, SnapData, SnapRuns, ReadTable, Read, Clusters;
    RunCounts(s.l1Cluster, Clusters(StoredSize(s)));
    CountAt(s.file, s.rc, fixed, s.l1, s.snaps, c);
    assert (L1Room(s) + SnapRuns(s.snaps, 0))[c] <= fixed[c];
  }

  /** The clusters of the active table come first. */
  lemma L1Prefix(s: Core)
    ensures Run(s.l1Cluster, Clusters(|s.l1|)) <= L1Room(s)
  {
    ClustersMonotone(|s.l1|, StoredSize(s));
    RunCounts(s.l1Cluster, Clusters(|s.l1|));
    RunCounts(s.l1Cluster, Clusters(StoredSize(s)));
  }

  lemma {:induction false} TablePrefix(file: File, c: nat, n: nat, m: nat)
    requires n <= m
    ensures ReadTable(file, c, n) == ReadTable(file, c, m)[..n]
    decreases n
  {
    hide Read;
    if n > L2_SIZE { TablePrefix(file, c + 1, n - L2_SIZE, m - L2_SIZE); }
  }

  /** The active table is that of the file. */
  lemma L1Stored(s: Core, fixed: multiset<nat>)
    requires SoundCore(s, fixed)
    ensures ReadTable(s.file, s.l1Cluster, |s.l1|) == s.l1
  {
    hide ReadTable, SnapRuns, Consistent, FlagRoot, CacheSound;
    TablePrefix(s.file, s.l1Cluster, |s.l1|, StoredSize(s));
  }

  // ---------------------------------------------------------------------------------------

  function Zeros(n: nat): (t: seq<Word>)
    ensures |t| == n
  {
    seq(n, _ => ZERO)
  }

  /** The active L1 table moved to the clusters from c on, with n more entries. */
  ghost function Grown(s: Core, n: nat, c: nat): Core {
    var t := s.l1 + Zeros(n);
    s.(file := WriteTable(s.file, c, t), l1 := t, l1Cluster := c, stale := [],
       rc := s.rc + Run(c, Clusters(|t|)) - Run(s.l1Cluster, Clusters(|s.l1|)))
  }

  lemma GrownSound(m: Medium, s: Core, base: multiset<nat>, n: nat, c: nat)
    requires SoundCore(s, base + Run(s.l1Cluster, Clusters(|s.l1|)))
    requires 0 in base && SnapRuns(s.snaps, 0) <= base
    requires forall x: nat :: c <= x < c + Clusters(|s.l1| + n) ==> s.rc[x] == 0
    ensures SoundCore(Grown(s, n, c), base + Run(c, Clusters(|s.l1| + n)))
    ensures SameGuest(m, s, Grown(s, n, c))
  {
    hide EntryRefs, DataRefs, SnapL2, SnapData, SnapRuns, ReadTable, Read, Clusters, WriteTable, Ledger, RootOk, SnapsOk,
         FlagRoot, CacheSound, View, Cells, SameSnapViews, AlikeRoot, AlikeSnaps;
    var z := Zeros(n);
    var t := s.l1 + z;
    var r := Grown(s, n, c);
    var gone := Run(s.l1Cluster, Clusters(|s.l1|));
    forall x: nat | x < c || c + Clusters(|t|) <= x ensures Read(s.file, x) == Read(r.file, x) {
      WriteTableFrame(s.file, c, t, x);
    }
    RelocateKeeps(s.file, r.file, s.rc, base, gone, s.l1, s.snaps, c, Clusters(|t|));
    ZerosKeep(r.file, r.rc, base + Run(c, Clusters(|t|)), s.l1, z, s.snaps);
    ReadWriteTable(s.file, c, t);
    AlikeView(m, s.file, s.l1, r.file, s.l1);
    GrownView(m, r.file, s.l1, z);
    AlikeSnapViews(m, s.file, r.file, s.snaps);
    AlikeSnapRefs(s.file, r.file, s.snaps, 0);
    EntryRefsAppendZeros(s.l1, z, 0);
    CacheFrame(s.file, r.file, s.cache, L2s(s));
  }

  // ---------------------------------------------------------------------------------------

  /** The file after entry i of the L1 table at l1 came to name c, a copy of the L2 table behind w. */
  function CopiedL2(file: File, l1: nat, i: nat, w: Word, c: nat): File {
    var between := WriteEntry(file, l1, i, NewEntry(c));
    between[c := TableOf(between, w)]
  }

  /** Entry i of the active L1 table got an L2 table of its own in cluster c, cached in a slot. */
  ghost function Copied(s: Core, i: nat, c: nat, slot: nat): Core
    requires i < |s.l1|
    requires slot < |s.cache.offsets| && slot < |s.cache.tables| && slot < |s.cache.counts|
  {
    var file := CopiedL2(s.file, s.l1Cluster, i, s.l1[i], c);
    s.(file := file, rc := MovedCounts(s.rc, s.l1[i], c), l1 := s.l1[i := NewEntry(c)],
       cache := Cache(s.cache.offsets[slot := c], s.cache.tables[slot := Read(file, c)], s.cache.counts[slot := 1]))
  }

  lemma CopiedFile(s: Core, fixed: multiset<nat>, i: nat, c: nat)
    requires SoundCore(s, fixed) && i < |s.l1| && !s.l1[i].copied && s.rc[c] == 0
    ensures var file := CopiedL2(s.file, s.l1Cluster, i, s.l1[i], c);
            && CowL2Pre(s.file, file, s.rc, fixed, s.l1, s.snaps, i, c)
            && ReadTable(file, s.l1Cluster, StoredSize(s)) == s.l1[i := NewEntry(c)] + s.stale
  {
    hide EntryRefs, DataRefs, SnapL2, SnapData, SnapRuns, ReadTable, Read, Clusters, WriteEntry, Ledger, RootOk, SnapsOk,
         FlagRoot, CacheSound;
    var w := NewEntry(c);
    var n := StoredSize(s);
    var between := WriteEntry(s.file, s.l1Cluster, i, w);
    var file := CopiedL2(s.file, s.l1Cluster, i, s.l1[i], c);
    forall x: nat ensures Read(file, x) == if x == c then TableOf(between, s.l1[i]) else Read(between, x) {
      ReadPut(between, c, TableOf(between, s.l1[i]), x);
    }
    forall x: nat | x in SnapRuns(s.snaps, 0) || x !in fixed ensures Read(s.file, x) == Read(between, x) {
      if s.l1Cluster <= x < s.l1Cluster + Clusters(n) { L1RunApart(s, fixed, x); }
      WriteEntryFrame(s.file, s.l1Cluster, n, i, w, x);
    }
    if s.l1[i] != ZERO {
      EntryRefsMember(s.l1, 0, i);
      CountAt(s.file, s.rc, fixed, s.l1, s.snaps, s.l1[i].cluster);
    }
    ReadWriteEntry(s.file, s.l1Cluster, n, i, w);
    forall x | s.l1Cluster <= x < s.l1Cluster + Clusters(n) ensures Read(between, x) == Read(file, x) {
      L1RunApart(s, fixed, x);
    }
    ReadTableFrame(between, file, s.l1Cluster, n);
    assert (s.l1 + s.stale)[i := w] == s.l1[i := w] + s.stale;
  }

  lemma CopiedCache(s: Core, fixed: multiset<nat>, i: nat, c: nat, slot: nat)
    requires SoundCore(s, fixed) && i < |s.l1| && !s.l1[i].copied && s.rc[c] == 0 && slot < L2_CACHE_SIZE
    ensures var r := Copied(s, i, c, slot); CacheSound(r.file, r.cache, L2s(r))
  {
    hide EntryRefs, DataRefs, SnapL2, SnapData, SnapRuns, ReadTable, Read, Clusters, WriteEntry, Ledger, RootOk, SnapsOk,
         FlagRoot, CowL2Pre, CopiedL2;
    var r := Copied(s, i, c, slot);
    CopiedFile(s, fixed, i, c);
    forall k | 0 <= k < L2_CACHE_SIZE && s.cache.offsets[k] != 0
      ensures s.cache.offsets[k] != c && s.cache.offsets[k] in L2s(r)
      ensures Read(s.file, s.cache.offsets[k]) == Read(r.file, s.cache.offsets[k])
    {
      CowL2Cache(s.file, r.file, s.rc, fixed, s.l1, s.snaps, i, c, s.cache.offsets[k]);
    }
    EntryRefsMember(r.l1, 0, i);
  }

  lemma CopiedSound(m: Medium, s: Core, fixed: multiset<nat>, i: nat, c: nat, slot: nat)
    requires SoundCore(s, fixed) && i < |s.l1| && !s.l1[i].copied && s.rc[c] == 0 && slot < L2_CACHE_SIZE
    ensures SoundCore(Copied(s, i, c, slot), fixed)
    ensures SameGuest(m, s, Copied(s, i, c, slot))
  {
    hide EntryRefs, DataRefs, SnapL2, SnapData, SnapRuns, ReadTable, Read, Clusters, WriteEntry, Ledger, RootOk, SnapsOk,
         FlagRoot, View, Cells, SameSnapViews, AlikeRoot, AlikeSnaps, CopiedL2;
    var r := Copied(s, i, c, slot);
    CopiedFile(s, fixed, i, c);
    CopiedCache(s, fixed, i, c, slot);
    CowL2Frame(s.file, r.file, s.rc, fixed, s.l1, s.snaps, i, c);
    CowL2Keeps(s.file, r.file, s.rc, fixed, s.l1, s.snaps, i, c);
    assert FlagRoot(r.file, r.rc, r.l1) by { CopiedFlags(s, fixed, i, c); }
    CowL2View(m, s.file, r.file, s.l1, s.snaps, i, c);
  }

  lemma CopiedFlags(s: Core, fixed: multiset<nat>, i: nat, c: nat)
    requires SoundCore(s, fixed) && i < |s.l1| && !s.l1[i].copied && s.rc[c] == 0
    ensures FlagRoot(CopiedL2(s.file, s.l1Cluster, i, s.l1[i], c), MovedCounts(s.rc, s.l1[i], c), s.l1[i := NewEntry(c)])
  {
    hide EntryRefs, DataRefs, SnapL2, SnapData, SnapRuns, ReadTable, Read, Clusters, WriteEntry, FlagRoot, CacheSound,
         CopiedL2, SnapsOk, PlainRoot;
    var file := CopiedL2(s.file, s.l1Cluster, i, s.l1[i], c);
    CopiedFile(s, fixed, i, c);
    CowL2Frame(s.file, file, s.rc, fixed, s.l1, s.snaps, i, c);
    forall x | x in EntryRefs(s.l1, 0) ensures x !in DataRefs(s.file, s.l1, 0) {
      CountAt(s.file, s.rc, fixed, s.l1, s.snaps, x);
    }
    CowL2Flags(s.file, file, s.rc, s.l1, i, c);
  }

  lemma Shuffle(a: multiset<nat>, b: multiset<nat>, c: multiset<nat>)
    ensures a + b + c == a + c + b
  {
  }

  lemma SameGuestSelf(m: Medium, s: Core)
    ensures SameGuest(m, s, s)
  {
  }

  lemma SameSnapsTrans(m: Medium, s: Core, r: Core, file: File)
    requires SameGuest(m, s, r) && SameSnapViews(m, r.file, file, r.snaps)
    ensures SameSnapViews(m, s.file, file, s.snaps)
  {
    hide View, Cells, SnapTable;
  }

  lemma SameGuestView(m: Medium, s: Core, r: Core)
    requires SameGuest(m, s, r)
    ensures View(m, r.file, r.l1) == View(m, s.file, s.l1) && Cells(r.file, r.l1) == Cells(s.file, s.l1)
  {
  }

  lemma SameGuestTrans(m: Medium, s: Core, r: Core, q: Core)
    requires SameGuest(m, s, r) && SameGuest(m, r, q)
    ensures SameGuest(m, s, q)
  {
    hide View, Cells, SnapTable;
  }

  /** Counts and cache are invisible to guests. */
  lemma SameGuestCache(m: Medium, s: Core, r: Core, q: Core)
    requires SameGuest(m, s, r) && q == r.(cache := q.cache, rc := q.rc)
    ensures SameGuest(m, s, q)
  {
  }

  /** What releasing fixed clusters needs to know. */
  lemma SoundRoom(s: Core, base: multiset<nat>, gone: multiset<nat>)
    requires SoundCore(s, base + gone)
    ensures gone <= s.rc
    ensures SmallCounts(s.rc)
    ensures 0 in base + gone && |s.l1| >= 1
  {
    hide EntryRefs, DataRefs, SnapL2, SnapData, SnapRuns, ReadTable, Read, Clusters;
    CountBound(s.file, s.rc, base + gone, s.l1, s.snaps);
    forall c: nat ensures gone[c] <= s.rc[c] { CountAt(s.file, s.rc, base + gone, s.l1, s.snaps, c); }
  }

  lemma CacheShape(s: Core, fixed: multiset<nat>)
    requires SoundCore(s, fixed)
    ensures |s.cache.offsets| == |s.cache.tables| == |s.cache.counts| == L2_CACHE_SIZE
    ensures forall i :: 0 <= i < L2_CACHE_SIZE ==> s.cache.counts[i] < MAX_HITS
  {
  }

  /** A COPIED entry of the active L1 table names an L2 table of its own. */
  lemma CopiedEntry(s: Core, fixed: multiset<nat>, i: nat)
    requires SoundCore(s, fixed) && i < |s.l1| && s.l1[i].copied
    ensures s.l1[i] == NewEntry(s.l1[i].cluster) && s.l1[i].cluster != 0
    ensures s.l1[i].cluster in L2s(s) && s.rc[s.l1[i].cluster] == 1
  {
    hide EntryRefs, DataRefs, SnapL2, SnapData, SnapRuns, ReadTable, Read, Clusters;
    EntryRefsMember(s.l1, 0, i);
    CountAt(s.file, s.rc, fixed, s.l1, s.snaps, s.l1[i].cluster);
    CountAt(s.file, s.rc, fixed, s.l1, s.snaps, 0);
    assert FlagOk(s.rc, s.l1[i]);
  }

  /** Releasing the table of an entry without COPIED leaves its count positive. */
  lemma SharedEntry(s: Core, fixed: multiset<nat>, i: nat)
    requires SoundCore(s, fixed) && i < |s.l1| && !s.l1[i].copied && s.l1[i] != ZERO
    ensures Run(s.l1[i].cluster, 1) == Ref(s.l1[i]) && Ref(s.l1[i]) <= s.rc && s.rc[s.l1[i].cluster] >= 2
    ensures SmallCounts(s.rc)
  {
    hide EntryRefs, DataRefs, SnapL2, SnapData, SnapRuns, ReadTable, Read, Clusters;
    RunExtend(s.l1[i].cluster, 0);
    EntryRefsMember(s.l1, 0, i);
    CountAt(s.file, s.rc, fixed, s.l1, s.snaps, s.l1[i].cluster);
    CountBound(s.file, s.rc, fixed, s.l1, s.snaps);
    assert FlagOk(s.rc, s.l1[i]);
  }

  /** The L2 table of a used L1 entry: in use, plain, naming no header cluster. */
  lemma TableInUse(s: Core, fixed: multiset<nat>, i: nat)
    requires SoundCore(s, fixed) && i < |s.l1| && s.l1[i] != ZERO
    ensures s.l1[i].cluster != 0 && s.l1[i].cluster in L2s(s)
    ensures PlainTable(Read(s.file, s.l1[i].cluster))
    ensures forall x: nat :: x < L2_SIZE && Read(s.file, s.l1[i].cluster)[x] != ZERO ==> Read(s.file, s.l1[i].cluster)[x].cluster != 0
  {
    hide EntryRefs, DataRefs, SnapL2, SnapData, SnapRuns, ReadTable, Read, Clusters;
    EntryRefsMember(s.l1, 0, i);
    CountAt(s.file, s.rc, fixed, s.l1, s.snaps, 0);
    forall x: nat | x < L2_SIZE && Read(s.file, s.l1[i].cluster)[x] != ZERO ensures Read(s.file, s.l1[i].cluster)[x].cluster != 0 {
      DataMember(s.file, s.l1, i, x);
    }
  }

  /** Only the cache changed. */
  lemma CacheSwap(s: Core, fixed: multiset<nat>, k: Cache)
    requires SoundCore(s, fixed) && CacheSound(s.file, k, L2s(s))
    ensures SoundCore(s.(cache := k), fixed)
  {
    hide EntryRefs, DataRefs, SnapL2, SnapData, SnapRuns, ReadTable, Read, Clusters, Run, Consistent, FlagRoot, CacheSound;
    assert L2s(s.(cache := k)) == L2s(s);
  }

  lemma CacheOf(s: Core, fixed: multiset<nat>)
    requires SoundCore(s, fixed)
    ensures CacheSound(s.file, s.cache, L2s(s))
  {
  }

  lemma AllocSound(s: Core, base: multiset<nat>, gone: multiset<nat>, c: nat, n: nat)
    requires SoundCore(s, base + gone)
    requires forall x: nat :: c <= x < c + n ==> s.rc[x] == 0
    ensures SoundCore(s.(rc := s.rc + Run(c, n)), base + Run(c, n) + gone)
  {
    hide EntryRefs, DataRefs, SnapL2, SnapData, SnapRuns, ReadTable, Read, Clusters, Run, Consistent, FlagRoot, CacheSound;
    AllocKeeps(s.file, s.rc, base + gone, s.l1, s.snaps, c, n);
    Shuffle(base, gone, Run(c, n));
  }

  /** Fixed clusters that are no table's are given back. */
  lemma FreeSound(s: Core, base: multiset<nat>, gone: multiset<nat>)
    requires SoundCore(s, base + gone) && 0 in base
    requires L1Room(s) + SnapRuns(s.snaps, 0) <= base
    ensures gone <= s.rc && SoundCore(s.(rc := s.rc - gone), base)
  {
    hide EntryRefs, DataRefs, SnapL2, SnapData, ReadTable, Read, Clusters, Run, Consistent, FlagRoot, CacheSound;
    WithinLeft(L1Room(s), SnapRuns(s.snaps, 0), base);
    FreeKeeps(s.file, s.rc, base, gone, s.l1, s.snaps);
  }

  lemma WithinLeft(a: multiset<nat>, b: multiset<nat>, c: multiset<nat>)
    requires a + b <= c
    ensures a <= c && b <= c
  {
  }
}
