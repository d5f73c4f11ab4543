/** What guest writes keep and change: data moved into clusters, clusters linked into L2 tables. */
module Writing {
  import opened Layout
  import opened Counting
  import opened Forest
  import opened Guest
  import opened Steps
  import opened State
  import opened Transfer

  /** Clusters the tables are made of: the active L1 table, the snapshots' L1 tables, all L2 tables. */
  ghost predicate HoldsTable(s: Core, c: nat) {
    || c in EntryRefs(s.l1, 0) || c in SnapL2(s.file, s.snaps, 0) || c in SnapRuns(s.snaps, 0)
    || s.l1Cluster <= c < s.l1Cluster + Clusters(StoredSize(s))
  }

  /** Writes that spare all tables and the snapshots' data keep the invariant and the snapshots. */
  lemma DataWriteSound(m: Medium, s: Core, fixed: multiset<nat>, file: File)
    requires SoundCore(s, fixed)
    requires forall c: nat :: HoldsTable(s, c) || c in SnapData(s.file, s.snaps, 0) ==> Read(s.file, c) == Read(file, c)
    ensures SoundCore(s.(file := file), fixed)
    ensures SameSnapViews(m, s.file, file, s.snaps)
    ensures AlikeRoot(s.file, s.l1, file, s.l1)
  {
    hide EntryRefs, DataRefs, SnapL2, SnapData, SnapRuns, ReadTable, Read, Clusters, Ledger, RootOk, SnapsOk, FlagRoot,
         CacheSound, View, SameSnapViews, AlikeRoot, AlikeSnaps;
    WriteKeeps(s.file, file, s.rc, fixed, s.l1, s.snaps);
    ReadTableFrame(s.file, file, s.l1Cluster, StoredSize(s));
    AlikeSnapViews(m, s.file, file, s.snaps);
    AlikeSnapRefs(s.file, file, s.snaps, 0);
    CacheFrame(s.file, file, s.cache, L2s(s));
  }

  /** Clusters taken for a write in progress hold no table and no guest data yet. */
  lemma ExtraUnused(s: Core, base: multiset<nat>, extra: multiset<nat>, c: nat)
    requires SoundCore(s, base + extra) && c in extra
    requires L1Room(s) + SnapRuns(s.snaps, 0) <= base
    ensures !HoldsTable(s, c) && !Named(s.file, s.l1, s.snaps, c)
  {
    hide EntryRefs, DataRefs, SnapL2, SnapData, SnapRuns, ReadTable, Read, Clusters;
    CountAt(s.file, s.rc, base + extra, s.l1, s.snaps, c);
    RunCounts(s.l1Cluster, Clusters(StoredSize(s)));
    assert (L1Room(s) + SnapRuns(s.snaps, 0))[c] <= base[c];
  }

  /** Filling such clusters changes nothing a guest can see. */
  lemma ExtraWriteSound(m: Medium, s: Core, base: multiset<nat>, c: nat, n: nat, file: File)
    requires SoundCore(s, base + Run(c, n))
    requires L1Room(s) + SnapRuns(s.snaps, 0) <= base
    requires forall x: nat :: x < c || c + n <= x ==> Read(s.file, x) == Read(file, x)
    ensures SoundCore(s.(file := file), base + Run(c, n))
    ensures SameGuest(m, s, s.(file := file))
  {
    hide EntryRefs, DataRefs, SnapL2, SnapData, SnapRuns, ReadTable, Read, Clusters, SoundCore, View, SameSnapViews,
         AlikeRoot;
    RunCounts(c, n);
    forall x: nat | HoldsTable(s, x) || Named(s.file, s.l1, s.snaps, x) ensures Read(s.file, x) == Read(file, x) {
      if x in Run(c, n) { ExtraUnused(s, base, Run(c, n), x); }
    }
    DataWriteSound(m, s, base + Run(c, n), file);
    AlikeView(m, s.file, s.l1, file, s.l1);
  }

  // ---------------------------------------------------------------------------------------
  // Linking

  ghost function LinkedCore(s: Core, l2: nat, v: Cluster, gone: multiset<nat>, slot: nat): Core
    requires slot < |s.cache.tables|
  {
    s.(file := s.file[l2 := v], rc := s.rc - gone, cache := s.cache.(tables := s.cache.tables[slot := v]))
  }

  ghost predicate LinkReady(s: Core, base: multiset<nat>, i: nat, j: nat, n: nat, c: nat, v: Cluster, gone: multiset<nat>,
                            slot: nat) {
    && SoundCore(s, base + Run(c, n))
    && L1Room(s) + SnapRuns(s.snaps, 0) <= base && 0 in base
    && i < |s.l1| && s.l1[i].copied
    && Linked(Read(s.file, s.l1[i].cluster), v, j, n, c)
    && Tally(v, gone, Read(s.file, s.l1[i].cluster), Run(c, n))
    && slot < L2_CACHE_SIZE && s.cache.offsets[slot] == s.l1[i].cluster
  }

  lemma LinkReadyPre(s: Core, base: multiset<nat>, i: nat, j: nat, n: nat, c: nat, v: Cluster, gone: multiset<nat>, slot: nat)
    requires LinkReady(s, base, i, j, n, c, v, gone, slot)
    ensures LinkPre(s.file, s.file[s.l1[i].cluster := v], s.rc, base, gone, s.l1, s.snaps, i, j, n, c)
    ensures forall x: nat :: Read(s.file[s.l1[i].cluster := v], x) == if x == s.l1[i].cluster then v else Read(s.file, x)
    ensures s.l1[i].cluster != 0 && !(s.l1Cluster <= s.l1[i].cluster < s.l1Cluster + Clusters(StoredSize(s)))
  {
    hide EntryRefs, DataRefs, SnapL2, SnapData, SnapRuns, ReadTable, Read, Clusters, Ledger, RootOk, SnapsOk, FlagRoot;
    var l2 := s.l1[i].cluster;
    forall x: nat ensures Read(s.file[l2 := v], x) == if x == l2 then v else Read(s.file, x) { ReadPut(s.file, l2, v, x); }
    CopiedEntry(s, base + Run(c, n), i);
    EntryRefsMember(s.l1, 0, i);
    if s.l1Cluster <= l2 < s.l1Cluster + Clusters(StoredSize(s)) { L1RunApart(s, base + Run(c, n), l2); }
    assert SnapRuns(s.snaps, 0) <= base;
  }

  lemma LinkSound(s: Core, base: multiset<nat>, i: nat, j: nat, n: nat, c: nat, v: Cluster, gone: multiset<nat>, slot: nat)
    requires LinkReady(s, base, i, j, n, c, v, gone, slot)
    ensures gone <= s.rc
    ensures SoundCore(LinkedCore(s, s.l1[i].cluster, v, gone, slot), base)
  {
    hide EntryRefs, DataRefs, SnapL2, SnapData, SnapRuns, ReadTable, Read, Clusters, Ledger, RootOk, SnapsOk, FlagRoot,
         LinkPre, AlikeSnaps;
    var l2 := s.l1[i].cluster;
    var file := s.file[l2 := v];
    LinkReadyPre(s, base, i, j, n, c, v, gone, slot);
    LinkAlone(s.file, file, s.rc, base, gone, s.l1, s.snaps, i, j, n, c);
    LinkKeeps(s.file, file, s.rc, base, gone, s.l1, s.snaps, i, j, n, c);
    LinkFlags(s.file, file, s.rc, base, gone, s.l1, s.snaps, i, j, n, c);
    ReadTableFrame(s.file, file, s.l1Cluster, StoredSize(s));
    AlikeSnapRefs(s.file, file, s.snaps, 0);
  }

  lemma LinkSnapViews(m: Medium, s: Core, base: multiset<nat>, i: nat, j: nat, n: nat, c: nat, v: Cluster,
                      gone: multiset<nat>, slot: nat)
    requires LinkReady(s, base, i, j, n, c, v, gone, slot)
    ensures SameSnapViews(m, s.file, s.file[s.l1[i].cluster := v], s.snaps)
  {
    hide EntryRefs, DataRefs, SnapL2, SnapData, SnapRuns, ReadTable, Read, Clusters, Ledger, RootOk, SnapsOk, FlagRoot,
         LinkPre, AlikeSnaps, SameSnapViews;
    var l2 := s.l1[i].cluster;
    var file := s.file[l2 := v];
    LinkReadyPre(s, base, i, j, n, c, v, gone, slot);
    LinkAlone(s.file, file, s.rc, base, gone, s.l1, s.snaps, i, j, n, c);
    AlikeSnapViews(m, s.file, file, s.snaps);
  }

  /** After linking, the active disk shows the new clusters in their window and what it showed elsewhere. */
  lemma LinkView(m: Medium, s: Core, base: multiset<nat>, x: nat, n: nat, c: nat, v: Cluster, gone: multiset<nat>,
                 slot: nat, want: imap<nat, Sector>)
    requires L1Index(x) < |s.l1| && LinkReady(s, base, L1Index(x), L2Index(x), n, c, v, gone, slot)
    requires forall y: nat :: y in want
    requires forall y: nat :: !InWindow(x, n, y) ==> ViewSector(m, s.file, s.l1, y) == want[y]
    requires Holds(m, s.file, c, x, n, want)
    ensures View(m, s.file[s.l1[L1Index(x)].cluster := v], s.l1) == want
    ensures forall y: nat :: !InWindow(x, n, y) ==> CellOf(s.file[s.l1[L1Index(x)].cluster := v], s.l1, y) == CellOf(s.file, s.l1, y)
    ensures WindowStored(s.file[s.l1[L1Index(x)].cluster := v], s.l1, x, n, s.file, c)
  {
    hide EntryRefs, DataRefs, SnapL2, SnapData, SnapRuns, ReadTable, Read, Clusters, Ledger, RootOk, SnapsOk, FlagRoot,
         LinkPre, Holds, SoundCore, View, L1Index, L2Index, CellOf, SectorAt, Pos, Base;
    var i := L1Index(x);
    var l2 := s.l1[i].cluster;
    var file := s.file[l2 := v];
    LinkReadyPre(s, base, i, L2Index(x), n, c, v, gone, slot);
    LinkAlone(s.file, file, s.rc, base, gone, s.l1, s.snaps, i, L2Index(x), n, c);
    forall y: nat | InWindow(x, n, y)
      ensures EntryOf(file, s.l1, y) == NewEntry(c + (L2Index(y) - L2Index(x)))
    {
    }
    forall y: nat | !InWindow(x, n, y) ensures ViewSector(m, file, s.l1, y) == want[y] && CellOf(file, s.l1, y) == CellOf(s.file, s.l1, y) {
      LinkOutside(m, s, file, x, n, c, v, y);
    }
    HoldsFrame(m, s, base, x, n, c, file, want);
    forall y: nat | InWindow(x, n, y)
      ensures Base(x) <= y && y - Base(x) < Pos(n, 0) && CellOf(file, s.l1, y) == Stored(SectorAt(s.file, c, y - Base(x)))
    {
      WindowCell(file, s.l1, c, x, n, y);
    }
    WindowView(m, file, s.l1, c, x, n, want);
  }

  lemma LinkOutside(m: Medium, s: Core, file: File, x: nat, n: nat, c: nat, v: Cluster, y: nat)
    requires L1Index(x) < |s.l1| && s.l1[L1Index(x)] != ZERO
    requires var l2 := s.l1[L1Index(x)].cluster;
             && l2 !in DataRefs(s.file, s.l1, 0)
             && (forall z: nat :: Read(file, z) == if z == l2 then v else Read(s.file, z))
             && (forall k :: 0 <= k < |s.l1| && s.l1[k] != ZERO && s.l1[k].cluster == l2 ==> k == L1Index(x))
             && Linked(Read(s.file, l2), v, L2Index(x), n, c)
    requires !InWindow(x, n, y)
    ensures ViewSector(m, file, s.l1, y) == ViewSector(m, s.file, s.l1, y) && CellOf(file, s.l1, y) == CellOf(s.file, s.l1, y)
  {
    hide EntryRefs, DataRefs, Read, L1Index, L2Index, InCluster;
    var k := L1Index(y);
    if k < |s.l1| && s.l1[k] != ZERO {
      assert EntryOf(file, s.l1, y) == EntryOf(s.file, s.l1, y);
      if EntryOf(s.file, s.l1, y) != ZERO { DataMember(s.file, s.l1, k, L2Index(y)); }
    }
  }

  lemma HoldsFrame(m: Medium, s: Core, base: multiset<nat>, x: nat, n: nat, c: nat, file: File, want: imap<nat, Sector>)
    requires forall y: nat :: y in want
    requires SoundCore(s, base + Run(c, n)) && L1Index(x) < |s.l1| && s.l1[L1Index(x)] != ZERO
    requires forall z: nat :: z != s.l1[L1Index(x)].cluster ==> Read(file, z) == Read(s.file, z)
    requires Holds(m, s.file, c, x, n, want)
    ensures Holds(m, file, c, x, n, want)
    ensures forall p: nat :: p < Pos(n, 0) ==> SectorAt(file, c, p) == SectorAt(s.file, c, p)
  {
    hide EntryRefs, DataRefs, SnapL2, SnapData, SnapRuns, ReadTable, Read, Clusters, Ledger, RootOk, SnapsOk, FlagRoot, Pos,
         InCluster, L1Index;
    var l2 := s.l1[L1Index(x)].cluster;
    EntryRefsMember(s.l1, 0, L1Index(x));
    CountAt(s.file, s.rc, base + Run(c, n), s.l1, s.snaps, l2);
    RunCounts(c, n);
    forall p: nat | p < Pos(n, 0) ensures SectorAt(file, c, p) == SectorAt(s.file, c, p) {
      QuotPos(p);
      PosLess(Quot(p), InCluster(p), n);
      assert Run(c, n)[c + Quot(p)] == 1;
    }
  }

  // ---------------------------------------------------------------------------------------
  // Writing in place

  /** Guest clusters from that of x on, n of them, are mapped to c .. c + n - 1 with COPIED set. */
  ghost predicate Private(s: Core, x: nat, n: nat, c: nat) {
    && L1Index(x) < |s.l1| && s.l1[L1Index(x)].copied
    && L2Index(x) + n <= L2_SIZE
    && forall q :: L2Index(x) <= q < L2Index(x) + n ==>
         Read(s.file, s.l1[L1Index(x)].cluster)[q] == NewEntry(c + (q - L2Index(x)))
  }

  lemma PrivateRun(s: Core, fixed: multiset<nat>, x: nat, n: nat, first: Word)
    requires SoundCore(s, fixed) && first.copied
    requires L1Index(x) < |s.l1| && s.l1[L1Index(x)].copied && L2Index(x) + n <= L2_SIZE && n >= 1
    requires forall q :: L2Index(x) <= q < L2Index(x) + n ==>
      Read(s.file, s.l1[L1Index(x)].cluster)[q] == first.(cluster := first.cluster + (q - L2Index(x)))
    ensures Private(s, x, n, first.cluster)
  {
    hide L1Index, L2Index, Read;
    TableInUse(s, fixed, L1Index(x));
    assert Read(s.file, s.l1[L1Index(x)].cluster)[L2Index(x)] == first;
  }

  lemma PrivateCluster(s: Core, fixed: multiset<nat>, x: nat, n: nat, c: nat, z: nat)
    requires SoundCore(s, fixed) && Private(s, x, n, c) && c <= z < c + n
    ensures !HoldsTable(s, z) && z !in SnapData(s.file, s.snaps, 0)
    ensures z in PathRefs(s.file, s.l1[L1Index(x)])
  {
    hide EntryRefs, DataRefs, SnapL2, SnapData, SnapRuns, ReadTable, Read, Clusters, L1Index, L2Index;
    var i, q := L1Index(x), L2Index(x) + (z - c);
    assert Read(s.file, s.l1[i].cluster)[q] == NewEntry(z);
    DataMember(s.file, s.l1, i, q);
    assert FlagTable(s.rc, Read(s.file, s.l1[i].cluster));
    assert FlagOk(s.rc, Read(s.file, s.l1[i].cluster)[q]);
    CountAt(s.file, s.rc, fixed, s.l1, s.snaps, z);
    assert SnapRuns(s.snaps, 0) <= fixed;
    if s.l1Cluster <= z < s.l1Cluster + Clusters(StoredSize(s)) { L1RunApart(s, fixed, z); }
  }

  /** A cluster reached along two different paths counts twice. */
  lemma TwoPaths(file: File, t: seq<Word>, i: nat, q: nat, k: nat, r: nat)
    requires i < |t| && k < |t| && t[i] != ZERO && t[k] != ZERO && q < L2_SIZE && r < L2_SIZE
    requires (i, q) != (k, r)
    requires Read(file, t[i].cluster)[q] != ZERO && Read(file, t[k].cluster)[r] != ZERO
    requires Read(file, t[i].cluster)[q].cluster == Read(file, t[k].cluster)[r].cluster
    ensures DataRefs(file, t, 0)[Read(file, t[i].cluster)[q].cluster] >= 2
  {
    hide EntryRefs, DataRefs, Read;
    var z := Read(file, t[i].cluster)[q].cluster;
    if i != k {
      DataMember(file, t, i, q);
      DataMember(file, t, k, r);
      DataRefsTwice(file, t, if i < k then i else k, if i < k then k else i, z);
    } else {
      EntryRefsTwice(Read(file, t[i].cluster), if q < r then q else r, if q < r then r else q);
      PathWithin(file, t, 0, i);
      assert PathRefs(file, t[i])[z] <= DataRefs(file, t, 0)[z];
    }
  }

  /** No other guest sector is stored in such a cluster. */
  lemma PrivatePath(s: Core, fixed: multiset<nat>, x: nat, n: nat, c: nat, y: nat)
    requires SoundCore(s, fixed) && Private(s, x, n, c)
    requires !InWindow(x, n, y) && EntryOf(s.file, s.l1, y) != ZERO
    ensures !(c <= EntryOf(s.file, s.l1, y).cluster < c + n)
  {
    hide EntryRefs, DataRefs, SnapL2, SnapData, SnapRuns, ReadTable, Read, Clusters, L1Index, L2Index, Ledger, FlagRoot,
         CacheSound;
    var z := EntryOf(s.file, s.l1, y).cluster;
    assert DataRefs(s.file, s.l1, 0)[z] <= 1;
    if c <= z < c + n {
      assert Read(s.file, s.l1[L1Index(x)].cluster)[L2Index(x) + (z - c)] == NewEntry(z);
      TwoPaths(s.file, s.l1, L1Index(x), L2Index(x) + (z - c), L1Index(y), L2Index(y));
    }
  }

  /** Overwriting private clusters changes the active disk there and nothing else. */
  lemma InPlaceSound(m: Medium, s: Core, fixed: multiset<nat>, x: nat, n: nat, c: nat, file: File, want: imap<nat, Sector>)
    requires SoundCore(s, fixed) && Private(s, x, n, c)
    requires forall z: nat :: z < c || c + n <= z ==> Read(s.file, z) == Read(file, z)
    requires forall y: nat :: y in want
    requires forall y: nat :: !InWindow(x, n, y) ==> ViewSector(m, s.file, s.l1, y) == want[y]
    requires Holds(m, file, c, x, n, want)
    ensures SoundCore(s.(file := file), fixed)
    ensures SameSnapViews(m, s.file, file, s.snaps)
    ensures View(m, file, s.l1) == want
    ensures forall y: nat :: !InWindow(x, n, y) ==> CellOf(file, s.l1, y) == CellOf(s.file, s.l1, y)
    ensures WindowStored(file, s.l1, x, n, file, c) && WindowStored(s.file, s.l1, x, n, s.file, c)
  {
    hide EntryRefs, DataRefs, SnapL2, SnapData, SnapRuns, ReadTable, Read, Clusters, SoundCore, View, SameSnapViews,
         AlikeRoot, L1Index, L2Index, HoldsTable, Holds, EntryOf, SectorAt, Pos, Base;
    forall z: nat | HoldsTable(s, z) || z in SnapData(s.file, s.snaps, 0) ensures Read(s.file, z) == Read(file, z) {
      if c <= z < c + n { PrivateCluster(s, fixed, x, n, c, z); }
    }
    DataWriteSound(m, s, fixed, file);
    forall y: nat ensures EntryOf(file, s.l1, y) == EntryOf(s.file, s.l1, y) { SameEntryOf(s, fixed, file, y); }
    forall y: nat | !InWindow(x, n, y) ensures ViewSector(m, file, s.l1, y) == want[y] && CellOf(file, s.l1, y) == CellOf(s.file, s.l1, y) {
      if EntryOf(s.file, s.l1, y) != ZERO { PrivatePath(s, fixed, x, n, c, y); }
    }
    forall y: nat | InWindow(x, n, y)
      ensures EntryOf(file, s.l1, y) == NewEntry(c + (L2Index(y) - L2Index(x)))
      ensures Base(x) <= y && y - Base(x) < Pos(n, 0) && CellOf(file, s.l1, y) == Stored(SectorAt(file, c, y - Base(x)))
      ensures CellOf(s.file, s.l1, y) == Stored(SectorAt(s.file, c, y - Base(x)))
    {
      PrivateEntry(s, x, n, c, y);
      WindowCell(file, s.l1, c, x, n, y);
      WindowCell(s.file, s.l1, c, x, n, y);
    }
    WindowView(m, file, s.l1, c, x, n, want);
  }

  lemma PrivateEntry(s: Core, x: nat, n: nat, c: nat, y: nat)
    requires Private(s, x, n, c) && InWindow(x, n, y)
    ensures EntryOf(s.file, s.l1, y) == NewEntry(c + (L2Index(y) - L2Index(x)))
  {
    hide L1Index, L2Index, Read;
  }

  lemma SameEntryOf(s: Core, fixed: multiset<nat>, file: File, y: nat)
    requires forall z: nat :: HoldsTable(s, z) ==> Read(s.file, z) == Read(file, z)
    ensures EntryOf(file, s.l1, y) == EntryOf(s.file, s.l1, y)
  {
    hide EntryRefs, Read, L1Index, L2Index;
    var i := L1Index(y);
    if i < |s.l1| && s.l1[i] != ZERO { EntryRefsMember(s.l1, 0, i); }
  }

  // ---------------------------------------------------------------------------------------
  // Filling a run of clusters piece by piece

  /** Sectors lo .. hi - 1 of the run from cluster c on show what `want` shows there. */
  ghost predicate Showing(m: Medium, file: File, c: nat, s: nat, lo: nat, hi: nat, want: imap<nat, Sector>)
    requires forall x: nat :: x in want
  {
    forall p: nat :: lo <= p < hi ==> m.Decode(Base(s) + p, SectorAt(file, c, p)) == want[Base(s) + p]
  }

  /** They hold it as it was written. */
  ghost predicate Filled(m: Medium, file: File, c: nat, s: nat, lo: nat, hi: nat, want: imap<nat, Sector>)
    requires forall x: nat :: x in want
  {
    forall p: nat :: lo <= p < hi ==> SectorAt(file, c, p) == m.Encode(Base(s) + p, want[Base(s) + p])
  }

  lemma FilledShows(m: Medium, file: File, c: nat, s: nat, lo: nat, hi: nat, want: imap<nat, Sector>)
    requires m.Valid()
    requires forall x: nat :: x in want
    requires Filled(m, file, c, s, lo, hi, want)
    ensures Showing(m, file, c, s, lo, hi, want)
  {
    hide SectorAt, Base;
  }

  lemma WriteFills(m: Medium, file: File, c: nat, s: nat, lo: nat, data: seq<Sector>, want: imap<nat, Sector>)
    requires forall x: nat :: x in want
    requires forall i: nat :: i < |data| ==> data[i] == want[Base(s) + lo + i]
    ensures Filled(m, WriteSectors(file, c, lo, EncodeRun(m, Base(s) + lo, data)), c, s, lo, lo + |data|, want)
  {
    hide SectorAt, WriteSectors;
    var run := EncodeRun(m, Base(s) + lo, data);
    var file' := WriteSectors(file, c, lo, run);
    forall p: nat | lo <= p < lo + |data| ensures SectorAt(file', c, p) == m.Encode(Base(s) + p, want[Base(s) + p]) {
      WriteSectorsAt(file, c, lo, run, p);
      assert data[p - lo] == want[Base(s) + lo + (p - lo)];
      assert run[p - lo] == m.Encode(Base(s) + lo + (p - lo), data[p - lo]);
    }
  }

  lemma WriteSpares(m: Medium, file: File, c: nat, s: nat, start: nat, data: seq<Sector>, lo: nat, hi: nat,
                    want: imap<nat, Sector>)
    requires forall x: nat :: x in want
    requires hi <= start || start + |data| <= lo
    ensures Filled(m, file, c, s, lo, hi, want) ==> Filled(m, WriteSectors(file, c, start, data), c, s, lo, hi, want)
    ensures Showing(m, file, c, s, lo, hi, want) ==> Showing(m, WriteSectors(file, c, start, data), c, s, lo, hi, want)
  {
    hide SectorAt, WriteSectors;
    forall p: nat | lo <= p < hi ensures SectorAt(WriteSectors(file, c, start, data), c, p) == SectorAt(file, c, p) {
      WriteSectorsAt(file, c, start, data, p);
    }
  }

  lemma FilledJoin(m: Medium, file: File, c: nat, s: nat, lo: nat, mid: nat, hi: nat, want: imap<nat, Sector>)
    requires forall x: nat :: x in want
    requires Filled(m, file, c, s, lo, mid, want) && Filled(m, file, c, s, mid, hi, want)
    ensures Filled(m, file, c, s, lo, hi, want)
  {
    hide SectorAt;
  }

  /** Private clusters already hold what the active disk shows. */
  lemma PrivateFilled(m: Medium, s: Core, x: nat, n: nat, c: nat, lo: nat, hi: nat, want: imap<nat, Sector>)
    requires Private(s, x, n, c) && hi <= Pos(n, 0)
    requires forall y: nat :: y in want
    requires forall y: nat :: Base(x) + lo <= y < Base(x) + hi ==> want[y] == ViewSector(m, s.file, s.l1, y)
    ensures Showing(m, s.file, c, x, lo, hi, want)
  {
    hide Read, L1Index, L2Index, InCluster, Pos, Quot, SectorOf, Base;
    forall p: nat | lo <= p < hi
      ensures m.Decode(Base(x) + p, SectorAt(s.file, c, p)) == want[Base(x) + p]
    {
      QuotPos(p);
      PosLess(Quot(p), InCluster(p), n);
      AddressInRun(x, p);
      assert want[Base(x) + p] == ViewSector(m, s.file, s.l1, Base(x) + p);
    }
  }

  /** Two disks agree outside lo .. hi - 1. */
  ghost predicate AgreeOutside(a: imap<nat, Sector>, b: imap<nat, Sector>, lo: nat, hi: nat)
    requires (forall y: nat :: y in a) && (forall y: nat :: y in b)
  {
    forall y: nat :: !(lo <= y < hi) ==> a[y] == b[y]
  }

  /** Copying what the disk shows to sectors lo .. hi - 1 of a run extends the filled part. */
  lemma CopyFills(m: Medium, file: File, c: nat, s: nat, lo: nat, data: seq<Sector>, a: nat, b: nat,
                  view: imap<nat, Sector>, want: imap<nat, Sector>)
    requires m.Valid()
    requires (forall y: nat :: y in want) && (forall y: nat :: y in view)
    requires AgreeOutside(want, view, Base(s) + a, Base(s) + b)
    requires lo + |data| <= a || b <= lo
    requires forall i: nat :: i < |data| ==> data[i] == view[Base(s) + lo + i]
    requires Filled(m, file, c, s, a, b, want)
    ensures var file' := WriteSectors(file, c, lo, EncodeRun(m, Base(s) + lo, data));
            Filled(m, file', c, s, a, b, want) && Filled(m, file', c, s, lo, lo + |data|, want)
  {
    hide WriteSectors, SectorAt, Base, Filled, EncodeRun;
    EncodeLength(m, Base(s) + lo, data);
    forall i: nat | i < |data| ensures data[i] == want[Base(s) + lo + i] {}
    WriteFills(m, file, c, s, lo, data, want);
    WriteSpares(m, file, c, s, lo, EncodeRun(m, Base(s) + lo, data), a, b, want);
  }

  lemma ViewIs(m: Medium, file: File, t: seq<Word>, y: nat)
    ensures y in View(m, file, t) && View(m, file, t)[y] == ViewSector(m, file, t, y)
  {
  }

  /** Writing the changed range of a table stores the table. */
  function StoreRange(u: Cluster, v: Cluster, j: nat, n: nat): Cluster
    requires j + n <= L2_SIZE
  {
    u[..j] + v[j..j + n] + u[j + n..]
  }

  lemma StoreLinked(u: Cluster, v: Cluster, j: nat, n: nat, c: nat)
    requires Linked(u, v, j, n, c)
    ensures StoreRange(u, v, j, n) == v
  {
  }

  /** The last sector of a request that is not full lies in the last cluster of the run. */
  lemma TailBounds(available: nat, n: nat)
    requires n >= 1 && Pos(n - 1, 0) < available <= Pos(n, 0)
    ensures InCluster(available) != 0 ==> available - InCluster(available) + CLUSTER_SECTORS == Pos(n, 0)
    ensures InCluster(available) == 0 ==> available == Pos(n, 0)
  {
    hide Pos;
    var q, k := Quot(available), InCluster(available);
    QuotPos(available);
    PosStart(q, k);
    PosNext(n - 1);
    PosNext(q);
    if k != 0 {
      PosInverse(n, 0);
      PosLess(q, k, n);
      if q < n - 1 { PosMonotone(q + 1, n - 1); }
    } else {
      PosLess(n - 1, 0, q);
      if n < q { PosMonotone(n + 1, q); PosNext(n); }
    }
  }

  lemma PosNext(q: nat)
    ensures Pos(q + 1, 0) == Pos(q, 0) + CLUSTER_SECTORS
  {
    Distribute(q, 1, CLUSTER_SECTORS);
  }

  lemma HeadAddress(s: nat)
    ensures InSpan(Base(s), InCluster(s))
  {
    BaseOffset(s, 0);
    InClusterZero();
    OneCluster(Base(s), InCluster(s));
  }

  lemma InClusterZero()
    ensures InCluster(0) == 0
  {
  }

  lemma TailAddress(s: nat, available: nat)
    ensures InCluster(available) <= available
    ensures var k := InCluster(available); InSpan(Base(s) + (available - k) + k, CLUSTER_SECTORS - k)
  {
    QuotPos(available);
    hide Quot, InCluster, InSpan, Base, Pos;
    var k := InCluster(available);
    PosStart(Quot(available), k);
    BaseOffset(s, available);
    OneCluster(Base(s) + available, CLUSTER_SECTORS - k);
    assert Base(s) + (available - k) + k == Base(s) + available;
  }

  lemma InWindowOf(x: nat, n: nat, p: nat)
    requires L2Index(x) + n <= L2_SIZE && p < Pos(n, 0)
    ensures InWindow(x, n, Base(x) + p)
  {
    hide L1Index, L2Index, Pos, InCluster, Base;
    QuotPos(p);
    PosLess(Quot(p), InCluster(p), n);
    AddressInRun(x, p);
  }

  /** What changes lies in the window of the run. */
  lemma OutsideWindow(m: Medium, file: File, t: seq<Word>, x: nat, n: nat, lo: nat, hi: nat, want: imap<nat, Sector>)
    requires forall y: nat :: y in want
    requires AgreeOutside(want, View(m, file, t), Base(x) + lo, Base(x) + hi)
    requires hi <= Pos(n, 0) && L2Index(x) + n <= L2_SIZE
    ensures forall y: nat :: !InWindow(x, n, y) ==> ViewSector(m, file, t, y) == want[y]
  {
    hide L1Index, L2Index, Pos, Base, ViewSector, InWindow;
    forall y: nat | !InWindow(x, n, y) ensures ViewSector(m, file, t, y) == want[y] {
      if Base(x) + lo <= y < Base(x) + hi { InWindowOf(x, n, y - Base(x)); }
      assert want[y] == View(m, file, t)[y];
    }
  }

  lemma LinkedView(m: Medium, s: Core, base: multiset<nat>, x: nat, n: nat, c: nat, v: Cluster, gone: multiset<nat>,
                   slot: nat, lo: nat, hi: nat, want: imap<nat, Sector>)
    requires L1Index(x) < |s.l1| && LinkReady(s, base, L1Index(x), L2Index(x), n, c, v, gone, slot)
    requires forall y: nat :: y in want
    requires AgreeOutside(want, View(m, s.file, s.l1), Base(x) + lo, Base(x) + hi) && hi <= Pos(n, 0)
    requires m.Valid() && Filled(m, s.file, c, x, 0, Pos(n, 0), want)
    ensures View(m, s.file[s.l1[L1Index(x)].cluster := v], s.l1) == want
    ensures Rewritten(m, s.file, s.l1, s.file[s.l1[L1Index(x)].cluster := v], s.l1, Base(x) + lo, Base(x) + hi)
  {
    hide L1Index, L2Index, Pos, Base, ViewSector, InWindow, View, SoundCore, Tally, Read, AgreeOutside, SectorAt, CellOf;
    OutsideWindow(m, s.file, s.l1, x, n, lo, hi, want);
    FilledShows(m, s.file, c, x, 0, Pos(n, 0), want);
    LinkView(m, s, base, x, n, c, v, gone, slot, want);
    var file := s.file[s.l1[L1Index(x)].cluster := v];
    forall y: nat
      ensures InWindow(x, n, y) ==> Sealed(m, file, s.l1, y)
      ensures Base(x) + lo <= y < Base(x) + hi ==> InWindow(x, n, y)
    {
      ViewIs(m, file, s.l1, y);
      if Base(x) + lo <= y < Base(x) + hi { InWindowOf(x, n, y - Base(x)); }
      if InWindow(x, n, y) { assert SectorAt(s.file, c, y - Base(x)) == m.Encode(Base(x) + (y - Base(x)), want[Base(x) + (y - Base(x))]); }
    }
  }

  lemma InPlaceView(m: Medium, s: Core, fixed: multiset<nat>, x: nat, n: nat, c: nat, lo: nat, data: seq<Sector>,
                    want: imap<nat, Sector>)
    requires m.Valid() && SoundCore(s, fixed) && Private(s, x, n, c)
    requires forall y: nat :: y in want
    requires AgreeOutside(want, View(m, s.file, s.l1), Base(x) + lo, Base(x) + lo + |data|)
    requires lo + |data| <= Pos(n, 0)
    requires forall i: nat :: i < |data| ==> data[i] == want[Base(x) + lo + i]
    ensures var file := WriteSectors(s.file, c, lo, EncodeRun(m, Base(x) + lo, data));
            && SoundCore(s.(file := file), fixed) && SameSnapViews(m, s.file, file, s.snaps) && View(m, file, s.l1) == want
            && Rewritten(m, s.file, s.l1, file, s.l1, Base(x) + lo, Base(x) + lo + |data|)
  {
    hide L1Index, L2Index, Pos, Base, ViewSector, InWindow, SoundCore, Read, SectorAt, WriteSectors, EncodeRun, Private,
         SameSnapViews;
    var run := EncodeRun(m, Base(x) + lo, data);
    var file := WriteSectors(s.file, c, lo, run);
    EncodeLength(m, Base(x) + lo, data);
    PrivateSize(s, x, n, c);
    OutsideWindow(m, s.file, s.l1, x, n, lo, lo + |data|, want);
    InPlaceHolds(m, s, x, n, c, lo, data, want);
    forall z: nat | z < c || c + n <= z ensures Read(s.file, z) == Read(file, z) {
      WriteSectorsFrame(s.file, c, n, lo, run, z);
    }
    InPlaceSound(m, s, fixed, x, n, c, file, want);
    InPlaceCells(m, s, x, n, c, lo, data, want);
  }

  /** What overwriting leaves stored. */
  lemma InPlaceCells(m: Medium, s: Core, x: nat, n: nat, c: nat, lo: nat, data: seq<Sector>, want: imap<nat, Sector>)
    requires Private(s, x, n, c) && lo + |data| <= Pos(n, 0)
    requires forall y: nat :: y in want
    requires forall i: nat :: i < |data| ==> data[i] == want[Base(x) + lo + i]
    requires var file := WriteSectors(s.file, c, lo, EncodeRun(m, Base(x) + lo, data));
      && View(m, file, s.l1) == want
      && (forall y: nat :: !InWindow(x, n, y) ==> CellOf(file, s.l1, y) == CellOf(s.file, s.l1, y))
      && WindowStored(file, s.l1, x, n, file, c) && WindowStored(s.file, s.l1, x, n, s.file, c)
    ensures var file := WriteSectors(s.file, c, lo, EncodeRun(m, Base(x) + lo, data));
      Rewritten(m, s.file, s.l1, file, s.l1, Base(x) + lo, Base(x) + lo + |data|)
  {
    hide L1Index, L2Index, Pos, Base, ViewSector, InWindow, Read, SectorAt, WriteSectors, EncodeRun, CellOf, View;
    var run := EncodeRun(m, Base(x) + lo, data);
    var file := WriteSectors(s.file, c, lo, run);
    EncodeLength(m, Base(x) + lo, data);
    WriteFills(m, s.file, c, x, lo, data, want);
    PrivateSize(s, x, n, c);
    forall y: nat
      ensures Base(x) + lo <= y < Base(x) + lo + |data| ==> Sealed(m, file, s.l1, y)
      ensures !(Base(x) + lo <= y < Base(x) + lo + |data|) ==> CellOf(file, s.l1, y) == CellOf(s.file, s.l1, y)
    {
      ViewIs(m, file, s.l1, y);
      if Base(x) + lo <= y < Base(x) + lo + |data| {
        InWindowOf(x, n, y - Base(x));
        assert SectorAt(file, c, y - Base(x)) == m.Encode(Base(x) + (y - Base(x)), want[Base(x) + (y - Base(x))]);
      } else if InWindow(x, n, y) {
        WriteSectorsAt(s.file, c, lo, run, y - Base(x));
      }
    }
  }

  lemma PrivateSize(s: Core, x: nat, n: nat, c: nat)
    requires Private(s, x, n, c)
    ensures L2Index(x) + n <= L2_SIZE
  {
  }

  lemma InPlaceHolds(m: Medium, s: Core, x: nat, n: nat, c: nat, lo: nat, data: seq<Sector>, want: imap<nat, Sector>)
    requires m.Valid() && Private(s, x, n, c)
    requires forall y: nat :: y in want
    requires AgreeOutside(want, View(m, s.file, s.l1), Base(x) + lo, Base(x) + lo + |data|)
    requires lo + |data| <= Pos(n, 0)
    requires forall i: nat :: i < |data| ==> data[i] == want[Base(x) + lo + i]
    ensures Holds(m, WriteSectors(s.file, c, lo, EncodeRun(m, Base(x) + lo, data)), c, x, n, want)
  {
    hide L1Index, L2Index, Pos, Base, ViewSector, SoundCore, Read, SectorAt, WriteSectors, EncodeRun, Private;
    var run := EncodeRun(m, Base(x) + lo, data);
    var hi := lo + |data|;
    EncodeLength(m, Base(x) + lo, data);
    forall y: nat | !(Base(x) + lo <= y < Base(x) + hi) ensures want[y] == ViewSector(m, s.file, s.l1, y) {
      ViewIs(m, s.file, s.l1, y);
    }
    PrivateFilled(m, s, x, n, c, 0, lo, want);
    PrivateFilled(m, s, x, n, c, hi, Pos(n, 0), want);
    WriteFills(m, s.file, c, x, lo, data, want);
    FilledShows(m, WriteSectors(s.file, c, lo, run), c, x, lo, hi, want);
    WriteSpares(m, s.file, c, x, lo, run, 0, lo, want);
    WriteSpares(m, s.file, c, x, lo, run, hi, Pos(n, 0), want);
  }

  lemma LinkFinish(m: Medium, s: Core, base: multiset<nat>, x: nat, n: nat, c: nat, v: Cluster, gone: multiset<nat>,
                   slot: nat, lo: nat, hi: nat, want: imap<nat, Sector>)
    requires L1Index(x) < |s.l1| && LinkReady(s, base, L1Index(x), L2Index(x), n, c, v, gone, slot)
    requires forall y: nat :: y in want
    requires AgreeOutside(want, View(m, s.file, s.l1), Base(x) + lo, Base(x) + hi) && hi <= Pos(n, 0)
    requires m.Valid() && Filled(m, s.file, c, x, 0, Pos(n, 0), want)
    ensures gone <= s.rc
    ensures var r := LinkedCore(s, s.l1[L1Index(x)].cluster, v, gone, slot);
            && SoundCore(r, base) && SameSnapViews(m, s.file, r.file, s.snaps) && View(m, r.file, s.l1) == want
            && Rewritten(m, s.file, s.l1, r.file, s.l1, Base(x) + lo, Base(x) + hi)
  {
    hide L1Index, L2Index, Pos, Base, View, SoundCore, Tally, Read, AgreeOutside, SectorAt, Filled, SameSnapViews, Rewritten;
    LinkSound(s, base, L1Index(x), L2Index(x), n, c, v, gone, slot);
    LinkSnapViews(m, s, base, L1Index(x), L2Index(x), n, c, v, gone, slot);
    LinkedView(m, s, base, x, n, c, v, gone, slot, lo, hi, want);
  }

  /** None of the guest clusters from that of x on, n of them, is mapped with COPIED set. */
  predicate NoneCopied(file: File, t: seq<Word>, x: nat, n: nat) {
    && L1Index(x) < |t| && t[L1Index(x)].copied && L2Index(x) + n <= L2_SIZE
    && forall q :: L2Index(x) <= q < L2Index(x) + n ==> !Read(file, t[L1Index(x)].cluster)[q].copied
  }

  lemma NoneCopiedFrame(s: Core, base: multiset<nat>, file: File, x: nat, n: nat, c: nat, k: nat)
    requires SoundCore(s, base + Run(c, k))
    requires L1Room(s) + SnapRuns(s.snaps, 0) <= base
    requires forall z: nat :: z < c || c + k <= z ==> Read(s.file, z) == Read(file, z)
    requires NoneCopied(s.file, s.l1, x, n)
    ensures NoneCopied(file, s.l1, x, n)
  {
    hide L1Index, L2Index, Read, EntryRefs, SoundCore, SnapRuns;
    var l2 := s.l1[L1Index(x)].cluster;
    EntryRefsMember(s.l1, 0, L1Index(x));
    RunCounts(c, k);
    if c <= l2 < c + k {
      assert Run(c, k)[l2] == 1;
      ExtraUnused(s, base, Run(c, k), l2);
    }
  }

  lemma OverwriteFacts(view: imap<nat, Sector>, s: nat, data: seq<Sector>)
    requires forall y: nat :: y in view
    ensures var want := Overwrite(view, s, data);
            && Base(s) + InCluster(s) == s
            && (forall i: nat :: i < |data| ==> data[i] == want[Base(s) + InCluster(s) + i])
            && AgreeOutside(want, view, Base(s) + InCluster(s), Base(s) + InCluster(s) + |data|)
  {
  }

  /** Filling part of a run that is not linked yet. */
  lemma FillNew(m: Medium, s: Core, base: multiset<nat>, x: nat, n: nat, c: nat, lo: nat, data: seq<Sector>,
                want: imap<nat, Sector>)
    requires m.Valid() && SoundCore(s, base + Run(c, n))
    requires L1Room(s) + SnapRuns(s.snaps, 0) <= base
    requires forall y: nat :: y in want
    requires lo + |data| <= Pos(n, 0)
    requires forall i: nat :: i < |data| ==> data[i] == want[Base(x) + lo + i]
    ensures var file := WriteSectors(s.file, c, lo, EncodeRun(m, Base(x) + lo, data));
            && SoundCore(s.(file := file), base + Run(c, n)) && SameGuest(m, s, s.(file := file))
            && Filled(m, file, c, x, lo, lo + |data|, want)
            && (NoneCopied(s.file, s.l1, x, n) ==> NoneCopied(file, s.l1, x, n))
  {
    hide Pos, Base, SoundCore, Read, SectorAt, WriteSectors, EncodeRun, SnapRuns, SameGuest, Run, NoneCopied, Filled;
    var run := EncodeRun(m, Base(x) + lo, data);
    var file := WriteSectors(s.file, c, lo, run);
    EncodeLength(m, Base(x) + lo, data);
    forall z: nat | z < c || c + n <= z ensures Read(s.file, z) == Read(file, z) {
      WriteSectorsFrame(s.file, c, n, lo, run, z);
    }
    ExtraWriteSound(m, s, base, c, n, file);
    WriteFills(m, s.file, c, x, lo, data, want);
    if NoneCopied(s.file, s.l1, x, n) { NoneCopiedFrame(s, base, file, x, n, c, n); }
  }
}
