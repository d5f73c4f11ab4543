/** Making a snapshot the active disk: the old disk's references go, the table is copied, the snapshot's references come. */
module Switching {
  import opened Layout
  import opened Counting
  import opened Forest
  import opened Guest
  import opened Steps
  import opened State
  import opened Walking
  import opened Snapshots

  /** Between two disks: only snapshots are counted; n clusters from c on are kept for the active L1 table. */
  ghost predicate Idle(file: File, rc: multiset<nat>, fixed: multiset<nat>, snaps: seq<Snapshot>, c: nat, n: nat) {
    && Consistent(file, rc, fixed, [], snaps)
    && Run(c, n) + SnapRuns(snaps, 0) <= fixed
    && |snaps| < MAX_REFCOUNT && NoEmptyTable(snaps)
  }

  ghost predicate SameTables(file: File, other: File, snaps: seq<Snapshot>) {
    forall k :: 0 <= k < |snaps| ==> SnapTable(file, snaps[k]) == SnapTable(other, snaps[k])
  }

  /** The old disk is let go. */
  lemma ActiveReleased(m: Medium, s: Core, fixed: multiset<nat>, file: File, rc: multiset<nat>, u: seq<Word>)
    requires SoundCore(s, fixed)
    requires Walked(-1, s.file, file, s.rc, rc, s.l1Cluster, s.l1, u)
    requires u == ReadTable(file, s.l1Cluster, |s.l1|)
    ensures Idle(file, rc, fixed, s.snaps, s.l1Cluster, Clusters(StoredSize(s))) && |u| == |s.l1|
    ensures ReadTable(file, s.l1Cluster, StoredSize(s)) == u + s.stale && Spans(u + s.stale) == Spans(s.l1 + s.stale)
    ensures SameSnapViews(m, s.file, file, s.snaps) && SameTables(s.file, file, s.snaps)
  {
    hide EntryRefs, DataRefs, Read, Clusters, SnapL2, SnapData, SnapRuns, ReadTable, View, Cells, SameSnapViews, Ledger, RootOk,
         SnapsOk, FlagRoot, CacheSound, Run, SnapTable, Consistent;
    L1Within(s, fixed);
    WalkedActive(m, s.file, s.rc, fixed, s.l1, s.snaps, s.l1Cluster, -1, file, rc, u);
    ActiveStaleKept(-1, s.file, file, s.rc, rc, fixed, s.l1Cluster, s.l1, u, s.stale, s.snaps);
    WalkedSpans(-1, s.file, file, s.rc, rc, s.l1Cluster, s.l1, u, s.stale);
    SpreadActive(-1, s.file, file, s.rc, rc, s.l1Cluster, s.l1, u, s.rc, fixed, s.l1, s.snaps);
    DropActive(file, s.rc, fixed, u, s.snaps);
  }

  /** The walk leaves the same entries in use. */
  lemma WalkedSpans(addend: int, file: File, other: File, rc: multiset<nat>, rc': multiset<nat>, c: nat, t: seq<Word>, u: seq<Word>,
                    stale: seq<Word>)
    requires Walked(addend, file, other, rc, rc', c, t, u)
    ensures |u| == |t| && Spans(u) == Spans(t) && Spans(u + stale) == Spans(t + stale)
  {
    hide EntryRefs, DataRefs, Read, Clusters, FlagRoot, Rest;
    SameSpans(t, u);
    SpansAppend(t, stale);
    SpansAppend(u, stale);
  }

  lemma SpansAppend(t: seq<Word>, u: seq<Word>)
    ensures forall i: nat :: i in Spans(t + u) <==> i in Spans(t) || (i >= |t| && i - |t| in Spans(u))
  {
  }

  /** What the idle image allows: giving fixed clusters back. */
  lemma IdleRoom(file: File, rc: multiset<nat>, fixed: multiset<nat>, snaps: seq<Snapshot>, c: nat, n: nat)
    requires Idle(file, rc, fixed, snaps, c, n)
    ensures Run(c, n) <= rc && SmallCounts(rc)
  {
    hide EntryRefs, DataRefs, Read, Clusters, SnapL2, SnapData, SnapRuns, ReadTable, Run, RootOk, SnapsOk;
    CountBound(file, rc, fixed, [], snaps);
    WithinLeft(Run(c, n), SnapRuns(snaps, 0), fixed);
    forall x: nat ensures Run(c, n)[x] <= rc[x] {
      CountAt(file, rc, fixed, [], snaps, x);
      assert Run(c, n)[x] <= fixed[x];
    }
  }

  lemma IdleNarrow(file: File, rc: multiset<nat>, fixed: multiset<nat>, snaps: seq<Snapshot>, c: nat, n: nat, all: nat)
    requires Idle(file, rc, fixed, snaps, c, all) && n <= all
    ensures Idle(file, rc, fixed, snaps, c, n)
  {
    hide Run, SnapRuns, Consistent;
    RunPrefix(c, n, all);
    assert Run(c, n) + SnapRuns(snaps, 0) <= Run(c, all) + SnapRuns(snaps, 0);
  }

  /** The L1 table moves to a longer run while idle. */
  lemma IdleGrown(m: Medium, file: File, rc: multiset<nat>, base: multiset<nat>, snaps: seq<Snapshot>, c: nat, n: nat,
                  t: seq<Word>, d: nat)
    requires Idle(file, rc, base + Run(c, n), snaps, c, n) && 0 in base && SnapRuns(snaps, 0) <= base
    requires forall x: nat :: d <= x < d + Clusters(|t|) ==> rc[x] == 0
    ensures var k := Clusters(|t|); var other := WriteTable(file, d, t);
      && Idle(other, rc + Run(d, k) - Run(c, n), base + Run(d, k), snaps, d, k)
      && SameSnapViews(m, file, other, snaps) && SameTables(file, other, snaps)
  {
    hide EntryRefs, DataRefs, Read, Clusters, SnapL2, SnapData, SnapRuns, ReadTable, View, Cells, SameSnapViews, Ledger, RootOk,
         SnapsOk, Run, SnapTable, Consistent, WriteTable, AlikeSnaps, Named;
    var k := Clusters(|t|);
    var other := WriteTable(file, d, t);
    forall x: nat | x < d || d + k <= x ensures Read(file, x) == Read(other, x) { WriteTableFrame(file, d, t, x); }
    RelocateKeeps(file, other, rc, base, Run(c, n), [], snaps, d, k);
    IdleSpared(m, file, rc, base + Run(c, n), other, snaps);
    assert Run(d, k) + SnapRuns(snaps, 0) <= base + Run(d, k);
  }

  /** A change that spares what snapshots use leaves their tables and contents alone. */
  lemma IdleSpared(m: Medium, file: File, rc: multiset<nat>, fixed: multiset<nat>, other: File, snaps: seq<Snapshot>)
    requires forall x: nat :: Named(file, [], snaps, x) || x in SnapRuns(snaps, 0) ==> Read(file, x) == Read(other, x)
    ensures AlikeSnaps(file, other, snaps)
    ensures SameSnapViews(m, file, other, snaps) && SameTables(file, other, snaps)
  {
    hide EntryRefs, DataRefs, Read, Clusters, SnapL2, SnapData, SnapRuns, ReadTable, View, Cells, SameSnapViews, SnapTable;
    SnapsFrame(file, other, snaps);
    AlikeSnapViews(m, file, other, snaps);
  }

  /** The table of snapshot k is copied to the place of the active one. */
  lemma IdleCopied(m: Medium, file: File, rc: multiset<nat>, fixed: multiset<nat>, snaps: seq<Snapshot>, c: nat, n: nat, k: nat)
    requires Idle(file, rc, fixed, snaps, c, n) && k < |snaps| && Clusters(snaps[k].size) <= n
    ensures var t := SnapTable(file, snaps[k]); var other := WriteTable(file, c, t);
      && Idle(other, rc, fixed, snaps, c, n)
      && SameSnapViews(m, file, other, snaps) && SameTables(file, other, snaps)
      && ReadTable(other, c, snaps[k].size) == t
      && (forall m: nat :: m >= snaps[k].size && Clusters(m) <= n ==>
            ReadTable(other, c, m) == t + ReadTable(file, c, m)[snaps[k].size..])
      && Run(c, Clusters(snaps[k].size)) <= Run(c, n)
      && Walkable(other, c, t) && Room(1, rc, RootRefs(other, t))
  {
    hide EntryRefs, DataRefs, Read, Clusters, SnapL2, SnapData, SnapRuns, ReadTable, View, Cells, SameSnapViews, Ledger, RootOk,
         SnapsOk, Run, SnapTable, WriteTable, AlikeSnaps, Consistent, NoEmptyTable, Walkable, Room;
    var t := SnapTable(file, snaps[k]);
    var other := WriteTable(file, c, t);
    SnapTableSize(file, snaps[k]);
    RunPrefix(c, Clusters(snaps[k].size), n);
    forall x: nat | Named(file, [], snaps, x) || x in SnapRuns(snaps, 0) ensures Read(file, x) == Read(other, x) {
      IdleApart(file, rc, fixed, snaps, c, n, x);
      WriteTableFrame(file, c, t, x);
    }
    IdleSpared(m, file, rc, fixed, other, snaps);
    NoRootAlike(file, other);
    AlikeConsistent(file, other, rc, fixed, [], [], snaps);
    ReadWriteTable(file, c, t);
    forall m: nat | m >= |t| && Clusters(m) <= n ensures ReadTable(other, c, m) == t + ReadTable(file, c, m)[|t|..] {
      CopiedBehind(file, c, t, m);
    }
    WithinLeft(Run(c, n), SnapRuns(snaps, 0), fixed);
    CopyReady(other, rc, fixed, snaps, c, k);
  }

  /** Writing a table leaves what lies behind it. */
  lemma CopiedBehind(file: File, c: nat, t: seq<Word>, m: nat)
    requires m >= |t|
    ensures ReadTable(WriteTable(file, c, t), c, m) == t + ReadTable(file, c, m)[|t|..]
  {
    hide WriteTable, ReadTable, Read, Rest, Clusters;
    var other := WriteTable(file, c, t);
    RestWrite(file, c, t);
    ReadWriteTable(file, c, t);
    forall x | c + Clusters(|t|) <= x < c + Clusters(m) ensures Read(file, x) == Read(other, x) {
      WriteTableFrame(file, c, t, x);
    }
    TableBehind(file, other, c, |t|, m);
  }

  lemma RunPrefix(c: nat, a: nat, n: nat)
    requires a <= n
    ensures Run(c, a) <= Run(c, n)
    ensures Run(c, n) == Run(c + a, n - a) + Run(c, a)
  {
    RunCounts(c, a);
    RunCounts(c, n);
    RunCounts(c + a, n - a);
  }

  lemma NoRootAlike(file: File, other: File)
    ensures AlikeRoot(file, [], other, [])
  {
  }

  lemma IdleApart(file: File, rc: multiset<nat>, fixed: multiset<nat>, snaps: seq<Snapshot>, c: nat, n: nat, x: nat)
    requires Idle(file, rc, fixed, snaps, c, n)
    requires Named(file, [], snaps, x) || x in SnapRuns(snaps, 0)
    ensures !(c <= x < c + n)
  {
    hide EntryRefs, DataRefs, Read, Clusters, SnapL2, SnapData, SnapRuns, ReadTable, RootOk, SnapsOk;
    CountAt(file, rc, fixed, [], snaps, x);
    RunCounts(c, n);
    assert (Run(c, n) + SnapRuns(snaps, 0))[x] <= fixed[x];
  }

  /** The copy of a snapshot's table can be walked to count its references once more. */
  lemma CopyReady(file: File, rc: multiset<nat>, fixed: multiset<nat>, snaps: seq<Snapshot>, c: nat, k: nat)
    requires Consistent(file, rc, fixed, [], snaps) && k < |snaps| < MAX_REFCOUNT
    requires Run(c, Clusters(snaps[k].size)) <= fixed
    ensures var t := SnapTable(file, snaps[k]); Walkable(file, c, t) && Room(1, rc, RootRefs(file, t))
  {
    hide EntryRefs, DataRefs, Read, Clusters, SnapL2, SnapData, SnapRuns, ReadTable, Ledger, Run, SnapTable, Walkable, Room;
    var t := SnapTable(file, snaps[k]);
    SnapTableSize(file, snaps[k]);
    SnapWithin(file, snaps, 0, k);
    assert RootOk(file, t);
    forall x: nat
      ensures x in EntryRefs(t, 0) ==> x in EntryRefs([], 0) + SnapL2(file, snaps, 0)
      ensures x in DataRefs(file, t, 0) ==> x in DataRefs(file, [], 0) + SnapData(file, snaps, 0)
    {
      assert EntryRefs(t, 0)[x] <= SnapL2(file, snaps, 0)[x];
      assert DataRefs(file, t, 0)[x] <= SnapData(file, snaps, 0)[x];
    }
    TableWalkable(file, rc, fixed, [], snaps, c, t);
    RootRoom(file, rc, fixed, [], snaps, t, 1);
  }

  /** Counting the copy's references makes it the active disk. */
  lemma Adopted(m: Medium, file: File, rc: multiset<nat>, fixed: multiset<nat>, snaps: seq<Snapshot>, c: nat, n: nat, k: nat,
                other: File, rc': multiset<nat>, u: seq<Word>, cache: Cache, stale: seq<Word>)
    requires Idle(file, rc, fixed, snaps, c, n) && k < |snaps| && Clusters(snaps[k].size + |stale|) == n && AnyCache(cache)
    requires ReadTable(file, c, snaps[k].size + |stale|) == SnapTable(file, snaps[k]) + stale
    requires Walked(1, file, other, rc, rc', c, SnapTable(file, snaps[k]), u)
    requires u == ReadTable(other, c, snaps[k].size)
    ensures SoundCore(Core(other, rc', u, c, snaps, cache, stale), fixed)
    ensures Spans(u) == Spans(SnapTable(file, snaps[k]))
    ensures View(m, other, u) == View(m, file, SnapTable(file, snaps[k])) && Cells(other, u) == Cells(file, SnapTable(file, snaps[k]))
    ensures SameSnapViews(m, file, other, snaps)
  {
    hide EntryRefs, DataRefs, Read, Clusters, SnapL2, SnapData, SnapRuns, ReadTable, View, Cells, SameSnapViews, Ledger, RootOk,
         SnapsOk, Run, SnapTable, AlikeSnaps, Consistent, FlagRoot, CacheSound, AlikeRoot, SameData, Spans, Rest, SoundCore, NoEmptyTable;
    var t := SnapTable(file, snaps[k]);
    SnapTableSize(file, snaps[k]);
    ClustersMonotone(snaps[k].size, snaps[k].size + |stale|);
    RunPrefix(c, Clusters(snaps[k].size), n);
    assert Run(c, Clusters(|t|)) + SnapRuns(snaps, 0) <= fixed;
    AdoptedBehind(file, rc, fixed, snaps, c, n, k, other, rc', u, stale);
    SnapWithin(file, snaps, 0, k);
    forall x: nat | x in EntryRefs(t, 0) ensures x in EntryRefs([], 0) + SnapL2(file, snaps, 0) {
      assert EntryRefs(t, 0)[x] <= SnapL2(file, snaps, 0)[x];
    }
    SpreadActive(1, file, other, rc, rc', c, t, u, rc, fixed, [], snaps);
    NoRootAlike(file, other);
    AlikeConsistent(file, other, rc, fixed, [], [], snaps);
    SpreadData(file, other, [], snaps);
    AlikeSnapViews(m, file, other, snaps);
    AlikeRefs(file, t, other, u);
    AlikeTwice(file, t, other, u);
    AdoptActive(other, rc, fixed, u, snaps, k);
    forall x | x in DataRefs(file, t, 0) ensures Read(file, x) == Read(other, x) {
      assert DataRefs(file, t, 0)[x] <= SnapData(file, snaps, 0)[x];
    }
    AlikeView(m, file, t, other, u);
    assert FlagRoot(other, rc', u);
    assert rc' == rc + RootRefs(other, u);
    AdoptedCore(other, rc', fixed, u, c, snaps, k, cache, stale);
  }

  lemma AdoptedCore(file: File, rc: multiset<nat>, fixed: multiset<nat>, u: seq<Word>, c: nat, snaps: seq<Snapshot>, k: nat, cache: Cache,
                    stale: seq<Word>)
    requires k < |snaps| < MAX_REFCOUNT && NoEmptyTable(snaps) && |u| == snaps[k].size && AnyCache(cache)
    requires Run(c, Clusters(|u| + |stale|)) + SnapRuns(snaps, 0) <= fixed && Consistent(file, rc, fixed, u, snaps)
    requires FlagRoot(file, rc, u) && ReadTable(file, c, |u| + |stale|) == u + stale
    ensures SoundCore(Core(file, rc, u, c, snaps, cache, stale), fixed)
  {
    hide EntryRefs, Run, SnapRuns, Clusters, ReadTable, Consistent, FlagRoot, CacheSound, SnapL2;
    AliasSizes(snaps, k);
  }

  /** What the file has behind the copied table stays there. */
  lemma AdoptedBehind(file: File, rc: multiset<nat>, fixed: multiset<nat>, snaps: seq<Snapshot>, c: nat, n: nat, k: nat, other: File,
                      rc': multiset<nat>, u: seq<Word>, stale: seq<Word>)
    requires Idle(file, rc, fixed, snaps, c, n) && k < |snaps| && Clusters(snaps[k].size + |stale|) == n
    requires ReadTable(file, c, snaps[k].size + |stale|) == SnapTable(file, snaps[k]) + stale
    requires Walked(1, file, other, rc, rc', c, SnapTable(file, snaps[k]), u) && u == ReadTable(other, c, snaps[k].size)
    ensures |u| == snaps[k].size && ReadTable(other, c, |u| + |stale|) == u + stale && Spans(u) == Spans(SnapTable(file, snaps[k]))
  {
    hide EntryRefs, Read, Clusters, SnapRuns, ReadTable, SnapTable, Consistent, Spans, Walked, Idle;
    var t := SnapTable(file, snaps[k]);
    SnapTableSize(file, snaps[k]);
    CopyApart(file, rc, fixed, snaps, c, n, k);
    StaleKept(1, file, other, rc, rc', c, t, u, stale);
    WalkedSpans(1, file, other, rc, rc', c, t, u, stale);
  }

  lemma CopyApart(file: File, rc: multiset<nat>, fixed: multiset<nat>, snaps: seq<Snapshot>, c: nat, n: nat, k: nat)
    requires Idle(file, rc, fixed, snaps, c, n) && k < |snaps|
    ensures forall x: nat :: c <= x < c + n ==> x !in EntryRefs(SnapTable(file, snaps[k]), 0)
  {
    hide EntryRefs, DataRefs, Read, Clusters, SnapL2, SnapData, SnapRuns, ReadTable, RootOk, SnapsOk, SnapTable;
    SnapWithin(file, snaps, 0, k);
    forall x: nat | c <= x < c + n ensures x !in EntryRefs(SnapTable(file, snaps[k]), 0) {
      if x in EntryRefs(SnapTable(file, snaps[k]), 0) {
        assert EntryRefs(SnapTable(file, snaps[k]), 0)[x] <= SnapL2(file, snaps, 0)[x];
        IdleApart(file, rc, fixed, snaps, c, n, x);
      }
    }
  }

  lemma AliasSizes(snaps: seq<Snapshot>, k: nat)
    requires k < |snaps| && NoEmptyTable(snaps)
    ensures snaps[k].size >= 1
  {
  }

  /** Two tables that differ in flags only name the same L2 tables. */
  lemma AlikeTwice(file: File, t: seq<Word>, other: File, u: seq<Word>)
    requires AlikeRoot(file, t, other, u)
    ensures AlikeRoot(other, t, other, u)
  {
    hide Read;
    forall i | 0 <= i < |t| && t[i] != ZERO ensures SameTable(Read(other, t[i].cluster), Read(other, t[i].cluster)) {
      SameTableSelf(Read(other, t[i].cluster));
    }
  }

  lemma SameTableAt(file: File, other: File, snaps: seq<Snapshot>, k: nat)
    requires SameTables(file, other, snaps) && k < |snaps|
    ensures SnapTable(file, snaps[k]) == SnapTable(other, snaps[k])
  {
  }

  lemma SnapViewAt(m: Medium, file: File, other: File, snaps: seq<Snapshot>, k: nat)
    requires SameSnapViews(m, file, other, snaps) && k < |snaps|
    ensures View(m, file, SnapTable(file, snaps[k])) == View(m, other, SnapTable(other, snaps[k]))
    ensures Cells(file, SnapTable(file, snaps[k])) == Cells(other, SnapTable(other, snaps[k]))
    ensures Spans(SnapTable(file, snaps[k])) == Spans(SnapTable(other, snaps[k]))
  {
    assert SameSnap(m, file, other, snaps[k]);
  }

  /** Clusters of an L1 table's run at c that a shorter table leaves unused. */
  ghost function Unused(c: nat, have: nat, need: nat): multiset<nat> {
    if need < have then Run(c + need, have - need) else multiset{}
  }

  lemma UnusedSplit(c: nat, have: nat, need: nat)
    requires need <= have
    ensures Run(c, have) == Unused(c, have, need) + Run(c, need)
  {
    RunPrefix(c, need, have);
    assert need == have ==> Run(c + need, have - need) == multiset{};
  }

  lemma UnusedTwice(c: nat, have: nat, middle: nat, need: nat)
    requires need <= middle <= have
    ensures Unused(c, have, need) == Unused(c, have, middle) + Unused(c, middle, need)
  {
    UnusedSplit(c, have, need);
    UnusedSplit(c, have, middle);
    UnusedSplit(c, middle, need);
  }

  /** Nothing is left unused exactly when both tables need the same number of clusters. */
  lemma NothingUnused(c: nat, have: nat, need: nat)
    requires need <= have
    ensures Unused(c, have, need) == multiset{} <==> have == need
    ensures forall m: multiset<nat> :: m + Unused(c, have, need) == m <==> have == need
  {
    RunCounts(c + need, have - need);
    if need < have {
      assert Unused(c, have, need)[c + need] == 1;
      forall m: multiset<nat> ensures m + Unused(c, have, need) != m {
        assert (m + Unused(c, have, need))[c + need] == m[c + need] + 1;
      }
    } else {
      forall m: multiset<nat> ensures m + Unused(c, have, need) == m {
      }
    }
  }
}
