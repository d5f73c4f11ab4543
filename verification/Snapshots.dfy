/** Whole roots coming and going: a snapshot taken, dropped, or made the active disk. */
module Snapshots {
  import opened Layout
  import opened Counting
  import opened Forest
  import opened Guest
  import opened Steps
  import opened State
  import opened Walking

  // ---------------------------------------------------------------------------------------
  // Accounts

  lemma LedgerAdd(rc: multiset<nat>, fixed: multiset<nat>, l2: multiset<nat>, data: multiset<nat>,
                  snapL2: multiset<nat>, snapData: multiset<nat>, l2': multiset<nat>, data': multiset<nat>,
                  snapL2': multiset<nat>, snapData': multiset<nat>, more: multiset<nat>, moreData: multiset<nat>)
    requires Ledger(rc, fixed, l2, data, snapL2, snapData)
    requires forall c: nat :: l2'[c] + snapL2'[c] == l2[c] + snapL2[c] + more[c]
    requires forall c: nat :: data'[c] + snapData'[c] == data[c] + snapData[c] + moreData[c]
    requires forall c: nat :: (c in more ==> l2[c] + snapL2[c] > 0) && (c in moreData ==> data[c] + snapData[c] > 0)
    ensures Ledger(rc + (more + moreData), fixed, l2', data', snapL2', snapData')
  {
    forall c: nat ensures Account(rc + (more + moreData), fixed, l2', data', snapL2', snapData', c) {
      assert Account(rc, fixed, l2, data, snapL2, snapData, c);
      assert l2'[c] + snapL2'[c] == l2[c] + snapL2[c] + more[c];
      assert data'[c] + snapData'[c] == data[c] + snapData[c] + moreData[c];
    }
  }

  lemma LedgerDrop(rc: multiset<nat>, fixed: multiset<nat>, l2: multiset<nat>, data: multiset<nat>,
                   snapL2: multiset<nat>, snapData: multiset<nat>, l2': multiset<nat>, data': multiset<nat>,
                   snapL2': multiset<nat>, snapData': multiset<nat>, less: multiset<nat>, lessData: multiset<nat>)
    requires Ledger(rc, fixed, l2, data, snapL2, snapData)
    requires forall c: nat :: l2'[c] + snapL2'[c] + less[c] == l2[c] + snapL2[c]
    requires forall c: nat :: data'[c] + snapData'[c] + lessData[c] == data[c] + snapData[c]
    ensures less + lessData <= rc
    ensures Ledger(rc - (less + lessData), fixed, l2', data', snapL2', snapData')
  {
    forall c: nat
      ensures (less + lessData)[c] <= rc[c]
      ensures Account(rc - (less + lessData), fixed, l2', data', snapL2', snapData', c)
    {
      assert Account(rc, fixed, l2, data, snapL2, snapData, c);
      assert l2'[c] + snapL2'[c] + less[c] == l2[c] + snapL2[c];
      assert data'[c] + snapData'[c] + lessData[c] == data[c] + snapData[c];
    }
  }

  // ---------------------------------------------------------------------------------------
  // Roots

  lemma NoRoot(file: File)
    ensures EntryRefs([], 0) == multiset{} && DataRefs(file, [], 0) == multiset{} && RootOk(file, [])
  {
  }

  lemma DropActive(file: File, rc: multiset<nat>, fixed: multiset<nat>, t: seq<Word>, snaps: seq<Snapshot>)
    requires Consistent(file, rc, fixed, t, snaps)
    ensures RootRefs(file, t) <= rc
    ensures Consistent(file, rc - RootRefs(file, t), fixed, [], snaps)
  {
    hide EntryRefs, DataRefs, SnapL2, SnapData, SnapRuns, RootOk, SnapsOk, Ledger;
    NoRoot(file);
    LedgerDrop(rc, fixed, EntryRefs(t, 0), DataRefs(file, t, 0), SnapL2(file, snaps, 0), SnapData(file, snaps, 0),
               EntryRefs([], 0), DataRefs(file, [], 0), SnapL2(file, snaps, 0), SnapData(file, snaps, 0),
               EntryRefs(t, 0), DataRefs(file, t, 0));
  }

  /** A copy of a snapshot's table, its flags aside, becomes the active one. */
  lemma AdoptActive(file: File, rc: multiset<nat>, fixed: multiset<nat>, t: seq<Word>, snaps: seq<Snapshot>, k: nat)
    requires Consistent(file, rc, fixed, [], snaps) && k < |snaps|
    requires AlikeRoot(file, SnapTable(file, snaps[k]), file, t)
    ensures Consistent(file, rc + RootRefs(file, t), fixed, t, snaps)
  {
    hide EntryRefs, DataRefs, SnapL2, SnapData, SnapRuns, RootOk, Ledger, SnapTable, AlikeRoot;
    NoRoot(file);
    AlikeRefs(file, SnapTable(file, snaps[k]), file, t);
    SnapWithin(file, snaps, 0, k);
    forall c: nat
      ensures c in EntryRefs(t, 0) ==> SnapL2(file, snaps, 0)[c] > 0
      ensures c in DataRefs(file, t, 0) ==> SnapData(file, snaps, 0)[c] > 0
    {
      assert EntryRefs(t, 0)[c] <= SnapL2(file, snaps, 0)[c];
      assert DataRefs(file, t, 0)[c] <= SnapData(file, snaps, 0)[c];
    }
    LedgerAdd(rc, fixed, EntryRefs([], 0), DataRefs(file, [], 0), SnapL2(file, snaps, 0), SnapData(file, snaps, 0),
              EntryRefs(t, 0), DataRefs(file, t, 0), SnapL2(file, snaps, 0), SnapData(file, snaps, 0),
              EntryRefs(t, 0), DataRefs(file, t, 0));
  }

  /** The active table, stored in fixed clusters of its own, becomes a snapshot's as well. */
  lemma AddSnap(file: File, rc: multiset<nat>, fixed: multiset<nat>, t: seq<Word>, snaps: seq<Snapshot>, sn: Snapshot)
    requires Consistent(file, rc, fixed, t, snaps)
    requires SnapTable(file, sn) == t
    requires SnapRuns(snaps, 0) + Run(sn.cluster, Clusters(sn.size)) <= fixed
    ensures Consistent(file, rc + RootRefs(file, t), fixed, t, snaps + [sn])
  {
    hide EntryRefs, DataRefs, SnapL2, SnapData, SnapRuns, RootOk, Ledger, SnapTable, Run, Clusters;
    SnapAppend(file, snaps, sn, 0);
    SnapRunAppend(snaps, sn, 0);
    LedgerAdd(rc, fixed, EntryRefs(t, 0), DataRefs(file, t, 0), SnapL2(file, snaps, 0), SnapData(file, snaps, 0),
              EntryRefs(t, 0), DataRefs(file, t, 0), SnapL2(file, snaps + [sn], 0), SnapData(file, snaps + [sn], 0),
              EntryRefs(t, 0), DataRefs(file, t, 0));
  }

  lemma DropSnap(file: File, rc: multiset<nat>, fixed: multiset<nat>, t: seq<Word>, snaps: seq<Snapshot>, k: nat)
    requires Consistent(file, rc, fixed, t, snaps) && k < |snaps|
    ensures RootRefs(file, SnapTable(file, snaps[k])) <= rc
    ensures Consistent(file, rc - RootRefs(file, SnapTable(file, snaps[k])), fixed, t, Without(snaps, k))
    ensures SnapRuns(snaps, 0) == SnapRuns(Without(snaps, k), 0) + Run(snaps[k].cluster, Clusters(snaps[k].size))
  {
    hide EntryRefs, DataRefs, SnapL2, SnapData, SnapRuns, RootOk, Ledger, SnapTable, Run, Clusters;
    var less := Without(snaps, k);
    SnapRemove(file, snaps, k, 0);
    SnapRunRemove(file, snaps, k, 0);
    LedgerDrop(rc, fixed, EntryRefs(t, 0), DataRefs(file, t, 0), SnapL2(file, snaps, 0), SnapData(file, snaps, 0),
               EntryRefs(t, 0), DataRefs(file, t, 0), SnapL2(file, less, 0), SnapData(file, less, 0),
               EntryRefs(SnapTable(file, snaps[k]), 0), DataRefs(file, SnapTable(file, snaps[k]), 0));
    forall i | 0 <= i < |less| ensures RootOk(file, SnapTable(file, less[i])) {
      assert less[i] == snaps[if i < k then i else i + 1];
    }
    assert SnapRuns(less, 0) <= SnapRuns(snaps, 0);
  }

  // ---------------------------------------------------------------------------------------
  // The walk seen from the other roots

  /** Outside the walked L1 table, clusters change in flags only, and only L2 tables do. */
  lemma WalkSpread(addend: int, file: File, other: File, rc: multiset<nat>, rc': multiset<nat>, c: nat, t: seq<Word>,
                   u: seq<Word>, x: nat)
    requires Walked(addend, file, other, rc, rc', c, t, u)
    requires !(c <= x < c + Clusters(|t|))
    ensures SameTable(Read(file, x), Read(other, x))
    ensures x !in EntryRefs(t, 0) ==> Read(file, x) == Read(other, x)
  {
    hide EntryRefs, DataRefs, Read, Clusters, FlagRoot;
    if x in EntryRefs(t, 0) {
      var i := EntryRefsWitness(t, 0, x);
      assert SameTable(Read(file, t[i].cluster), Read(other, t[i].cluster));
    } else {
      forall j | 0 <= j < L2_SIZE ensures SameEntry(Read(file, x)[j], Read(other, x)[j]) { SameEntrySelf(Read(file, x)[j]); }
    }
  }

  /** A root none of whose L2 tables lies in the walked L1 table differs in flags only. */
  lemma WalkSpreadRoot(addend: int, file: File, other: File, rc: multiset<nat>, rc': multiset<nat>, c: nat, t: seq<Word>,
                       u: seq<Word>, r: seq<Word>)
    requires Walked(addend, file, other, rc, rc', c, t, u)
    requires forall x: nat :: x in EntryRefs(r, 0) ==> !(c <= x < c + Clusters(|t|))
    ensures AlikeRoot(file, r, other, r)
  {
    hide EntryRefs, DataRefs, Read, Clusters, Walked, SameTable;
    forall i | 0 <= i < |r| && r[i] != ZERO ensures SameTable(Read(file, r[i].cluster), Read(other, r[i].cluster)) {
      EntryRefsMember(r, 0, i);
      WalkSpread(addend, file, other, rc, rc', c, t, u, r[i].cluster);
    }
    SameTableSelf(r);
  }

  lemma SameTableSelf(r: seq<Word>)
    ensures SameTable(r, r)
  {
    forall j | 0 <= j < |r| ensures SameEntry(r[j], r[j]) { SameEntrySelf(r[j]); }
  }

  /** The walk changed no guest data. */
  ghost predicate SameData(file: File, other: File, t: seq<Word>, snaps: seq<Snapshot>) {
    forall x: nat :: x in DataRefs(file, t, 0) || x in SnapData(file, snaps, 0) ==> Read(file, x) == Read(other, x)
  }

  /** What a walk over the root t at cluster c leaves of an image that t belongs to. */
  ghost predicate Spread(file: File, other: File, fixed: multiset<nat>, t: seq<Word>, snaps: seq<Snapshot>, c: nat, n: nat) {
    && (forall x: nat :: x in fixed && !(c <= x < c + n) ==> Read(file, x) == Read(other, x))
    && AlikeRoot(file, t, other, t)
    && SameData(file, other, t, snaps)
  }

  lemma WalkSpreads(addend: int, file: File, other: File, rc: multiset<nat>, rc': multiset<nat>, c: nat, r: seq<Word>,
                    u: seq<Word>, counts: multiset<nat>, fixed: multiset<nat>, t: seq<Word>, snaps: seq<Snapshot>)
    requires Walked(addend, file, other, rc, rc', c, r, u)
    requires Consistent(file, counts, fixed, t, snaps) && Run(c, Clusters(|r|)) <= fixed
    requires forall x: nat :: x in EntryRefs(r, 0) ==> x in EntryRefs(t, 0) + SnapL2(file, snaps, 0)
    ensures Spread(file, other, fixed, t, snaps, c, Clusters(|r|))
  {
    hide EntryRefs, DataRefs, Read, Clusters, Walked, SnapL2, SnapData, SnapRuns, RootOk, SnapsOk, AlikeRoot, Ledger;
    var n := Clusters(|r|);
    RunCounts(c, n);
    forall x: nat | x in fixed && !(c <= x < c + n) ensures Read(file, x) == Read(other, x) {
      CountAt(file, counts, fixed, t, snaps, x);
      WalkSpread(addend, file, other, rc, rc', c, r, u, x);
    }
    forall x: nat | x in DataRefs(file, t, 0) || x in SnapData(file, snaps, 0) ensures Read(file, x) == Read(other, x) {
      CountAt(file, counts, fixed, t, snaps, x);
      assert Run(c, n)[x] <= fixed[x];
      WalkSpread(addend, file, other, rc, rc', c, r, u, x);
    }
    forall x: nat | x in EntryRefs(t, 0) ensures !(c <= x < c + n) {
      CountAt(file, counts, fixed, t, snaps, x);
      assert Run(c, n)[x] <= fixed[x];
    }
    WalkSpreadRoot(addend, file, other, rc, rc', c, r, u, t);
  }

  ghost predicate DisjointRuns(a: nat, m: nat, c: nat, n: nat) {
    forall x: nat :: InRun(a, m, x) ==> !InRun(c, n, x)
  }

  /** Snapshots after a walk over a root whose L1 table is not that of snapshot k. */
  lemma SpreadSnap(addend: int, file: File, other: File, rc: multiset<nat>, rc': multiset<nat>, c: nat, r: seq<Word>,
                   u: seq<Word>, counts: multiset<nat>, fixed: multiset<nat>, t: seq<Word>, snaps: seq<Snapshot>, k: nat)
    requires Walked(addend, file, other, rc, rc', c, r, u)
    requires Consistent(file, counts, fixed, t, snaps) && Run(c, Clusters(|r|)) <= fixed
    requires Spread(file, other, fixed, t, snaps, c, Clusters(|r|)) && k < |snaps|
    requires DisjointRuns(snaps[k].cluster, Clusters(snaps[k].size), c, Clusters(|r|))
    ensures SnapTable(other, snaps[k]) == SnapTable(file, snaps[k])
    ensures AlikeRoot(file, SnapTable(file, snaps[k]), other, SnapTable(other, snaps[k]))
  {
    hide EntryRefs, DataRefs, Read, Clusters, Walked, SnapL2, SnapData, SnapRuns, RootOk, SnapsOk, AlikeRoot, Ledger, ReadTable;
    var sn := snaps[k];
    var n := Clusters(|r|);
    SnapRunWithin(snaps, 0, k);
    RunCounts(sn.cluster, Clusters(sn.size));
    RunCounts(c, n);
    forall x | sn.cluster <= x < sn.cluster + Clusters(sn.size) ensures Read(file, x) == Read(other, x) {
      assert InRun(sn.cluster, Clusters(sn.size), x);
      assert Run(sn.cluster, Clusters(sn.size))[x] <= SnapRuns(snaps, 0)[x] <= fixed[x];
    }
    ReadTableFrame(file, other, sn.cluster, sn.size);
    SnapWithin(file, snaps, 0, k);
    forall x: nat | x in EntryRefs(SnapTable(file, sn), 0) ensures !(c <= x < c + n) {
      assert EntryRefs(SnapTable(file, sn), 0)[x] <= SnapL2(file, snaps, 0)[x];
      CountAt(file, counts, fixed, t, snaps, x);
      assert Run(c, n)[x] <= fixed[x];
    }
    WalkSpreadRoot(addend, file, other, rc, rc', c, r, u, SnapTable(file, sn));
  }

  /** A walk over the active table, or a copy of a table at its place, spares the snapshots' own tables. */
  lemma SpreadActive(addend: int, file: File, other: File, rc: multiset<nat>, rc': multiset<nat>, c: nat, r: seq<Word>,
                     u: seq<Word>, counts: multiset<nat>, fixed: multiset<nat>, t: seq<Word>, snaps: seq<Snapshot>)
    requires Walked(addend, file, other, rc, rc', c, r, u)
    requires Consistent(file, counts, fixed, t, snaps)
    requires Run(c, Clusters(|r|)) + SnapRuns(snaps, 0) <= fixed
    requires forall x: nat :: x in EntryRefs(r, 0) ==> x in EntryRefs(t, 0) + SnapL2(file, snaps, 0)
    ensures Spread(file, other, fixed, t, snaps, c, Clusters(|r|))
    ensures AlikeSnaps(file, other, snaps)
    ensures forall k :: 0 <= k < |snaps| ==> SnapTable(other, snaps[k]) == SnapTable(file, snaps[k])
  {
    hide EntryRefs, DataRefs, Read, Clusters, Walked, SnapL2, SnapData, SnapRuns, RootOk, SnapsOk, AlikeRoot, Ledger, ReadTable,
         SnapTable, Consistent, Spread;
    CountsWithin(file, counts, fixed, t, snaps, c, Clusters(|r|));
    WalkSpreads(addend, file, other, rc, rc', c, r, u, counts, fixed, t, snaps);
    forall k | 0 <= k < |snaps|
      ensures SnapTable(other, snaps[k]) == SnapTable(file, snaps[k])
      ensures AlikeRoot(file, SnapTable(file, snaps[k]), other, SnapTable(other, snaps[k]))
    {
      RunsApart(file, counts, fixed, t, snaps, c, Clusters(|r|), k);
      SpreadSnap(addend, file, other, rc, rc', c, r, u, counts, fixed, t, snaps, k);
    }
  }

  lemma CountsWithin(file: File, counts: multiset<nat>, fixed: multiset<nat>, t: seq<Word>, snaps: seq<Snapshot>, c: nat, n: nat)
    requires Run(c, n) + SnapRuns(snaps, 0) <= fixed
    ensures Run(c, n) <= fixed
  {
    hide SnapRuns, Run;
  }

  lemma RunsApart(file: File, counts: multiset<nat>, fixed: multiset<nat>, t: seq<Word>, snaps: seq<Snapshot>, c: nat, n: nat, k: nat)
    requires Consistent(file, counts, fixed, t, snaps) && k < |snaps|
    requires Run(c, n) + SnapRuns(snaps, 0) <= fixed
    ensures DisjointRuns(snaps[k].cluster, Clusters(snaps[k].size), c, n)
  {
    hide EntryRefs, DataRefs, Read, Clusters, SnapL2, SnapData, SnapRuns, RootOk, SnapsOk, ReadTable;
    var sn := snaps[k];
    SnapRunWithin(snaps, 0, k);
    RunCounts(sn.cluster, Clusters(sn.size));
    RunCounts(c, n);
    forall x: nat | InRun(sn.cluster, Clusters(sn.size), x) ensures !InRun(c, n, x) {
      CountAt(file, counts, fixed, t, snaps, x);
      assert Run(sn.cluster, Clusters(sn.size))[x] <= SnapRuns(snaps, 0)[x];
      assert (Run(c, n) + SnapRuns(snaps, 0))[x] <= fixed[x];
    }
  }

  // ---------------------------------------------------------------------------------------
  // Walks over the active table

  lemma TableWalkable(file: File, rc: multiset<nat>, fixed: multiset<nat>, t: seq<Word>, snaps: seq<Snapshot>, c: nat,
                      r: seq<Word>)
    requires Consistent(file, rc, fixed, t, snaps) && Run(c, Clusters(|r|)) <= fixed && PlainRoot(file, r)
    requires forall x: nat :: x in EntryRefs(r, 0) ==> x in EntryRefs(t, 0) + SnapL2(file, snaps, 0)
    requires forall x: nat :: x in DataRefs(file, r, 0) ==> x in DataRefs(file, t, 0) + SnapData(file, snaps, 0)
    ensures Walkable(file, c, r)
  {
    hide EntryRefs, DataRefs, Read, Clusters, SnapL2, SnapData, SnapRuns, ReadTable, RootOk, SnapsOk, PlainRoot;
    CountAt(file, rc, fixed, t, snaps, 0);
    RunCounts(c, Clusters(|r|));
    forall x: nat | c <= x < c + Clusters(|r|) ensures x !in EntryRefs(r, 0) {
      CountAt(file, rc, fixed, t, snaps, x);
      assert Run(c, Clusters(|r|))[x] <= fixed[x];
    }
  }

  /** Every reference of a root can be counted once more, once less, or looked at. */
  lemma RootRoom(file: File, rc: multiset<nat>, fixed: multiset<nat>, t: seq<Word>, snaps: seq<Snapshot>, r: seq<Word>, addend: int)
    requires Consistent(file, rc, fixed, t, snaps) && addend in {-1, 0, 1}
    requires |snaps| + 1 < MAX_REFCOUNT || (t == [] && snaps != [] && |snaps| < MAX_REFCOUNT)
    requires Once(file, r)
    requires forall c: nat :: c in EntryRefs(r, 0) ==> c in EntryRefs(t, 0) + SnapL2(file, snaps, 0)
    requires forall c: nat :: c in DataRefs(file, r, 0) ==> c in DataRefs(file, t, 0) + SnapData(file, snaps, 0)
    ensures Room(addend, rc, RootRefs(file, r))
  {
    hide EntryRefs, DataRefs, SnapL2, SnapData, SnapRuns, RootOk, SnapsOk;
    CountBound(file, rc, fixed, t, snaps);
    forall x: nat ensures RoomAt(addend, rc, RootRefs(file, r), x) {
      CountAt(file, rc, fixed, t, snaps, x);
      assert EntryRefs(r, 0)[x] <= 1 && DataRefs(file, r, 0)[x] <= 1;
    }
  }

  /** A walk over the active table at cluster c leaves guest data and accounts as they are. */
  lemma WalkedActive(m: Medium, file: File, rc: multiset<nat>, fixed: multiset<nat>, t: seq<Word>, snaps: seq<Snapshot>,
                     c: nat, addend: int, other: File, rc': multiset<nat>, u: seq<Word>)
    requires Consistent(file, rc, fixed, t, snaps) && Run(c, Clusters(|t|)) + SnapRuns(snaps, 0) <= fixed
    requires Walked(addend, file, other, rc, rc', c, t, u)
    ensures Consistent(other, rc, fixed, u, snaps)
    ensures RootRefs(other, u) == RootRefs(file, t)
    ensures View(m, other, u) == View(m, file, t) && Cells(other, u) == Cells(file, t) && SameSnapViews(m, file, other, snaps)
  {
    hide EntryRefs, DataRefs, Read, Clusters, SnapL2, SnapData, SnapRuns, ReadTable, View, Cells, SameSnapViews, AlikeRoot, AlikeSnaps,
         Ledger, RootOk, SnapsOk, FlagRoot, CacheSound, Run;
    SpreadActive(addend, file, other, rc, rc', c, t, u, rc, fixed, t, snaps);
    AlikeConsistent(file, other, rc, fixed, t, u, snaps);
    AlikeRefs(file, t, other, u);
    AlikeView(m, file, t, other, u);
    AlikeSnapViews(m, file, other, snaps);
  }

  /** A walk over the table of snapshot k does so as well. */
  lemma WalkedSnapshot(m: Medium, file: File, rc: multiset<nat>, fixed: multiset<nat>, t: seq<Word>, snaps: seq<Snapshot>,
                       k: nat, addend: int, other: File, rc': multiset<nat>, u: seq<Word>)
    requires Consistent(file, rc, fixed, t, snaps) && k < |snaps|
    requires Walked(addend, file, other, rc, rc', snaps[k].cluster, SnapTable(file, snaps[k]), u)
    requires u == SnapTable(other, snaps[k])
    ensures Consistent(other, rc, fixed, t, snaps)
    ensures RootRefs(other, u) == RootRefs(file, SnapTable(file, snaps[k]))
    ensures View(m, other, t) == View(m, file, t) && Cells(other, t) == Cells(file, t) && SameSnapViews(m, file, other, snaps)
    ensures forall x: nat :: x in fixed && !InRun(snaps[k].cluster, Clusters(snaps[k].size), x) ==> Read(file, x) == Read(other, x)
  {
    hide EntryRefs, DataRefs, Read, Clusters, SnapL2, SnapData, SnapRuns, ReadTable, View, Cells, SameSnapViews, AlikeRoot, AlikeSnaps,
         Ledger, RootOk, SnapsOk, FlagRoot, CacheSound, Run, Walked, SnapTable, SameData;
    var r := SnapTable(file, snaps[k]);
    SnapRunWithin(snaps, 0, k);
    SnapWithin(file, snaps, 0, k);
    SnapTableSize(file, snaps[k]);
    forall x: nat | x in EntryRefs(r, 0) ensures x in EntryRefs(t, 0) + SnapL2(file, snaps, 0) {
      assert EntryRefs(r, 0)[x] <= SnapL2(file, snaps, 0)[x];
    }
    WalkSpreads(addend, file, other, rc, rc', snaps[k].cluster, r, u, rc, fixed, t, snaps);
    assert AlikeSnaps(file, other, snaps) by { WalkedSnaps(file, rc, fixed, t, snaps, k, addend, other, rc', u); }
    assert AlikeRoot(file, r, other, u) by { WalkedAlike(addend, file, other, rc, rc', snaps[k].cluster, r, u); }
    AlikeConsistent(file, other, rc, fixed, t, t, snaps);
    AlikeRefs(file, r, other, u);
    SpreadData(file, other, t, snaps);
    AlikeView(m, file, t, other, t);
    AlikeSnapViews(m, file, other, snaps);
  }

  lemma SpreadData(file: File, other: File, t: seq<Word>, snaps: seq<Snapshot>)
    requires SameData(file, other, t, snaps)
    ensures forall x: nat :: x in DataRefs(file, t, 0) || x in SnapData(file, snaps, 0) ==> Read(file, x) == Read(other, x)
  {
  }

  lemma SnapTableSize(file: File, sn: Snapshot)
    ensures |SnapTable(file, sn)| == sn.size
  {
  }

  lemma WalkedAlike(addend: int, file: File, other: File, rc: multiset<nat>, rc': multiset<nat>, c: nat, t: seq<Word>, u: seq<Word>)
    requires Walked(addend, file, other, rc, rc', c, t, u)
    ensures AlikeRoot(file, t, other, u)
  {
  }

  lemma WalkedSnaps(file: File, rc: multiset<nat>, fixed: multiset<nat>, t: seq<Word>, snaps: seq<Snapshot>,
                    k: nat, addend: int, other: File, rc': multiset<nat>, u: seq<Word>)
    requires Consistent(file, rc, fixed, t, snaps) && k < |snaps|
    requires Walked(addend, file, other, rc, rc', snaps[k].cluster, SnapTable(file, snaps[k]), u)
    requires u == SnapTable(other, snaps[k])
    requires Spread(file, other, fixed, t, snaps, snaps[k].cluster, Clusters(snaps[k].size))
    ensures AlikeSnaps(file, other, snaps)
  {
    hide EntryRefs, DataRefs, Read, Clusters, SnapL2, SnapData, SnapRuns, ReadTable, AlikeRoot, Ledger, RootOk, SnapsOk, Run,
         Walked, SnapTable, Spread, Consistent;
    SnapTableSize(file, snaps[k]);
    forall i | 0 <= i < |snaps| ensures AlikeRoot(file, SnapTable(file, snaps[i]), other, SnapTable(other, snaps[i])) {
      if i == k {
        WalkedAlike(addend, file, other, rc, rc', snaps[k].cluster, SnapTable(file, snaps[k]), u);
      } else {
        SnapRunsApart(file, rc, fixed, t, snaps, i, k);
        SnapRunFixed(file, rc, fixed, t, snaps, k);
        SpreadSnap(addend, file, other, rc, rc', snaps[k].cluster, SnapTable(file, snaps[k]), u, rc, fixed, t, snaps, i);
      }
    }
  }

  lemma SnapRunFixed(file: File, rc: multiset<nat>, fixed: multiset<nat>, t: seq<Word>, snaps: seq<Snapshot>, k: nat)
    requires Consistent(file, rc, fixed, t, snaps) && k < |snaps|
    ensures Run(snaps[k].cluster, Clusters(snaps[k].size)) <= fixed
  {
    hide SnapRuns, Run, Clusters;
    SnapRunWithin(snaps, 0, k);
  }

  /** The L1 tables of two snapshots share no cluster. */
  lemma SnapRunsApart(file: File, rc: multiset<nat>, fixed: multiset<nat>, t: seq<Word>, snaps: seq<Snapshot>, i: nat, k: nat)
    requires Consistent(file, rc, fixed, t, snaps) && i < |snaps| && k < |snaps| && i != k
    ensures DisjointRuns(snaps[i].cluster, Clusters(snaps[i].size), snaps[k].cluster, Clusters(snaps[k].size))
  {
    hide EntryRefs, DataRefs, Read, Clusters, SnapL2, SnapData, SnapRuns, ReadTable, RootOk, SnapsOk;
    var less := Without(snaps, k);
    SnapRunRemove(file, snaps, k, 0);
    assert less[if i < k then i else i - 1] == snaps[i];
    SnapRunWithin(less, 0, if i < k then i else i - 1);
    RunCounts(snaps[i].cluster, Clusters(snaps[i].size));
    RunCounts(snaps[k].cluster, Clusters(snaps[k].size));
    forall x: nat | InRun(snaps[i].cluster, Clusters(snaps[i].size), x)
      ensures !InRun(snaps[k].cluster, Clusters(snaps[k].size), x)
    {
      CountAt(file, rc, fixed, t, snaps, x);
      assert Run(snaps[i].cluster, Clusters(snaps[i].size))[x] <= SnapRuns(less, 0)[x];
      assert SnapRuns(snaps, 0)[x] <= fixed[x];
    }
  }

  // ---------------------------------------------------------------------------------------
  // Taking a snapshot

  /** A table written to unreferenced clusters changes nothing that is in use. */
  lemma TableWrite(m: Medium, file: File, rc: multiset<nat>, fixed: multiset<nat>, t: seq<Word>, snaps: seq<Snapshot>,
                   c: nat, r: seq<Word>)
    requires Consistent(file, rc, fixed, t, snaps)
    requires forall x: nat :: c <= x < c + Clusters(|r|) ==> rc[x] == 0
    ensures var n := Clusters(|r|); var other := WriteTable(file, c, r);
      && Consistent(other, rc + Run(c, n), fixed + Run(c, n), t, snaps)
      && (FlagRoot(file, rc, t) ==> FlagRoot(other, rc + Run(c, n), t))
      && (forall x: nat :: x in fixed ==> Read(file, x) == Read(other, x))
      && ReadTable(other, c, |r|) == r
      && View(m, other, t) == View(m, file, t) && Cells(other, t) == Cells(file, t) && SameSnapViews(m, file, other, snaps)
      && RootRefs(other, t) == RootRefs(file, t)
  {
    hide EntryRefs, DataRefs, Read, Clusters, SnapL2, SnapData, SnapRuns, ReadTable, View, Cells, SameSnapViews, AlikeRoot, AlikeSnaps,
         Ledger, RootOk, SnapsOk, FlagRoot, WriteTable;
    var n := Clusters(|r|);
    var other := WriteTable(file, c, r);
    forall x: nat | Named(file, t, snaps, x) || x in fixed ensures Read(file, x) == Read(other, x) {
      CountAt(file, rc, fixed, t, snaps, x);
      WriteTableFrame(file, c, r, x);
    }
    AllocKeeps(file, rc, fixed, t, snaps, c, n);
    WriteKeeps(file, other, rc + Run(c, n), fixed + Run(c, n), t, snaps);
    ReadWriteTable(file, c, r);
    AlikeRefs(file, t, other, t);
    AlikeView(m, file, t, other, t);
    AlikeSnapViews(m, file, other, snaps);
  }

  lemma FixedTable(file: File, other: File, fixed: multiset<nat>, c: nat, n: nat)
    requires Run(c, Clusters(n)) <= fixed
    requires forall x: nat :: x in fixed ==> Read(file, x) == Read(other, x)
    ensures ReadTable(other, c, n) == ReadTable(file, c, n)
  {
    hide Clusters, ReadTable, Read;
    RunCounts(c, Clusters(n));
    forall x | c <= x < c + Clusters(n) ensures Read(file, x) == Read(other, x) {
      assert Run(c, Clusters(n))[x] <= fixed[x];
    }
    ReadTableFrame(file, other, c, n);
  }

  /** A walk leaves what the file has behind the table alone. */
  lemma StaleKept(addend: int, file: File, other: File, rc: multiset<nat>, rc': multiset<nat>, c: nat, t: seq<Word>, u: seq<Word>,
                  stale: seq<Word>)
    requires Walked(addend, file, other, rc, rc', c, t, u) && u == ReadTable(other, c, |t|)
    requires ReadTable(file, c, |t| + |stale|) == t + stale
    requires forall x: nat :: c <= x < c + Clusters(|t| + |stale|) ==> x !in EntryRefs(t, 0)
    ensures |u| == |t| && ReadTable(other, c, |u| + |stale|) == u + stale
  {
    hide EntryRefs, DataRefs, Read, ReadTable, Clusters, Rest, Walked;
    WalkedOutside(addend, file, other, rc, rc', c, t, u);
    StaleBehind(file, other, c, t, u, stale);
  }

  lemma WalkedOutside(addend: int, file: File, other: File, rc: multiset<nat>, rc': multiset<nat>, c: nat, t: seq<Word>, u: seq<Word>)
    requires Walked(addend, file, other, rc, rc', c, t, u)
    ensures |u| == |t| && Rest(file, c, |t|) == Rest(other, c, |t|)
    ensures forall x: nat :: x !in EntryRefs(t, 0) && !(c <= x < c + Clusters(|t|)) ==> Read(file, x) == Read(other, x)
  {
    hide EntryRefs, DataRefs, Read, Clusters, FlagRoot, Rest;
  }

  lemma StaleBehind(file: File, other: File, c: nat, t: seq<Word>, u: seq<Word>, stale: seq<Word>)
    requires |u| == |t| && u == ReadTable(other, c, |t|) && ReadTable(file, c, |t| + |stale|) == t + stale
    requires Rest(file, c, |t|) == Rest(other, c, |t|)
    requires forall x: nat :: c + Clusters(|t|) <= x < c + Clusters(|t| + |stale|) ==> Read(file, x) == Read(other, x)
    ensures ReadTable(other, c, |u| + |stale|) == u + stale
  {
    hide Read, ReadTable, Clusters, Rest;
    TableBehind(file, other, c, |t|, |t| + |stale|);
    assert (t + stale)[|t|..] == stale;
  }

  /** So it does with the active table. */
  lemma ActiveStaleKept(addend: int, file: File, other: File, rc: multiset<nat>, rc': multiset<nat>, fixed: multiset<nat>, c: nat,
                        t: seq<Word>, u: seq<Word>, stale: seq<Word>, snaps: seq<Snapshot>)
    requires Consistent(file, rc, fixed, t, snaps) && Run(c, Clusters(|t| + |stale|)) <= fixed
    requires Walked(addend, file, other, rc, rc', c, t, u) && u == ReadTable(other, c, |t|)
    requires ReadTable(file, c, |t| + |stale|) == t + stale
    ensures |u| == |t| && ReadTable(other, c, |u| + |stale|) == u + stale
  {
    hide EntryRefs, DataRefs, Read, ReadTable, Clusters, SnapL2, SnapData, SnapRuns, RootOk, SnapsOk, Walked;
    RunCounts(c, Clusters(|t| + |stale|));
    forall x: nat | c <= x < c + Clusters(|t| + |stale|) ensures x !in EntryRefs(t, 0) {
      CountAt(file, rc, fixed, t, snaps, x);
      assert Run(c, Clusters(|t| + |stale|))[x] <= fixed[x];
    }
    StaleKept(addend, file, other, rc, rc', c, t, u, stale);
  }

  ghost predicate AnyCache(k: Cache) {
    forall f: File, l2s: multiset<nat> :: CacheSound(f, k, l2s)
  }

  /** The image after a snapshot was taken. */
  ghost function WithSnapshot(s: Core, file: File, rc: multiset<nat>, u: seq<Word>, sn: Snapshot, k: Cache): Core {
    Core(WriteTable(file, sn.cluster, u), rc + Run(sn.cluster, Clusters(|u|)), u, s.l1Cluster, s.snaps + [sn], k, s.stale)
  }

  lemma TakeSound(m: Medium, s: Core, base: multiset<nat>, file: File, rc: multiset<nat>, u: seq<Word>, sn: Snapshot, k: Cache)
    requires SoundCore(s, base + Run(s.l1Cluster, Clusters(|s.l1|)))
    requires |s.snaps| + 1 < MAX_REFCOUNT && AnyCache(k)
    requires Walked(1, s.file, file, s.rc, rc, s.l1Cluster, s.l1, u)
    requires u == ReadTable(file, s.l1Cluster, |s.l1|) && sn.size == |u|
    requires forall x: nat :: sn.cluster <= x < sn.cluster + Clusters(|u|) ==> rc[x] == 0
    ensures SoundCore(WithSnapshot(s, file, rc, u, sn, k),
                      base + Run(sn.cluster, Clusters(|u|)) + Run(s.l1Cluster, Clusters(|u|)))
    ensures View(m, WithSnapshot(s, file, rc, u, sn, k).file, u) == View(m, s.file, s.l1)
    ensures Cells(WithSnapshot(s, file, rc, u, sn, k).file, u) == Cells(s.file, s.l1)
    ensures SameSnapViews(m, s.file, WithSnapshot(s, file, rc, u, sn, k).file, s.snaps)
    ensures SnapTable(WithSnapshot(s, file, rc, u, sn, k).file, sn) == u
  {
    hide EntryRefs, DataRefs, Read, Clusters, SnapL2, SnapData, SnapRuns, ReadTable, View, Cells, SameSnapViews, AlikeRoot, AlikeSnaps,
         Ledger, RootOk, SnapsOk, WriteTable, CacheSound, Run, SnapTable, Consistent, FlagRoot;
    var fixed := base + Run(s.l1Cluster, Clusters(|s.l1|));
    var n := Clusters(|u|);
    var more := RootRefs(file, u);
    L1Within(s, fixed);
    WalkedActive(m, s.file, s.rc, fixed, s.l1, s.snaps, s.l1Cluster, 1, file, rc, u);
    ActiveStaleKept(1, s.file, file, s.rc, rc, fixed, s.l1Cluster, s.l1, u, s.stale, s.snaps);
    assert rc == s.rc + more;
    forall x: nat | sn.cluster <= x < sn.cluster + Clusters(|u|) ensures s.rc[x] == 0 {
      assert rc[x] == s.rc[x] + more[x];
    }
    TableWrite(m, file, s.rc, fixed, u, s.snaps, sn.cluster, u);
    var other := WriteTable(file, sn.cluster, u);
    TakeFlags(file, s.rc, rc, fixed, u, s.snaps, sn);
    assert SnapTable(other, sn) == u by { SnapTableIs(other, sn); }
    assert SnapRuns(s.snaps, 0) + Run(sn.cluster, n) <= fixed + Run(sn.cluster, n);
    AddSnap(other, s.rc + Run(sn.cluster, n), fixed + Run(sn.cluster, n), u, s.snaps, sn);
    Shuffle(s.rc, Run(sn.cluster, n), more);
    Shuffle(base, Run(s.l1Cluster, Clusters(|s.l1|)), Run(sn.cluster, n));
    SnapRunAppend(s.snaps, sn, 0);
    FixedTable(file, other, fixed, s.l1Cluster, StoredSize(s));
    SnapViewsStep(m, s.file, file, other, s.snaps);
  }

  lemma TakeFlags(file: File, before: multiset<nat>, rc: multiset<nat>, fixed: multiset<nat>, u: seq<Word>,
                  snaps: seq<Snapshot>, sn: Snapshot)
    requires Consistent(file, before, fixed, u, snaps) && before <= rc && FlagRoot(file, rc, u)
    requires forall x: nat :: sn.cluster <= x < sn.cluster + Clusters(|u|) ==> rc[x] == 0
    ensures FlagRoot(WriteTable(file, sn.cluster, u), rc + Run(sn.cluster, Clusters(|u|)), u)
  {
    hide EntryRefs, DataRefs, Read, Clusters, SnapL2, SnapData, SnapRuns, RootOk, SnapsOk, WriteTable;
    var n := Clusters(|u|);
    var other := WriteTable(file, sn.cluster, u);
    RunCounts(sn.cluster, n);
    forall x: nat | x in EntryRefs(u, 0) || x in DataRefs(file, u, 0)
      ensures rc[x] == (rc + Run(sn.cluster, n))[x] && Read(file, x) == Read(other, x)
    {
      CountAt(file, before, fixed, u, snaps, x);
      assert before[x] <= rc[x];
      WriteTableFrame(file, sn.cluster, u, x);
    }
    FlagsFrame(file, rc, rc + Run(sn.cluster, n), u);
    forall i | 0 <= i < |u| && u[i] != ZERO ensures Read(file, u[i].cluster) == Read(other, u[i].cluster) {
      EntryRefsMember(u, 0, i);
    }
  }

  lemma SnapTableIs(file: File, sn: Snapshot)
    ensures SnapTable(file, sn) == ReadTable(file, sn.cluster, sn.size)
  {
  }

  lemma SnapViewsStep(m: Medium, a: File, b: File, c: File, snaps: seq<Snapshot>)
    requires SameSnapViews(m, a, b, snaps) && SameSnapViews(m, b, c, snaps)
    ensures SameSnapViews(m, a, c, snaps)
  {
    SameSnapsStep(m, a, b, c, snaps);
  }

  /** The active table is ready to be walked. */
  lemma ActiveReady(s: Core, fixed: multiset<nat>, addend: int)
    requires SoundCore(s, fixed) && |s.snaps| + 1 < MAX_REFCOUNT && addend in {-1, 0, 1}
    ensures s.l1 == ReadTable(s.file, s.l1Cluster, |s.l1|)
    ensures Walkable(s.file, s.l1Cluster, s.l1)
    ensures Room(addend, s.rc, RootRefs(s.file, s.l1))
  {
    hide EntryRefs, DataRefs, SnapL2, SnapData, SnapRuns, Run, Read, ReadTable, Room;
    L1Within(s, fixed);
    L1Stored(s, fixed);
    TableWalkable(s.file, s.rc, fixed, s.l1, s.snaps, s.l1Cluster, s.l1);
    RootRoom(s.file, s.rc, fixed, s.l1, s.snaps, s.l1, addend);
  }

  /** A table of metadata moves to new clusters. */
  lemma TableMoves(s: Core, a: multiset<nat>, gone: multiset<nat>, b: multiset<nat>, l1: multiset<nat>, c: nat, n: nat)
    requires SoundCore(s, a + gone + b + multiset{} + l1) && 0 in a
    requires b == SnapRuns(s.snaps, 0) && L1Room(s) <= a + l1
    requires forall x: nat :: c <= x < c + n ==> s.rc[x] == 0
    ensures gone <= s.rc + Run(c, n) && SmallCounts(s.rc + Run(c, n))
    ensures SoundCore(s.(rc := s.rc + Run(c, n) - gone), a + Run(c, n) + b + multiset{} + l1)
  {
    hide EntryRefs, DataRefs, SnapL2, SnapData, SnapRuns, Run, Read, ReadTable, SoundCore, SmallCounts;
    assert a + gone + b + multiset{} + l1 == (a + b + l1) + gone;
    AllocSound(s, a + b + l1, gone, c, n);
    var r := s.(rc := s.rc + Run(c, n));
    assert L1Room(r) + b <= a + b + l1 + Run(c, n);
    FreeSound(r, a + b + l1 + Run(c, n), gone);
    assert a + b + l1 + Run(c, n) == a + Run(c, n) + b + multiset{} + l1;
    SoundRoom(s, a + b + l1, gone);
    SmallAfterAlloc(s.rc, c, n);
  }

  lemma TablesWithin(a: multiset<nat>, b: multiset<nat>, l1: multiset<nat>)
    requires b <= a
    ensures l1 + b <= a + l1
  {
  }

  // ---------------------------------------------------------------------------------------
  // Dropping a snapshot

  /** The table of snapshot k is ready to be walked. */
  lemma SnapshotReady(s: Core, fixed: multiset<nat>, k: nat)
    requires SoundCore(s, fixed) && k < |s.snaps|
    ensures s.snaps[k].cluster != s.l1Cluster
    ensures Walkable(s.file, s.snaps[k].cluster, SnapTable(s.file, s.snaps[k]))
    ensures Room(-1, s.rc, RootRefs(s.file, SnapTable(s.file, s.snaps[k])))
  {
    hide EntryRefs, DataRefs, SnapL2, SnapData, SnapRuns, Run, Read, ReadTable, Room, SnapTable, Ledger, FlagRoot, CacheSound;
    var sn := s.snaps[k];
    var r := SnapTable(s.file, sn);
    SnapTableSize(s.file, sn);
    SnapWithin(s.file, s.snaps, 0, k);
    SnapRunFixed(s.file, s.rc, fixed, s.l1, s.snaps, k);
    forall x: nat
      ensures x in EntryRefs(r, 0) ==> x in EntryRefs(s.l1, 0) + SnapL2(s.file, s.snaps, 0)
      ensures x in DataRefs(s.file, r, 0) ==> x in DataRefs(s.file, s.l1, 0) + SnapData(s.file, s.snaps, 0)
    {
      assert EntryRefs(r, 0)[x] <= SnapL2(s.file, s.snaps, 0)[x];
      assert DataRefs(s.file, r, 0)[x] <= SnapData(s.file, s.snaps, 0)[x];
    }
    assert RootOk(s.file, r);
    TableWalkable(s.file, s.rc, fixed, s.l1, s.snaps, sn.cluster, r);
    DownRoom(s.file, s.rc, fixed, s.l1, s.snaps, r);
    RunsApart(s.file, s.rc, fixed, s.l1, s.snaps, s.l1Cluster, Clusters(StoredSize(s)), k);
    assert InRun(sn.cluster, Clusters(sn.size), sn.cluster);
    assert InRun(s.l1Cluster, Clusters(StoredSize(s)), s.l1Cluster);
  }

  /** References of a root can always be given up. */
  lemma DownRoom(file: File, rc: multiset<nat>, fixed: multiset<nat>, t: seq<Word>, snaps: seq<Snapshot>, r: seq<Word>)
    requires Consistent(file, rc, fixed, t, snaps) && |snaps| < MAX_REFCOUNT && Once(file, r)
    requires forall c: nat :: c in EntryRefs(r, 0) ==> c in EntryRefs(t, 0) + SnapL2(file, snaps, 0)
    requires forall c: nat :: c in DataRefs(file, r, 0) ==> c in DataRefs(file, t, 0) + SnapData(file, snaps, 0)
    ensures Room(-1, rc, RootRefs(file, r)) && Room(0, rc, RootRefs(file, r))
  {
    hide EntryRefs, DataRefs, SnapL2, SnapData, SnapRuns, RootOk, SnapsOk;
    CountBound(file, rc, fixed, t, snaps);
    forall x: nat
      ensures RoomAt(-1, rc, RootRefs(file, r), x)
      ensures RoomAt(0, rc, RootRefs(file, r), x)
    {
      CountAt(file, rc, fixed, t, snaps, x);
      assert EntryRefs(r, 0)[x] <= 1 && DataRefs(file, r, 0)[x] <= 1;
    }
  }

  /** After the walk over its table, snapshot k is gone from the accounts; the active table is ready for its turn. */
  lemma SnapshotReleased(m: Medium, s: Core, fixed: multiset<nat>, k: nat, file: File, rc: multiset<nat>)
    requires SoundCore(s, fixed) && k < |s.snaps|
    requires Walked(-1, s.file, file, s.rc, rc, s.snaps[k].cluster, SnapTable(s.file, s.snaps[k]), SnapTable(file, s.snaps[k]))
    ensures Consistent(file, rc, fixed, s.l1, Without(s.snaps, k)) && |Without(s.snaps, k)| < MAX_REFCOUNT
    ensures SnapRuns(s.snaps, 0) == SnapRuns(Without(s.snaps, k), 0) + Run(s.snaps[k].cluster, Clusters(s.snaps[k].size))
    ensures ReadTable(file, s.l1Cluster, StoredSize(s)) == s.l1 + s.stale
    ensures View(m, file, s.l1) == View(m, s.file, s.l1) && Cells(file, s.l1) == Cells(s.file, s.l1)
    ensures SameSnapViews(m, s.file, file, s.snaps)
  {
    hide EntryRefs, DataRefs, Read, Clusters, SnapL2, SnapData, SnapRuns, ReadTable, View, Cells, SameSnapViews, Ledger, RootOk,
         SnapsOk, FlagRoot, CacheSound, Run, SnapTable, Consistent, DisjointRuns;
    WalkedSnapshot(m, s.file, s.rc, fixed, s.l1, s.snaps, k, -1, file, rc, SnapTable(file, s.snaps[k]));
    DropSnap(file, s.rc, fixed, s.l1, s.snaps, k);
    RunsApart(s.file, s.rc, fixed, s.l1, s.snaps, s.l1Cluster, Clusters(StoredSize(s)), k);
    ActiveUntouched(s, fixed, k, file);
  }

  lemma ActiveUntouched(s: Core, fixed: multiset<nat>, k: nat, file: File)
    requires SoundCore(s, fixed) && k < |s.snaps|
    requires DisjointRuns(s.snaps[k].cluster, Clusters(s.snaps[k].size), s.l1Cluster, Clusters(StoredSize(s)))
    requires forall x: nat :: x in fixed && !InRun(s.snaps[k].cluster, Clusters(s.snaps[k].size), x) ==> Read(s.file, x) == Read(file, x)
    ensures ReadTable(file, s.l1Cluster, StoredSize(s)) == s.l1 + s.stale
  {
    hide EntryRefs, DataRefs, Read, Clusters, SnapL2, SnapData, SnapRuns, ReadTable, Ledger, RootOk, SnapsOk, FlagRoot, CacheSound;
    forall x: nat | s.l1Cluster <= x < s.l1Cluster + Clusters(StoredSize(s)) ensures Read(s.file, x) == Read(file, x) {
      L1RunApart(s, fixed, x);
      assert InRun(s.l1Cluster, Clusters(StoredSize(s)), x);
    }
    ReadTableFrame(s.file, file, s.l1Cluster, StoredSize(s));
  }

  /** The active table after a snapshot was released: ready to be walked for its flags. */
  lemma FlagsReady(file: File, rc: multiset<nat>, fixed: multiset<nat>, t: seq<Word>, snaps: seq<Snapshot>, c: nat)
    requires Consistent(file, rc, fixed, t, snaps) && |snaps| < MAX_REFCOUNT && Run(c, Clusters(|t|)) <= fixed
    ensures Walkable(file, c, t) && Room(0, rc, RootRefs(file, t))
  {
    hide EntryRefs, DataRefs, Read, Clusters, SnapL2, SnapData, SnapRuns, Ledger, SnapsOk, Run, Room;
    TableWalkable(file, rc, fixed, t, snaps, c, t);
    DownRoom(file, rc, fixed, t, snaps, t);
  }

  /** The image without snapshot k, its flags recomputed; its table's clusters are still to be given back. */
  lemma DropSound(m: Medium, s: Core, fixed: multiset<nat>, k: nat, file1: File, rc: multiset<nat>, file: File, u: seq<Word>, c: Cache)
    requires SoundCore(s, fixed) && k < |s.snaps| && AnyCache(c)
    requires Walked(-1, s.file, file1, s.rc, rc, s.snaps[k].cluster, SnapTable(s.file, s.snaps[k]), SnapTable(file1, s.snaps[k]))
    requires Walked(0, file1, file, rc, rc, s.l1Cluster, s.l1, u) && u == ReadTable(file, s.l1Cluster, |s.l1|)
    ensures SoundCore(Core(file, rc, u, s.l1Cluster, Without(s.snaps, k), c, s.stale), fixed)
    ensures View(m, file, u) == View(m, s.file, s.l1) && Cells(file, u) == Cells(s.file, s.l1)
    ensures SameSnapViews(m, s.file, file, Without(s.snaps, k))
  {
    hide EntryRefs, DataRefs, Read, Clusters, SnapL2, SnapData, SnapRuns, ReadTable, View, Cells, SameSnapViews, Ledger, RootOk,
         SnapsOk, FlagRoot, CacheSound, Run, SnapTable, Consistent;
    var less := Without(s.snaps, k);
    SnapshotReleased(m, s, fixed, k, file1, rc);
    assert L1Room(s) + SnapRuns(less, 0) <= fixed;
    L1Prefix(s);
    assert Run(s.l1Cluster, Clusters(|s.l1|)) + SnapRuns(less, 0) <= fixed;
    ActiveStaleKept(0, file1, file, rc, rc, fixed, s.l1Cluster, s.l1, u, s.stale, less);
    WalkedActive(m, file1, rc, fixed, s.l1, less, s.l1Cluster, 0, file, rc, u);
    WithoutViews(m, s.file, file1, s.snaps, k);
    SnapViewsStep(m, s.file, file1, file, less);
    forall i | 0 <= i < |less| ensures less[i].size >= 1 { assert less[i] == s.snaps[if i < k then i else i + 1]; }
  }

  lemma WithoutViews(m: Medium, file: File, other: File, snaps: seq<Snapshot>, k: nat)
    requires k < |snaps| && SameSnapViews(m, file, other, snaps)
    ensures SameSnapViews(m, file, other, Without(snaps, k))
  {
    hide SameSnap;
    var less := Without(snaps, k);
    forall i | 0 <= i < |less| ensures SameSnap(m, file, other, less[i]) {
      assert less[i] == snaps[if i < k then i else i + 1];
    }
  }

  lemma L1Within(s: Core, fixed: multiset<nat>)
    requires SoundCore(s, fixed)
    ensures Run(s.l1Cluster, Clusters(|s.l1|)) <= fixed && Run(s.l1Cluster, Clusters(|s.l1|)) + SnapRuns(s.snaps, 0) <= fixed
    ensures L1Room(s) <= fixed
  {
    hide SnapRuns, Run, Clusters, Consistent, FlagRoot, CacheSound;
    L1Prefix(s);
    WithinLeft(L1Room(s), SnapRuns(s.snaps, 0), fixed);
    assert Run(s.l1Cluster, Clusters(|s.l1|)) + SnapRuns(s.snaps, 0) <= fixed;
  }

  lemma WalkedSame(file: File, other: File, rc: multiset<nat>, rc': multiset<nat>, c: nat, t: seq<Word>, u: seq<Word>)
    requires Walked(0, file, other, rc, rc', c, t, u)
    ensures rc' == rc && |u| == |t|
  {
  }

  /** The clusters of a dropped snapshot's table are given back. */
  lemma TableGone(s: Core, a: multiset<nat>, b: multiset<nat>, l1: multiset<nat>, gone: multiset<nat>)
    requires SoundCore(s, a + (b + gone) + l1) && 0 in a
    requires b == SnapRuns(s.snaps, 0) && L1Room(s) <= a + l1
    ensures gone <= s.rc && SmallCounts(s.rc)
    ensures SoundCore(s.(rc := s.rc - gone), a + b + multiset{} + l1)
  {
    hide SnapRuns, Run, Clusters, SoundCore, SmallCounts;
    assert a + (b + gone) + l1 == (a + b + l1) + gone;
    assert L1Room(s) + b <= a + b + l1;
    SoundRoom(s, a + b + l1, gone);
    FreeSound(s, a + b + l1, gone);
    assert a + b + multiset{} + l1 == a + b + l1;
  }

  /** The active table is ready to give up its references. */
  lemma DownReady(s: Core, fixed: multiset<nat>)
    requires SoundCore(s, fixed)
    ensures s.l1 == ReadTable(s.file, s.l1Cluster, |s.l1|) && |s.l1| >= 1
    ensures Walkable(s.file, s.l1Cluster, s.l1)
    ensures Room(-1, s.rc, RootRefs(s.file, s.l1))
  {
    hide EntryRefs, DataRefs, SnapL2, SnapData, SnapRuns, Run, Read, ReadTable, Room, Clusters;
    L1Within(s, fixed);
    L1Stored(s, fixed);
    TableWalkable(s.file, s.rc, fixed, s.l1, s.snaps, s.l1Cluster, s.l1);
    DownRoom(s.file, s.rc, fixed, s.l1, s.snaps, s.l1);
  }
}
