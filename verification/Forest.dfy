/** The tables of an image seen as a forest: one L1 table is a root, its entries name L2 tables,
    the entries of those name data clusters. */
module Forest {
  import opened Layout
  import opened Counting

  datatype Snapshot = Snapshot(cluster: nat, size: nat, id: string, name: string)

  /** The L1 table of a snapshot exists only in the file. */
  function SnapTable(file: File, sn: Snapshot): seq<Word> {
    ReadTable(file, sn.cluster, sn.size)
  }

  function SnapRuns(snaps: seq<Snapshot>, k: nat): multiset<nat>
    requires k <= |snaps|
    decreases |snaps| - k
  {
    if k == |snaps| then multiset{}
    else Run(snaps[k].cluster, Clusters(snaps[k].size)) + SnapRuns(snaps, k + 1)
  }

  function SnapL2(file: File, snaps: seq<Snapshot>, k: nat): multiset<nat>
    requires k <= |snaps|
    decreases |snaps| - k
  {
    if k == |snaps| then multiset{} else EntryRefs(SnapTable(file, snaps[k]), 0) + SnapL2(file, snaps, k + 1)
  }

  function SnapData(file: File, snaps: seq<Snapshot>, k: nat): multiset<nat>
    requires k <= |snaps|
    decreases |snaps| - k
  {
    if k == |snaps| then multiset{} else DataRefs(file, SnapTable(file, snaps[k]), 0) + SnapData(file, snaps, k + 1)
  }

  // ---------------------------------------------------------------------------------------
  // Well-formed roots

  /** Entries that name whole clusters: not compressed, aligned. */
  predicate PlainTable(t: seq<Word>) {
    forall j :: 0 <= j < |t| ==> t[j] == ZERO || (!t[j].compressed && t[j].low == 0)
  }

  predicate PlainRoot(file: File, t: seq<Word>) {
    PlainTable(t) && forall i :: 0 <= i < |t| && t[i] != ZERO ==> PlainTable(Read(file, t[i].cluster))
  }

  /** One root reaches each L2 table and each data cluster along at most one path. */
  ghost predicate Once(file: File, t: seq<Word>) {
    forall c: nat :: EntryRefs(t, 0)[c] <= 1 && DataRefs(file, t, 0)[c] <= 1
  }

  ghost predicate RootOk(file: File, t: seq<Word>) {
    PlainRoot(file, t) && Once(file, t)
  }

  /** The COPIED flag says that the reference count is exactly one. */
  predicate FlagOk(rc: multiset<nat>, w: Word) {
    w != ZERO ==> (w.copied <==> rc[w.cluster] == 1)
  }

  predicate FlagTable(rc: multiset<nat>, t: seq<Word>) {
    forall j :: 0 <= j < |t| ==> FlagOk(rc, t[j])
  }

  predicate FlagRoot(file: File, rc: multiset<nat>, t: seq<Word>) {
    FlagTable(rc, t) && forall i :: 0 <= i < |t| && t[i] != ZERO ==> FlagTable(rc, Read(file, t[i].cluster))
  }

  /** The account of one cluster: its count is the number of its references, and it has one role,
      metadata (one reference), L2 table or data. */
  ghost predicate Account(rc: multiset<nat>, fixed: multiset<nat>, l2: multiset<nat>, data: multiset<nat>,
                          snapL2: multiset<nat>, snapData: multiset<nat>, c: nat) {
    && rc[c] == fixed[c] + l2[c] + data[c] + snapL2[c] + snapData[c]
    && fixed[c] <= 1
    && (fixed[c] == 1 ==> l2[c] + snapL2[c] == 0 && data[c] + snapData[c] == 0)
    && (l2[c] + snapL2[c] == 0 || data[c] + snapData[c] == 0)
  }

  ghost predicate Ledger(rc: multiset<nat>, fixed: multiset<nat>, l2: multiset<nat>, data: multiset<nat>,
                         snapL2: multiset<nat>, snapData: multiset<nat>) {
    forall c: nat :: Account(rc, fixed, l2, data, snapL2, snapData, c)
  }

  /** The central invariant: counts are exact, roles are kept apart, roots are well formed.
      fixed counts the clusters used for anything but L2 tables and data; cluster 0 is the header. */
  ghost predicate Consistent(file: File, rc: multiset<nat>, fixed: multiset<nat>, active: seq<Word>,
                             snaps: seq<Snapshot>) {
    && 0 in fixed && SnapRuns(snaps, 0) <= fixed
    && Ledger(rc, fixed, EntryRefs(active, 0), DataRefs(file, active, 0), SnapL2(file, snaps, 0), SnapData(file, snaps, 0))
    && RootOk(file, active)
    && SnapsOk(file, snaps)
  }

  ghost predicate SnapsOk(file: File, snaps: seq<Snapshot>) {
    forall k :: 0 <= k < |snaps| ==> RootOk(file, SnapTable(file, snaps[k]))
  }

  // ---------------------------------------------------------------------------------------
  // Roots that differ in flags only

  predicate AlikeRoot(file: File, t: seq<Word>, other: File, u: seq<Word>) {
    && SameTable(t, u)
    && forall i :: 0 <= i < |t| && t[i] != ZERO ==> SameTable(Read(file, t[i].cluster), Read(other, t[i].cluster))
  }

  lemma AlikeRefs(file: File, t: seq<Word>, other: File, u: seq<Word>)
    requires AlikeRoot(file, t, other, u)
    ensures EntryRefs(t, 0) == EntryRefs(u, 0)
    ensures DataRefs(file, t, 0) == DataRefs(other, u, 0)
    ensures RootOk(file, t) ==> RootOk(other, u)
  {
    hide EntryRefs, DataRefs, Read;
    SameTableRefs(t, u, 0);
    forall i | 0 <= i < |t| ensures PathRefs(file, t[i]) == PathRefs(other, u[i]) {
      assert SameEntry(t[i], u[i]);
      if t[i] != ZERO { SameTableRefs(Read(file, t[i].cluster), Read(other, t[i].cluster), 0); }
    }
    DataRefsSame(file, other, t, u, 0);
    if RootOk(file, t) {
      SameTablePlain(t, u);
      forall i | 0 <= i < |u| && u[i] != ZERO ensures PlainTable(Read(other, u[i].cluster)) {
        assert SameEntry(t[i], u[i]);
        SameTablePlain(Read(file, t[i].cluster), Read(other, t[i].cluster));
      }
    }
  }

  lemma SameTablePlain(t: seq<Word>, u: seq<Word>)
    requires SameTable(t, u) && PlainTable(t)
    ensures PlainTable(u)
  {
    forall j | 0 <= j < |u| ensures u[j] == ZERO || (!u[j].compressed && u[j].low == 0) {
      assert SameEntry(t[j], u[j]);
    }
  }

  predicate AlikeSnaps(file: File, other: File, snaps: seq<Snapshot>) {
    forall k :: 0 <= k < |snaps| ==> AlikeRoot(file, SnapTable(file, snaps[k]), other, SnapTable(other, snaps[k]))
  }

  lemma {:induction false} AlikeSnapRefs(file: File, other: File, snaps: seq<Snapshot>, k: nat)
    requires k <= |snaps| && AlikeSnaps(file, other, snaps)
    ensures SnapL2(file, snaps, k) == SnapL2(other, snaps, k)
    ensures SnapData(file, snaps, k) == SnapData(other, snaps, k)
    decreases |snaps| - k
  {
    if k < |snaps| {
      AlikeRefs(file, SnapTable(file, snaps[k]), other, SnapTable(other, snaps[k]));
      AlikeSnapRefs(file, other, snaps, k + 1);
    }
  }

  lemma AlikeSnapsOk(file: File, other: File, snaps: seq<Snapshot>)
    requires AlikeSnaps(file, other, snaps) && SnapsOk(file, snaps)
    ensures SnapsOk(other, snaps)
  {
    forall k | 0 <= k < |snaps| ensures RootOk(other, SnapTable(other, snaps[k])) {
      AlikeRefs(file, SnapTable(file, snaps[k]), other, SnapTable(other, snaps[k]));
    }
  }

  /** Changing flags anywhere leaves every count as it is. */
  lemma AlikeConsistent(file: File, other: File, rc: multiset<nat>, fixed: multiset<nat>, t: seq<Word>, u: seq<Word>,
                        snaps: seq<Snapshot>)
    requires Consistent(file, rc, fixed, t, snaps)
    requires AlikeRoot(file, t, other, u) && AlikeSnaps(file, other, snaps)
    ensures Consistent(other, rc, fixed, u, snaps)
  {
    AlikeRefs(file, t, other, u);
    AlikeSnapRefs(file, other, snaps, 0);
    AlikeSnapsOk(file, other, snaps);
  }

  // ---------------------------------------------------------------------------------------
  // Membership

  lemma {:induction false} SnapRunWithin(snaps: seq<Snapshot>, k: nat, m: nat)
    requires k <= m < |snaps|
    ensures Run(snaps[m].cluster, Clusters(snaps[m].size)) <= SnapRuns(snaps, k)
    decreases m - k
  {
    hide Run, Clusters;
    if k == m { return; }
    SnapRunWithin(snaps, k + 1, m);
  }

  lemma {:induction false} SnapWithin(file: File, snaps: seq<Snapshot>, k: nat, m: nat)
    requires k <= m < |snaps|
    ensures EntryRefs(SnapTable(file, snaps[m]), 0) <= SnapL2(file, snaps, k)
    ensures DataRefs(file, SnapTable(file, snaps[m]), 0) <= SnapData(file, snaps, k)
    decreases m - k
  {
    hide EntryRefs, DataRefs, SnapTable;
    if k == m { return; }
    SnapWithin(file, snaps, k + 1, m);
  }

  lemma DataMember(file: File, t: seq<Word>, i: nat, j: nat)
    requires i < |t| && t[i] != ZERO && j < L2_SIZE
    requires Read(file, t[i].cluster)[j] != ZERO
    ensures Read(file, t[i].cluster)[j].cluster in PathRefs(file, t[i])
    ensures Read(file, t[i].cluster)[j].cluster in DataRefs(file, t, 0)
  {
    EntryRefsMember(Read(file, t[i].cluster), 0, j);
    PathWithin(file, t, 0, i);
  }

  /** A file that agrees on the snapshots' own clusters and L2 tables has the same snapshots. */
  lemma SnapsFrame(file: File, other: File, snaps: seq<Snapshot>)
    requires forall c :: c in SnapRuns(snaps, 0) || c in SnapL2(file, snaps, 0) ==> Read(file, c) == Read(other, c)
    ensures forall k :: 0 <= k < |snaps| ==> SnapTable(file, snaps[k]) == SnapTable(other, snaps[k])
    ensures AlikeSnaps(file, other, snaps)
  {
    hide EntryRefs, SnapL2, SnapRuns, ReadTable, Read;
    forall k | 0 <= k < |snaps|
      ensures SnapTable(file, snaps[k]) == SnapTable(other, snaps[k])
      ensures AlikeRoot(file, SnapTable(file, snaps[k]), other, SnapTable(other, snaps[k]))
    {
      var sn := snaps[k];
      SnapWithin(file, snaps, 0, k);
      SnapRunWithin(snaps, 0, k);
      RunCounts(sn.cluster, Clusters(sn.size));
      forall x | sn.cluster <= x < sn.cluster + Clusters(sn.size) ensures Read(file, x) == Read(other, x) {
        assert Run(sn.cluster, Clusters(sn.size))[x] == 1;
      }
      ReadTableFrame(file, other, sn.cluster, sn.size);
      var t := SnapTable(file, sn);
      forall i | 0 <= i < |t| && t[i] != ZERO ensures Read(file, t[i].cluster) == Read(other, t[i].cluster) {
        EntryRefsMember(t, 0, i);
      }
    }
  }

  lemma RootFrame(file: File, other: File, t: seq<Word>)
    requires forall c :: c in EntryRefs(t, 0) ==> Read(file, c) == Read(other, c)
    ensures AlikeRoot(file, t, other, t)
  {
    forall i | 0 <= i < |t| && t[i] != ZERO ensures SameTable(Read(file, t[i].cluster), Read(other, t[i].cluster)) {
      EntryRefsMember(t, 0, i);
    }
  }
}
