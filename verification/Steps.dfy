/** The elementary changes of an image and what each of them keeps. */
module Steps {
  import opened Layout
  import opened Counting
  import opened Forest
  import opened Guest

  /** The account of one cluster. */
  lemma CountAt(file: File, rc: multiset<nat>, fixed: multiset<nat>, t: seq<Word>, snaps: seq<Snapshot>, c: nat)
    requires Consistent(file, rc, fixed, t, snaps)
    ensures Account(rc, fixed, EntryRefs(t, 0), DataRefs(file, t, 0), SnapL2(file, snaps, 0), SnapData(file, snaps, 0), c)
  {
    hide EntryRefs, DataRefs, SnapL2, SnapData, SnapRuns, ReadTable, Read;
  }

  lemma LedgerAlloc(rc: multiset<nat>, fixed: multiset<nat>, l2: multiset<nat>, data: multiset<nat>,
                    snapL2: multiset<nat>, snapData: multiset<nat>, first: nat, n: nat)
    requires Ledger(rc, fixed, l2, data, snapL2, snapData)
    requires forall x: nat :: first <= x < first + n ==> rc[x] == 0
    ensures Ledger(rc + Run(first, n), fixed + Run(first, n), l2, data, snapL2, snapData)
    ensures forall c: nat :: c in l2 || c in data ==> rc[c] == (rc + Run(first, n))[c]
  {
    hide EntryRefs, DataRefs, SnapL2, SnapData, SnapRuns, ReadTable, Read;
    RunCounts(first, n);
    forall c: nat
      ensures Account(rc + Run(first, n), fixed + Run(first, n), l2, data, snapL2, snapData, c)
      ensures c in l2 || c in data ==> rc[c] == (rc + Run(first, n))[c]
    {
      assert Account(rc, fixed, l2, data, snapL2, snapData, c);
    }
  }

  /** Taking unreferenced clusters adds them to the fixed ones. */
  lemma AllocKeeps(file: File, rc: multiset<nat>, fixed: multiset<nat>, t: seq<Word>, snaps: seq<Snapshot>,
                   first: nat, n: nat)
    requires Consistent(file, rc, fixed, t, snaps)
    requires forall x: nat :: first <= x < first + n ==> rc[x] == 0
    ensures Consistent(file, rc + Run(first, n), fixed + Run(first, n), t, snaps)
    ensures FlagRoot(file, rc, t) ==> FlagRoot(file, rc + Run(first, n), t)
  {
    hide EntryRefs, DataRefs, SnapL2, SnapData, SnapRuns, ReadTable, Read;
    LedgerAlloc(rc, fixed, EntryRefs(t, 0), DataRefs(file, t, 0), SnapL2(file, snaps, 0), SnapData(file, snaps, 0), first, n);
    if FlagRoot(file, rc, t) { FlagsFrame(file, rc, rc + Run(first, n), t); }
  }

  lemma FlagsFrame(file: File, rc: multiset<nat>, other: multiset<nat>, t: seq<Word>)
    requires FlagRoot(file, rc, t)
    requires forall c: nat :: c in EntryRefs(t, 0) || c in DataRefs(file, t, 0) ==> rc[c] == other[c]
    ensures FlagRoot(file, other, t)
  {
    hide EntryRefs, DataRefs, SnapL2, SnapData, SnapRuns, ReadTable, Read;
    forall i | 0 <= i < |t| && t[i] != ZERO
      ensures FlagOk(other, t[i])
      ensures FlagTable(other, Read(file, t[i].cluster))
    {
      EntryRefsMember(t, 0, i);
      assert FlagOk(rc, t[i]);
      forall j | 0 <= j < L2_SIZE ensures FlagOk(other, Read(file, t[i].cluster)[j]) {
        assert FlagOk(rc, Read(file, t[i].cluster)[j]);
        if Read(file, t[i].cluster)[j] != ZERO { DataMember(file, t, i, j); }
      }
    }
  }

  lemma LedgerFree(rc: multiset<nat>, fixed: multiset<nat>, gone: multiset<nat>, l2: multiset<nat>, data: multiset<nat>,
                   snapL2: multiset<nat>, snapData: multiset<nat>)
    requires Ledger(rc, fixed + gone, l2, data, snapL2, snapData)
    ensures gone <= rc
    ensures Ledger(rc - gone, fixed, l2, data, snapL2, snapData)
    ensures forall c: nat :: c in l2 || c in data ==> rc[c] == (rc - gone)[c]
  {
    hide EntryRefs, DataRefs, SnapL2, SnapData, SnapRuns, ReadTable, Read;
    forall c: nat
      ensures gone[c] <= rc[c]
      ensures Account(rc - gone, fixed, l2, data, snapL2, snapData, c)
      ensures c in l2 || c in data ==> rc[c] == (rc - gone)[c]
    {
      assert Account(rc, fixed + gone, l2, data, snapL2, snapData, c);
    }
  }

  /** Giving fixed clusters back. */
  lemma FreeKeeps(file: File, rc: multiset<nat>, fixed: multiset<nat>, gone: multiset<nat>, t: seq<Word>, snaps: seq<Snapshot>)
    requires Consistent(file, rc, fixed + gone, t, snaps)
    requires 0 in fixed && SnapRuns(snaps, 0) <= fixed
    ensures gone <= rc
    ensures Consistent(file, rc - gone, fixed, t, snaps)
    ensures FlagRoot(file, rc, t) ==> FlagRoot(file, rc - gone, t)
  {
    hide EntryRefs, DataRefs, SnapL2, SnapData, SnapRuns, ReadTable, Read;
    LedgerFree(rc, fixed, gone, EntryRefs(t, 0), DataRefs(file, t, 0), SnapL2(file, snaps, 0), SnapData(file, snaps, 0));
    if FlagRoot(file, rc, t) { FlagsFrame(file, rc, rc - gone, t); }
  }

  /** Writing clusters that hold no table. */
  lemma WriteKeeps(file: File, other: File, rc: multiset<nat>, fixed: multiset<nat>, t: seq<Word>, snaps: seq<Snapshot>)
    requires Consistent(file, rc, fixed, t, snaps)
    requires forall c :: c in EntryRefs(t, 0) || c in SnapL2(file, snaps, 0) || c in SnapRuns(snaps, 0) ==>
                           Read(file, c) == Read(other, c)
    ensures Consistent(other, rc, fixed, t, snaps)
    ensures FlagRoot(file, rc, t) ==> FlagRoot(other, rc, t)
    ensures AlikeRoot(file, t, other, t) && AlikeSnaps(file, other, snaps)
  {
    hide EntryRefs, DataRefs, SnapL2, SnapData, SnapRuns, ReadTable, Read;
    RootFrame(file, other, t);
    SnapsFrame(file, other, snaps);
    AlikeConsistent(file, other, rc, fixed, t, t, snaps);
    if FlagRoot(file, rc, t) {
      forall i | 0 <= i < |t| && t[i] != ZERO ensures FlagTable(rc, Read(other, t[i].cluster)) {
        EntryRefsMember(t, 0, i);
      }
    }
  }

  // ---------------------------------------------------------------------------------------
  // A private L2 table for one L1 entry

  function NewEntry(c: nat): Word { Word(true, false, c, 0) }

  /** The L2 table behind an L1 entry: all zero when there is none. */
  function TableOf(file: File, w: Word): Cluster {
    if w == ZERO then seq(L2_SIZE, _ => ZERO) else Read(file, w.cluster)
  }

  /** The counts after the table behind w was released and a cluster was taken for its copy. */
  ghost function MovedCounts(rc: multiset<nat>, w: Word, taken: nat): multiset<nat> {
    rc - Ref(w) + multiset{taken}
  }

  /** Clusters that some table entry names. */
  ghost predicate Named(file: File, t: seq<Word>, snaps: seq<Snapshot>, c: nat) {
    c in EntryRefs(t, 0) || c in DataRefs(file, t, 0) || c in SnapL2(file, snaps, 0) || c in SnapData(file, snaps, 0)
  }

  ghost predicate CowL2Pre(file: File, other: File, rc: multiset<nat>, fixed: multiset<nat>, t: seq<Word>,
                           snaps: seq<Snapshot>, i: nat, taken: nat) {
    && Consistent(file, rc, fixed, t, snaps)
    && FlagRoot(file, rc, t)
    && i < |t| && !t[i].copied
    && rc[taken] == 0
    && (forall c: nat :: c != taken && (c in SnapRuns(snaps, 0) || c !in fixed) ==> Read(file, c) == Read(other, c))
    && Read(other, taken) == TableOf(file, t[i])
  }

  lemma CowL2Frame(file: File, other: File, rc: multiset<nat>, fixed: multiset<nat>, t: seq<Word>,
                   snaps: seq<Snapshot>, i: nat, taken: nat)
    requires CowL2Pre(file, other, rc, fixed, t, snaps, i, taken)
    ensures fixed[taken] == 0 && !Named(file, t, snaps, taken)
    ensures forall c: nat :: Named(file, t, snaps, c) ==> Read(file, c) == Read(other, c)
    ensures AlikeSnaps(file, other, snaps)
  {
    hide EntryRefs, DataRefs, SnapL2, SnapData, SnapRuns, ReadTable, Read;
    CountAt(file, rc, fixed, t, snaps, taken);
    forall c: nat | Named(file, t, snaps, c) ensures Read(file, c) == Read(other, c) {
      CountAt(file, rc, fixed, t, snaps, c);
    }
    SnapsFrame(file, other, snaps);
  }

  lemma CowL2Refs(file: File, other: File, t: seq<Word>, i: nat, taken: nat)
    requires i < |t| && taken !in EntryRefs(t, 0)
    requires forall c :: c in EntryRefs(t, 0) ==> Read(file, c) == Read(other, c)
    requires Read(other, taken) == TableOf(file, t[i])
    ensures forall c: nat :: EntryRefs(t[i := NewEntry(taken)], 0)[c] + Ref(t[i])[c] == EntryRefs(t, 0)[c] + multiset{taken}[c]
    ensures DataRefs(other, t[i := NewEntry(taken)], 0) == DataRefs(file, t, 0)
  {
    hide EntryRefs, DataRefs, SnapL2, SnapData, SnapRuns, ReadTable, Read;
    var w := NewEntry(taken);
    EntryRefsUpdate(t, i, w);
    RootFrame(file, other, t);
    AlikeRefs(file, t, other, t);
    DataRefsUpdate(other, t, i, w);
    if t[i] == ZERO {
      EntryRefsZeros(Read(other, taken), 0);
    } else {
      EntryRefsMember(t, 0, i);
    }
    assert PathRefs(other, t[i]) == PathRefs(other, w);
    forall c: nat ensures DataRefs(other, t[i := w], 0)[c] == DataRefs(file, t, 0)[c] {
      assert DataRefs(other, t[i := w], 0)[c] + PathRefs(other, t[i])[c] == DataRefs(other, t, 0)[c] + PathRefs(other, w)[c];
    }
  }

  lemma CowL2Plain(file: File, other: File, t: seq<Word>, i: nat, taken: nat)
    requires i < |t| && PlainRoot(file, t) && taken !in EntryRefs(t, 0)
    requires forall c :: c in EntryRefs(t, 0) ==> Read(file, c) == Read(other, c)
    requires Read(other, taken) == TableOf(file, t[i])
    ensures PlainRoot(other, t[i := NewEntry(taken)])
  {
    hide EntryRefs, DataRefs, SnapL2, SnapData, SnapRuns, ReadTable, Read;
    var u := t[i := NewEntry(taken)];
    forall k | 0 <= k < |u| && u[k] != ZERO ensures PlainTable(Read(other, u[k].cluster)) {
      if k != i { EntryRefsMember(t, 0, k); }
    }
  }

  lemma CowL2Ledger(rc: multiset<nat>, fixed: multiset<nat>, l2: multiset<nat>, l2': multiset<nat>, data: multiset<nat>,
                    snapL2: multiset<nat>, snapData: multiset<nat>, gone: Word, taken: nat)
    requires Ledger(rc, fixed, l2, data, snapL2, snapData)
    requires forall c: nat :: l2'[c] + Ref(gone)[c] == l2[c] + multiset{taken}[c]
    requires Ref(gone) <= l2 && rc[taken] == 0
    ensures Ledger(MovedCounts(rc, gone, taken), fixed, l2', data, snapL2, snapData)
    ensures (forall c: nat :: l2[c] <= 1) ==> forall c: nat :: l2'[c] <= 1
  {
    hide EntryRefs, DataRefs, SnapL2, SnapData, SnapRuns, ReadTable, Read;
    forall c: nat
      ensures Account(MovedCounts(rc, gone, taken), fixed, l2', data, snapL2, snapData, c)
      ensures l2[c] <= 1 ==> l2'[c] <= 1
    {
      assert Account(rc, fixed, l2, data, snapL2, snapData, c);
      assert l2'[c] + Ref(gone)[c] == l2[c] + multiset{taken}[c];
    }
  }

  lemma CowL2Keeps(file: File, other: File, rc: multiset<nat>, fixed: multiset<nat>, t: seq<Word>,
                   snaps: seq<Snapshot>, i: nat, taken: nat)
    requires CowL2Pre(file, other, rc, fixed, t, snaps, i, taken)
    ensures Consistent(other, MovedCounts(rc, t[i], taken), fixed, t[i := NewEntry(taken)], snaps)
  {
    hide EntryRefs, DataRefs, SnapL2, SnapData, SnapRuns, ReadTable, Read;
    var u := t[i := NewEntry(taken)];
    CowL2Frame(file, other, rc, fixed, t, snaps, i, taken);
    CowL2Refs(file, other, t, i, taken);
    CowL2Plain(file, other, t, i, taken);
    AlikeSnapRefs(file, other, snaps, 0);
    AlikeSnapsOk(file, other, snaps);
    if t[i] != ZERO { EntryRefsMember(t, 0, i); }
    CowL2Ledger(rc, fixed, EntryRefs(t, 0), EntryRefs(u, 0), DataRefs(file, t, 0), SnapL2(file, snaps, 0),
                SnapData(file, snaps, 0), t[i], taken);
  }

  lemma CowL2Flags(file: File, other: File, rc: multiset<nat>, t: seq<Word>, i: nat, taken: nat)
    requires i < |t| && FlagRoot(file, rc, t) && Once(file, t) && rc[taken] == 0
    requires forall c :: c in EntryRefs(t, 0) ==> Read(file, c) == Read(other, c) && c !in DataRefs(file, t, 0)
    requires taken !in EntryRefs(t, 0) && taken !in DataRefs(file, t, 0)
    requires Read(other, taken) == TableOf(file, t[i])
    ensures FlagRoot(other, MovedCounts(rc, t[i], taken), t[i := NewEntry(taken)])
  {
    hide EntryRefs, DataRefs, SnapL2, SnapData, SnapRuns, ReadTable, Read;
    var u := t[i := NewEntry(taken)];
    var rc' := MovedCounts(rc, t[i], taken);
    if t[i] != ZERO { EntryRefsMember(t, 0, i); }
    forall k | 0 <= k < |u| && u[k] != ZERO
      ensures FlagOk(rc', u[k])
      ensures FlagTable(rc', Read(other, u[k].cluster))
    {
      if t[k] != ZERO {
        assert FlagOk(rc, t[k]);
        EntryRefsMember(t, 0, k);
        FlagTableFrame(file, rc, rc', t, k);
        if k != i && t[i] != ZERO && t[k].cluster == t[i].cluster {
          EntryRefsTwice(t, if k < i then k else i, if k < i then i else k);
        }
      }
    }
  }

  lemma FlagTableFrame(file: File, rc: multiset<nat>, other: multiset<nat>, t: seq<Word>, k: nat)
    requires k < |t| && t[k] != ZERO && FlagTable(rc, Read(file, t[k].cluster))
    requires forall c: nat :: c in DataRefs(file, t, 0) ==> rc[c] == other[c]
    ensures FlagTable(other, Read(file, t[k].cluster))
  {
    hide EntryRefs, DataRefs, SnapL2, SnapData, SnapRuns, ReadTable, Read;
    forall j | 0 <= j < L2_SIZE ensures FlagOk(other, Read(file, t[k].cluster)[j]) {
      assert FlagOk(rc, Read(file, t[k].cluster)[j]);
      if Read(file, t[k].cluster)[j] != ZERO { DataMember(file, t, k, j); }
    }
  }

  /** A table released by the active disk is still some snapshot's: its count was not one. */
  lemma CowL2Shared(file: File, other: File, rc: multiset<nat>, fixed: multiset<nat>, t: seq<Word>,
                    snaps: seq<Snapshot>, i: nat, taken: nat)
    requires CowL2Pre(file, other, rc, fixed, t, snaps, i, taken)
    ensures t[i] != ZERO ==> t[i].cluster in SnapL2(file, snaps, 0)
  {
    hide EntryRefs, DataRefs, SnapL2, SnapData, SnapRuns, ReadTable, Read;
    if t[i] != ZERO {
      assert FlagOk(rc, t[i]);
      EntryRefsMember(t, 0, i);
      CountAt(file, rc, fixed, t, snaps, t[i].cluster);
      assert EntryRefs(t, 0)[t[i].cluster] <= 1;
    }
  }

  /** The table cache stays in step when slot v is reused for the new table. */
  lemma CowL2Cache(file: File, other: File, rc: multiset<nat>, fixed: multiset<nat>, t: seq<Word>,
                   snaps: seq<Snapshot>, i: nat, taken: nat, c: nat)
    requires CowL2Pre(file, other, rc, fixed, t, snaps, i, taken)
    requires c in EntryRefs(t, 0) + SnapL2(file, snaps, 0)
    ensures c != taken && Read(file, c) == Read(other, c)
    ensures c in EntryRefs(t[i := NewEntry(taken)], 0) + SnapL2(other, snaps, 0)
  {
    hide EntryRefs, DataRefs, SnapL2, SnapData, SnapRuns, ReadTable, Read;
    CowL2Frame(file, other, rc, fixed, t, snaps, i, taken);
    CowL2Refs(file, other, t, i, taken);
    CowL2Shared(file, other, rc, fixed, t, snaps, i, taken);
    AlikeSnapRefs(file, other, snaps, 0);
    assert EntryRefs(t[i := NewEntry(taken)], 0)[c] + Ref(t[i])[c] == EntryRefs(t, 0)[c] + multiset{taken}[c];
  }

  lemma CowL2View(m: Medium, file: File, other: File, t: seq<Word>, snaps: seq<Snapshot>, i: nat, taken: nat)
    requires i < |t|
    requires forall c: nat :: Named(file, t, snaps, c) ==> Read(file, c) == Read(other, c)
    requires AlikeSnaps(file, other, snaps)
    requires Read(other, taken) == TableOf(file, t[i])
    ensures View(m, other, t[i := NewEntry(taken)]) == View(m, file, t)
    ensures Cells(other, t[i := NewEntry(taken)]) == Cells(file, t)
    ensures SameSnapViews(m, file, other, snaps)
  {
    hide EntryRefs, DataRefs, SnapL2, SnapData, SnapRuns, ReadTable, Read;
    AlikeSnapViews(m, file, other, snaps);
    RootFrame(file, other, t);
    forall s: nat ensures CellOf(file, t, s) == CellOf(other, t[i := NewEntry(taken)], s) {
      AlikeEntry(file, t, other, t, s);
      if L1Index(s) < |t| && t[L1Index(s)] != ZERO { EntryRefsMember(t, 0, L1Index(s)); }
    }
    SameCells(m, file, t, other, t[i := NewEntry(taken)]);
  }

  // ---------------------------------------------------------------------------------------
  // Linking freshly written clusters into an L2 table

  /** Table u with entries j .. j + n - 1 naming the clusters c .. c + n - 1. */
  predicate Linked(u: Cluster, v: Cluster, j: nat, n: nat, c: nat) {
    && j + n <= L2_SIZE
    && forall x :: 0 <= x < L2_SIZE ==> v[x] == if j <= x < j + n then NewEntry(c + (x - j)) else u[x]
  }

  ghost predicate LinkPre(file: File, other: File, rc: multiset<nat>, fixed: multiset<nat>, gone: multiset<nat>,
                          t: seq<Word>, snaps: seq<Snapshot>, i: nat, j: nat, n: nat, c: nat) {
    && Consistent(file, rc, fixed + Run(c, n), t, snaps)
    && 0 in fixed && SnapRuns(snaps, 0) <= fixed
    && FlagRoot(file, rc, t)
    && i < |t| && t[i].copied
    && (forall x: nat :: x != t[i].cluster ==> Read(file, x) == Read(other, x))
    && Linked(Read(file, t[i].cluster), Read(other, t[i].cluster), j, n, c)
    && Tally(Read(other, t[i].cluster), gone, Read(file, t[i].cluster), Run(c, n))
  }

  /** The table being changed belongs to the active disk alone. */
  lemma LinkAlone(file: File, other: File, rc: multiset<nat>, fixed: multiset<nat>, gone: multiset<nat>,
                  t: seq<Word>, snaps: seq<Snapshot>, i: nat, j: nat, n: nat, c: nat)
    requires LinkPre(file, other, rc, fixed, gone, t, snaps, i, j, n, c)
    ensures t[i] != ZERO && t[i].cluster !in SnapL2(file, snaps, 0)
    ensures t[i].cluster !in DataRefs(file, t, 0) && t[i].cluster !in SnapData(file, snaps, 0)
    ensures forall k :: 0 <= k < |t| && t[k] != ZERO && t[k].cluster == t[i].cluster ==> k == i
    ensures AlikeSnaps(file, other, snaps)
  {
    hide EntryRefs, DataRefs, SnapL2, SnapData, SnapRuns, ReadTable, Read;
    assert FlagOk(rc, t[i]);
    var l2 := t[i].cluster;
    EntryRefsMember(t, 0, i);
    CountAt(file, rc, fixed + Run(c, n), t, snaps, l2);
    assert forall k :: 0 <= k < |t| && t[k] != ZERO && t[k].cluster == l2 ==> k == i by {
      forall k | 0 <= k < |t| && t[k] != ZERO && t[k].cluster == l2 ensures k == i {
        if k != i { EntryRefsTwice(t, if k < i then k else i, if k < i then i else k); }
      }
    }
    SnapsFrame(file, other, snaps);
  }

  /** Replacing the one L2 table of entry i changes the data references by what that table names. */
  lemma LinkData(file: File, other: File, t: seq<Word>, i: nat, gone: multiset<nat>, more: multiset<nat>)
    requires i < |t| && t[i] != ZERO
    requires forall k :: 0 <= k < |t| && t[k] != ZERO && t[k].cluster == t[i].cluster ==> k == i
    requires forall x: nat :: x != t[i].cluster ==> Read(file, x) == Read(other, x)
    requires Tally(Read(other, t[i].cluster), gone, Read(file, t[i].cluster), more)
    ensures forall d: nat :: DataRefs(other, t, 0)[d] + gone[d] == DataRefs(file, t, 0)[d] + more[d]
  {
    hide EntryRefs, DataRefs, Read;
    var u := t[i := ZERO];
    DataRefsUpdate(file, t, i, ZERO);
    DataRefsUpdate(other, t, i, ZERO);
    forall k | 0 <= k < |u| ensures PathRefs(file, u[k]) == PathRefs(other, u[k]) {}
    DataRefsSame(file, other, u, u, 0);
    forall d: nat ensures DataRefs(other, t, 0)[d] + gone[d] == DataRefs(file, t, 0)[d] + more[d] {
      assert DataRefs(file, u, 0)[d] + PathRefs(file, t[i])[d] == DataRefs(file, t, 0)[d] + PathRefs(file, ZERO)[d];
      assert DataRefs(other, u, 0)[d] + PathRefs(other, t[i])[d] == DataRefs(other, t, 0)[d] + PathRefs(other, ZERO)[d];
    }
  }

  lemma LinkLedger(rc: multiset<nat>, fixed: multiset<nat>, more: multiset<nat>, gone: multiset<nat>, l2: multiset<nat>,
                   data: multiset<nat>, data': multiset<nat>, snapL2: multiset<nat>, snapData: multiset<nat>)
    requires Ledger(rc, fixed + more, l2, data, snapL2, snapData)
    requires forall d: nat :: data'[d] + gone[d] == data[d] + more[d]
    requires forall d: nat :: data[d] <= 1
    requires forall d: nat :: d in more ==> d in data'
    ensures gone <= rc
    ensures Ledger(rc - gone, fixed, l2, data', snapL2, snapData)
    ensures forall d: nat :: data'[d] <= 1 && (d in gone ==> d !in data') && (d in gone ==> d in data)
  {
    forall d: nat
      ensures gone[d] <= rc[d]
      ensures Account(rc - gone, fixed, l2, data', snapL2, snapData, d)
      ensures data'[d] <= 1 && (d in gone ==> d !in data') && (d in gone ==> d in data)
    {
      assert Account(rc, fixed + more, l2, data, snapL2, snapData, d);
      assert data'[d] + gone[d] == data[d] + more[d];
      assert data[d] <= 1;
      assert more[d] >= 1 ==> data'[d] >= 1;
    }
  }

  lemma LinkedNames(file: File, other: File, t: seq<Word>, i: nat, j: nat, n: nat, c: nat)
    requires i < |t| && t[i] != ZERO
    requires Linked(Read(file, t[i].cluster), Read(other, t[i].cluster), j, n, c)
    ensures forall d: nat :: d in Run(c, n) ==> d in DataRefs(other, t, 0)
  {
    hide EntryRefs, DataRefs, Read;
    forall d: nat | d in Run(c, n) ensures d in DataRefs(other, t, 0) {
      RunCounts(c, n);
      assert Read(other, t[i].cluster)[j + (d - c)] == NewEntry(d);
      DataMember(other, t, i, j + (d - c));
    }
  }

  lemma LinkPlain(file: File, other: File, t: seq<Word>, i: nat, j: nat, n: nat, c: nat)
    requires i < |t| && t[i] != ZERO && PlainRoot(file, t)
    requires forall x: nat :: x != t[i].cluster ==> Read(file, x) == Read(other, x)
    requires Linked(Read(file, t[i].cluster), Read(other, t[i].cluster), j, n, c)
    ensures PlainRoot(other, t)
  {
    hide Read;
    forall k | 0 <= k < |t| && t[k] != ZERO ensures PlainTable(Read(other, t[k].cluster)) {
      assert PlainTable(Read(file, t[k].cluster));
    }
  }

  lemma LinkKeeps(file: File, other: File, rc: multiset<nat>, fixed: multiset<nat>, gone: multiset<nat>,
                  t: seq<Word>, snaps: seq<Snapshot>, i: nat, j: nat, n: nat, c: nat)
    requires LinkPre(file, other, rc, fixed, gone, t, snaps, i, j, n, c)
    ensures gone <= rc
    ensures Consistent(other, rc - gone, fixed, t, snaps)
  {
    hide EntryRefs, DataRefs, SnapL2, SnapData, SnapRuns, ReadTable, Read, Run;
    LinkAlone(file, other, rc, fixed, gone, t, snaps, i, j, n, c);
    LinkData(file, other, t, i, gone, Run(c, n));
    LinkedNames(file, other, t, i, j, n, c);
    AlikeSnapRefs(file, other, snaps, 0);
    AlikeSnapsOk(file, other, snaps);
    LinkPlain(file, other, t, i, j, n, c);
    LinkLedger(rc, fixed, Run(c, n), gone, EntryRefs(t, 0), DataRefs(file, t, 0), DataRefs(other, t, 0),
               SnapL2(file, snaps, 0), SnapData(file, snaps, 0));
  }

  lemma LinkFlags(file: File, other: File, rc: multiset<nat>, fixed: multiset<nat>, gone: multiset<nat>,
                  t: seq<Word>, snaps: seq<Snapshot>, i: nat, j: nat, n: nat, c: nat)
    requires LinkPre(file, other, rc, fixed, gone, t, snaps, i, j, n, c)
    ensures FlagRoot(other, rc - gone, t)
  {
    hide EntryRefs, DataRefs, SnapL2, SnapData, SnapRuns, ReadTable, Read, Run;
    LinkAlone(file, other, rc, fixed, gone, t, snaps, i, j, n, c);
    LinkData(file, other, t, i, gone, Run(c, n));
    LinkedNames(file, other, t, i, j, n, c);
    LinkLedger(rc, fixed, Run(c, n), gone, EntryRefs(t, 0), DataRefs(file, t, 0), DataRefs(other, t, 0),
               SnapL2(file, snaps, 0), SnapData(file, snaps, 0));
    forall k | 0 <= k < |t| && t[k] != ZERO
      ensures FlagOk(rc - gone, t[k])
      ensures FlagTable(rc - gone, Read(other, t[k].cluster))
    {
      assert FlagOk(rc, t[k]);
      EntryRefsMember(t, 0, k);
      CountAt(file, rc, fixed + Run(c, n), t, snaps, t[k].cluster);
      forall x | 0 <= x < L2_SIZE ensures FlagOk(rc - gone, Read(other, t[k].cluster)[x]) {
        LinkFlagAt(file, other, rc, fixed, gone, t, snaps, i, j, n, c, k, x);
      }
    }
  }

  lemma LinkFlagAt(file: File, other: File, rc: multiset<nat>, fixed: multiset<nat>, gone: multiset<nat>,
                   t: seq<Word>, snaps: seq<Snapshot>, i: nat, j: nat, n: nat, c: nat, k: nat, x: nat)
    requires LinkPre(file, other, rc, fixed, gone, t, snaps, i, j, n, c)
    requires k < |t| && t[k] != ZERO && x < L2_SIZE
    requires forall d: nat :: d in gone ==> d !in DataRefs(other, t, 0)
    ensures FlagOk(rc - gone, Read(other, t[k].cluster)[x])
  {
    hide EntryRefs, DataRefs, SnapL2, SnapData, SnapRuns, ReadTable, Read, Run;
    var w := Read(other, t[k].cluster)[x];
    if w == ZERO { return; }
    DataMember(other, t, k, x);
    if t[k].cluster == t[i].cluster && j <= x < j + n {
      assert w == NewEntry(c + (x - j));
      RunCounts(c, n);
      CountAt(file, rc, fixed + Run(c, n), t, snaps, w.cluster);
    } else {
      assert w == Read(file, t[k].cluster)[x];
      assert FlagOk(rc, w);
    }
  }

  // ---------------------------------------------------------------------------------------
  // Moving the active L1 table to a larger run

  lemma ZerosKeep(file: File, rc: multiset<nat>, fixed: multiset<nat>, t: seq<Word>, z: seq<Word>, snaps: seq<Snapshot>)
    requires Consistent(file, rc, fixed, t, snaps)
    requires forall j :: 0 <= j < |z| ==> z[j] == ZERO
    ensures Consistent(file, rc, fixed, t + z, snaps)
    ensures FlagRoot(file, rc, t) ==> FlagRoot(file, rc, t + z)
  {
    hide EntryRefs, DataRefs, SnapL2, SnapData, SnapRuns, ReadTable, Read;
    EntryRefsAppendZeros(t, z, 0);
    DataRefsAppendZeros(file, t, z, 0);
  }

  /** A new run outside everything in use is written, the old run is given back. */
  lemma RelocateKeeps(file: File, other: File, rc: multiset<nat>, fixed: multiset<nat>, gone: multiset<nat>,
                      t: seq<Word>, snaps: seq<Snapshot>, c: nat, n: nat)
    requires Consistent(file, rc, fixed + gone, t, snaps)
    requires 0 in fixed && SnapRuns(snaps, 0) <= fixed
    requires forall x: nat :: c <= x < c + n ==> rc[x] == 0
    requires forall x: nat :: x < c || c + n <= x ==> Read(file, x) == Read(other, x)
    ensures gone <= rc
    ensures Consistent(other, rc + Run(c, n) - gone, fixed + Run(c, n), t, snaps)
    ensures FlagRoot(file, rc, t) ==> FlagRoot(other, rc + Run(c, n) - gone, t)
    ensures forall x: nat :: Named(file, t, snaps, x) || x in SnapRuns(snaps, 0) ==> Read(file, x) == Read(other, x)
    ensures AlikeRoot(file, t, other, t) && AlikeSnaps(file, other, snaps)
  {
    hide EntryRefs, DataRefs, SnapL2, SnapData, SnapRuns, ReadTable, Read, Run, Ledger, RootOk, SnapsOk, FlagRoot,
         AlikeRoot, AlikeSnaps;
    forall x: nat | Named(file, t, snaps, x) || x in SnapRuns(snaps, 0) ensures Read(file, x) == Read(other, x) {
      CountAt(file, rc, fixed + gone, t, snaps, x);
      assert SnapRuns(snaps, 0)[x] <= fixed[x];
    }
    FreeKeeps(file, rc, fixed, gone, t, snaps);
    AllocKeeps(file, rc, fixed + gone, t, snaps, c, n);
    WriteKeeps(file, other, rc + Run(c, n), fixed + gone + Run(c, n), t, snaps);
    assert fixed + gone + Run(c, n) == fixed + Run(c, n) + gone;
    FreeKeeps(other, rc + Run(c, n), fixed + Run(c, n), gone, t, snaps);
  }

  // ---------------------------------------------------------------------------------------
  // Snapshots

  lemma {:induction false} SnapAppend(file: File, snaps: seq<Snapshot>, sn: Snapshot, k: nat)
    requires k <= |snaps|
    ensures forall c: nat :: SnapL2(file, snaps + [sn], k)[c] == SnapL2(file, snaps, k)[c] + EntryRefs(SnapTable(file, sn), 0)[c]
    ensures forall c: nat :: SnapData(file, snaps + [sn], k)[c] == SnapData(file, snaps, k)[c] + DataRefs(file, SnapTable(file, sn), 0)[c]
    decreases |snaps| - k
  {
    hide EntryRefs, DataRefs, SnapTable;
    if k == |snaps| {
      assert SnapL2(file, snaps + [sn], k) == EntryRefs(SnapTable(file, sn), 0) + SnapL2(file, snaps + [sn], k + 1);
      assert SnapData(file, snaps + [sn], k) == DataRefs(file, SnapTable(file, sn), 0) + SnapData(file, snaps + [sn], k + 1);
      return;
    }
    SnapAppend(file, snaps, sn, k + 1);
    assert (snaps + [sn])[k] == snaps[k];
  }

  lemma {:induction false} SnapRunAppend(snaps: seq<Snapshot>, sn: Snapshot, k: nat)
    requires k <= |snaps|
    ensures SnapRuns(snaps + [sn], k) == SnapRuns(snaps, k) + Run(sn.cluster, Clusters(sn.size))
    decreases |snaps| - k
  {
    hide Run, Clusters;
    if k == |snaps| {
      assert SnapRuns(snaps + [sn], k) == Run(sn.cluster, Clusters(sn.size)) + SnapRuns(snaps + [sn], k + 1);
      return;
    }
    SnapRunAppend(snaps, sn, k + 1);
    assert (snaps + [sn])[k] == snaps[k];
  }

  function Without(snaps: seq<Snapshot>, m: nat): seq<Snapshot>
    requires m < |snaps|
  {
    snaps[..m] + snaps[m + 1..]
  }

  lemma {:induction false} SnapSkip(file: File, snaps: seq<Snapshot>, m: nat, k: nat)
    requires m < |snaps| && m <= k < |snaps|
    ensures SnapL2(file, Without(snaps, m), k) == SnapL2(file, snaps, k + 1)
    ensures SnapData(file, Without(snaps, m), k) == SnapData(file, snaps, k + 1)
    ensures SnapRuns(Without(snaps, m), k) == SnapRuns(snaps, k + 1)
    decreases |snaps| - k
  {
    hide EntryRefs, DataRefs, SnapTable, Run, Clusters;
    if k + 1 < |snaps| { SnapSkip(file, snaps, m, k + 1); }
  }

  lemma {:induction false} SnapRemove(file: File, snaps: seq<Snapshot>, m: nat, k: nat)
    requires k <= m < |snaps|
    ensures forall c: nat ::
      SnapL2(file, snaps, k)[c] == SnapL2(file, Without(snaps, m), k)[c] + EntryRefs(SnapTable(file, snaps[m]), 0)[c]
    ensures forall c: nat ::
      SnapData(file, snaps, k)[c] == SnapData(file, Without(snaps, m), k)[c] + DataRefs(file, SnapTable(file, snaps[m]), 0)[c]
    decreases m - k
  {
    hide EntryRefs, DataRefs, SnapTable;
    if k == m {
      SnapSkip(file, snaps, m, m);
      return;
    }
    SnapRemove(file, snaps, m, k + 1);
    assert Without(snaps, m)[k] == snaps[k];
  }

  lemma {:induction false} SnapRunRemove(file: File, snaps: seq<Snapshot>, m: nat, k: nat)
    requires k <= m < |snaps|
    ensures SnapRuns(snaps, k) == SnapRuns(Without(snaps, m), k) + Run(snaps[m].cluster, Clusters(snaps[m].size))
    decreases m - k
  {
    hide Run, Clusters;
    if k == m {
      SnapSkip(file, snaps, m, m);
      return;
    }
    SnapRunRemove(file, snaps, m, k + 1);
    assert Without(snaps, m)[k] == snaps[k];
  }

  /** No cluster has more references than there are roots. */
  lemma {:induction false} SnapBound(file: File, snaps: seq<Snapshot>, k: nat, c: nat)
    requires k <= |snaps| && SnapsOk(file, snaps)
    ensures SnapL2(file, snaps, k)[c] <= |snaps| - k && SnapData(file, snaps, k)[c] <= |snaps| - k
    decreases |snaps| - k
  {
    hide EntryRefs, DataRefs, SnapTable;
    if k < |snaps| {
      SnapBound(file, snaps, k + 1, c);
      assert RootOk(file, SnapTable(file, snaps[k]));
    }
  }

  lemma CountBound(file: File, rc: multiset<nat>, fixed: multiset<nat>, t: seq<Word>, snaps: seq<Snapshot>)
    requires Consistent(file, rc, fixed, t, snaps)
    ensures forall c: nat :: rc[c] <= 1 + |snaps|
    ensures t == [] && snaps != [] ==> forall c: nat :: rc[c] <= |snaps|
  {
    hide EntryRefs, DataRefs, SnapL2, SnapData, SnapRuns, ReadTable, Read;
    forall c: nat ensures rc[c] <= 1 + |snaps| && (t == [] && snaps != [] ==> rc[c] <= |snaps|) {
      CountAt(file, rc, fixed, t, snaps, c);
      SnapBound(file, snaps, 0, c);
      assert EntryRefs(t, 0)[c] <= 1 && DataRefs(file, t, 0)[c] <= 1;
      if t == [] { NothingBelow(file, c); }
    }
  }

  lemma NothingBelow(file: File, c: nat)
    ensures EntryRefs([], 0)[c] == 0 && DataRefs(file, [], 0)[c] == 0
  {
  }
}
