/** The consistency check of the driver, and what it decides. */
module Check {
  import opened Layout
  import opened Counting
  import opened Forest
  import opened Guest
  import opened Bytes
  import opened Steps
  import opened State
  import opened Qcow2

  // ---------------------------------------------------------------------------------------
  // What is counted

  function TableClusters(t: seq<Word>, j: nat): multiset<nat>
    requires j <= |t|
  {
    if j == 0 then multiset{} else TableClusters(t, j - 1) + EntryClusters(t[j - 1])
  }

  /** The L2 table of an L1 entry, and what its entries name. */
  function PathClusters(file: File, w: Word): multiset<nat> {
    if w == ZERO then multiset{} else TableClusters(Read(file, w.cluster), L2_SIZE) + EntryClusters(w)
  }

  function RootClusters(file: File, t: seq<Word>, i: nat): multiset<nat>
    requires i <= |t|
  {
    if i == 0 then multiset{} else RootClusters(file, t, i - 1) + PathClusters(file, t[i - 1])
  }

  /** An L1 table of n entries at cluster c, and all below it. */
  function L1Clusters(file: File, c: nat, n: nat): multiset<nat> {
    ByteRun(Start(c), 8 * n) + RootClusters(file, ReadTable(file, c, n), n)
  }

  function SnapsClusters(file: File, snaps: seq<Snapshot>, k: nat): multiset<nat>
    requires k <= |snaps|
  {
    if k == 0 then multiset{}
    else SnapsClusters(file, snaps, k - 1) + L1Clusters(file, snaps[k - 1].cluster, snaps[k - 1].size)
  }

  function BlockClusters(blocks: seq<nat>, i: nat): multiset<nat>
    requires i <= |blocks|
  {
    if i == 0 then multiset{}
    else BlockClusters(blocks, i - 1) + (if blocks[i - 1] == 0 then multiset{} else ByteRun(Start(blocks[i - 1]), CLUSTER_BYTES))
  }

  /** Header, refcount table and refcount blocks, as the check counts them. */
  ghost function MetaClusters(img: Image): multiset<nat> {
    ByteRun(0, CLUSTER_BYTES) + ByteRun(Start(img.refcountTable), 8 * |img.refcountBlocks|)
    + BlockClusters(img.refcountBlocks, |img.refcountBlocks|)
  }

  ghost function Referenced(img: Image): multiset<nat>
    reads img
  {
    ByteRun(0, CLUSTER_BYTES)
    + L1Clusters(img.file, img.l1Cluster, |img.l1Table|)
    + SnapsClusters(img.file, img.snapshots, |img.snapshots|)
    + ByteRun(Start(img.snapshotsCluster), img.snapshotsSize)
    + ByteRun(Start(img.refcountTable), 8 * |img.refcountBlocks|)
    + BlockClusters(img.refcountBlocks, |img.refcountBlocks|)
  }

  // ---------------------------------------------------------------------------------------
  // What is required of flags

  predicate EntryFlag(rc: multiset<nat>, w: Word, checkCopied: bool) {
    w != ZERO ==> if w.compressed then !w.copied else checkCopied ==> (rc[w.cluster] == 1 <==> w.copied)
  }

  ghost predicate TableFlags(rc: multiset<nat>, t: seq<Word>, n: nat, checkCopied: bool) {
    forall j: nat :: j < n && j < |t| ==> EntryFlag(rc, t[j], checkCopied)
  }

  ghost predicate PathFlags(file: File, rc: multiset<nat>, w: Word, checkCopied: bool) {
    w != ZERO ==> (checkCopied ==> (rc[w.cluster] == 1 <==> w.copied)) && TableFlags(rc, Read(file, w.cluster), L2_SIZE, checkCopied)
  }

  ghost predicate RootFlags(file: File, rc: multiset<nat>, t: seq<Word>, n: nat, checkCopied: bool) {
    forall i: nat :: i < n && i < |t| ==> PathFlags(file, rc, t[i], checkCopied)
  }

  ghost predicate SnapsFlags(file: File, rc: multiset<nat>, snaps: seq<Snapshot>, n: nat) {
    forall k: nat :: k < n && k < |snaps| ==> RootFlags(file, rc, SnapTable(file, snaps[k]), snaps[k].size, false)
  }

  ghost predicate FlagsRight(img: Image)
    reads img
  {
    && RootFlags(img.file, img.refcount, ReadTable(img.file, img.l1Cluster, |img.l1Table|), |img.l1Table|, true)
    && SnapsFlags(img.file, img.refcount, img.snapshots, |img.snapshots|)
  }

  // ---------------------------------------------------------------------------------------
  // The check

  /** The recount uses 16-bit counters. */
  ghost predicate Recount(table: seq<nat>, refs: multiset<nat>) {
    forall k: nat :: k < |table| ==> table[k] == refs[k] % 0x1_0000
  }

  /** Every reference lies in the file, and no cluster has more than a count can say. */
  ghost predicate InRange(nb: nat, refs: multiset<nat>) {
    forall c: nat :: refs[c] <= MAX_REFCOUNT && (c >= nb ==> refs[c] == 0)
  }

  ghost predicate Verdict(nb: nat, refs: multiset<nat>, flags: bool, errors: nat) {
    errors == 0 <==> InRange(nb, refs) && flags
  }

  lemma CountOne(table: seq<nat>, refs: multiset<nat>, flags: bool, errors: nat, c: nat, after: seq<nat>, e: nat)
    requires Recount(table, refs) && Verdict(|table|, refs, flags, errors)
    requires if c >= |table| then after == table && e == errors + 1
             else after == table[c := (table[c] + 1) % 0x1_0000] && e == errors + if after[c] == 0 then 1 else 0
    ensures Recount(after, refs + multiset{c}) && Verdict(|after|, refs + multiset{c}, flags, e)
  {
    hide InRange;
    var more := refs + multiset{c};
    InRangeStep(|table|, refs, c);
    WrapStep(refs[c]);
    forall k: nat | k < |after| ensures after[k] == more[k] % 0x1_0000 {
      assert table[k] == refs[k] % 0x1_0000;
      assert more[k] == if k == c then refs[k] + 1 else refs[k];
    }
    if InRange(|table|, refs) { InRangeAt(|table|, refs, c); }
  }

  lemma WrapStep(r: nat)
    ensures (r % 0x1_0000 + 1) % 0x1_0000 == (r + 1) % 0x1_0000
    ensures r <= MAX_REFCOUNT ==> ((r + 1) % 0x1_0000 == 0 <==> r == MAX_REFCOUNT)
  {
  }

  lemma InRangeAt(nb: nat, refs: multiset<nat>, c: nat)
    requires InRange(nb, refs)
    ensures refs[c] <= MAX_REFCOUNT
  {
  }

  lemma InRangeStep(nb: nat, refs: multiset<nat>, c: nat)
    ensures InRange(nb, refs + multiset{c}) <==> InRange(nb, refs) && refs[c] < MAX_REFCOUNT && c < nb
  {
    var more := refs + multiset{c};
    assert more[c] == refs[c] + 1;
    assert forall x: nat :: x != c ==> more[x] == refs[x];
  }

  /** Counts one reference; a cluster outside the file or a counter that wraps is an error. */
  method IncRefcount(table: array<nat>, c: nat, errors: nat, ghost refs: multiset<nat>, ghost flags: bool) returns (e: nat)
    requires Recount(table[..], refs) && Verdict(table.Length, refs, flags, errors)
    modifies table
    ensures Recount(table[..], refs + multiset{c}) && Verdict(table.Length, refs + multiset{c}, flags, e)
    ensures e == errors + if c >= table.Length || (old(table[..])[c] + 1) % 0x1_0000 == 0 then 1 else 0
  {
    hide Recount, Verdict;
    e := errors;
    ghost var before := table[..];
    if c >= table.Length {
      e := e + 1;
    } else {
      table[c] := (table[c] + 1) % 0x1_0000;
      if table[c] == 0 { e := e + 1; }
    }
    CountOne(before, refs, flags, errors, c, table[..], e);
  }

  method IncRefcounts(table: array<nat>, offset: nat, size: nat, errors: nat, ghost refs: multiset<nat>, ghost flags: bool)
    returns (e: nat)
    requires Recount(table[..], refs) && Verdict(table.Length, refs, flags, errors)
    modifies table
    ensures Recount(table[..], refs + ByteRun(offset, size)) && Verdict(table.Length, refs + ByteRun(offset, size), flags, e)
    ensures e >= errors
  {
    hide Run, Recount, Verdict, ClusterOf, Touched;
    e := errors;
    var first, n := ClusterOf(offset), Touched(offset, size);
    RunExtend(first, 0);
    assert refs + multiset{} == refs;
    for c := first to first + n
      invariant e >= errors
      invariant Recount(table[..], refs + Run(first, c - first)) && Verdict(table.Length, refs + Run(first, c - first), flags, e)
    {
      RunExtend(first, c - first);
      e := IncRefcount(table, c, e, refs + Run(first, c - first), flags);
      Join(refs, Run(first, c - first), multiset{c});
    }
  }

  lemma Join(a: multiset<nat>, b: multiset<nat>, c: multiset<nat>)
    ensures a + b + c == a + (b + c)
  {
  }

  lemma SpoilFlags(nb: nat, refs: multiset<nat>, flags: bool, errors: nat, more: bool, e: nat)
    requires Verdict(nb, refs, flags, errors) && (if more then e == errors else e == errors + 1)
    ensures Verdict(nb, refs, flags && more, e)
  {
  }

  /** One entry of an L2 table. */
  method CheckEntry(img: Image, table: array<nat>, w: Word, checkCopied: bool, errors: nat, ghost refs: multiset<nat>,
                    ghost flags: bool) returns (e: nat)
    requires Recount(table[..], refs) && Verdict(table.Length, refs, flags, errors)
    modifies table
    ensures Recount(table[..], refs + EntryClusters(w))
    ensures Verdict(table.Length, refs + EntryClusters(w), flags && EntryFlag(img.refcount, w, checkCopied), e)
    ensures e >= errors && ((w.compressed && w.copied) || (checkCopied && !CopiedRightAt(img.refcount, w)) ==> e > errors)
  {
    hide ByteRun, Recount, Verdict, ChunkOffset, ChunkSectors, SectorStart, Payload;
    e := errors;
    if w == ZERO {
      assert refs + multiset{} == refs;
      return;
    }
    if w.compressed {
      if w.copied { e := e + 1; }
      SpoilFlags(table.Length, refs, flags, errors, EntryFlag(img.refcount, w, checkCopied), e);
      e := IncRefcounts(table, SectorStart(ChunkOffset(w)), ChunkSectors(w) * 512, e, refs,
                        flags && EntryFlag(img.refcount, w, checkCopied));
      return;
    }
    if checkCopied && (img.GetRefcount(w.cluster) == 1) != w.copied { e := e + 1; }
    SpoilFlags(table.Length, refs, flags, errors, EntryFlag(img.refcount, w, checkCopied), e);
    e := IncRefcounts(table, Payload(w), CLUSTER_BYTES, e, refs, flags && EntryFlag(img.refcount, w, checkCopied));
  }

  /** All entries of an L2 table. */
  method CheckL2(img: Image, table: array<nat>, t: seq<Word>, checkCopied: bool, errors: nat, ghost refs: multiset<nat>,
                 ghost flags: bool) returns (e: nat)
    requires Recount(table[..], refs) && Verdict(table.Length, refs, flags, errors)
    modifies table
    ensures Recount(table[..], refs + TableClusters(t, |t|))
    ensures Verdict(table.Length, refs + TableClusters(t, |t|), flags && TableFlags(img.refcount, t, |t|, checkCopied), e)
  {
    hide Recount, Verdict, EntryClusters, EntryFlag;
    e := errors;
    assert refs + multiset{} == refs;
    for j := 0 to |t|
      invariant Recount(table[..], refs + TableClusters(t, j))
      invariant Verdict(table.Length, refs + TableClusters(t, j), flags && TableFlags(img.refcount, t, j, checkCopied), e)
    {
      ghost var sofar := flags && TableFlags(img.refcount, t, j, checkCopied);
      e := CheckEntry(img, table, t[j], checkCopied, e, refs + TableClusters(t, j), sofar);
      Join(refs, TableClusters(t, j), EntryClusters(t[j]));
      assert TableFlags(img.refcount, t, j + 1, checkCopied)
             <==> TableFlags(img.refcount, t, j, checkCopied) && EntryFlag(img.refcount, t[j], checkCopied);
    }
  }

  /** One entry of an L1 table. */
  method CheckPath(img: Image, table: array<nat>, w: Word, checkCopied: bool, errors: nat, ghost refs: multiset<nat>,
                   ghost flags: bool) returns (e: nat)
    requires w == ZERO || (!w.compressed && w.low == 0)
    requires Recount(table[..], refs) && Verdict(table.Length, refs, flags, errors)
    modifies table
    ensures Recount(table[..], refs + PathClusters(img.file, w))
    ensures Verdict(table.Length, refs + PathClusters(img.file, w), flags && PathFlags(img.file, img.refcount, w, checkCopied), e)
  {
    hide ByteRun, Recount, Verdict, Payload, Read, TableClusters, TableFlags;
    e := errors;
    if w == ZERO {
      assert refs + multiset{} == refs;
      return;
    }
    if checkCopied && (img.GetRefcount(w.cluster) == 1) != w.copied { e := e + 1; }
    ghost var right := checkCopied ==> (img.refcount[w.cluster] == 1 <==> w.copied);
    SpoilFlags(table.Length, refs, flags, errors, right, e);
    var t := Read(img.file, w.cluster);
    e := CheckL2(img, table, t, checkCopied, e, refs, flags && right);
    e := IncRefcounts(table, Payload(w), CLUSTER_BYTES, e, refs + TableClusters(t, L2_SIZE),
                      flags && right && TableFlags(img.refcount, t, L2_SIZE, checkCopied));
    Join(refs, TableClusters(t, L2_SIZE), EntryClusters(w));
  }

  method CheckRefcountsL1(img: Image, table: array<nat>, c: nat, n: nat, checkCopied: bool, errors: nat,
                          ghost refs: multiset<nat>, ghost flags: bool) returns (e: nat)
    requires PlainTable(ReadTable(img.file, c, n))
    requires Recount(table[..], refs) && Verdict(table.Length, refs, flags, errors)
    modifies table
    ensures Recount(table[..], refs + L1Clusters(img.file, c, n))
    ensures Verdict(table.Length, refs + L1Clusters(img.file, c, n),
                    flags && RootFlags(img.file, img.refcount, ReadTable(img.file, c, n), n, checkCopied), e)
  {
    hide ByteRun, Recount, Verdict, PathClusters, PathFlags, ReadTable;
    e := IncRefcounts(table, Start(c), 8 * n, errors, refs, flags);
    var t := ReadTable(img.file, c, n);
    ghost var now := refs + ByteRun(Start(c), 8 * n);
    assert now + multiset{} == now;
    for i := 0 to n
      invariant Recount(table[..], now + RootClusters(img.file, t, i))
      invariant Verdict(table.Length, now + RootClusters(img.file, t, i),
                        flags && RootFlags(img.file, img.refcount, t, i, checkCopied), e)
    {
      e := CheckPath(img, table, t[i], checkCopied, e, now + RootClusters(img.file, t, i),
                     flags && RootFlags(img.file, img.refcount, t, i, checkCopied));
      Join(now, RootClusters(img.file, t, i), PathClusters(img.file, t[i]));
      assert RootFlags(img.file, img.refcount, t, i + 1, checkCopied)
             <==> RootFlags(img.file, img.refcount, t, i, checkCopied) && PathFlags(img.file, img.refcount, t[i], checkCopied);
    }
    Join(refs, ByteRun(Start(c), 8 * n), RootClusters(img.file, t, n));
  }

  method CheckSnapshots(img: Image, table: array<nat>, errors: nat, ghost refs: multiset<nat>, ghost flags: bool) returns (e: nat)
    requires forall k :: 0 <= k < |img.snapshots| ==> PlainTable(SnapTable(img.file, img.snapshots[k]))
    requires Recount(table[..], refs) && Verdict(table.Length, refs, flags, errors)
    modifies table
    ensures Recount(table[..], refs + SnapsClusters(img.file, img.snapshots, |img.snapshots|))
    ensures Verdict(table.Length, refs + SnapsClusters(img.file, img.snapshots, |img.snapshots|),
                    flags && SnapsFlags(img.file, img.refcount, img.snapshots, |img.snapshots|), e)
  {
    hide Recount, Verdict, L1Clusters, RootFlags, ReadTable;
    e := errors;
    var snaps := img.snapshots;
    assert refs + multiset{} == refs;
    for k := 0 to |snaps|
      invariant Recount(table[..], refs + SnapsClusters(img.file, snaps, k))
      invariant Verdict(table.Length, refs + SnapsClusters(img.file, snaps, k),
                        flags && SnapsFlags(img.file, img.refcount, snaps, k), e)
    {
      assert PlainTable(SnapTable(img.file, snaps[k]));
      e := CheckRefcountsL1(img, table, snaps[k].cluster, snaps[k].size, false, e, refs + SnapsClusters(img.file, snaps, k),
                            flags && SnapsFlags(img.file, img.refcount, snaps, k));
      Join(refs, SnapsClusters(img.file, snaps, k), L1Clusters(img.file, snaps[k].cluster, snaps[k].size));
      assert SnapsFlags(img.file, img.refcount, snaps, k + 1)
             <==> SnapsFlags(img.file, img.refcount, snaps, k)
                  && RootFlags(img.file, img.refcount, SnapTable(img.file, snaps[k]), snaps[k].size, false);
    }
  }

  method CheckBlocks(img: Image, table: array<nat>, errors: nat, ghost refs: multiset<nat>, ghost flags: bool) returns (e: nat)
    requires Recount(table[..], refs) && Verdict(table.Length, refs, flags, errors)
    modifies table
    ensures Recount(table[..], refs + BlockClusters(img.refcountBlocks, |img.refcountBlocks|))
    ensures Verdict(table.Length, refs + BlockClusters(img.refcountBlocks, |img.refcountBlocks|), flags, e)
  {
    hide Recount, Verdict, ByteRun, Start;
    e := errors;
    var blocks := img.refcountBlocks;
    assert refs + multiset{} == refs;
    for i := 0 to |blocks|
      invariant Recount(table[..], refs + BlockClusters(blocks, i)) && Verdict(table.Length, refs + BlockClusters(blocks, i), flags, e)
    {
      if blocks[i] != 0 {
        e := IncRefcounts(table, Start(blocks[i]), CLUSTER_BYTES, e, refs + BlockClusters(blocks, i), flags);
        Join(refs, BlockClusters(blocks, i), ByteRun(Start(blocks[i]), CLUSTER_BYTES));
      } else {
        assert BlockClusters(blocks, i + 1) == BlockClusters(blocks, i);
      }
    }
  }

  /** What the check accepts: references in range, flags right, and each count the number of references. */
  ghost predicate Clean(img: Image, nb: nat)
    reads img
  {
    && InRange(nb, Referenced(img)) && FlagsRight(img)
    && forall c: nat :: c < nb ==> img.refcount[c] == Referenced(img)[c]
  }

  /** Below the active L1 table COPIED says, for every entry, whether the count is one; compressed entries never carry it. */
  ghost predicate CopiedRight(file: File, rc: multiset<nat>, t: seq<Word>) {
    forall i: nat :: i < |t| && t[i] != ZERO ==>
      && (t[i].copied <==> rc[t[i].cluster] == 1)
      && forall j: nat :: j < L2_SIZE ==> CopiedRightAt(rc, Read(file, t[i].cluster)[j])
  }

  ghost predicate CopiedRightAt(rc: multiset<nat>, w: Word) {
    && (w.compressed ==> !w.copied)
    && (!w.compressed && w != ZERO ==> (w.copied <==> rc[w.cluster] == 1))
  }

  /** Below the table of a snapshot compressed entries do not carry COPIED. */
  ghost predicate NoCompressedCopied(file: File, t: seq<Word>) {
    forall i: nat, j: nat :: i < |t| && t[i] != ZERO && j < L2_SIZE ==>
      !(Read(file, t[i].cluster)[j].compressed && Read(file, t[i].cluster)[j].copied)
  }

  /** What an accepted image is like. */
  lemma CleanMeans(img: Image, nb: nat)
    ensures Clean(img, nb) <==>
      && (forall c: nat :: Referenced(img)[c] <= 0xffff && if c < nb then img.refcount[c] == Referenced(img)[c] else Referenced(img)[c] == 0)
      && CopiedRight(img.file, img.refcount, ReadTable(img.file, img.l1Cluster, |img.l1Table|))
      && forall k :: 0 <= k < |img.snapshots| ==> NoCompressedCopied(img.file, SnapTable(img.file, img.snapshots[k]))
  {
    hide Referenced, ReadTable, RootFlags, CopiedRight, NoCompressedCopied;
    RootFlagsMean(img.file, img.refcount, ReadTable(img.file, img.l1Cluster, |img.l1Table|));
    forall k: nat | k < |img.snapshots|
      ensures RootFlags(img.file, img.refcount, SnapTable(img.file, img.snapshots[k]), img.snapshots[k].size, false)
         <==> NoCompressedCopied(img.file, SnapTable(img.file, img.snapshots[k]))
    {
      SnapFlagsMean(img.file, img.refcount, SnapTable(img.file, img.snapshots[k]));
    }
  }

  lemma RootFlagsMean(file: File, rc: multiset<nat>, t: seq<Word>)
    ensures RootFlags(file, rc, t, |t|, true) <==> CopiedRight(file, rc, t)
  {
    hide Read;
    if RootFlags(file, rc, t, |t|, true) {
      forall i: nat, j: nat | i < |t| && t[i] != ZERO && j < L2_SIZE ensures CopiedRightAt(rc, Read(file, t[i].cluster)[j]) {
        assert PathFlags(file, rc, t[i], true);
        assert EntryFlag(rc, Read(file, t[i].cluster)[j], true);
      }
      forall i: nat | i < |t| && t[i] != ZERO ensures t[i].copied <==> rc[t[i].cluster] == 1 { assert PathFlags(file, rc, t[i], true); }
    }
    if CopiedRight(file, rc, t) {
      forall i: nat | i < |t| ensures PathFlags(file, rc, t[i], true) {
        if t[i] != ZERO {
          forall j: nat | j < L2_SIZE ensures EntryFlag(rc, Read(file, t[i].cluster)[j], true) {
            assert CopiedRightAt(rc, Read(file, t[i].cluster)[j]);
          }
        }
      }
    }
  }

  lemma SnapFlagsMean(file: File, rc: multiset<nat>, t: seq<Word>)
    ensures RootFlags(file, rc, t, |t|, false) <==> NoCompressedCopied(file, t)
  {
    hide Read;
    if RootFlags(file, rc, t, |t|, false) {
      forall i: nat, j: nat | i < |t| && t[i] != ZERO && j < L2_SIZE
        ensures !(Read(file, t[i].cluster)[j].compressed && Read(file, t[i].cluster)[j].copied)
      {
        assert PathFlags(file, rc, t[i], false);
        assert EntryFlag(rc, Read(file, t[i].cluster)[j], false);
      }
    }
    if NoCompressedCopied(file, t) {
      forall i: nat | i < |t| ensures PathFlags(file, rc, t[i], false) {}
    }
  }

  /** For plain tables that is what the invariant asks of flags. */
  lemma CopiedRightPlain(file: File, rc: multiset<nat>, t: seq<Word>)
    requires PlainRoot(file, t)
    ensures CopiedRight(file, rc, t) <==> FlagRoot(file, rc, t)
  {
    hide Read;
    if CopiedRight(file, rc, t) {
      forall i | 0 <= i < |t| && t[i] != ZERO ensures FlagTable(rc, Read(file, t[i].cluster)) {
        forall j | 0 <= j < L2_SIZE ensures FlagOk(rc, Read(file, t[i].cluster)[j]) { assert CopiedRightAt(rc, Read(file, t[i].cluster)[j]); }
      }
    }
    if FlagRoot(file, rc, t) {
      forall i: nat, j: nat | i < |t| && t[i] != ZERO && j < L2_SIZE ensures CopiedRightAt(rc, Read(file, t[i].cluster)[j]) {
        assert FlagOk(rc, Read(file, t[i].cluster)[j]);
      }
      forall i: nat | i < |t| && t[i] != ZERO ensures t[i].copied <==> rc[t[i].cluster] == 1 { assert FlagOk(rc, t[i]); }
    }
  }

  /** Recounts all references of an image of nb clusters; no error is found exactly when the image is clean. */
  method CheckRefcounts(img: Image, nb: nat) returns (errors: nat)
    requires PlainTable(ReadTable(img.file, img.l1Cluster, |img.l1Table|))
    requires forall k :: 0 <= k < |img.snapshots| ==> PlainTable(SnapTable(img.file, img.snapshots[k]))
    ensures errors == 0 <==> Clean(img, nb)
    ensures errors == 0 ==> CopiedRight(img.file, img.refcount, ReadTable(img.file, img.l1Cluster, |img.l1Table|))
    ensures errors == 0 ==> forall k :: 0 <= k < |img.snapshots| ==> NoCompressedCopied(img.file, SnapTable(img.file, img.snapshots[k]))
  {
    hide Recount, Verdict, L1Clusters, SnapsClusters, ByteRun, BlockClusters, RootFlags, SnapsFlags, ReadTable, PlainTable, Start, InRange,
         CopiedRight, NoCompressedCopied;
    CleanMeans(img, nb);
    var table := new nat[nb](_ => 0);
    StartCount(table[..]);
    errors := IncRefcounts(table, 0, CLUSTER_BYTES, 0, multiset{}, true);
    ghost var refs := multiset{} + ByteRun(0, CLUSTER_BYTES);
    assert refs == ByteRun(0, CLUSTER_BYTES);
    errors := CheckRefcountsL1(img, table, img.l1Cluster, |img.l1Table|, true, errors, refs, true);
    refs := refs + L1Clusters(img.file, img.l1Cluster, |img.l1Table|);
    ghost var flags := RootFlags(img.file, img.refcount, ReadTable(img.file, img.l1Cluster, |img.l1Table|), |img.l1Table|, true);
    errors := CheckSnapshots(img, table, errors, refs, flags);
    refs := refs + SnapsClusters(img.file, img.snapshots, |img.snapshots|);
    flags := flags && SnapsFlags(img.file, img.refcount, img.snapshots, |img.snapshots|);
    errors := IncRefcounts(table, Start(img.snapshotsCluster), img.snapshotsSize, errors, refs, flags);
    refs := refs + ByteRun(Start(img.snapshotsCluster), img.snapshotsSize);
    errors := IncRefcounts(table, Start(img.refcountTable), 8 * |img.refcountBlocks|, errors, refs, flags);
    refs := refs + ByteRun(Start(img.refcountTable), 8 * |img.refcountBlocks|);
    errors := CheckBlocks(img, table, errors, refs, flags);
    refs := refs + BlockClusters(img.refcountBlocks, |img.refcountBlocks|);
    assert refs == Referenced(img);
    errors := Compare(img, table, errors, refs, flags);
  }

  lemma StartCount(table: seq<nat>)
    requires forall k :: 0 <= k < |table| ==> table[k] == 0
    ensures Recount(table, multiset{}) && Verdict(|table|, multiset{}, true, 0)
  {
  }

  /** Compares the recount with the counts of the image. */
  method Compare(img: Image, table: array<nat>, errors: nat, ghost refs: multiset<nat>, ghost flags: bool) returns (e: nat)
    requires Recount(table[..], refs) && Verdict(table.Length, refs, flags, errors)
    ensures e == 0 <==> InRange(table.Length, refs) && flags && forall c: nat :: c < table.Length ==> img.refcount[c] == refs[c]
  {
    e := errors;
    ghost var same := true;
    for i := 0 to table.Length
      invariant same <==> forall c: nat :: c < i ==> img.refcount[c] == table[c]
      invariant e == 0 <==> errors == 0 && same
    {
      if img.GetRefcount(i) != table[i] {
        e := e + 1;
        same := false;
      }
    }
    if errors == 0 {
      forall c: nat | c < table.Length ensures table[c] == refs[c] { assert table[..][c] == refs[c] % 0x1_0000; }
    }
  }

  // ---------------------------------------------------------------------------------------
  // What the check says about images that the driver leaves behind

  lemma {:induction false} TableClustersAre(t: seq<Word>, j: nat)
    requires j <= |t| && PlainTable(t)
    ensures TableClusters(t, j) + EntryRefs(t, j) == EntryRefs(t, 0)
  {
    hide EntryClusters, Ref, PlainTable;
    if j == 0 { return; }
    TableClustersAre(t, j - 1);
    PlainEntryAt(t, j - 1);
    Join(TableClusters(t, j - 1), Ref(t[j - 1]), EntryRefs(t, j));
  }

  lemma PlainEntryAt(t: seq<Word>, i: nat)
    requires i < |t| && PlainTable(t)
    ensures EntryClusters(t[i]) == Ref(t[i])
  {
    hide EntryClusters;
    if t[i] != ZERO { PlainEntry(t[i]); } else { ZeroEntry(); }
  }

  lemma ZeroEntry()
    ensures EntryClusters(ZERO) == Ref(ZERO)
  {
  }

  lemma PathClustersAre(file: File, t: seq<Word>, i: nat)
    requires i < |t| && PlainRoot(file, t)
    ensures PathClusters(file, t[i]) == Ref(t[i]) + PathRefs(file, t[i])
  {
    hide EntryClusters, Read, EntryRefs, TableClusters;
    PlainEntryAt(t, i);
    if t[i] != ZERO {
      var u := Read(file, t[i].cluster);
      TableClustersAre(u, L2_SIZE);
      EntryRefsStep2(u);
    }
  }

  lemma EntryRefsStep2(t: seq<Word>)
    ensures EntryRefs(t, |t|) == multiset{}
  {
  }

  lemma {:induction false} RootClustersAre(file: File, t: seq<Word>, i: nat)
    requires i <= |t| && PlainRoot(file, t)
    ensures RootClusters(file, t, i) + EntryRefs(t, i) + DataRefs(file, t, i) == EntryRefs(t, 0) + DataRefs(file, t, 0)
  {
    hide PathClusters, PathRefs, Ref, PlainRoot;
    if i == 0 { return; }
    RootClustersAre(file, t, i - 1);
    PathClustersAre(file, t, i - 1);
  }

  /** For an L1 table with plain entries the check counts what the invariant counts. */
  lemma L1ClustersAre(file: File, c: nat, t: seq<Word>)
    requires t == ReadTable(file, c, |t|) && PlainRoot(file, t)
    ensures forall x: nat :: L1Clusters(file, c, |t|)[x] == Run(c, Clusters(|t|))[x] + EntryRefs(t, 0)[x] + DataRefs(file, t, 0)[x]
  {
    hide Run, ByteRun, EntryRefs, DataRefs, RootClusters, ByteClusters, Clusters, Start, ReadTable;
    AlignedRun(c, 8 * |t|);
    TableBytes(|t|);
    RootClustersAre(file, t, |t|);
    EntryRefsZeros(t, |t|);
    DataRefsZeros(file, t, |t|);
    assert RootClusters(file, t, |t|) + multiset{} + multiset{} == RootClusters(file, t, |t|);
  }

  lemma SnapsEnd(file: File, snaps: seq<Snapshot>)
    ensures SnapRuns(snaps, |snaps|) == SnapL2(file, snaps, |snaps|) == SnapData(file, snaps, |snaps|) == multiset{}
  {
  }

  lemma {:induction false} SnapsClustersAre(file: File, snaps: seq<Snapshot>, k: nat, x: nat)
    requires k <= |snaps| && SnapsOk(file, snaps)
    ensures SnapsClusters(file, snaps, k)[x] + SnapRuns(snaps, k)[x] + SnapL2(file, snaps, k)[x] + SnapData(file, snaps, k)[x]
            == SnapRuns(snaps, 0)[x] + SnapL2(file, snaps, 0)[x] + SnapData(file, snaps, 0)[x]
  {
    hide L1Clusters, Run, EntryRefs, DataRefs, Clusters, ReadTable, PlainRoot, Once;
    if k == 0 { return; }
    SnapsClustersAre(file, snaps, k - 1, x);
    assert RootOk(file, SnapTable(file, snaps[k - 1]));
    L1ClustersAre(file, snaps[k - 1].cluster, SnapTable(file, snaps[k - 1]));
  }

  /** On an image that satisfies the invariant the counts exceed the references exactly by what has leaked. */
  lemma ReferencedIs(img: Image)
    requires img.Valid() && img.meta == MetaClusters(img)
    ensures forall x: nat :: img.refcount[x] == Referenced(img)[x] + img.leaked[x]
  {
    hide L1Clusters, SnapsClusters, Run, EntryRefs, DataRefs, Clusters, ReadTable, ByteRun, BlockClusters, SnapRuns, SnapL2, SnapData,
         Start, ByteClusters, PlainRoot, Once;
    AlignedRun(img.snapshotsCluster, img.snapshotsSize);
    var fixed := img.Metadata() + multiset{} + img.L1Run();
    L1Stored(img.Core(), fixed);
    L1ClustersAre(img.file, img.l1Cluster, img.l1Table);
    SnapsEnd(img.file, img.snapshots);
    forall x: nat ensures img.refcount[x] == Referenced(img)[x] + img.leaked[x] {
      CountAt(img.file, img.refcount, fixed, img.l1Table, img.snapshots, x);
      SnapsClustersAre(img.file, img.snapshots, |img.snapshots|, x);
    }
  }

  lemma FlagEntry(rc: multiset<nat>, t: seq<Word>)
    requires FlagTable(rc, t) && PlainTable(t)
    ensures TableFlags(rc, t, |t|, true)
  {
    forall j: nat | j < |t| ensures EntryFlag(rc, t[j], true) { assert FlagOk(rc, t[j]); }
  }

  lemma PlainFlags(rc: multiset<nat>, t: seq<Word>)
    requires PlainTable(t)
    ensures TableFlags(rc, t, |t|, false)
  {
  }

  lemma FlagRootRight(file: File, rc: multiset<nat>, t: seq<Word>)
    requires PlainRoot(file, t) && FlagRoot(file, rc, t)
    ensures RootFlags(file, rc, t, |t|, true)
  {
    hide Read, PlainTable, FlagTable;
    forall i: nat | i < |t| ensures PathFlags(file, rc, t[i], true) {
      if t[i] != ZERO {
        FlagTableAt(rc, t, i);
        FlagEntry(rc, Read(file, t[i].cluster));
      }
    }
  }

  lemma FlagTableAt(rc: multiset<nat>, t: seq<Word>, i: nat)
    requires FlagTable(rc, t) && i < |t|
    ensures FlagOk(rc, t[i])
  {
  }

  lemma PlainRootRight(file: File, rc: multiset<nat>, t: seq<Word>)
    requires PlainRoot(file, t)
    ensures RootFlags(file, rc, t, |t|, false)
  {
    hide Read;
    forall i: nat | i < |t| ensures PathFlags(file, rc, t[i], false) {
      if t[i] != ZERO { PlainFlags(rc, Read(file, t[i].cluster)); }
    }
  }

  /** The invariant implies right flags and plain tables. */
  lemma ValidFlags(img: Image)
    requires img.Valid()
    ensures FlagsRight(img)
    ensures PlainTable(ReadTable(img.file, img.l1Cluster, |img.l1Table|))
    ensures forall k :: 0 <= k < |img.snapshots| ==> PlainTable(SnapTable(img.file, img.snapshots[k]))
  {
    hide Read, PlainTable, RootFlags, FlagRoot, EntryRefs, DataRefs, SnapRuns, SnapL2, SnapData, ReadTable, Once, Run, Clusters;
    L1Stored(img.Core(), img.Metadata() + multiset{} + img.L1Run());
    FlagRootRight(img.file, img.refcount, img.l1Table);
    forall k: nat | k < |img.snapshots|
      ensures RootFlags(img.file, img.refcount, SnapTable(img.file, img.snapshots[k]), img.snapshots[k].size, false)
      ensures PlainTable(SnapTable(img.file, img.snapshots[k]))
    {
      assert RootOk(img.file, SnapTable(img.file, img.snapshots[k]));
      PlainRootRight(img.file, img.refcount, SnapTable(img.file, img.snapshots[k]));
    }
  }

  /** An image that satisfies the invariant, seen whole, is clean exactly when nothing has leaked. */
  lemma ValidClean(img: Image, nb: nat)
    requires img.Valid() && img.meta == MetaClusters(img)
    requires forall c: nat :: c >= nb ==> img.refcount[c] == 0
    ensures Clean(img, nb) <==> img.leaked == multiset{}
  {
    hide Referenced, FlagsRight, Run, SnapRuns, MetaClusters, ReadTable, SoundCore;
    ReferencedIs(img);
    ValidFlags(img);
    SoundRoom(img.Core(), img.Metadata() + multiset{}, img.L1Run());
    forall c: nat ensures Referenced(img)[c] <= MAX_REFCOUNT && (c >= nb ==> Referenced(img)[c] == 0 && img.leaked[c] == 0) {
      assert img.refcount[c] <= MAX_REFCOUNT;
      assert img.refcount[c] == Referenced(img)[c] + img.leaked[c];
    }
    if Clean(img, nb) {
      forall c: nat ensures img.leaked[c] == 0 {
        assert img.refcount[c] == Referenced(img)[c] + img.leaked[c];
      }
    }
  }

  /** The check finds no error on such an image exactly when nothing has leaked. */
  method CheckValid(img: Image, nb: nat) returns (errors: nat)
    requires img.Valid() && img.meta == MetaClusters(img)
    requires forall c: nat :: c >= nb ==> img.refcount[c] == 0
    ensures errors == 0 <==> img.leaked == multiset{}
  {
    hide Clean, MetaClusters, SoundCore, ReadTable, PlainTable;
    ValidFlags(img);
    ValidClean(img, nb);
    errors := CheckRefcounts(img, nb);
  }

  /** A new image whose header fits one cluster is laid out as the check expects. */
  lemma NewMeta(img: Image)
    requires img.meta == Run(0, 1) + Run(img.refcountTable, 1) + Run(img.refcountTable + 1, 1)
    requires img.refcountBlocks == FirstBlock(img.refcountTable + 1)
    ensures img.meta == MetaClusters(img)
  {
    hide Run, ByteRun, ByteClusters, FirstBlock;
    var c := img.refcountTable;
    OneFull();
    AlignedRun(0, CLUSTER_BYTES);
    AlignedRun(c, CLUSTER_BYTES);
    AlignedRun(c + 1, CLUSTER_BYTES);
    assert 8 * |img.refcountBlocks| == CLUSTER_BYTES;
    OneBlock(img.refcountBlocks, c + 1, |img.refcountBlocks|);
  }

  lemma {:induction false} OneBlock(blocks: seq<nat>, c: nat, i: nat)
    requires 1 <= i <= |blocks| && c != 0 && blocks[0] == c && forall j :: 1 <= j < |blocks| ==> blocks[j] == 0
    ensures BlockClusters(blocks, i) == ByteRun(Start(c), CLUSTER_BYTES)
  {
    hide ByteRun, Start;
    if i > 1 {
      OneBlock(blocks, c, i - 1);
    } else {
      assert BlockClusters(blocks, 0) == multiset{};
    }
  }
}
