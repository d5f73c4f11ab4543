/** Moving runs of sectors between buffers and consecutive clusters of the file. */
module Transfer {
  import opened Layout
  import opened Counting
  import opened Forest
  import opened Guest

  /** Writing consecutive sectors, the first one at sector `start` counted from cluster c. */
  function WriteSectors(file: File, c: nat, start: nat, data: seq<Sector>): File
    decreases |data|
  {
    if data == [] then file
    else WriteSectors(PutAt(file, c, start, data[0]), c, start + 1, data[1..])
  }

  function SectorAt(file: File, c: nat, p: nat): Sector {
    SectorOf(Read(file, c + Quot(p)), InCluster(p))
  }

  /** Reading n consecutive sectors from sector `start` of cluster c. */
  function ReadSectors(file: File, c: nat, start: nat, n: nat): seq<Sector> {
    seq<Sector>(n, i requires 0 <= i < n => SectorAt(file, c, start + i))
  }

  function PutAt(file: File, c: nat, p: nat, s: Sector): File {
    file[c + Quot(p) := PutSector(Read(file, c + Quot(p)), InCluster(p), s)]
  }

  lemma PutOneSector(file: File, c: nat, start: nat, s: Sector, p: nat)
    ensures SectorAt(PutAt(file, c, start, s), c, p) == if p == start then s else SectorAt(file, c, p)
  {
    hide Read, SectorOf, PutSector;
    var x := c + Quot(start);
    QuotPos(start);
    QuotPos(p);
    ReadPut(file, x, PutSector(Read(file, x), InCluster(start), s), c + Quot(p));
    SectorOfPut(Read(file, x), InCluster(start), s, InCluster(p));
  }

  lemma {:induction false} WriteSectorsOutside(file: File, c: nat, start: nat, data: seq<Sector>, p: nat)
    requires !(start <= p < start + |data|)
    ensures SectorAt(WriteSectors(file, c, start, data), c, p) == SectorAt(file, c, p)
    decreases |data|
  {
    if data == [] { return; }
    hide SectorAt, PutAt;
    PutOneSector(file, c, start, data[0], p);
    WriteSectorsOutside(PutAt(file, c, start, data[0]), c, start + 1, data[1..], p);
  }

  lemma {:induction false} WriteSectorsInside(file: File, c: nat, start: nat, data: seq<Sector>, p: nat)
    requires start <= p < start + |data|
    ensures SectorAt(WriteSectors(file, c, start, data), c, p) == data[p - start]
    decreases |data|
  {
    hide SectorAt, PutAt;
    if p == start {
      PutOneSector(file, c, start, data[0], p);
      WriteSectorsOutside(PutAt(file, c, start, data[0]), c, start + 1, data[1..], p);
    } else {
      WriteSectorsInside(PutAt(file, c, start, data[0]), c, start + 1, data[1..], p);
    }
  }

  /** What a write leaves behind, sector by sector. */
  lemma WriteSectorsAt(file: File, c: nat, start: nat, data: seq<Sector>, p: nat)
    ensures SectorAt(WriteSectors(file, c, start, data), c, p)
            == if start <= p < start + |data| then data[p - start] else SectorAt(file, c, p)
  {
    hide SectorAt, WriteSectors;
    if start <= p < start + |data| {
      WriteSectorsInside(file, c, start, data, p);
    } else {
      WriteSectorsOutside(file, c, start, data, p);
    }
  }

  /** A write inside clusters c .. c + n - 1 leaves the others alone. */
  lemma {:induction false} WriteSectorsFrame(file: File, c: nat, n: nat, start: nat, data: seq<Sector>, x: nat)
    requires start + |data| <= Pos(n, 0)
    requires x < c || c + n <= x
    ensures Read(WriteSectors(file, c, start, data), x) == Read(file, x)
    decreases |data|
  {
    if data == [] { return; }
    hide Pos, PutSector;
    QuotPos(start);
    PosLess(Quot(start), InCluster(start), n);
    WriteSectorsFrame(PutAt(file, c, start, data[0]), c, n, start + 1, data[1..], x);
  }

  // ---------------------------------------------------------------------------------------
  // The sector cipher over runs

  function EncodeRun(m: Medium, s: nat, data: seq<Sector>): seq<Sector> {
    seq<Sector>(|data|, i requires 0 <= i < |data| => m.Encode(s + i, data[i]))
  }

  function DecodeRun(m: Medium, s: nat, data: seq<Sector>): seq<Sector> {
    seq<Sector>(|data|, i requires 0 <= i < |data| => m.Decode(s + i, data[i]))
  }

  // ---------------------------------------------------------------------------------------
  // Windows of the guest disk

  /** Guest sector x lies in the n guest clusters that start with the cluster of s, in the same L2 table. */
  predicate InWindow(s: nat, n: nat, x: nat) {
    L1Index(x) == L1Index(s) && L2Index(s) <= L2Index(x) < L2Index(s) + n
  }

  /** Clusters c .. c + n - 1 of the file hold what the disk `want` shows from the cluster of s on. */
  ghost predicate Holds(m: Medium, file: File, c: nat, s: nat, n: nat, want: imap<nat, Sector>)
    requires forall x: nat :: x in want
  {
    forall p: nat :: p < Pos(n, 0) ==> m.Decode(Base(s) + p, SectorAt(file, c, p)) == want[Base(s) + p]
  }

  /** An L1 table shows `want` when it does so outside a window and the window is mapped to clusters holding it. */
  lemma WindowView(m: Medium, file: File, t: seq<Word>, c: nat, s: nat, n: nat, want: imap<nat, Sector>)
    requires forall x: nat :: x in want
    requires forall x: nat :: !InWindow(s, n, x) ==> ViewSector(m, file, t, x) == want[x]
    requires forall x: nat :: InWindow(s, n, x) ==>
      EntryOf(file, t, x) != ZERO && EntryOf(file, t, x).cluster == c + (L2Index(x) - L2Index(s))
    requires Holds(m, file, c, s, n, want)
    ensures View(m, file, t) == want
  {
    hide EntryOf, ViewSector, InWindow, Holds;
    forall x: nat ensures ViewSector(m, file, t, x) == want[x] {
      if InWindow(s, n, x) { WindowSector(m, file, t, c, s, n, want, x); }
    }
  }

  /** The sectors of a window are those of the clusters from c on. */
  ghost predicate WindowStored(file: File, t: seq<Word>, x: nat, n: nat, from: File, c: nat) {
    forall y: nat :: InWindow(x, n, y) ==>
      Base(x) <= y && y - Base(x) < Pos(n, 0) && CellOf(file, t, y) == Stored(SectorAt(from, c, y - Base(x)))
  }

  /** A sector of the window, as it is stored. */
  lemma WindowCell(file: File, t: seq<Word>, c: nat, s: nat, n: nat, x: nat)
    requires InWindow(s, n, x)
    requires EntryOf(file, t, x) != ZERO && EntryOf(file, t, x).cluster == c + (L2Index(x) - L2Index(s))
    ensures Base(s) <= x && x - Base(s) < Pos(n, 0)
    ensures CellOf(file, t, x) == Stored(SectorAt(file, c, x - Base(s)))
  {
    hide EntryOf, SectorOf, Read, Pos;
    var q := L2Index(x) - L2Index(s);
    AddressOffset(s, x);
    PosInverse(q, InCluster(x));
    PosLess(q, InCluster(x), n);
  }

  lemma WindowSector(m: Medium, file: File, t: seq<Word>, c: nat, s: nat, n: nat, want: imap<nat, Sector>, x: nat)
    requires forall y: nat :: y in want
    requires InWindow(s, n, x)
    requires EntryOf(file, t, x) != ZERO && EntryOf(file, t, x).cluster == c + (L2Index(x) - L2Index(s))
    requires Holds(m, file, c, s, n, want)
    ensures ViewSector(m, file, t, x) == want[x]
  {
    hide EntryOf, SectorOf, Read, Pos;
    var q := L2Index(x) - L2Index(s);
    var p := Pos(q, InCluster(x));
    AddressOffset(s, x);
    PosInverse(q, InCluster(x));
    PosLess(q, InCluster(x), n);
    assert m.Decode(Base(s) + p, SectorAt(file, c, p)) == want[Base(s) + p];
  }

  /** The disk after n sectors from s on were overwritten. */
  ghost function Overwrite(disk: imap<nat, Sector>, s: nat, data: seq<Sector>): (r: imap<nat, Sector>)
    requires forall x: nat :: x in disk
    ensures forall x: nat :: x in r
  {
    imap x: nat | true :: if s <= x < s + |data| then data[x - s] else disk[x]
  }

  /** What overwriting means for each sector, seen by the guest and stored. */
  lemma OverwriteWrote(m: Medium, file: File, t: seq<Word>, other: File, u: seq<Word>, s: nat, data: seq<Sector>)
    requires View(m, other, u) == Overwrite(View(m, file, t), s, data) && Rewritten(m, file, t, other, u, s, s + |data|)
    ensures Wrote(m, file, t, other, u, s, data)
  {
    hide CellOf, ViewSector;
    forall i: nat | i < |data| ensures ViewSector(m, other, u, s + i) == data[i] { assert View(m, other, u)[s + i] == data[i]; }
    forall x: nat | !(s <= x < s + |data|) ensures ViewSector(m, other, u, x) == ViewSector(m, file, t, x) {
      assert View(m, other, u)[x] == View(m, file, t)[x];
    }
    forall x: nat | s <= x < s + |data| ensures Sealed(m, other, u, x) && ViewSector(m, other, u, x) == data[x - s] {}
  }

  lemma WroteOutside(m: Medium, file: File, t: seq<Word>, other: File, u: seq<Word>, s: nat, data: seq<Sector>)
    requires View(m, other, u) == Overwrite(View(m, file, t), s, data)
    ensures forall x: nat :: !(s <= x < s + |data|) ==> ViewSector(m, file, t, x) == ViewSector(m, other, u, x)
  {
    hide ViewSector;
    forall x: nat | !(s <= x < s + |data|) ensures ViewSector(m, file, t, x) == ViewSector(m, other, u, x) {
      assert View(m, other, u)[x] == View(m, file, t)[x];
    }
  }

  lemma OverwriteNothing(disk: imap<nat, Sector>, s: nat)
    requires forall x: nat :: x in disk
    ensures Overwrite(disk, s, []) == disk
  {
  }

  lemma OverwriteMore(disk: imap<nat, Sector>, s: nat, data: seq<Sector>, d: nat, n: nat)
    requires forall x: nat :: x in disk
    requires d <= |data| && n <= |data| - d
    ensures Overwrite(Overwrite(disk, s, data[..d]), s + d, data[d..][..n]) == Overwrite(disk, s, data[..d + n])
  {
  }

  // ---------------------------------------------------------------------------------------
  // Requests inside one L2 table

  predicate InSpan(s: nat, n: nat) {
    n == 0 || L2Index(s) + Quot(InCluster(s) + n - 1) < L2_SIZE
  }

  lemma QuotMonotone(p: nat, q: nat)
    requires p <= q
    ensures Quot(p) <= Quot(q)
  {
    DivMonotone(p, q, CLUSTER_SECTORS);
  }

  /** Sector s + i of such a request: its L2 table, its entry, its place in the cluster. */
  lemma SpanAddress(s: nat, n: nat, i: nat)
    requires InSpan(s, n) && i < n
    ensures L1Index(s + i) == L1Index(s)
    ensures L2Index(s + i) == L2Index(s) + Quot(InCluster(s) + i)
    ensures InCluster(s + i) == InCluster(InCluster(s) + i)
  {
    hide L1Index, L2Index, Quot, InCluster;
    QuotMonotone(InCluster(s) + i, InCluster(s) + n - 1);
    AddressInRun(s, InCluster(s) + i);
  }

  lemma SpanRest(s: nat, n: nat, d: nat)
    requires InSpan(s, n) && d <= n
    ensures InSpan(s + d, n - d)
  {
    if d == n { return; }
    hide L1Index, L2Index, Quot, InCluster;
    SpanAddress(s, n, d);
    SpanAddress(s, n, n - 1);
    var k := InCluster(s + d);
    QuotShift(InCluster(s) + d, n - 1 - d);
  }

  lemma QuotShift(p: nat, e: nat)
    ensures Quot(p + e) == Quot(p) + Quot(InCluster(p) + e)
  {
    hide Base;
    RunArithmetic(p, InCluster(p) + e, CLUSTER_SECTORS);
  }

  /** Guest sector s + i is unmapped (w is ZERO), or mapped into the run of clusters that starts with w. */
  predicate MappedAt(file: File, t: seq<Word>, s: nat, i: nat, w: Word) {
    if w == ZERO then EntryOf(file, t, s + i) == ZERO
    else EntryOf(file, t, s + i) != ZERO && EntryOf(file, t, s + i).cluster == w.cluster + Quot(InCluster(s) + i)
  }

  predicate MappedRun(file: File, t: seq<Word>, s: nat, n: nat, w: Word) {
    forall i: nat :: i < n ==> MappedAt(file, t, s, i, w)
  }

  /** Entries j .. j + c - 1 are unmapped (w is ZERO), or name consecutive clusters from that of w on. */
  predicate LikeRun(u: seq<Word>, j: nat, c: nat, w: Word) {
    forall x :: j <= x < j + c && x < |u| ==>
      if w == ZERO then u[x] == ZERO else u[x] != ZERO && u[x].cluster == w.cluster + (x - j)
  }

  /** c entries of one kind map the sectors of c clusters. */
  lemma TableRun(file: File, t: seq<Word>, s: nat, num: nat, n: nat, c: nat, w: Word)
    requires L1Index(s) < |t| && t[L1Index(s)] != ZERO
    requires InSpan(s, num) && n <= num && InCluster(s) + n <= Pos(c, 0)
    requires LikeRun(Read(file, t[L1Index(s)].cluster), L2Index(s), c, w)
    ensures MappedRun(file, t, s, n, w)
  {
    hide L1Index, L2Index, Quot, InCluster, Read, Pos;
    forall i: nat | i < n ensures MappedAt(file, t, s, i, w) {
      var p := InCluster(s) + i;
      SpanAddress(s, num, i);
      QuotPos(p);
      PosLess(Quot(p), InCluster(p), c);
      assert EntryOf(file, t, s + i) == Read(file, t[L1Index(s)].cluster)[L2Index(s) + Quot(p)];
    }
  }

  lemma UnmappedRun(file: File, t: seq<Word>, s: nat, num: nat)
    requires InSpan(s, num) && (L1Index(s) >= |t| || t[L1Index(s)] == ZERO)
    ensures MappedRun(file, t, s, num, ZERO)
  {
    hide L1Index, L2Index, Quot, InCluster, Read;
    forall i: nat | i < num ensures MappedAt(file, t, s, i, ZERO) { SpanAddress(s, num, i); }
  }

  lemma MappedPrefix(file: File, t: seq<Word>, s: nat, num: nat, n: nat, w: Word)
    requires MappedRun(file, t, s, num, w) && n <= num
    ensures MappedRun(file, t, s, n, w)
  {
  }

  /** The data a mapped run shows. */
  function RunData(m: Medium, file: File, s: nat, n: nat, w: Word): seq<Sector> {
    if w == ZERO then seq<Sector>(n, i requires 0 <= i < n => m.Backing(s + i))
    else DecodeRun(m, s, ReadSectors(file, w.cluster, InCluster(s), n))
  }

  lemma RunDataLength(m: Medium, file: File, s: nat, n: nat, w: Word)
    ensures |RunData(m, file, s, n, w)| == n
  {
  }

  lemma RunDataBacking(m: Medium, file: File, s: nat, n: nat)
    ensures forall i: nat :: i < n ==> RunData(m, file, s, n, ZERO)[i] == m.Backing(s + i)
  {
  }

  lemma EncodeLength(m: Medium, s: nat, data: seq<Sector>)
    ensures |EncodeRun(m, s, data)| == |data|
  {
  }

  lemma RunDataView(m: Medium, file: File, t: seq<Word>, s: nat, num: nat, n: nat, w: Word)
    requires InSpan(s, num) && n <= num && MappedRun(file, t, s, n, w)
    ensures forall i: nat :: i < n ==> RunData(m, file, s, n, w)[i] == ViewSector(m, file, t, s + i)
  {
    hide RunData, ViewSector, MappedRun, InSpan;
    RunDataLength(m, file, s, n, w);
    forall i: nat | i < n ensures RunData(m, file, s, n, w)[i] == ViewSector(m, file, t, s + i) {
      RunDataAt(m, file, t, s, num, n, w, i);
    }
  }

  lemma RunDataAt(m: Medium, file: File, t: seq<Word>, s: nat, num: nat, n: nat, w: Word, i: nat)
    requires InSpan(s, num) && i < n <= num && MappedRun(file, t, s, n, w)
    ensures RunData(m, file, s, n, w)[i] == ViewSector(m, file, t, s + i)
  {
    hide L1Index, L2Index, Quot, InCluster, Read, EntryOf, InSpan;
    assert MappedAt(file, t, s, i, w);
    SpanAddress(s, num, i);
    if w != ZERO {
      assert RunData(m, file, s, n, w)[i] == m.Decode(s + i, SectorAt(file, w.cluster, InCluster(s) + i));
    }
  }

  lemma OneCluster(s: nat, n: nat)
    requires InCluster(s) + n <= CLUSTER_SECTORS
    ensures InSpan(s, n)
  {
    if n > 0 { DivModUnique(InCluster(s) + n - 1, CLUSTER_SECTORS, 0, InCluster(s) + n - 1); }
  }

  lemma BaseOffset(s: nat, p: nat)
    ensures InCluster(Base(s) + p) == InCluster(p)
  {
    RunArithmetic(s, p, CLUSTER_SECTORS);
  }
}
