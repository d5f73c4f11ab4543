/** What a guest sees through an L1 table: sector addresses, and the contents behind them. */
module Guest {
  import opened Layout
  import opened Counting
  import opened Forest

  /** What stays fixed while an image is open: the backing disk and the sector cipher.
      A plain image has encrypted == false. */
  datatype Medium = Medium(backing: seq<Sector>, encrypted: bool, enc: (nat, Sector) -> Sector, dec: (nat, Sector) -> Sector) {

    ghost predicate Valid() {
      forall n: nat, s: Sector :: dec(n, enc(n, s)) == s
    }

    function Encode(n: nat, s: Sector): Sector { if encrypted then enc(n, s) else s }
    function Decode(n: nat, s: Sector): Sector { if encrypted then dec(n, s) else s }

    /** Reading past the end of the backing disk gives zeros. */
    function Backing(n: nat): Sector { if n < |backing| then backing[n] else ZeroSector() }
  }

  // ---------------------------------------------------------------------------------------
  // Addresses

  function L1Index(s: nat): nat { s / CLUSTER_SECTORS / L2_SIZE }

  function L2Index(s: nat): (j: nat)
    ensures j < L2_SIZE
  {
    s / CLUSTER_SECTORS % L2_SIZE
  }

  function InCluster(s: nat): (k: nat)
    ensures k < CLUSTER_SECTORS
  {
    s % CLUSTER_SECTORS
  }

  /** Sector k of the q-th cluster of a run, counted from the start of the run. */
  function Pos(q: nat, k: nat): nat { q * CLUSTER_SECTORS + k }

  function Quot(p: nat): nat { p / CLUSTER_SECTORS }

  lemma MulBound(d: int, b: int)
    requires b >= 0
    ensures d >= 1 ==> d * b >= b
    ensures d <= -1 ==> d * b <= -b
  {
    assert d >= 1 ==> (d - 1) * b >= 0;
    assert d <= -1 ==> (-d - 1) * b >= 0;
  }

  lemma DivModUnique(a: nat, b: nat, q: nat, r: nat)
    requires b > 0 && r < b && a == q * b + r
    ensures a / b == q && a % b == r
  {
    var d := a / b - q;
    assert d * b == (a / b) * b - q * b;
    MulBound(d, b);
  }

  lemma DivMonotone(p: nat, q: nat, b: nat)
    requires p <= q && b > 0
    ensures p / b <= q / b
  {
    var d := q / b - p / b;
    assert d * b == (q / b) * b - (p / b) * b;
    MulBound(d, b);
  }

  lemma PosInverse(q: nat, k: nat)
    requires k < CLUSTER_SECTORS
    ensures Quot(Pos(q, k)) == q && InCluster(Pos(q, k)) == k
  {
    DivModUnique(Pos(q, k), CLUSTER_SECTORS, q, k);
  }

  lemma QuotPos(p: nat)
    ensures Pos(Quot(p), InCluster(p)) == p
  {
  }

  /** The indices and the place in the cluster are the digits of the sector number. */
  lemma AddressIs(s: nat, i: nat, j: nat, k: nat)
    requires j < L2_SIZE && k < CLUSTER_SECTORS
    ensures L1Index(s) == i && L2Index(s) == j && InCluster(s) == k <==> s == (i * L2_SIZE + j) * CLUSTER_SECTORS + k
  {
    if s == (i * L2_SIZE + j) * CLUSTER_SECTORS + k {
      DivModUnique(s, CLUSTER_SECTORS, i * L2_SIZE + j, k);
      DivModUnique(s / CLUSTER_SECTORS, L2_SIZE, i, j);
    }
  }

  lemma PosLess(q: nat, k: nat, n: nat)
    requires k < CLUSTER_SECTORS
    ensures Pos(q, k) < Pos(n, 0) <==> q < n
  {
    var d := n - q;
    assert d * CLUSTER_SECTORS == n * CLUSTER_SECTORS - q * CLUSTER_SECTORS;
    MulBound(d, CLUSTER_SECTORS);
  }

  lemma PosStart(q: nat, k: nat)
    ensures Pos(q, k) == Pos(q, 0) + k
  {
  }

  lemma PosMonotone(q: nat, n: nat)
    requires q <= n
    ensures Pos(q, 0) <= Pos(n, 0)
  {
    Distribute(q, n - q, CLUSTER_SECTORS);
  }

  /** The first sector of the cluster that holds s. */
  function Base(s: nat): nat { s - InCluster(s) }

  /** Inside one L2 table, p sectors past a cluster boundary is p / cluster_sectors entries further on. */
  lemma AddressInRun(s: nat, p: nat)
    requires L2Index(s) + Quot(p) < L2_SIZE
    ensures L1Index(Base(s) + p) == L1Index(s)
    ensures L2Index(Base(s) + p) == L2Index(s) + Quot(p)
    ensures InCluster(Base(s) + p) == InCluster(p)
  {
    RunArithmetic(s, p, CLUSTER_SECTORS);
    NextIndex(s / CLUSTER_SECTORS, Quot(p), L2_SIZE);
  }

  lemma RunArithmetic(s: nat, p: nat, b: nat)
    requires b > 0
    ensures (s - s % b + p) / b == s / b + p / b
    ensures (s - s % b + p) % b == p % b
  {
    Distribute(s / b, p / b, b);
    DivModUnique(s - s % b + p, b, s / b + p / b, p % b);
  }

  lemma NextIndex(g: nat, q: nat, n: nat)
    requires n > 0 && g % n + q < n
    ensures (g + q) / n == g / n
    ensures (g + q) % n == g % n + q
  {
    DivModUnique(g + q, n, g / n, g % n + q);
  }

  lemma Distribute(x: nat, y: nat, b: nat)
    ensures (x + y) * b == x * b + y * b
  {
  }

  /** Conversely, each sector of that stretch of guest clusters is reached this way. */
  lemma AddressOffset(s: nat, x: nat)
    requires L1Index(x) == L1Index(s) && L2Index(x) >= L2Index(s)
    ensures x == Base(s) + Pos(L2Index(x) - L2Index(s), InCluster(x))
  {
    OffsetArithmetic(s, x, CLUSTER_SECTORS, L2_SIZE);
  }

  lemma OffsetArithmetic(s: nat, x: nat, b: nat, n: nat)
    requires b > 0 && n > 0
    requires x / b / n == s / b / n && x / b % n >= s / b % n
    ensures x == s - s % b + (x / b % n - s / b % n) * b + x % b
  {
    var d := x / b % n - s / b % n;
    Distribute(s / b, d, b);
    assert x / b == s / b + d;
  }

  // ---------------------------------------------------------------------------------------
  // Contents

  /** The L2 entry behind guest sector s, ZERO when there is none. */
  function EntryOf(file: File, t: seq<Word>, s: nat): Word {
    if L1Index(s) >= |t| || t[L1Index(s)] == ZERO then ZERO
    else Read(file, t[L1Index(s)].cluster)[L2Index(s)]
  }

  /** Guest sector s: from its cluster in the file, else from the backing disk, else zeros. */
  function ViewSector(m: Medium, file: File, t: seq<Word>, s: nat): Sector {
    var e := EntryOf(file, t, s);
    if e == ZERO then m.Backing(s) else m.Decode(s, SectorOf(Read(file, e.cluster), InCluster(s)))
  }

  ghost function View(m: Medium, file: File, t: seq<Word>): (v: imap<nat, Sector>)
    ensures forall s: nat :: s in v
  {
    imap s: nat | true :: ViewSector(m, file, t, s)
  }

  /** What the file has for a guest sector, as it is stored there. */
  datatype Cell = Hole | Stored(sector: Sector)

  function CellOf(file: File, t: seq<Word>, s: nat): Cell {
    var e := EntryOf(file, t, s);
    if e == ZERO then Hole else Stored(SectorOf(Read(file, e.cluster), InCluster(s)))
  }

  ghost function Cells(file: File, t: seq<Word>): (v: imap<nat, Cell>)
    ensures forall s: nat :: s in v
  {
    imap s: nat | true :: CellOf(file, t, s)
  }

  lemma CellAt(file: File, t: seq<Word>, s: nat)
    ensures s in Cells(file, t) && Cells(file, t)[s] == CellOf(file, t, s)
  {
  }

  /** The disk is a function of what is stored. */
  lemma SameCells(m: Medium, file: File, t: seq<Word>, other: File, u: seq<Word>)
    requires Cells(file, t) == Cells(other, u)
    ensures View(m, file, t) == View(m, other, u)
  {
    hide EntryOf, SectorOf, Read;
    forall s: nat ensures ViewSector(m, file, t, s) == ViewSector(m, other, u, s) {
      CellAt(file, t, s);
      CellAt(other, u, s);
      assert CellOf(file, t, s) == CellOf(other, u, s);
    }
  }

  /** Sector s is stored: encrypted with its number when the image is encrypted, as it is else. */
  ghost predicate Sealed(m: Medium, file: File, t: seq<Word>, s: nat) {
    CellOf(file, t, s) == Stored(if m.encrypted then m.enc(s, ViewSector(m, file, t, s)) else ViewSector(m, file, t, s))
  }

  /** All sectors that have a place in the file are stored like this. */
  ghost predicate AllSealed(m: Medium, file: File, t: seq<Word>) {
    forall s: nat :: CellOf(file, t, s) != Hole ==> Sealed(m, file, t, s)
  }

  lemma SealedSame(m: Medium, file: File, t: seq<Word>, other: File, u: seq<Word>)
    requires Cells(file, t) == Cells(other, u) && AllSealed(m, file, t)
    ensures AllSealed(m, other, u)
  {
    hide CellOf, ViewSector;
    SameCells(m, file, t, other, u);
    forall s: nat | CellOf(other, u, s) != Hole ensures Sealed(m, other, u, s) {
      CellAt(file, t, s);
      CellAt(other, u, s);
      assert View(m, file, t)[s] == View(m, other, u)[s];
      assert Sealed(m, file, t, s);
    }
  }

  /** Sectors lo .. hi - 1 have been written; others are as they were, or were copied around the write. */
  ghost predicate Rewritten(m: Medium, file: File, t: seq<Word>, other: File, u: seq<Word>, lo: nat, hi: nat) {
    forall s: nat :: (lo <= s < hi ==> Sealed(m, other, u, s)) && (Sealed(m, other, u, s) || CellOf(other, u, s) == CellOf(file, t, s))
  }

  /** After writing buf from sector s on, the guest sees it there and nothing else changed; the file has it encrypted when the
      image is encrypted. */
  ghost predicate Wrote(m: Medium, file: File, t: seq<Word>, other: File, u: seq<Word>, s: nat, buf: seq<Sector>) {
    && (forall i: nat :: i < |buf| ==> ViewSector(m, other, u, s + i) == buf[i])
    && (forall i: nat :: i < |buf| ==> CellOf(other, u, s + i) == Stored(if m.encrypted then m.enc(s + i, buf[i]) else buf[i]))
    && (forall x: nat :: !(s <= x < s + |buf|) ==> ViewSector(m, other, u, x) == ViewSector(m, file, t, x))
  }

  /** What a guest reads from sector s on: what the file has there, decrypted when the image is encrypted; where the file
      has nothing, the backing disk, and zeros behind its end. */
  ghost predicate Reads(m: Medium, file: File, t: seq<Word>, s: nat, buf: seq<Sector>) {
    forall i: nat :: i < |buf| ==>
      match CellOf(file, t, s + i)
      case Stored(x) => buf[i] == if m.encrypted then m.dec(s + i, x) else x
      case Hole => if s + i < |m.backing| then buf[i] == m.backing[s + i] else forall j :: 0 <= j < SECTOR_WORDS ==> buf[i][j] == ZERO
  }

  lemma ReadsView(m: Medium, file: File, t: seq<Word>, s: nat, buf: seq<Sector>)
    requires forall i: nat :: i < |buf| ==> buf[i] == ViewSector(m, file, t, s + i)
    ensures Reads(m, file, t, s, buf)
  {
    hide EntryOf, SectorOf, Read, InCluster;
  }

  lemma RewrittenFrom(m: Medium, file: File, t: seq<Word>, between: File, v: seq<Word>, other: File, u: seq<Word>, lo: nat, hi: nat)
    requires Cells(file, t) == Cells(between, v) && Rewritten(m, between, v, other, u, lo, hi)
    ensures Rewritten(m, file, t, other, u, lo, hi)
  {
    hide CellOf, ViewSector, Sealed;
    forall s: nat ensures CellOf(file, t, s) == CellOf(between, v, s) {
      CellAt(file, t, s);
      CellAt(between, v, s);
    }
  }

  /** One write after another. */
  lemma RewrittenMore(m: Medium, file: File, t: seq<Word>, between: File, v: seq<Word>, other: File, u: seq<Word>, lo: nat, mid: nat, hi: nat)
    requires Rewritten(m, file, t, between, v, lo, mid) && Rewritten(m, between, v, other, u, mid, hi)
    requires forall s: nat :: !(mid <= s < hi) ==> ViewSector(m, between, v, s) == ViewSector(m, other, u, s)
    ensures Rewritten(m, file, t, other, u, lo, hi)
  {
    hide CellOf, ViewSector;
    forall s: nat
      ensures lo <= s < hi ==> Sealed(m, other, u, s)
      ensures Sealed(m, other, u, s) || CellOf(other, u, s) == CellOf(file, t, s)
    {
      if !Sealed(m, other, u, s) { assert !(mid <= s < hi) && CellOf(other, u, s) == CellOf(between, v, s); }
    }
  }

  lemma RewrittenNothing(m: Medium, file: File, t: seq<Word>, s: nat)
    ensures Rewritten(m, file, t, file, t, s, s)
  {
  }

  /** Writing keeps it that all that is stored is sealed. */
  lemma RewrittenSealed(m: Medium, file: File, t: seq<Word>, other: File, u: seq<Word>, lo: nat, hi: nat)
    requires AllSealed(m, file, t) && Rewritten(m, file, t, other, u, lo, hi)
    requires forall s: nat :: !(lo <= s < hi) ==> ViewSector(m, file, t, s) == ViewSector(m, other, u, s)
    ensures AllSealed(m, other, u)
  {
    hide CellOf, ViewSector;
    forall s: nat | CellOf(other, u, s) != Hole ensures Sealed(m, other, u, s) {
      if CellOf(other, u, s) == CellOf(file, t, s) { assert Sealed(m, file, t, s); }
    }
  }

  lemma AlikeEntry(file: File, t: seq<Word>, other: File, u: seq<Word>, s: nat)
    requires AlikeRoot(file, t, other, u)
    ensures SameEntry(EntryOf(file, t, s), EntryOf(other, u, s))
    ensures EntryOf(file, t, s) != ZERO ==> EntryOf(file, t, s).cluster in DataRefs(file, t, 0)
  {
    var i := L1Index(s);
    if i < |t| {
      assert SameEntry(t[i], u[i]);
      if t[i] != ZERO {
        var j := L2Index(s);
        assert SameEntry(Read(file, t[i].cluster)[j], Read(other, t[i].cluster)[j]);
        if Read(file, t[i].cluster)[j] != ZERO { DataMember(file, t, i, j); }
      }
    }
  }

  /** Guest data is the same when data clusters are the same and tables differ in flags only. */
  lemma AlikeView(m: Medium, file: File, t: seq<Word>, other: File, u: seq<Word>)
    requires AlikeRoot(file, t, other, u)
    requires forall c :: c in DataRefs(file, t, 0) ==> Read(file, c) == Read(other, c)
    ensures View(m, file, t) == View(m, other, u) && Cells(file, t) == Cells(other, u)
  {
    forall s: nat ensures CellOf(file, t, s) == CellOf(other, u, s) {
      AlikeEntry(file, t, other, u, s);
    }
    SameCells(m, file, t, other, u);
  }

  /** A longer L1 table with no new entries shows the same disk. */
  lemma GrownView(m: Medium, file: File, t: seq<Word>, z: seq<Word>)
    requires forall j :: 0 <= j < |z| ==> z[j] == ZERO
    ensures View(m, file, t + z) == View(m, file, t) && Cells(file, t + z) == Cells(file, t)
  {
    forall s: nat ensures CellOf(file, t + z, s) == CellOf(file, t, s) {}
    SameCells(m, file, t + z, file, t);
  }

  /** The entries of an L1 table that are in use. */
  ghost function Spans(t: seq<Word>): set<nat> {
    set i: nat | i < |t| && t[i] != ZERO
  }

  lemma SameSpans(t: seq<Word>, u: seq<Word>)
    requires SameTable(t, u)
    ensures Spans(t) == Spans(u)
  {
    forall i: nat | i < |t| ensures t[i] == ZERO <==> u[i] == ZERO { assert SameEntry(t[i], u[i]); }
  }

  /** Each snapshot shows the same disk, and has the same L1 entries in use. */
  ghost predicate SameSnapViews(m: Medium, file: File, other: File, snaps: seq<Snapshot>) {
    forall k :: 0 <= k < |snaps| ==> SameSnap(m, file, other, snaps[k])
  }

  ghost predicate SameSnap(m: Medium, file: File, other: File, sn: Snapshot) {
    && View(m, file, SnapTable(file, sn)) == View(m, other, SnapTable(other, sn))
    && Cells(file, SnapTable(file, sn)) == Cells(other, SnapTable(other, sn))
    && Spans(SnapTable(file, sn)) == Spans(SnapTable(other, sn))
  }

  lemma SameSnapsSelf(m: Medium, file: File, snaps: seq<Snapshot>)
    ensures SameSnapViews(m, file, file, snaps)
  {
  }

  lemma SameSnapsStep(m: Medium, file: File, between: File, other: File, snaps: seq<Snapshot>)
    requires SameSnapViews(m, file, between, snaps) && SameSnapViews(m, between, other, snaps)
    ensures SameSnapViews(m, file, other, snaps)
  {
    hide View, Cells, SnapTable;
    forall k | 0 <= k < |snaps| ensures SameSnap(m, file, other, snaps[k]) {
      assert SameSnap(m, file, between, snaps[k]) && SameSnap(m, between, other, snaps[k]);
    }
  }

  lemma AlikeSnapViews(m: Medium, file: File, other: File, snaps: seq<Snapshot>)
    requires AlikeSnaps(file, other, snaps)
    requires forall c :: c in SnapData(file, snaps, 0) ==> Read(file, c) == Read(other, c)
    ensures SameSnapViews(m, file, other, snaps)
  {
    forall k | 0 <= k < |snaps| ensures SameSnap(m, file, other, snaps[k]) {
      SnapWithin(file, snaps, 0, k);
      SameSpans(SnapTable(file, snaps[k]), SnapTable(other, snaps[k]));
      AlikeView(m, file, SnapTable(file, snaps[k]), other, SnapTable(other, snaps[k]));
    }
  }
}
