/** What a run of operations does to the L1 tables: their sizes, the entries in use, the clusters that leak. */
module TableSizes {
  import opened Layout
  import opened Forest
  import opened Guest
  import opened Transfer
  import L = Library
  import opened Qcow2
  import opened Switching
  import opened Snapshots
  import State
  import opened Bytes
  import Counting

  /** A table of a snapshot: the number of its entries, and which of them are in use. */
  datatype Table = Table(size: nat, spans: set<nat>)

  /** The active table has the first of the entries that the file has according to its header; spans are those in use
      in the file. Then the tables of the snapshots, and how many clusters have leaked. */
  datatype Tables = Tables(active: nat, stored: nat, spans: set<nat>, kept: seq<Table>, leaked: nat)

  ghost function Front(spans: set<nat>, n: nat): set<nat> {
    set i | i in spans && i < n
  }

  ghost predicate Within(spans: set<nat>, n: nat) {
    forall i :: i in spans ==> i < n
  }

  ghost predicate ProperTable(k: Table) {
    k.size >= 1 && Within(k.spans, k.size)
  }

  ghost predicate Proper(t: Tables, s: L.Shelf) {
    && 1 <= t.active <= t.stored && Within(t.spans, t.stored)
    && Clusters(t.stored) <= Clusters(t.active) + t.leaked
    && |t.kept| == |s.saved| && forall k :: 0 <= k < |t.kept| ==> ProperTable(t.kept[k])
  }

  /** Clusters that the table which has grown for n entries takes more than one of n entries. */
  function Waste(active: nat, n: nat): (w: nat)
    requires active >= 1
    ensures w == 0 <==> NoWaste(active, n)
  {
    ClustersMonotone(n, GrownTo(active, n));
    Clusters(GrownTo(active, n)) - Clusters(n)
  }

  ghost function Resized(t: Tables, s: L.Shelf, op: L.Op): Tables
    requires Proper(t, s)
  {
    match op
    case Write(sector, data) =>
      var n := SizeAfter(t.active, sector, |data|);
      if n == t.active then t.(spans := t.spans + SpansOf(sector, |data|))
      else t.(active := n, stored := n, spans := Front(t.spans, t.active) + SpansOf(sector, |data|))
    case Create(id, name) =>
      if L.IdIndex(s.saved, id, 0) >= 0 then t else t.(kept := t.kept + [Table(t.active, Front(t.spans, t.active))])
    case Delete(key) =>
      var k := L.Index(s.saved, key);
      if k < 0 then t else t.(kept := t.kept[..k] + t.kept[k + 1..])
    case Goto(key) =>
      var k := L.Index(s.saved, key);
      if k < 0 then t else SwitchedTo(t, t.kept[k])
  }

  ghost function SwitchedTo(t: Tables, k: Table): Tables
    requires t.active >= 1
  {
    t.(active := k.size, stored := StoredAfter(t.active, t.stored, k.size),
       spans := SpansSwitched(k.spans, t.spans, t.active, k.size), leaked := t.leaked + Waste(t.active, k.size))
  }

  lemma ResizedProper(t: Tables, s: L.Shelf, op: L.Op)
    requires Proper(t, s) && L.Total(s.disk)
    ensures Proper(Resized(t, s, op), L.Apply(s, op))
  {
    hide SizeAfter, Clusters, SpansOf, L1Index, GrownTo, Within;
    match op
    case Write(sector, data) =>
      WrittenProper(t, sector, |data|);
    case Create(id, name) =>
      FrontWithin(t.spans, t.active);
    case Delete(key) =>
    case Goto(key) =>
      if L.Index(s.saved, key) >= 0 { SwitchedProper(t, s, L.Index(s.saved, key)); }
  }

  lemma FrontWithin(spans: set<nat>, n: nat)
    ensures Within(Front(spans, n), n)
  {
  }

  lemma WrittenProper(t: Tables, s: nat, n: nat)
    requires t.active >= 1 && Within(t.spans, t.stored) && t.active <= t.stored
    ensures var m := SizeAfter(t.active, s, n);
      && Within(Front(t.spans, t.active) + SpansOf(s, n), m) && (m == t.active ==> Within(t.spans + SpansOf(s, n), t.stored))
  {
    hide GrownTo, L1Index;
    forall x: nat | s <= x < s + n ensures L1Index(x) < SizeAfter(t.active, s, n) {
      L1IndexMonotone(x, s + n - 1);
    }
  }

  lemma SwitchedProper(t: Tables, s: L.Shelf, k: nat)
    requires Proper(t, s) && k < |t.kept|
    ensures Proper(SwitchedTo(t, t.kept[k]), s)
  {
    hide Clusters, GrownTo;
    var n := t.kept[k].size;
    assert ProperTable(t.kept[k]);
    if n <= t.active { ClustersMonotone(n, t.active); }
  }

  /** The tables after a run. */
  ghost function After(t: Tables, s: L.Shelf, ops: seq<L.Op>): (r: Tables)
    requires Proper(t, s) && L.Ok(s)
    ensures Proper(r, L.Run(s, ops))
    decreases |ops|
  {
    if ops == [] then t
    else
      L.ApplyOk(s, ops[0]);
      ResizedProper(t, s, ops[0]);
      After(Resized(t, s, ops[0]), L.Apply(s, ops[0]), ops[1..])
  }

  /** The operation leaks no cluster. */
  ghost predicate Thrifty(t: Tables, s: L.Shelf, op: L.Op)
    requires Proper(t, s)
  {
    op.Goto? && L.Index(s.saved, op.key) >= 0 ==> NoWaste(t.active, t.kept[L.Index(s.saved, op.key)].size)
  }

  /** No switch of the run goes to a table that takes fewer clusters than what the active one has grown to. */
  ghost predicate AllThrifty(t: Tables, s: L.Shelf, ops: seq<L.Op>)
    requires Proper(t, s) && L.Ok(s)
    decreases |ops|
  {
    ops == [] ||
    (L.ApplyOk(s, ops[0]);
     ResizedProper(t, s, ops[0]);
     Thrifty(t, s, ops[0]) && AllThrifty(Resized(t, s, ops[0]), L.Apply(s, ops[0]), ops[1..]))
  }

  // ---------------------------------------------------------------------------------------
  // Writes inside the disk

  ghost predicate InsideOp(op: L.Op, totalSectors: nat) {
    op.Write? ==> op.sector + |op.data| <= totalSectors
  }

  ghost predicate Inside(ops: seq<L.Op>, totalSectors: nat) {
    forall i :: 0 <= i < |ops| ==> InsideOp(ops[i], totalSectors)
  }

  /** All tables have n entries. */
  ghost predicate Even(t: Tables, n: nat) {
    t.active == t.stored == n && forall k :: 0 <= k < |t.kept| ==> t.kept[k].size == n
  }

  /** While writes stay inside the disk all tables keep their size, and no switch leaks. */
  lemma InsideStep(totalSectors: nat, t: Tables, s: L.Shelf, op: L.Op)
    requires Proper(t, s) && InsideOp(op, totalSectors) && Even(t, L1Size(totalSectors))
    ensures Thrifty(t, s, op) && Even(Resized(t, s, op), L1Size(totalSectors)) && Resized(t, s, op).leaked == t.leaked
  {
    hide L1Index, L1Size, Clusters;
    if op.Write? && op.data != [] {
      InsideTable(op.sector + |op.data| - 1, totalSectors);
      assert SizeAfter(t.active, op.sector, |op.data|) == t.active;
    }
  }

  lemma {:induction false} InsideThrifty(totalSectors: nat, t: Tables, s: L.Shelf, ops: seq<L.Op>)
    requires Proper(t, s) && L.Ok(s) && Inside(ops, totalSectors) && Even(t, L1Size(totalSectors))
    ensures AllThrifty(t, s, ops) && Even(After(t, s, ops), L1Size(totalSectors))
    decreases |ops|
  {
    hide L1Size, Resized, InsideOp;
    if ops != [] {
      L.ApplyOk(s, ops[0]);
      ResizedProper(t, s, ops[0]);
      InsideStep(totalSectors, t, s, ops[0]);
      InsideThrifty(totalSectors, Resized(t, s, ops[0]), L.Apply(s, ops[0]), ops[1..]);
    }
  }

  lemma InsideTable(s: nat, totalSectors: nat)
    requires s < totalSectors
    ensures L1Index(s) < L1Size(totalSectors)
  {
    hide L1Index, Pos, Ceiling;
    RunCovers(0, L2_SIZE);
    CeilingCovers(totalSectors, Pos(L2_SIZE, 0));
    SpanStart(s);
    if L1Index(s) >= L1Size(totalSectors) {
      MulMonotone(L1Size(totalSectors), L1Index(s), Pos(L2_SIZE, 0));
    }
  }

  lemma SpanStart(s: nat)
    ensures L1Index(s) * Pos(L2_SIZE, 0) <= s
  {
    var c := s / CLUSTER_SECTORS;
    var i := c / L2_SIZE;
    QuotientTimes(s, CLUSTER_SECTORS);
    QuotientTimes(c, L2_SIZE);
    MulMonotone(i * L2_SIZE, c, CLUSTER_SECTORS);
    Associates(i, L2_SIZE, CLUSTER_SECTORS);
  }

  lemma QuotientTimes(a: nat, b: nat)
    requires b > 0
    ensures a / b * b <= a
  {
  }

  lemma Associates(a: nat, b: nat, c: nat)
    ensures a * b * c == a * (b * c)
  {
  }

  lemma MulMonotone(a: nat, b: nat, d: nat)
    requires a <= b
    ensures a * d <= b * d
  {
    assert (b - a) * d >= 0;
  }

  lemma CeilingCovers(n: nat, d: nat)
    requires d > 0
    ensures n <= Ceiling(n, d) * d
  {
  }

  // ---------------------------------------------------------------------------------------
  // The tables of an image

  ghost function KeptOf(file: File, snaps: seq<Snapshot>): (r: seq<Table>)
    ensures |r| == |snaps|
  {
    seq(|snaps|, k requires 0 <= k < |snaps| => Table(snaps[k].size, Spans(SnapTable(file, snaps[k]))))
  }

  ghost function TablesOf(img: Image): (t: Tables)
    reads img
  {
    Tables(|img.l1Table|, img.storedSize, Spans(img.l1Table + img.stale), KeptOf(img.file, img.snapshots), |img.leaked|)
  }

  lemma KeptSame(m: Medium, file: File, other: File, snaps: seq<Snapshot>)
    requires SameSnapViews(m, file, other, snaps)
    ensures KeptOf(other, snaps) == KeptOf(file, snaps)
  {
    hide View, SnapTable, Spans;
    forall k | 0 <= k < |snaps| ensures KeptOf(other, snaps)[k] == KeptOf(file, snaps)[k] {
      assert SameSnap(m, file, other, snaps[k]);
    }
  }

  lemma KeptAppend(file: File, snaps: seq<Snapshot>, sn: Snapshot)
    ensures KeptOf(file, snaps + [sn]) == KeptOf(file, snaps) + [Table(sn.size, Spans(SnapTable(file, sn)))]
  {
    hide SnapTable, Spans;
  }

  lemma KeptWithout(m: Medium, file: File, other: File, snaps: seq<Snapshot>, k: nat)
    requires k < |snaps| && SameSnapViews(m, file, other, snaps[..k] + snaps[k + 1..])
    ensures KeptOf(other, snaps[..k] + snaps[k + 1..]) == KeptOf(file, snaps)[..k] + KeptOf(file, snaps)[k + 1..]
  {
    hide SnapTable, Spans, SameSnapViews;
    KeptSame(m, file, other, snaps[..k] + snaps[k + 1..]);
  }

  /** The entries in use below the size of the active table are its own. */
  lemma ActiveSpans(t: seq<Word>, stale: seq<Word>)
    ensures Front(Spans(t + stale), |t|) == Spans(t)
  {
    SpansAppend(t, stale);
  }

  lemma SameAppend(t: seq<Word>, u: seq<Word>, stale: seq<Word>)
    requires |t| == |u| && Spans(t) == Spans(u)
    ensures Spans(t + stale) == Spans(u + stale)
  {
    SpansAppend(t, stale);
    SpansAppend(u, stale);
  }

  lemma KeptAt(file: File, snaps: seq<Snapshot>, k: nat)
    requires k < |snaps|
    ensures KeptOf(file, snaps)[k] == Table(snaps[k].size, Spans(SnapTable(file, snaps[k])))
  {
    hide Spans, SnapTable;
  }

  /** What a write does to the entries in use. */
  lemma WrittenSpans(t: seq<Word>, stale: seq<Word>, u: seq<Word>, rest: seq<Word>, more: set<nat>)
    requires Spans(u) == Spans(t) + more && BehindKept(t, stale, u, rest)
    ensures Spans(u + rest) == (if |u| == |t| then Spans(t + stale) else Front(Spans(t + stale), |t|)) + more
  {
    SpansAppend(t, stale);
    SpansAppend(u, rest);
    ActiveSpans(t, stale);
  }

  lemma {:induction false} RunSize(c: nat, n: nat)
    ensures |Counting.Run(c, n)| == n
  {
    if n > 0 {
      Counting.RunExtend(c, n - 1);
      RunSize(c, n - 1);
    } else {
      Counting.RunCounts(c, 0);
    }
  }

  lemma UnusedSize(c: nat, have: nat, need: nat)
    requires need <= have
    ensures |Unused(c, have, need)| == have - need
  {
    RunSize(c + need, have - need);
  }

  lemma SizesProper(img: Image, s: L.Shelf)
    requires img.Valid() && |s.saved| == |img.snapshots|
    ensures Proper(TablesOf(img), s)
  {
    hide Spans, Clusters, Unused, State.SoundCore;
    img.AnyTable();
    SpansWithin(img.l1Table + img.stale);
    ClustersMonotone(|img.l1Table|, img.storedSize);
    UnusedSize(img.l1Cluster, Clusters(img.storedSize), Clusters(|img.l1Table|));
    Fewer(Unused(img.l1Cluster, Clusters(img.storedSize), Clusters(|img.l1Table|)), img.leaked);
    forall k | 0 <= k < |img.snapshots| ensures ProperTable(TablesOf(img).kept[k]) {
      SpansWithin(SnapTable(img.file, img.snapshots[k]));
      SnapTableSize(img.file, img.snapshots[k]);
    }
  }

  lemma Fewer(a: multiset<nat>, b: multiset<nat>)
    requires a <= b
    ensures |a| <= |b|
  {
    assert b == a + (b - a);
  }
}
