/** Closing an image and opening it again. The active L1 table is then as long as the header says, and a switch to a
    snapshot does not write to the header. */
module Reopening {
  import opened Layout
  import opened Counting
  import opened Forest
  import opened Guest
  import opened Steps
  import opened State
  import opened Transfer
  import opened Switching
  import opened Qcow2
  import opened Bytes
  import opened TableSizes
  import opened Session
  import L = Library
  import Check
  import Limits

  // ---------------------------------------------------------------------------------------
  // References behind the active table

  lemma {:induction false} EntryRefsShift(t: seq<Word>, u: seq<Word>, i: nat)
    requires i <= |u|
    ensures EntryRefs(t + u, |t| + i) == EntryRefs(u, i)
    decreases |u| - i
  {
    if i < |u| {
      EntryRefsShift(t, u, i + 1);
      assert (t + u)[|t| + i] == u[i];
    }
  }

  lemma {:induction false} EntryRefsJoin(t: seq<Word>, u: seq<Word>, i: nat)
    requires i <= |t|
    ensures EntryRefs(t + u, i) == EntryRefs(t, i) + EntryRefs(u, 0)
    decreases |t| - i
  {
    if i < |t| { EntryRefsJoin(t, u, i + 1); } else { EntryRefsShift(t, u, 0); }
  }

  lemma {:induction false} DataRefsJoin(file: File, t: seq<Word>, u: seq<Word>, i: nat)
    requires i <= |t|
    ensures DataRefs(file, t, i) <= DataRefs(file, t + u, i)
    decreases |t| - i
  {
    hide PathRefs;
    if i < |t| { DataRefsJoin(file, t, u, i + 1); }
  }

  /** The state of an image that was closed and opened again. */
  ghost function Opened(s: Core, memory: seq<Cluster>): Core {
    State.Core(s.file, s.rc, s.l1 + s.stale, s.l1Cluster, s.snaps, Cache(NoSlots(), memory, NoSlots()), [])
  }

  ghost predicate AllZero(t: seq<Word>) {
    forall j :: 0 <= j < |t| ==> t[j] == ZERO
  }

  /** When nothing is in use behind the active table, the table only gets longer. */
  lemma OpenedSound(m: Medium, s: Core, fixed: multiset<nat>, memory: seq<Cluster>)
    requires SoundCore(s, fixed) && AllZero(s.stale) && |memory| == L2_CACHE_SIZE
    ensures SoundCore(Opened(s, memory), fixed)
    ensures View(m, s.file, s.l1 + s.stale) == View(m, s.file, s.l1) && Cells(s.file, s.l1 + s.stale) == Cells(s.file, s.l1)
  {
    hide Run, SnapRuns, Clusters, ReadTable, Consistent, FlagRoot, View, Cells;
    ZerosKeep(s.file, s.rc, fixed, s.l1, s.stale, s.snaps);
    GrownView(m, s.file, s.l1, s.stale);
    assert s.l1 + s.stale + [] == s.l1 + s.stale;
  }

  /** More references than the count of a cluster says. */
  ghost predicate Short(s: Core, fixed: multiset<nat>, c: nat) {
    s.rc[c] < fixed[c] + EntryRefs(s.l1, 0)[c] + DataRefs(s.file, s.l1, 0)[c] + SnapL2(s.file, s.snaps, 0)[c] + SnapData(s.file, s.snaps, 0)[c]
  }

  /** An entry in use behind the active table becomes a reference that is not counted. */
  lemma OpenedShort(s: Core, fixed: multiset<nat>, memory: seq<Cluster>, j: nat)
    requires SoundCore(s, fixed) && j < |s.stale| && s.stale[j] != ZERO
    ensures Short(Opened(s, memory), fixed, s.stale[j].cluster) && !SoundCore(Opened(s, memory), fixed)
  {
    hide EntryRefs, DataRefs, SnapL2, SnapData, SnapRuns, ReadTable, Read, Clusters, RootOk, SnapsOk, FlagRoot, CacheSound, Run;
    var c := s.stale[j].cluster;
    CountAt(s.file, s.rc, fixed, s.l1, s.snaps, c);
    EntryRefsJoin(s.l1, s.stale, 0);
    EntryRefsMember(s.stale, 0, j);
    DataRefsJoin(s.file, s.l1, s.stale, 0);
    assert DataRefs(s.file, s.l1, 0)[c] <= DataRefs(s.file, s.l1 + s.stale, 0)[c];
    if SoundCore(Opened(s, memory), fixed) {
      CountAt(s.file, s.rc, fixed, s.l1 + s.stale, s.snaps, c);
    }
  }

  // ---------------------------------------------------------------------------------------
  // Reopening

  /** No entry in use lies behind the active L1 table. */
  ghost predicate Settled(t: Tables) {
    Within(t.spans, t.active)
  }

  /** Entries that growth or a switch left over belong to the active table again, and so do their clusters. */
  ghost function Reopened(t: Tables): Tables
    requires t.active <= t.stored && Clusters(t.stored) <= Clusters(t.active) + t.leaked
  {
    t.(active := t.stored, leaked := t.leaked + Clusters(t.active) - Clusters(t.stored))
  }

  /** Some cluster has more references than its count says. */
  ghost predicate Undercounted(img: Image)
    reads img
  {
    exists c: nat :: Short(img.Core(), img.Metadata() + img.L1Run(), c)
  }

  lemma TailIs(img: Image)
    requires img.Valid()
    ensures img.storedSize == |img.l1Table| + |img.stale|
    ensures ReadTable(img.file, img.l1Cluster, img.storedSize) == img.l1Table + img.stale
    ensures img.TailUnused() <==> AllZero(img.stale)
    ensures img.TailUnused() <==> Settled(TablesOf(img))
  {
    hide Consistent, FlagRoot, CacheSound, Run, SnapRuns, Clusters, ReadTable, Spans, KeptOf;
    var all := img.l1Table + img.stale;
    forall i: nat | |img.l1Table| <= i < |all| ensures all[i] == img.stale[i - |img.l1Table|] {}
    if img.TailUnused() {
      forall j | 0 <= j < |img.stale| ensures img.stale[j] == ZERO { assert all[|img.l1Table| + j] == ZERO; }
    }
    AllZeroSpans(img.l1Table, img.stale);
  }

  lemma AllZeroSpans(t: seq<Word>, stale: seq<Word>)
    ensures AllZero(stale) <==> Within(Spans(t + stale), |t|)
  {
    forall j: nat | j < |stale| ensures (t + stale)[|t| + j] == stale[j] {}
    if Within(Spans(t + stale), |t|) {
      forall j: nat | j < |stale| ensures stale[j] == ZERO { assert |t| + j !in Spans(t + stale); }
    }
  }

  /** What has leaked behind the active table is no longer counted as leaked. */
  lemma TailLeaked(img: Image, unused: multiset<nat>)
    requires img.Valid() && unused == img.leaked - Unused(img.l1Cluster, Clusters(img.storedSize), Clusters(|img.l1Table|))
    ensures unused + Unused(img.l1Cluster, Clusters(img.storedSize), Clusters(|img.l1Table|)) == img.leaked
    ensures OpenFixed(img.OnDisk(), unused) == img.Metadata() + multiset{} + img.L1Run() && 0 in img.meta && img.medium.Valid()
    ensures |unused| == |img.leaked| + Clusters(|img.l1Table|) - Clusters(img.storedSize)
  {
    hide SoundCore, Run, SnapRuns, ByteClusters, Clusters, Unused;
    ClustersMonotone(|img.l1Table|, img.storedSize);
    UnusedSplit(img.l1Cluster, Clusters(img.storedSize), Clusters(|img.l1Table|));
    UnusedSize(img.l1Cluster, Clusters(img.storedSize), Clusters(|img.l1Table|));
    var gone := Unused(img.l1Cluster, Clusters(img.storedSize), Clusters(|img.l1Table|));
    assert unused + gone == img.leaked;
    assert |unused + gone| == |unused| + |gone|;
  }

  lemma SameMeta(img: Image, next: Image)
    requires img.refcountTable == next.refcountTable && img.refcountBlocks == next.refcountBlocks
    ensures Check.MetaClusters(next) == Check.MetaClusters(img)
  {
  }

  /** Closing an image and opening it again, with any memory in place of the cache, loses nothing if and only if the
      entries that the header covers behind the active L1 table are unused. Else some count is too low. */
  method Reopen(img: Image, memory: seq<Cluster>, behind: nat -> Word) returns (next: Image)
    requires img.Valid() && |memory| == L2_CACHE_SIZE
    ensures fresh(next) && next.medium == img.medium && next.OnDisk() == img.OnDisk()
    ensures next.Valid() <==> img.TailUnused()
    ensures img.TailUnused() <==> Settled(TablesOf(img))
    ensures img.storedSize == |img.l1Table| ==> img.TailUnused()
    ensures img.TailUnused() ==> ShelfOf(next) == ShelfOf(img) && (SealedImage(img) ==> SealedImage(next))
    ensures !img.TailUnused() ==> Undercounted(next)
    ensures Proper(TablesOf(img), ShelfOf(img)) && TablesOf(next) == Reopened(TablesOf(img))
    ensures next.leaked + Unused(img.l1Cluster, Clusters(img.storedSize), Clusters(|img.l1Table|)) == img.leaked
    ensures Check.MetaClusters(next) == Check.MetaClusters(img)
  {
    hide View, SavedOf, KeptOf, Run, ReadTable, ByteClusters, Clusters, SnapRuns, Check.MetaClusters, CacheSound, Consistent, FlagRoot, Unused,
         SoundCore, Proper, Spans, Short, Cells, AllSealed;
    SavedCount(img);
    SizesProper(img, ShelfOf(img));
    TailIs(img);
    ghost var gone := Unused(img.l1Cluster, Clusters(img.storedSize), Clusters(|img.l1Table|));
    ghost var unused, s, fixed := img.leaked - gone, img.Core(), img.Metadata() + multiset{} + img.L1Run();
    TailLeaked(img, unused);
    next := new Image.Open(img.medium, img.OnDisk(), memory, behind, unused);
    assert OpenCore(img.OnDisk(), memory) == Opened(s, memory);
    if img.TailUnused() {
      OpenedSound(img.medium, s, fixed, memory);
      if SealedImage(img) { SealedSame(img.medium, img.file, img.l1Table, next.file, next.l1Table); }
    } else {
      ghost var j :| 0 <= j < |img.stale| && img.stale[j] != ZERO;
      OpenedShort(s, fixed, memory, j);
      assert Short(next.Core(), next.Metadata() + next.L1Run(), img.stale[j].cluster);
    }
    assert next.l1Table + next.stale == img.l1Table + img.stale;
    SameMeta(img, next);
  }

  // ---------------------------------------------------------------------------------------
  // Runs in which the image is closed and opened again

  /** A guest write or snapshot operation, or closing and opening with the cache memory as it happens to be. */
  datatype Step = Do(op: L.Op) | Restart(memory: seq<Cluster>, behind: nat -> Word)

  function OpsOf(steps: seq<Step>): seq<L.Op> {
    if steps == [] then [] else (if steps[0].Do? then [steps[0].op] else []) + OpsOf(steps[1..])
  }

  ghost predicate Memories(steps: seq<Step>) {
    forall i :: 0 <= i < |steps| && steps[i].Restart? ==> |steps[i].memory| == L2_CACHE_SIZE
  }

  /** Opening does not change what an image stands for. */
  ghost function Applied(s: L.Shelf, step: Step): L.Shelf
    requires L.Total(s.disk)
  {
    if step.Do? then L.Apply(s, step.op) else s
  }

  ghost function Stepped(t: Tables, s: L.Shelf, step: Step): Tables
    requires Proper(t, s)
  {
    if step.Do? then Resized(t, s, step.op) else Reopened(t)
  }

  lemma SteppedProper(t: Tables, s: L.Shelf, step: Step)
    requires Proper(t, s) && L.Ok(s)
    ensures L.Ok(Applied(s, step)) && Proper(Stepped(t, s, step), Applied(s, step))
  {
    hide Resized, L.Apply, Clusters;
    if step.Do? {
      L.ApplyOk(s, step.op);
      ResizedProper(t, s, step.op);
    }
  }

  /** Whenever the image is opened again, nothing in use lies behind the active L1 table. */
  ghost predicate Durable(t: Tables, s: L.Shelf, steps: seq<Step>)
    requires Proper(t, s) && L.Ok(s)
    decreases |steps|
  {
    steps == [] ||
    (SteppedProper(t, s, steps[0]);
     (steps[0].Restart? ==> Settled(t)) && Durable(Stepped(t, s, steps[0]), Applied(s, steps[0]), steps[1..]))
  }

  /** The tables after a run. */
  ghost function AfterSteps(t: Tables, s: L.Shelf, steps: seq<Step>): Tables
    requires Proper(t, s) && L.Ok(s)
    decreases |steps|
  {
    if steps == [] then t
    else
      SteppedProper(t, s, steps[0]);
      AfterSteps(Stepped(t, s, steps[0]), Applied(s, steps[0]), steps[1..])
  }

  /** One step of a run. */
  lemma NextStep(t: Tables, s: L.Shelf, steps: seq<Step>)
    requires Proper(t, s) && L.Ok(s) && steps != [] && L.Fits(s, OpsOf(steps), MAX_REFCOUNT - 1)
    ensures var step := steps[0];
      && L.Ok(Applied(s, step)) && Proper(Stepped(t, s, step), Applied(s, step))
      && L.Fits(Applied(s, step), OpsOf(steps[1..]), MAX_REFCOUNT - 1)
      && L.Run(s, OpsOf(steps)) == L.Run(Applied(s, step), OpsOf(steps[1..]))
      && (step.Do? && step.op.Create? && L.IdIndex(s.saved, step.op.id, 0) < 0 ==> |s.saved| < MAX_REFCOUNT - 1)
      && (Durable(t, s, steps) <==> (step.Restart? ==> Settled(t)) && Durable(Stepped(t, s, step), Applied(s, step), steps[1..]))
      && AfterSteps(t, s, steps) == AfterSteps(Stepped(t, s, step), Applied(s, step), steps[1..])
  {
    hide Stepped, L.Apply, Settled;
    SteppedProper(t, s, steps[0]);
    if steps[0].Do? {
      var ops := OpsOf(steps);
      assert ops[0] == steps[0].op && ops[1..] == OpsOf(steps[1..]);
    } else {
      assert [] + OpsOf(steps[1..]) == OpsOf(steps[1..]);
    }
  }

  /** Any run, with the image closed and opened again any number of times, does what the same operations do on a disk with
      full copies, if and only if it is durable; after the first opening that is not, some count is too low. */
  method Execute(img: Image, steps: seq<Step>) returns (next: Image)
    requires img.Valid() && L.Ok(ShelfOf(img)) && L.Fits(ShelfOf(img), OpsOf(steps), MAX_REFCOUNT - 1) && Memories(steps)
    modifies img
    ensures next == img || fresh(next)
    ensures Proper(old(TablesOf(img)), old(ShelfOf(img)))
    ensures next.Valid() <==> Durable(old(TablesOf(img)), old(ShelfOf(img)), steps)
    ensures next.Valid() ==> ShelfOf(next) == L.Run(old(ShelfOf(img)), OpsOf(steps))
    ensures next.Valid() ==> TablesOf(next) == AfterSteps(old(TablesOf(img)), old(ShelfOf(img)), steps)
    ensures next.Valid() && old(SealedImage(img)) ==> SealedImage(next)
    ensures !next.Valid() ==> Undercounted(next)
    ensures next.medium == img.medium && next.meta == img.meta && Check.MetaClusters(next) == Check.MetaClusters(img)
  {
    hide ShelfOf, TablesOf, Image.Sound, Proper, Stepped, Applied, Durable, AfterSteps, OpsOf, L.Ok, L.Fits, L.Run, Settled, Undercounted,
         Check.MetaClusters, Image.TailUnused, SealedImage;
    ghost var start, tables := ShelfOf(img), TablesOf(img);
    SavedCount(img);
    SizesProper(img, start);
    next := img;
    var i := 0;
    assert steps[0..] == steps;
    while i < |steps|
      invariant i <= |steps| && (next == img || fresh(next)) && next.Valid() && next.medium == img.medium && next.meta == img.meta
      invariant L.Ok(ShelfOf(next)) && L.Fits(ShelfOf(next), OpsOf(steps[i..]), MAX_REFCOUNT - 1)
      invariant Proper(TablesOf(next), ShelfOf(next))
      invariant L.Run(ShelfOf(next), OpsOf(steps[i..])) == L.Run(start, OpsOf(steps))
      invariant Durable(tables, start, steps) <==> Durable(TablesOf(next), ShelfOf(next), steps[i..])
      invariant AfterSteps(tables, start, steps) == AfterSteps(TablesOf(next), ShelfOf(next), steps[i..])
      invariant Check.MetaClusters(next) == Check.MetaClusters(img)
      invariant old(SealedImage(img)) ==> SealedImage(next)
    {
      assert steps[i..][0] == steps[i] && steps[i..][1..] == steps[i + 1..];
      NextStep(TablesOf(next), ShelfOf(next), steps[i..]);
      SavedCount(next);
      match steps[i] {
        case Do(op) =>
          DoIs(TablesOf(next), ShelfOf(next), op);
          Perform(next, op);
        case Restart(memory, behind) =>
          RestartIs(TablesOf(next), ShelfOf(next), memory, behind);
          var tidy := next.TailUnused();
          next := Reopen(next, memory, behind);
          if !tidy { return; }
      }
      i := i + 1;
    }
    assert steps[i..] == [];
    NoSteps(TablesOf(next), ShelfOf(next));
  }

  lemma DoIs(t: Tables, s: L.Shelf, op: L.Op)
    requires Proper(t, s) && L.Ok(s)
    ensures Stepped(t, s, Do(op)) == Resized(t, s, op) && Applied(s, Do(op)) == L.Apply(s, op)
  {
  }

  lemma RestartIs(t: Tables, s: L.Shelf, memory: seq<Cluster>, behind: nat -> Word)
    requires Proper(t, s) && L.Ok(s)
    ensures Stepped(t, s, Restart(memory, behind)) == Reopened(t) && Applied(s, Restart(memory, behind)) == s
  {
  }

  lemma NoSteps(t: Tables, s: L.Shelf)
    requires Proper(t, s) && L.Ok(s)
    ensures Durable(t, s, []) && AfterSteps(t, s, []) == t && L.Run(s, OpsOf([])) == s
  {
  }

  // ---------------------------------------------------------------------------------------
  // New disks

  /** While writes stay inside the disk every run is durable, and nothing leaks. */
  lemma {:induction false} InsideDurable(totalSectors: nat, t: Tables, s: L.Shelf, steps: seq<Step>)
    requires Proper(t, s) && L.Ok(s) && Inside(OpsOf(steps), totalSectors) && Even(t, L1Size(totalSectors))
    ensures Durable(t, s, steps) && AfterSteps(t, s, steps).leaked == t.leaked
    decreases |steps|
  {
    hide L1Size, Resized, InsideOp, Clusters;
    if steps != [] {
      SteppedProper(t, s, steps[0]);
      InsideRest(steps, totalSectors);
      if steps[0].Do? { InsideStep(totalSectors, t, s, steps[0].op); }
      InsideDurable(totalSectors, Stepped(t, s, steps[0]), Applied(s, steps[0]), steps[1..]);
    }
  }

  lemma InsideRest(steps: seq<Step>, totalSectors: nat)
    requires steps != [] && Inside(OpsOf(steps), totalSectors)
    ensures Inside(OpsOf(steps[1..]), totalSectors) && (steps[0].Do? ==> InsideOp(steps[0].op, totalSectors))
  {
    var ops, rest := OpsOf(steps), OpsOf(steps[1..]);
    var k := if steps[0].Do? then 1 else 0;
    assert steps[0].Do? ==> InsideOp(ops[0], totalSectors);
    forall i | 0 <= i < |rest| ensures InsideOp(rest[i], totalSectors) { assert InsideOp(ops[i + k], totalSectors); }
  }

  /** All tables have at least n entries. */
  ghost predicate Large(t: Tables, n: nat) {
    t.active >= n && t.stored >= n && forall k :: 0 <= k < |t.kept| ==> t.kept[k].size >= n
  }

  /** No table gets shorter than that of a new disk: the header never states fewer entries than the disk needs. */
  lemma {:induction false} StaysLarge(t: Tables, s: L.Shelf, steps: seq<Step>, n: nat)
    requires Proper(t, s) && L.Ok(s) && Large(t, n)
    ensures Large(AfterSteps(t, s, steps), n)
    decreases |steps|
  {
    hide Clusters, SizeAfter, SpansOf, SpansSwitched, GrownTo;
    if steps != [] {
      SteppedProper(t, s, steps[0]);
      StaysLarge(Stepped(t, s, steps[0]), Applied(s, steps[0]), steps[1..], n);
    }
  }

  /** A new disk and any run on it, openings included. */
  method CreateAndExecute(m: Medium, totalSectors: nat, headerSize: nat, memory: seq<Cluster>, behind: nat -> Word, steps: seq<Step>)
    returns (img: Image)
    requires m.Valid() && totalSectors >= 1 && headerSize >= 1 && |memory| == L2_CACHE_SIZE && Memories(steps)
    requires L.Fits(NewShelf(m), OpsOf(steps), MAX_REFCOUNT - 1)
    ensures Proper(NewTables(totalSectors), NewShelf(m))
    ensures img.Valid() <==> Durable(NewTables(totalSectors), NewShelf(m), steps)
    ensures img.Valid() ==> ShelfOf(img) == L.Run(NewShelf(m), OpsOf(steps)) && img.storedSize >= L1Size(totalSectors)
    ensures Inside(OpsOf(steps), totalSectors) ==> img.Valid() && img.leaked == multiset{}
    ensures Inside(OpsOf(steps), totalSectors) && ByteClusters(headerSize) == 1 ==>
      forall nb: nat :: (forall c: nat :: c >= nb ==> img.refcount[c] == 0) ==> Check.Clean(img, nb)
  {
    hide Image.Sound, SavedOf, BackingView, Run, L.Ok, ByteClusters, L1Size, View, Check.Clean, Check.MetaClusters, Durable, AfterSteps,
         L.Fits, Proper, L.Run, OpsOf, Inside, Undercounted;
    img := new Image.Create(m, totalSectors, headerSize, memory, behind);
    if ByteClusters(headerSize) == 1 { Check.NewMeta(img); }
    NewImageTables(img, totalSectors);
    img := Execute(img, steps);
    if img.Valid() {
      StaysLarge(NewTables(totalSectors), NewShelf(m), steps, L1Size(totalSectors));
    }
    if Inside(OpsOf(steps), totalSectors) {
      InsideDurable(totalSectors, NewTables(totalSectors), NewShelf(m), steps);
      if ByteClusters(headerSize) == 1 {
        forall nb: nat | forall c: nat :: c >= nb ==> img.refcount[c] == 0 ensures Check.Clean(img, nb) { Check.ValidClean(img, nb); }
      }
    }
  }

  // ---------------------------------------------------------------------------------------
  // A disk that opening breaks

  /** The active L1 table has an entry in use behind the size of the only snapshot. */
  ghost predicate FarInUse(img: Image)
    reads img
  {
    && |img.snapshots| == 1 && img.snapshots[0].id == "1" && img.snapshots[0].size <= |img.l1Table|
    && L2_SIZE * Clusters(img.snapshots[0].size) in Spans(img.l1Table)
  }

  /** A snapshot, then one sector written far behind the end. */
  method TakeAndGoFar(img: Image, data: Sector)
    requires img.Valid() && img.snapshots == []
    modifies img
    ensures img.Valid() && FarInUse(img)
    ensures View(img.medium, img.file, SnapTable(img.file, img.snapshots[0])) == old(View(img.medium, img.file, img.l1Table))
  {
    hide Image.Sound, View, SnapTable, Clusters, GrownTo, L1Index, Limits.FarSector, SameSnapViews, Spans, SizeAfter;
    var r := img.SnapshotCreate("1", "");
    var n := |img.l1Table|;
    ghost var file0 := img.file;
    Limits.FarAway(n);
    img.QcowWrite(Limits.FarSector(n), [data]);
    SnapViewAt(img.medium, file0, img.file, img.snapshots, 0);
    assert L1Index(Limits.FarSector(n)) in SpansOf(Limits.FarSector(n), 1);
  }

  method GoBack(img: Image)
    requires img.Valid() && FarInUse(img)
    modifies img
    ensures img.Valid() && !Settled(TablesOf(img))
    ensures View(img.medium, img.file, img.l1Table) == old(View(img.medium, img.file, SnapTable(img.file, img.snapshots[0])))
  {
    hide Image.Sound, View, SnapTable, Clusters, GrownTo, SameSnapViews, Spans, Find, NoWaste;
    Limits.FirstSnapshot(img.snapshots);
    ghost var n, far := img.snapshots[0].size, L2_SIZE * Clusters(img.snapshots[0].size);
    ClustersIsCeiling(n);
    SpansAppend(img.l1Table, img.stale);
    var r := img.SnapshotGoto("1");
    assert far in TablesOf(img).spans && far >= TablesOf(img).active;
  }

  /** On every new disk: a snapshot, a write behind the end of its L1 table, back to the snapshot. The image is valid and shows
      what it showed at first; closed and opened again it is not valid any more, some count is too low. */
  method ReopenBreaks(m: Medium, totalSectors: nat, headerSize: nat, memory: seq<Cluster>, behind: nat -> Word, data: Sector)
    returns (img: Image, next: Image)
    requires m.Valid() && totalSectors >= 1 && headerSize >= 1 && |memory| == L2_CACHE_SIZE
    ensures img.Valid() && View(m, img.file, img.l1Table) == BackingView(m)
    ensures !next.Valid() && Undercounted(next) && next.OnDisk() == img.OnDisk()
  {
    hide Image.Sound, L1Size, View, BackingView, Run, ByteClusters, Undercounted, Image.TailUnused, SnapTable, Settled, TablesOf, ShelfOf, Proper;
    img := new Image.Create(m, totalSectors, headerSize, memory, behind);
    TakeAndGoFar(img, data);
    GoBack(img);
    next := Reopen(img, memory, behind);
  }
}
