/** Whole runs: an image behaves like a disk whose snapshots are full copies. */
module Session {
  import opened Layout
  import opened Forest
  import opened Guest
  import opened State
  import opened Transfer
  import L = Library
  import opened Qcow2
  import opened TableSizes
  import opened Switching
  import opened Bytes
  import opened Chunks
  import Counting
  import Check

  ghost function SavedOf(m: Medium, file: File, snaps: seq<Snapshot>): (r: seq<L.Saved>)
    ensures |r| == |snaps|
  {
    seq(|snaps|, k requires 0 <= k < |snaps| =>
      L.Saved(snaps[k].id, snaps[k].name, View(m, file, SnapTable(file, snaps[k]))))
  }

  /** What an image stands for: what the guest sees now, and through each snapshot. */
  ghost function ShelfOf(img: Image): L.Shelf
    reads img
  {
    L.Shelf(View(img.medium, img.file, img.l1Table), SavedOf(img.medium, img.file, img.snapshots))
  }

  // ---------------------------------------------------------------------------------------
  // How guest data is stored

  ghost predicate SealedSnaps(m: Medium, file: File, snaps: seq<Snapshot>) {
    forall k :: 0 <= k < |snaps| ==> AllSealed(m, file, SnapTable(file, snaps[k]))
  }

  /** The file has all guest data, that of snapshots included, encrypted when the image is encrypted. */
  ghost predicate SealedImage(img: Image)
    reads img
  {
    AllSealed(img.medium, img.file, img.l1Table) && SealedSnaps(img.medium, img.file, img.snapshots)
  }

  lemma SealedSnapsSame(m: Medium, file: File, other: File, snaps: seq<Snapshot>)
    requires SameSnapViews(m, file, other, snaps) && SealedSnaps(m, file, snaps)
    ensures SealedSnaps(m, other, snaps)
  {
    hide View, Cells, SnapTable, AllSealed;
    forall k | 0 <= k < |snaps| ensures AllSealed(m, other, SnapTable(other, snaps[k])) {
      assert SameSnap(m, file, other, snaps[k]);
      SealedSame(m, file, SnapTable(file, snaps[k]), other, SnapTable(other, snaps[k]));
    }
  }

  lemma WriteSealed(m: Medium, file: File, t: seq<Word>, other: File, u: seq<Word>, s: nat, buf: seq<Sector>)
    requires AllSealed(m, file, t) && Wrote(m, file, t, other, u, s, buf) && Rewritten(m, file, t, other, u, s, s + |buf|)
    ensures AllSealed(m, other, u)
  {
    hide CellOf, ViewSector, AllSealed, Rewritten;
    RewrittenSealed(m, file, t, other, u, s, s + |buf|);
  }

  lemma CreateSealed(m: Medium, file: File, snaps: seq<Snapshot>, t: seq<Word>, other: File, after: seq<Snapshot>)
    requires SameSnapViews(m, file, other, snaps) && SealedSnaps(m, file, snaps) && AllSealed(m, file, t)
    requires after == snaps ||
      (|after| == |snaps| + 1 && after[..|snaps|] == snaps && Cells(other, SnapTable(other, after[|snaps|])) == Cells(file, t))
    ensures SealedSnaps(m, other, after)
  {
    hide View, Cells, SnapTable, AllSealed, SameSnapViews;
    SealedSnapsSame(m, file, other, snaps);
    if after != snaps { SealedSame(m, file, t, other, SnapTable(other, after[|snaps|])); }
    forall k | 0 <= k < |after| ensures AllSealed(m, other, SnapTable(other, after[k])) {
      if k < |snaps| { assert after[k] == after[..|snaps|][k]; }
    }
  }

  lemma DeleteSealed(m: Medium, file: File, snaps: seq<Snapshot>, other: File, k: int, after: seq<Snapshot>)
    requires SealedSnaps(m, file, snaps) && -1 <= k < |snaps| && after == (if k < 0 then snaps else snaps[..k] + snaps[k + 1..])
    requires SameSnapViews(m, file, other, after)
    ensures SealedSnaps(m, other, after)
  {
    hide AllSealed, SameSnapViews;
    forall i | 0 <= i < |after| ensures AllSealed(m, file, SnapTable(file, after[i])) {
      assert after[i] == snaps[if k < 0 || i < k then i else i + 1];
    }
    SealedSnapsSame(m, file, other, after);
  }

  lemma SavedSame(m: Medium, file: File, other: File, snaps: seq<Snapshot>)
    requires SameSnapViews(m, file, other, snaps)
    ensures SavedOf(m, other, snaps) == SavedOf(m, file, snaps)
  {
    hide View, SnapTable;
  }

  lemma {:induction false} IdSame(m: Medium, file: File, snaps: seq<Snapshot>, id: string, k: nat)
    requires k <= |snaps|
    ensures FindId(snaps, id, k) == L.IdIndex(SavedOf(m, file, snaps), id, k)
    decreases |snaps| - k
  {
    hide View, SnapTable;
    if k < |snaps| { IdSame(m, file, snaps, id, k + 1); }
  }

  lemma {:induction false} NameSame(m: Medium, file: File, snaps: seq<Snapshot>, name: string, k: nat)
    requires k <= |snaps|
    ensures FindName(snaps, name, k) == L.NameIndex(SavedOf(m, file, snaps), name, k)
    decreases |snaps| - k
  {
    hide View, SnapTable;
    if k < |snaps| { NameSame(m, file, snaps, name, k + 1); }
  }

  lemma FindSame(m: Medium, file: File, snaps: seq<Snapshot>, key: string)
    ensures Find(snaps, key) == L.Index(SavedOf(m, file, snaps), key)
  {
    IdSame(m, file, snaps, key, 0);
    NameSame(m, file, snaps, key, 0);
  }

  lemma SavedAppend(m: Medium, file: File, snaps: seq<Snapshot>, sn: Snapshot)
    ensures SavedOf(m, file, snaps + [sn])
            == SavedOf(m, file, snaps) + [L.Saved(sn.id, sn.name, View(m, file, SnapTable(file, sn)))]
  {
    hide View, SnapTable;
  }

  lemma SavedWithout(m: Medium, file: File, snaps: seq<Snapshot>, k: nat)
    requires k < |snaps|
    ensures SavedOf(m, file, snaps[..k] + snaps[k + 1..])
            == SavedOf(m, file, snaps)[..k] + SavedOf(m, file, snaps)[k + 1..]
  {
    hide View, SnapTable;
  }

  lemma SavedRemaining(m: Medium, file: File, other: File, snaps: seq<Snapshot>, k: nat)
    requires k < |snaps| && SameSnapViews(m, file, other, snaps[..k] + snaps[k + 1..])
    ensures SavedOf(m, other, snaps[..k] + snaps[k + 1..])
            == SavedOf(m, file, snaps)[..k] + SavedOf(m, file, snaps)[k + 1..]
  {
    hide View, SnapTable;
    SavedWithout(m, file, snaps, k);
    SavedSame(m, file, other, snaps[..k] + snaps[k + 1..]);
  }

  // ---------------------------------------------------------------------------------------
  // Single operations

  method PerformWrite(img: Image, sector: nat, data: seq<Sector>)
    requires img.Valid()
    modifies img
    ensures img.Valid() && ShelfOf(img) == L.Apply(old(ShelfOf(img)), L.Write(sector, data))
    ensures img.leaked == old(img.leaked)
    ensures Proper(old(TablesOf(img)), old(ShelfOf(img)))
    ensures TablesOf(img) == Resized(old(TablesOf(img)), old(ShelfOf(img)), L.Write(sector, data))
    ensures old(SealedImage(img)) ==> SealedImage(img)
  {
    hide View, SnapTable, SameSnapViews, SavedOf, KeptOf, Overwrite, SizeAfter, Spans, SpansOf, Front, Image.Sound, Proper, Wrote, Rewritten, AllSealed;
    ghost var file0, t, stale := img.file, img.l1Table, img.stale;
    SizesProper(img, ShelfOf(img));
    img.HeaderSize();
    img.QcowWrite(sector, data);
    img.HeaderSize();
    SavedSame(img.medium, file0, img.file, img.snapshots);
    KeptSame(img.medium, file0, img.file, img.snapshots);
    WrittenSpans(t, stale, img.l1Table, img.stale, SpansOf(sector, |data|));
    if old(SealedImage(img)) {
      WriteSealed(img.medium, file0, t, img.file, img.l1Table, sector, data);
      SealedSnapsSame(img.medium, file0, img.file, img.snapshots);
    }
  }

  lemma CreateApplied(m: Medium, file: File, snaps: seq<Snapshot>, disk: L.Disk, id: string, name: string,
                      other: File, after: seq<Snapshot>)
    requires L.Total(disk) && SameSnapViews(m, file, other, snaps)
    requires FindId(snaps, id, 0) >= 0 ==> after == snaps
    requires FindId(snaps, id, 0) < 0 ==>
      && |after| == |snaps| + 1 && after[..|snaps|] == snaps && after[|snaps|].id == id && after[|snaps|].name == name
      && View(m, other, SnapTable(other, after[|snaps|])) == disk
    ensures L.Shelf(disk, SavedOf(m, other, after)) == L.Apply(L.Shelf(disk, SavedOf(m, file, snaps)), L.Create(id, name))
  {
    hide View, SnapTable, SavedOf, SameSnapViews, FindId;
    IdSame(m, file, snaps, id, 0);
    SavedSame(m, file, other, snaps);
    if FindId(snaps, id, 0) < 0 {
      var sn := after[|snaps|];
      assert after == snaps + [sn];
      SavedAppend(m, other, snaps, sn);
    }
  }

  lemma CreateResized(t: Tables, s: L.Shelf, m: Medium, file: File, snaps: seq<Snapshot>, id: string, name: string, other: File,
                      after: seq<Snapshot>)
    requires Proper(t, s) && t.kept == KeptOf(file, snaps) && s.saved == SavedOf(m, file, snaps) && SameSnapViews(m, file, other, snaps)
    requires FindId(snaps, id, 0) >= 0 ==> after == snaps
    requires FindId(snaps, id, 0) < 0 ==>
      && |after| == |snaps| + 1 && after[..|snaps|] == snaps
      && after[|snaps|].size == t.active && Spans(SnapTable(other, after[|snaps|])) == Front(t.spans, t.active)
    ensures t.(kept := KeptOf(other, after)) == Resized(t, s, L.Create(id, name))
  {
    hide View, SnapTable, SavedOf, SameSnapViews, FindId, KeptOf, Spans, Front, Proper;
    IdSame(m, file, snaps, id, 0);
    KeptSame(m, file, other, snaps);
    if FindId(snaps, id, 0) < 0 {
      assert after == snaps + [after[|snaps|]];
      KeptAppend(other, snaps, after[|snaps|]);
    }
  }

  method PerformCreate(img: Image, id: string, name: string)
    requires img.Valid() && (L.IdIndex(ShelfOf(img).saved, id, 0) < 0 ==> |img.snapshots| + 1 < MAX_REFCOUNT)
    modifies img
    ensures img.Valid() && ShelfOf(img) == L.Apply(old(ShelfOf(img)), L.Create(id, name))
    ensures img.leaked == old(img.leaked)
    ensures Proper(old(TablesOf(img)), old(ShelfOf(img)))
    ensures TablesOf(img) == Resized(old(TablesOf(img)), old(ShelfOf(img)), L.Create(id, name))
    ensures old(SealedImage(img)) ==> SealedImage(img)
  {
    hide View, SnapTable, SameSnapViews, FindId, SavedOf, KeptOf, Image.Sound, L.Apply, Spans, Front, Proper, Resized, Cells, AllSealed, SealedSnaps;
    ghost var file0, snaps0, disk := img.file, img.snapshots, View(img.medium, img.file, img.l1Table);
    ghost var t, stale, tables, shelf := img.l1Table, img.stale, TablesOf(img), ShelfOf(img);
    SizesProper(img, shelf);
    IdSame(img.medium, file0, snaps0, id, 0);
    var r := img.SnapshotCreate(id, name);
    IdUnused(snaps0, id);
    CreateApplied(img.medium, file0, snaps0, disk, id, name, img.file, img.snapshots);
    ActiveSpans(t, stale);
    SameAppend(t, img.l1Table, stale);
    CreateResized(tables, shelf, img.medium, file0, snaps0, id, name, img.file, img.snapshots);
    if old(SealedImage(img)) {
      SealedSame(img.medium, file0, t, img.file, img.l1Table);
      CreateSealed(img.medium, file0, snaps0, t, img.file, img.snapshots);
    }
  }

  lemma IdUnused(snaps: seq<Snapshot>, id: string)
    ensures FindId(snaps, id, 0) < 0 <==> forall k :: 0 <= k < |snaps| ==> snaps[k].id != id
  {
  }

  lemma DeleteApplied(m: Medium, file: File, snaps: seq<Snapshot>, disk: L.Disk, key: string, other: File, after: seq<Snapshot>)
    requires L.Total(disk) && SameSnapViews(m, file, other, after)
    requires var k := Find(snaps, key); after == if k < 0 then snaps else snaps[..k] + snaps[k + 1..]
    ensures L.Shelf(disk, SavedOf(m, other, after)) == L.Apply(L.Shelf(disk, SavedOf(m, file, snaps)), L.Delete(key))
  {
    hide View, SnapTable, SavedOf, SameSnapViews, Find;
    FindSame(m, file, snaps, key);
    if Find(snaps, key) < 0 {
      SavedSame(m, file, other, snaps);
    } else {
      SavedRemaining(m, file, other, snaps, Find(snaps, key));
    }
  }

  lemma DeleteResized(t: Tables, s: L.Shelf, m: Medium, file: File, snaps: seq<Snapshot>, key: string, other: File, after: seq<Snapshot>)
    requires Proper(t, s) && t.kept == KeptOf(file, snaps) && s.saved == SavedOf(m, file, snaps) && SameSnapViews(m, file, other, after)
    requires var k := Find(snaps, key); after == if k < 0 then snaps else snaps[..k] + snaps[k + 1..]
    ensures t.(kept := KeptOf(other, after)) == Resized(t, s, L.Delete(key))
  {
    hide View, SnapTable, SavedOf, SameSnapViews, Find, KeptOf, Proper;
    FindSame(m, file, snaps, key);
    if Find(snaps, key) < 0 {
      KeptSame(m, file, other, snaps);
    } else {
      KeptWithout(m, file, other, snaps, Find(snaps, key));
    }
  }

  method PerformDelete(img: Image, key: string)
    requires img.Valid()
    modifies img
    ensures img.Valid() && ShelfOf(img) == L.Apply(old(ShelfOf(img)), L.Delete(key))
    ensures img.leaked == old(img.leaked)
    ensures Proper(old(TablesOf(img)), old(ShelfOf(img)))
    ensures TablesOf(img) == Resized(old(TablesOf(img)), old(ShelfOf(img)), L.Delete(key))
    ensures old(SealedImage(img)) ==> SealedImage(img)
  {
    hide View, SnapTable, SameSnapViews, Find, SavedOf, KeptOf, Image.Sound, L.Apply, Resized, Proper, Spans, Cells, AllSealed, SealedSnaps;
    ghost var file0, snaps0, disk := img.file, img.snapshots, View(img.medium, img.file, img.l1Table);
    ghost var t, stale, tables, shelf := img.l1Table, img.stale, TablesOf(img), ShelfOf(img);
    SizesProper(img, shelf);
    var r := img.SnapshotDelete(key);
    SameAppend(t, img.l1Table, stale);
    DeleteResized(tables, shelf, img.medium, file0, snaps0, key, img.file, img.snapshots);
    DeleteApplied(img.medium, file0, snaps0, disk, key, img.file, img.snapshots);
    if old(SealedImage(img)) {
      SealedSame(img.medium, file0, t, img.file, img.l1Table);
      DeleteSealed(img.medium, file0, snaps0, img.file, Find(snaps0, key), img.snapshots);
    }
  }

  lemma GotoApplied(m: Medium, file: File, snaps: seq<Snapshot>, disk: L.Disk, key: string, other: File, after: L.Disk)
    requires L.Total(disk) && SameSnapViews(m, file, other, snaps)
    requires var k := Find(snaps, key); after == if k < 0 then disk else View(m, file, SnapTable(file, snaps[k]))
    ensures L.Shelf(after, SavedOf(m, other, snaps)) == L.Apply(L.Shelf(disk, SavedOf(m, file, snaps)), L.Goto(key))
  {
    hide View, SnapTable, SameSnapViews, Find;
    FindSame(m, file, snaps, key);
    SavedSame(m, file, other, snaps);
  }

  method PerformGoto(img: Image, key: string)
    requires img.Valid()
    modifies img
    ensures img.Valid() && ShelfOf(img) == L.Apply(old(ShelfOf(img)), L.Goto(key))
    ensures old(img.leaked) <= img.leaked
    ensures Proper(old(TablesOf(img)), old(ShelfOf(img)))
    ensures TablesOf(img) == Resized(old(TablesOf(img)), old(ShelfOf(img)), L.Goto(key))
    ensures old(SealedImage(img)) ==> SealedImage(img)
    ensures img.leaked == old(img.leaked) <==> Thrifty(old(TablesOf(img)), old(ShelfOf(img)), L.Goto(key))
  {
    hide View, SnapTable, SameSnapViews, Find, SavedOf, KeptOf, Image.Sound, L.Apply, NoWaste, Spans, Proper, StoredAfter, SpansSwitched, Unused,
         GrownTo, Clusters, Cells, AllSealed;
    ghost var t0 := img.l1Table;
    ghost var file0, snaps0, disk := img.file, img.snapshots, View(img.medium, img.file, img.l1Table);
    ghost var size := |img.l1Table|;
    SizesProper(img, ShelfOf(img));
    FindSame(img.medium, file0, snaps0, key);
    img.AnyTable();
    ghost var k := Find(snaps0, key);
    if k >= 0 { KeptAt(file0, snaps0, k); }
    var r := img.SnapshotGoto(key);
    GotoApplied(img.medium, file0, snaps0, disk, key, img.file, View(img.medium, img.file, img.l1Table));
    KeptSame(img.medium, file0, img.file, img.snapshots);
    if k >= 0 {
      ClustersMonotone(snaps0[k].size, GrownTo(size, snaps0[k].size));
      UnusedSize(img.l1Cluster, Clusters(GrownTo(size, snaps0[k].size)), Clusters(snaps0[k].size));
    }
    if old(SealedImage(img)) {
      SealedSame(img.medium, file0, if k < 0 then t0 else SnapTable(file0, snaps0[k]), img.file, img.l1Table);
      SealedSnapsSame(img.medium, file0, img.file, img.snapshots);
    }
  }

  /** One operation has on the image the effect it has on the shelf. */
  method Perform(img: Image, op: L.Op)
    requires img.Valid() && L.Ok(ShelfOf(img))
    requires op.Create? && L.IdIndex(ShelfOf(img).saved, op.id, 0) < 0 ==> |img.snapshots| + 1 < MAX_REFCOUNT
    modifies img
    ensures img.Valid() && ShelfOf(img) == L.Apply(old(ShelfOf(img)), op)
    ensures Proper(old(TablesOf(img)), old(ShelfOf(img)))
    ensures TablesOf(img) == Resized(old(TablesOf(img)), old(ShelfOf(img)), op)
    ensures old(SealedImage(img)) ==> SealedImage(img)
    ensures old(img.leaked) <= img.leaked
    ensures img.leaked == old(img.leaked) <==> Thrifty(old(TablesOf(img)), old(ShelfOf(img)), op)
  {
    hide ShelfOf, TablesOf, L.Apply, Resized, NoWaste, SealedImage;
    assert |ShelfOf(img).saved| == |img.snapshots| by { SavedCount(img); }
    match op
    case Write(sector, data) => PerformWrite(img, sector, data);
    case Create(id, name) => PerformCreate(img, id, name);
    case Delete(key) => PerformDelete(img, key);
    case Goto(key) => PerformGoto(img, key);
  }

  lemma SavedCount(img: Image)
    ensures |ShelfOf(img).saved| == |img.snapshots|
  {
  }

  /** Any run of guest writes and snapshot operations refines the same run on a disk with full copies.
      Clusters leak exactly when a switch goes to a table that takes fewer of them. */
  method Execute(img: Image, ops: seq<L.Op>)
    requires img.Valid() && L.Ok(ShelfOf(img)) && L.Fits(ShelfOf(img), ops, MAX_REFCOUNT - 1)
    modifies img
    ensures img.Valid() && ShelfOf(img) == L.Run(old(ShelfOf(img)), ops)
    ensures Proper(old(TablesOf(img)), old(ShelfOf(img)))
    ensures TablesOf(img) == After(old(TablesOf(img)), old(ShelfOf(img)), ops)
    ensures old(SealedImage(img)) ==> SealedImage(img)
    ensures img.leaked == old(img.leaked) <==> AllThrifty(old(TablesOf(img)), old(ShelfOf(img)), ops)
  {
    hide ShelfOf, TablesOf, L.Apply, Thrifty, Resized, Image.Sound, Proper, SealedImage;
    ghost var start, tables := ShelfOf(img), TablesOf(img);
    SavedCount(img);
    SizesProper(img, start);
    var i := 0;
    assert ops[0..] == ops;
    while i < |ops|
      invariant i <= |ops|
      invariant img.Valid() && L.Ok(ShelfOf(img)) && L.Fits(ShelfOf(img), ops[i..], MAX_REFCOUNT - 1)
      invariant L.Run(ShelfOf(img), ops[i..]) == L.Run(start, ops)
      invariant Proper(TablesOf(img), ShelfOf(img)) && old(img.leaked) <= img.leaked
      invariant After(TablesOf(img), ShelfOf(img), ops[i..]) == After(tables, start, ops)
      invariant old(SealedImage(img)) ==> SealedImage(img)
      invariant AllThrifty(tables, start, ops)
           <==> img.leaked == old(img.leaked) && AllThrifty(TablesOf(img), ShelfOf(img), ops[i..])
    {
      assert ops[i..][0] == ops[i] && ops[i..][1..] == ops[i + 1..];
      L.ApplyOk(ShelfOf(img), ops[i]);
      ResizedProper(TablesOf(img), ShelfOf(img), ops[i]);
      SavedCount(img);
      Perform(img, ops[i]);
      i := i + 1;
    }
  }

  /** Whatever happens in between, going back to a snapshot shows the guest the disk as it was when the snapshot was taken. */
  method TakeAndReturn(img: Image, id: string, name: string, ops: seq<L.Op>)
    requires img.Valid() && L.Ok(ShelfOf(img)) && L.IdIndex(ShelfOf(img).saved, id, 0) < 0
    requires L.Fits(ShelfOf(img), [L.Create(id, name)] + ops + [L.Goto(id)], MAX_REFCOUNT - 1)
    requires L.Spares(ShelfOf(img), [L.Create(id, name)] + ops, id)
    modifies img
    ensures img.Valid()
    ensures View(img.medium, img.file, img.l1Table) == old(View(img.medium, img.file, img.l1Table))
  {
    hide View, SavedOf, L.Apply, L.Run, L.Spares, L.Fits, Image.Sound, L.Ok;
    L.GotoRestores(ShelfOf(img), id, name, ops);
    Execute(img, [L.Create(id, name)] + ops + [L.Goto(id)]);
  }

  /** A snapshot that no step deletes shows at the end of a run what it showed at the start. */
  method KeepSnapshot(img: Image, ops: seq<L.Op>, k: nat) returns (ghost m: nat)
    requires img.Valid() && L.Ok(ShelfOf(img)) && L.Fits(ShelfOf(img), ops, MAX_REFCOUNT - 1)
    requires k < |img.snapshots| && L.Spares(ShelfOf(img), ops, ShelfOf(img).saved[k].id)
    modifies img
    ensures img.Valid() && m < |img.snapshots| && img.snapshots[m].id == old(img.snapshots)[k].id
    ensures View(img.medium, img.file, SnapTable(img.file, img.snapshots[m]))
         == old(View(img.medium, img.file, SnapTable(img.file, img.snapshots[k])))
  {
    hide View, SnapTable, L.Apply, L.Run, L.Spares, L.Fits, Image.Sound, L.Ok;
    m := L.SavedForever(ShelfOf(img), ops, k);
    Execute(img, ops);
  }

  /** What a new disk stands for. */
  ghost function NewShelf(m: Medium): (s: L.Shelf)
    ensures L.Ok(s) && s == L.Shelf(BackingView(m), [])
  {
    L.Shelf(BackingView(m), [])
  }

  /** Its only table is empty. */
  ghost function NewTables(totalSectors: nat): Tables {
    Tables(L1Size(totalSectors), L1Size(totalSectors), {}, [], 0)
  }

  lemma NewImageTables(img: Image, totalSectors: nat)
    requires |img.l1Table| == img.storedSize == L1Size(totalSectors) && img.stale == [] && Spans(img.l1Table) == {}
    requires img.snapshots == [] && img.leaked == multiset{}
    ensures TablesOf(img) == NewTables(totalSectors)
  {
    hide L1Size;
    assert img.l1Table + img.stale == img.l1Table;
  }

  lemma NothingStored(m: Medium, file: File, t: seq<Word>)
    requires Spans(t) == {}
    ensures AllSealed(m, file, t)
  {
    forall i: nat | i < |t| ensures t[i] == ZERO { assert i !in Spans(t); }
  }

  /** A new disk and any run on it. The consistency check, which takes the header to be one cluster, finds
      nothing exactly when no switch leaked; while writes stay inside the disk, none does. */
  method CreateAndExecute(m: Medium, totalSectors: nat, headerSize: nat, memory: seq<Cluster>, behind: nat -> Word, ops: seq<L.Op>)
    returns (img: Image)
    requires m.Valid() && totalSectors >= 1 && headerSize >= 1
    requires L.Fits(NewShelf(m), ops, MAX_REFCOUNT - 1)
    requires |memory| == L2_CACHE_SIZE
    ensures img.Valid() && img.medium == m && ShelfOf(img) == L.Run(NewShelf(m), ops)
    ensures Proper(NewTables(totalSectors), NewShelf(m))
    ensures TablesOf(img) == After(NewTables(totalSectors), NewShelf(m), ops)
    ensures SealedImage(img)
    ensures img.leaked == multiset{} <==> AllThrifty(NewTables(totalSectors), NewShelf(m), ops)
    ensures Inside(ops, totalSectors) ==> img.leaked == multiset{}
    ensures ByteClusters(headerSize) == 1 ==>
      forall nb: nat :: (forall c: nat :: c >= nb ==> img.refcount[c] == 0) ==>
        (Check.Clean(img, nb) <==> img.leaked == multiset{})
  {
    hide Image.Sound, SavedOf, BackingView, Counting.Run, L.Ok, ByteClusters, L1Size, View, Check.Clean, Check.MetaClusters,
         AllThrifty, After, L.Fits, TablesOf, Proper, AllSealed, Cells;
    img := new Image.Create(m, totalSectors, headerSize, memory, behind);
    if ByteClusters(headerSize) == 1 { Check.NewMeta(img); }
    NewImageTables(img, totalSectors);
    NothingStored(m, img.file, img.l1Table);
    Execute(img, ops);
    if Inside(ops, totalSectors) {
      InsideThrifty(totalSectors, NewTables(totalSectors), NewShelf(m), ops);
    }
    if ByteClusters(headerSize) == 1 {
      forall nb: nat | forall c: nat :: c >= nb ==> img.refcount[c] == 0
        ensures Check.Clean(img, nb) <==> img.leaked == multiset{}
      {
        Check.ValidClean(img, nb);
      }
    }
  }

  // ---------------------------------------------------------------------------------------
  // Space for compressed data

  datatype Request = Piece(size: nat) | Whole(clusters: nat)

  function Sizes(requests: seq<Request>): seq<nat> {
    if requests == [] then []
    else
      var last := requests[|requests| - 1];
      Sizes(requests[..|requests| - 1]) + (if last.Piece? then [last.size] else [])
  }

  /** Any run of requests for compressed chunks and for whole clusters: chunks never overlap, and each
      count is the number of chunks in the cluster plus that of its other references. Only 64 KB clusters
      can run out of counts, and only when some chunk is a single byte. */
  method Serve(img: Image, requests: seq<Request>) returns (ghost chunks: seq<Chunk>, ghost others: multiset<nat>)
    requires 0 in img.refcount && img.freeByteOffset == 0
    requires forall i :: 0 <= i < |requests| && requests[i].Piece? ==> 1 <= requests[i].size <= CLUSTER_BYTES
    requires CLUSTER_SECTORS < 128 || forall i :: 0 <= i < |requests| && requests[i].Piece? ==> requests[i].size >= 2
    modifies img
    ensures Books(img.refcount, img.freeByteOffset, chunks, others)
    ensures SizesOf(chunks) == Sizes(requests) && old(img.refcount) <= others
  {
    hide Books, Saturated, Sizes, Sparse, Placed, Crowded;
    chunks, others := [], img.refcount;
    NoChunks(others);
    SizesNone();
    for i := 0 to |requests|
      invariant Books(img.refcount, img.freeByteOffset, chunks, others)
      invariant CLUSTER_SECTORS < 128 || Sparse(img.refcount, img.freeByteOffset)
      invariant SizesOf(chunks) == Sizes(requests[..i]) && old(img.refcount) <= others
    {
      SizesNext(requests, i);
      ghost var rc, index, free := img.refcount, img.freeClusterIndex, img.freeByteOffset;
      match requests[i]
      case Piece(size) =>
        RoomLeft(rc, index, free, size, chunks, others);
        var offset := img.AllocBytes(size, chunks, others);
        if CLUSTER_SECTORS == 128 { PlacedSparse(rc, index, free, size, offset, img.refcount, img.freeClusterIndex, img.freeByteOffset); }
        chunks := chunks + [Chunk(offset, size)];
      case Whole(n) =>
        var c := img.AllocClusters(n);
        OtherRun(rc, free, chunks, others, c, n);
        if CLUSTER_SECTORS == 128 { OtherSparse(rc, free, chunks, others, c, n); }
        others := others + Counting.Run(c, n);
    }
    assert requests[..|requests|] == requests;
  }

  lemma RoomLeft(rc: multiset<nat>, index: nat, free: nat, size: nat, chunks: seq<Chunk>, others: multiset<nat>)
    requires Books(rc, free, chunks, others) && (CLUSTER_SECTORS < 128 || Sparse(rc, free))
    ensures !Crowded(rc, index, free, size)
  {
    hide Books, Sparse, Fits, FirstFree;
    NeverSaturated(rc, free, chunks, others);
    if CLUSTER_SECTORS >= 128 { SparseRoom(rc, free); }
  }

  function SizesOf(chunks: seq<Chunk>): (r: seq<nat>)
    ensures |r| == |chunks|
  {
    seq(|chunks|, i requires 0 <= i < |chunks| => chunks[i].size)
  }

  lemma SizesNone()
    ensures Sizes([]) == []
  {
  }

  lemma SizesNext(requests: seq<Request>, i: nat)
    requires i < |requests|
    ensures Sizes(requests[..i + 1]) == Sizes(requests[..i]) + (if requests[i].Piece? then [requests[i].size] else [])
  {
    assert requests[..i + 1][..i] == requests[..i];
  }
}
