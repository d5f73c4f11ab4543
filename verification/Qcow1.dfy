/** The append-only allocator of version 1 images: a file that only grows, an L1 table, L2 tables, data clusters. */
module Qcow1 {
  import G = Guest

  /** The file as 64-bit words; addresses count words. */
  type Words = seq<nat>

  const SECTOR := 64
  const CACHE_SLOTS := 16
  const MAX_HITS := 0xffff_ffff

  type Sector = s: Words | |s| == SECTOR witness seq(SECTOR, _ => 0)

  function Zeros(n: nat): (z: Words)
    ensures |z| == n && forall i :: 0 <= i < n ==> z[i] == 0
  {
    seq(n, _ => 0)
  }

  /** The sector cipher; a plain image has on == false. */
  datatype Cipher = Cipher(on: bool, enc: (nat, Sector) -> Sector, dec: (nat, Sector) -> Sector) {
    ghost predicate Valid() {
      forall n: nat, s: Sector :: dec(n, enc(n, s)) == s
    }

    function Encode(n: nat, s: Sector): Sector { if on then enc(n, s) else s }
    function Decode(n: nat, s: Sector): Sector { if on then dec(n, s) else s }
  }

  /** What the header fixes. */
  datatype Geometry = Geometry(l1Offset: nat, l1Size: nat, l2Size: nat, clusterSectors: nat, cipher: Cipher, backing: seq<Sector>) {

    ghost predicate Valid() {
      l1Offset > 0 && l1Size > 0 && l2Size > 0 && clusterSectors > 0 && cipher.Valid()
    }

    /** The first word behind the L1 table. */
    function First(): nat { l1Offset + l1Size }

    function ClusterWords(): nat { clusterSectors * SECTOR }

    /** Guest clusters that the tables can map. */
    function Clusters(): nat { l1Size * l2Size }

    function Backing(n: nat): Sector { if n < |backing| then backing[n] else Zeros(SECTOR) }
  }

  /** Two stretches of words do not meet. */
  predicate Apart(a: nat, m: nat, b: nat, n: nat) {
    a + m <= b || b + n <= a
  }

  /** File and active L1 table. */
  datatype Disk = Disk(file: Words, l1: Words)

  predicate InFile(g: Geometry, d: Disk, a: nat, n: nat) {
    g.First() <= a && a + n <= |d.file|
  }

  ghost predicate TablesOk(g: Geometry, d: Disk) {
    && g.First() <= |d.file| && |d.l1| == g.l1Size
    && (forall i :: 0 <= i < g.l1Size ==> d.file[g.l1Offset + i] == d.l1[i])
    && (forall i :: 0 <= i < g.l1Size && d.l1[i] != 0 ==> InFile(g, d, d.l1[i], g.l2Size))
    && forall i, k :: 0 <= i < k < g.l1Size && d.l1[i] != 0 && d.l1[k] != 0 ==> Apart(d.l1[i], g.l2Size, d.l1[k], g.l2Size)
  }

  /** The address of guest cluster c, 0 when it has none. */
  function Entry(g: Geometry, d: Disk, i: nat, j: nat): nat
    requires |d.l1| == g.l1Size && i < g.l1Size && j < g.l2Size && (d.l1[i] != 0 ==> InFile(g, d, d.l1[i], g.l2Size))
  {
    if d.l1[i] == 0 then 0 else d.file[d.l1[i] + j]
  }

  /** A place in the tables. */
  predicate Slot(g: Geometry, i: nat, j: nat) {
    i < g.l1Size && j < g.l2Size
  }

  ghost predicate Mapped(g: Geometry, d: Disk, i: nat, j: nat) {
    TablesOk(g, d) && Slot(g, i, j) && Entry(g, d, i, j) != 0
  }

  /** Tables and data clusters lie in the file, behind the L1 table, and apart from each other. */
  ghost predicate Sound(g: Geometry, d: Disk) {
    && g.Valid() && TablesOk(g, d)
    && (forall i: nat, j: nat :: Mapped(g, d, i, j) ==> ClusterOk(g, d, Entry(g, d, i, j)))
    && (forall i: nat, j: nat, k: nat :: Mapped(g, d, i, j) && k < g.l1Size && d.l1[k] != 0 ==>
          Apart(Entry(g, d, i, j), g.ClusterWords(), d.l1[k], g.l2Size))
    && forall i: nat, j: nat, k: nat, l: nat :: Mapped(g, d, i, j) && Mapped(g, d, k, l) && (i != k || j != l) ==>
         Apart(Entry(g, d, i, j), g.ClusterWords(), Entry(g, d, k, l), g.ClusterWords())
  }

  ghost predicate ClusterOk(g: Geometry, d: Disk, a: nat) {
    InFile(g, d, a, g.ClusterWords()) && a % SECTOR == 0
  }

  // ---------------------------------------------------------------------------------------
  // Addresses

  function L1Index(g: Geometry, s: nat): nat
    requires g.clusterSectors > 0 && g.l2Size > 0
  {
    s / g.clusterSectors / g.l2Size
  }

  function L2Index(g: Geometry, s: nat): (j: nat)
    requires g.clusterSectors > 0 && g.l2Size > 0
    ensures j < g.l2Size
  {
    s / g.clusterSectors % g.l2Size
  }

  function InCluster(g: Geometry, s: nat): (k: nat)
    requires g.clusterSectors > 0
    ensures k < g.clusterSectors
  {
    s % g.clusterSectors
  }

  /** The indices and the place in the cluster are the digits of the sector number. */
  lemma AddressIs(g: Geometry, s: nat, i: nat, j: nat, k: nat)
    requires g.clusterSectors > 0 && g.l2Size > 0 && j < g.l2Size && k < g.clusterSectors
    ensures L1Index(g, s) == i && L2Index(g, s) == j && InCluster(g, s) == k
       <==> s == (i * g.l2Size + j) * g.clusterSectors + k
  {
    if s == (i * g.l2Size + j) * g.clusterSectors + k {
      G.DivModUnique(s, g.clusterSectors, i * g.l2Size + j, k);
      G.DivModUnique(s / g.clusterSectors, g.l2Size, i, j);
    }
  }

  /** The first sector of the cluster of s. */
  function Base(g: Geometry, s: nat): nat
    requires g.clusterSectors > 0
  {
    s - InCluster(g, s)
  }

  /** What the guest sees in sector s. */
  ghost function ViewSector(g: Geometry, d: Disk, s: nat): Sector
    requires Sound(g, d) && L1Index(g, s) < g.l1Size
  {
    match CellOf(g, d, s)
    case Hole => g.Backing(s)
    case Stored(x) => g.cipher.Decode(s, x)
  }

  /** What the file has for a guest sector, as it is stored there. */
  datatype Cell = Hole | Stored(sector: Sector)

  ghost function CellOf(g: Geometry, d: Disk, s: nat): Cell
    requires Sound(g, d) && L1Index(g, s) < g.l1Size
  {
    var e := Entry(g, d, L1Index(g, s), L2Index(g, s));
    if e == 0 then Hole else Stored(SectorAt(g, d, e, InCluster(g, s)))
  }

  /** The same is stored for every guest sector. */
  ghost predicate SameCells(g: Geometry, d: Disk, n: Disk) {
    Sound(g, d) && Sound(g, n) && forall s: nat :: L1Index(g, s) < g.l1Size ==> CellOf(g, n, s) == CellOf(g, d, s)
  }

  /** Sector k of the cluster at e. */
  function SectorAt(g: Geometry, d: Disk, e: nat, k: nat): Sector
    requires k < g.clusterSectors && e + g.ClusterWords() <= |d.file|
  {
    SectorFits(k, g.clusterSectors);
    d.file[e + k * SECTOR..e + k * SECTOR + SECTOR]
  }

  lemma SectorFits(k: nat, n: nat)
    requires k < n
    ensures (k + 1) * SECTOR <= n * SECTOR
  {
  }

  // ---------------------------------------------------------------------------------------
  // What the allocator does to the file

  /** L1 entry i names a new, empty L2 table at address at behind the end of the file. */
  ghost function WithTable(g: Geometry, d: Disk, i: nat, at: nat): Disk
    requires TablesOk(g, d) && i < g.l1Size && at >= |d.file|
  {
    Disk(d.file[g.l1Offset + i := at] + Zeros(at - |d.file|) + Zeros(g.l2Size), d.l1[i := at])
  }

  /** A cluster with the given content at address at behind the end of the file, named by entry j of L2 table i. */
  ghost function WithCluster(g: Geometry, d: Disk, i: nat, j: nat, at: nat, content: Words): Disk
    requires TablesOk(g, d) && Slot(g, i, j) && d.l1[i] != 0 && at >= |d.file|
  {
    Disk((d.file + Zeros(at - |d.file|) + content)[d.l1[i] + j := at], d.l1)
  }

  /** The words from at on are replaced. */
  ghost function WithWords(d: Disk, at: nat, data: Words): Disk
    requires at + |data| <= |d.file|
  {
    Disk(d.file[..at] + data + d.file[at + |data|..], d.l1)
  }

  ghost predicate SameEntries(g: Geometry, d: Disk, n: Disk) {
    && TablesOk(g, d) && TablesOk(g, n)
    && forall i: nat, j: nat :: Slot(g, i, j) ==> Entry(g, n, i, j) == Entry(g, d, i, j)
  }

  lemma TableEntries(g: Geometry, d: Disk, i: nat, at: nat)
    requires g.Valid() && TablesOk(g, d) && i < g.l1Size && d.l1[i] == 0 && at >= |d.file|
    ensures SameEntries(g, d, WithTable(g, d, i, at))
    ensures forall x: nat :: g.First() <= x < |d.file| ==> WithTable(g, d, i, at).file[x] == d.file[x]
  {
    var n := WithTable(g, d, i, at);
    assert n.file == d.file[g.l1Offset + i := at] + (Zeros(at - |d.file|) + Zeros(g.l2Size));
    forall k: nat, j: nat | Slot(g, k, j) ensures Entry(g, n, k, j) == Entry(g, d, k, j) {
      if k == i { assert n.file[at + j] == 0; }
    }
  }

  lemma SameClusterFrame(g: Geometry, d: Disk, n: Disk, s: nat)
    requires Sound(g, d) && Sound(g, n) && SameEntries(g, d, n) && L1Index(g, s) < g.l1Size
    requires |d.file| <= |n.file|
    requires forall x: nat :: g.First() <= x < |d.file| ==> n.file[x] == d.file[x]
    ensures CellOf(g, n, s) == CellOf(g, d, s)
  {
    var i, j, k := L1Index(g, s), L2Index(g, s), InCluster(g, s);
    var e := Entry(g, d, i, j);
    assert Slot(g, i, j);
    if e != 0 {
      assert Mapped(g, d, i, j) && Mapped(g, n, i, j);
      SectorFits(k, g.clusterSectors);
      assert SectorAt(g, n, e, k) == SectorAt(g, d, e, k);
    }
  }

  lemma TableSound(g: Geometry, d: Disk, i: nat, at: nat)
    requires Sound(g, d) && i < g.l1Size && d.l1[i] == 0 && at >= |d.file|
    ensures Sound(g, WithTable(g, d, i, at))
    ensures SameCells(g, d, WithTable(g, d, i, at))
  {
    var n := WithTable(g, d, i, at);
    TableEntries(g, d, i, at);
    forall k: nat, j: nat | Mapped(g, n, k, j) ensures Mapped(g, d, k, j) && ClusterOk(g, n, Entry(g, n, k, j)) {
      assert Mapped(g, d, k, j);
      assert ClusterOk(g, d, Entry(g, d, k, j));
    }
    forall k: nat, j: nat, l: nat | Mapped(g, n, k, j) && l < g.l1Size && n.l1[l] != 0
      ensures Apart(Entry(g, n, k, j), g.ClusterWords(), n.l1[l], g.l2Size)
    {
      assert Mapped(g, d, k, j) && ClusterOk(g, d, Entry(g, d, k, j));
    }
    assert Sound(g, n);
    forall s: nat | L1Index(g, s) < g.l1Size ensures CellOf(g, n, s) == CellOf(g, d, s) { SameClusterFrame(g, d, n, s); }
  }

  lemma ClusterWordAt(g: Geometry, d: Disk, i: nat, j: nat, at: nat, content: Words, x: nat)
    requires TablesOk(g, d) && Slot(g, i, j) && d.l1[i] != 0 && at >= |d.file|
    ensures var f := WithCluster(g, d, i, j, at, content).file;
      && |f| == at + |content|
      && (x < |d.file| ==> f[x] == if x == d.l1[i] + j then at else d.file[x])
      && (at <= x < at + |content| ==> f[x] == content[x - at])
  {
  }

  lemma ClusterEntries(g: Geometry, d: Disk, i: nat, j: nat, at: nat, content: Words)
    requires g.Valid() && TablesOk(g, d) && Slot(g, i, j) && d.l1[i] != 0 && at >= |d.file|
    ensures TablesOk(g, WithCluster(g, d, i, j, at, content))
    ensures var n := WithCluster(g, d, i, j, at, content);
      forall k: nat, l: nat :: Slot(g, k, l) ==>
           Entry(g, n, k, l) == if k == i && l == j then at else Entry(g, d, k, l)
  {
    var n := WithCluster(g, d, i, j, at, content);
    hide WithCluster;
    ClusterWordAt(g, d, i, j, at, content, 0);
    assert n.l1 == d.l1 by { ClusterL1(g, d, i, j, at, content); }
    forall k: nat | k < g.l1Size ensures n.file[g.l1Offset + k] == n.l1[k] {
      ClusterWordAt(g, d, i, j, at, content, g.l1Offset + k);
    }
    forall k: nat, l: nat | Slot(g, k, l)
      ensures n.l1[k] != 0 ==> InFile(g, n, n.l1[k], g.l2Size)
      ensures Entry(g, n, k, l) == if k == i && l == j then at else Entry(g, d, k, l)
    {
      ClusterWordAt(g, d, i, j, at, content, n.l1[k] + l);
      if n.l1[k] != 0 && k != i {
        assert Apart(d.l1[if k < i then k else i], g.l2Size, d.l1[if k < i then i else k], g.l2Size);
      }
    }
    forall k: nat | k < g.l1Size && n.l1[k] != 0 ensures InFile(g, n, n.l1[k], g.l2Size) { assert Slot(g, k, 0); }
  }

  lemma ClusterL1(g: Geometry, d: Disk, i: nat, j: nat, at: nat, content: Words)
    requires TablesOk(g, d) && Slot(g, i, j) && d.l1[i] != 0 && at >= |d.file|
    ensures WithCluster(g, d, i, j, at, content).l1 == d.l1
  {
  }

  /** Everything that was mapped ends before the end of the file. */
  lemma MappedInFile(g: Geometry, d: Disk, i: nat, j: nat)
    requires Sound(g, d) && Mapped(g, d, i, j)
    ensures g.First() <= Entry(g, d, i, j) && Entry(g, d, i, j) + g.ClusterWords() <= |d.file| && Entry(g, d, i, j) % SECTOR == 0
  {
    assert ClusterOk(g, d, Entry(g, d, i, j));
  }

  lemma ClusterSound(g: Geometry, d: Disk, i: nat, j: nat, at: nat, content: Words)
    requires Sound(g, d) && Slot(g, i, j) && d.l1[i] != 0 && Entry(g, d, i, j) == 0
    requires at >= |d.file| && at % SECTOR == 0 && |content| == g.ClusterWords()
    ensures Sound(g, WithCluster(g, d, i, j, at, content))
  {
    var n := WithCluster(g, d, i, j, at, content);
    ClusterEntries(g, d, i, j, at, content);
    ClusterL1(g, d, i, j, at, content);
    ClusterWordAt(g, d, i, j, at, content, 0);
    hide WithCluster, Entry, TablesOk;
    forall k: nat, l: nat | Mapped(g, n, k, l) ensures ClusterOk(g, n, Entry(g, n, k, l)) {
      if k != i || l != j {
        assert Mapped(g, d, k, l);
        MappedInFile(g, d, k, l);
      }
    }
    forall k: nat, l: nat, m: nat | Mapped(g, n, k, l) && m < g.l1Size && n.l1[m] != 0
      ensures Apart(Entry(g, n, k, l), g.ClusterWords(), n.l1[m], g.l2Size)
    {
      if k != i || l != j { assert Mapped(g, d, k, l); } else { TableInFile(g, d, m); }
    }
    forall k: nat, l: nat, m: nat, o: nat | Mapped(g, n, k, l) && Mapped(g, n, m, o) && (k != m || l != o)
      ensures Apart(Entry(g, n, k, l), g.ClusterWords(), Entry(g, n, m, o), g.ClusterWords())
    {
      if k != i || l != j {
        assert Mapped(g, d, k, l);
        MappedInFile(g, d, k, l);
      }
      if m != i || o != j {
        assert Mapped(g, d, m, o);
        MappedInFile(g, d, m, o);
      }
    }
  }

  lemma TableInFile(g: Geometry, d: Disk, i: nat)
    requires TablesOk(g, d) && i < g.l1Size && d.l1[i] != 0
    ensures InFile(g, d, d.l1[i], g.l2Size)
  {
  }

  /** The guest sees the content of the new cluster, and everything else as before. */
  lemma ClusterView(g: Geometry, d: Disk, i: nat, j: nat, at: nat, content: Words, s: nat)
    requires Sound(g, d) && Slot(g, i, j) && d.l1[i] != 0 && Entry(g, d, i, j) == 0
    requires at >= |d.file| && at % SECTOR == 0 && |content| == g.ClusterWords()
    requires L1Index(g, s) < g.l1Size && Sound(g, WithCluster(g, d, i, j, at, content))
    ensures CellOf(g, WithCluster(g, d, i, j, at, content), s) ==
      if L1Index(g, s) == i && L2Index(g, s) == j then Stored(Part(content, InCluster(g, s), g.clusterSectors))
      else CellOf(g, d, s)
  {
    var n := WithCluster(g, d, i, j, at, content);
    var k, l, m := L1Index(g, s), L2Index(g, s), InCluster(g, s);
    ClusterEntries(g, d, i, j, at, content);
    ClusterWordAt(g, d, i, j, at, content, 0);
    SectorFits(m, g.clusterSectors);
    hide WithCluster;
    assert Slot(g, k, l);
    if k == i && l == j {
      NewSectorAt(g, d, i, j, at, content, m);
    } else if Entry(g, d, k, l) != 0 {
      OldSectorAt(g, d, i, j, at, content, k, l, m);
    }
  }

  lemma NewSectorAt(g: Geometry, d: Disk, i: nat, j: nat, at: nat, content: Words, m: nat)
    requires TablesOk(g, d) && Slot(g, i, j) && d.l1[i] != 0 && at >= |d.file| && |content| == g.ClusterWords() && m < g.clusterSectors
    ensures |WithCluster(g, d, i, j, at, content).file| == at + g.ClusterWords()
    ensures SectorAt(g, WithCluster(g, d, i, j, at, content), at, m) == Part(content, m, g.clusterSectors)
  {
    var n := WithCluster(g, d, i, j, at, content);
    SectorFits(m, g.clusterSectors);
    ClusterWordAt(g, d, i, j, at, content, 0);
    hide WithCluster, TablesOk;
    var a, b := SectorAt(g, n, at, m), Part(content, m, g.clusterSectors);
    forall x | 0 <= x < SECTOR ensures a[x] == b[x] { ClusterWordAt(g, d, i, j, at, content, at + m * SECTOR + x); }
  }

  lemma OldSectorAt(g: Geometry, d: Disk, i: nat, j: nat, at: nat, content: Words, k: nat, l: nat, m: nat)
    requires Sound(g, d) && Slot(g, i, j) && d.l1[i] != 0 && at >= |d.file| && m < g.clusterSectors
    requires Mapped(g, d, k, l)
    ensures Entry(g, d, k, l) + g.ClusterWords() <= |d.file| <= |WithCluster(g, d, i, j, at, content).file|
    ensures SectorAt(g, WithCluster(g, d, i, j, at, content), Entry(g, d, k, l), m) == SectorAt(g, d, Entry(g, d, k, l), m)
  {
    var n := WithCluster(g, d, i, j, at, content);
    var e := Entry(g, d, k, l);
    MappedInFile(g, d, k, l);
    assert Apart(e, g.ClusterWords(), d.l1[i], g.l2Size);
    SectorFits(m, g.clusterSectors);
    ClusterWordAt(g, d, i, j, at, content, 0);
    hide WithCluster, TablesOk, Sound, Entry;
    var a, b := SectorAt(g, n, e, m), SectorAt(g, d, e, m);
    forall x | 0 <= x < SECTOR ensures a[x] == b[x] { ClusterWordAt(g, d, i, j, at, content, e + m * SECTOR + x); }
  }

  /** Sector k of the words of a cluster. */
  function Part(content: Words, k: nat, n: nat): Sector
    requires k < n && |content| == n * SECTOR
  {
    SectorFits(k, n);
    content[k * SECTOR..k * SECTOR + SECTOR]
  }

  lemma WordsAt(d: Disk, at: nat, data: Words, x: nat)
    requires at + |data| <= |d.file|
    ensures var f := WithWords(d, at, data).file;
      |f| == |d.file| && (x < |f| ==> f[x] == if at <= x < at + |data| then data[x - at] else d.file[x])
  {
  }

  /** Writing inside one mapped cluster leaves all tables as they are. */
  lemma WordsSound(g: Geometry, d: Disk, i: nat, j: nat, k: nat, data: Words)
    requires Sound(g, d) && Mapped(g, d, i, j) && k * SECTOR + |data| <= g.ClusterWords()
    ensures Entry(g, d, i, j) + k * SECTOR + |data| <= |d.file|
    ensures var n := WithWords(d, Entry(g, d, i, j) + k * SECTOR, data); Sound(g, n) && SameEntries(g, d, n)
  {
    MappedInFile(g, d, i, j);
    var at := Entry(g, d, i, j) + k * SECTOR;
    var n := WithWords(d, at, data);
    WordsAt(d, at, data, 0);
    assert n.l1 == d.l1;
    hide WithWords;
    forall m: nat | m < g.l1Size ensures n.file[g.l1Offset + m] == n.l1[m] { WordsAt(d, at, data, g.l1Offset + m); }
    forall m: nat, o: nat | Slot(g, m, o)
      ensures n.l1[m] != 0 ==> InFile(g, n, n.l1[m], g.l2Size)
      ensures Entry(g, n, m, o) == Entry(g, d, m, o)
    {
      if n.l1[m] != 0 {
        WordsAt(d, at, data, n.l1[m] + o);
        assert Apart(Entry(g, d, i, j), g.ClusterWords(), d.l1[m], g.l2Size);
      }
    }
    forall m: nat | m < g.l1Size && n.l1[m] != 0 ensures InFile(g, n, n.l1[m], g.l2Size) { assert Slot(g, m, 0); }
    SameEntriesSound(g, d, n);
  }

  lemma SameEntriesSound(g: Geometry, d: Disk, n: Disk)
    requires Sound(g, d) && SameEntries(g, d, n) && n.l1 == d.l1 && |n.file| == |d.file|
    ensures Sound(g, n)
  {
    hide Entry;
    forall k: nat, l: nat | Mapped(g, n, k, l) ensures Mapped(g, d, k, l) && ClusterOk(g, n, Entry(g, n, k, l)) {
      assert Mapped(g, d, k, l);
      MappedInFile(g, d, k, l);
    }
  }

  /** The guest sees the new words where they were written, and everything else as before. */
  lemma WordsView(g: Geometry, d: Disk, i: nat, j: nat, k: nat, data: seq<Sector>, s: nat)
    requires Sound(g, d) && Mapped(g, d, i, j) && k + |data| <= g.clusterSectors && L1Index(g, s) < g.l1Size
    requires Entry(g, d, i, j) + k * SECTOR + |Flat(data)| <= |d.file|
    requires var n := WithWords(d, Entry(g, d, i, j) + k * SECTOR, Flat(data)); Sound(g, n) && SameEntries(g, d, n)
    ensures CellOf(g, WithWords(d, Entry(g, d, i, j) + k * SECTOR, Flat(data)), s) ==
      if L1Index(g, s) == i && L2Index(g, s) == j && k <= InCluster(g, s) < k + |data| then Stored(data[InCluster(g, s) - k])
      else CellOf(g, d, s)
  {
    hide WithWords, Flat, L1Index, L2Index, InCluster, Sound, SectorAt;
    Positive(g, d);
    var n := WithWords(d, Entry(g, d, i, j) + k * SECTOR, Flat(data));
    var l, o, m := L1Index(g, s), L2Index(g, s), InCluster(g, s);
    SameEntryAt(g, d, n, l, o);
    if Entry(g, d, l, o) == 0 { return; }
    MappedInFile(g, d, l, o);
    SectorThere(g, d, i, j, k, data, l, o, m);
  }

  lemma Positive(g: Geometry, d: Disk)
    requires Sound(g, d)
    ensures g.Valid() && TablesOk(g, d)
  {
  }

  lemma SameEntryAt(g: Geometry, d: Disk, n: Disk, i: nat, j: nat)
    requires SameEntries(g, d, n) && Slot(g, i, j)
    ensures Entry(g, n, i, j) == Entry(g, d, i, j)
  {
  }

  lemma SectorThere(g: Geometry, d: Disk, i: nat, j: nat, k: nat, data: seq<Sector>, l: nat, o: nat, m: nat)
    requires Sound(g, d) && Mapped(g, d, i, j) && k + |data| <= g.clusterSectors && Mapped(g, d, l, o) && m < g.clusterSectors
    requires Entry(g, d, i, j) + k * SECTOR + |Flat(data)| <= |d.file|
    ensures Entry(g, d, l, o) + g.ClusterWords() <= |d.file|
    ensures SectorAt(g, WithWords(d, Entry(g, d, i, j) + k * SECTOR, Flat(data)), Entry(g, d, l, o), m) ==
      if l == i && o == j && k <= m < k + |data| then data[m - k] else SectorAt(g, d, Entry(g, d, l, o), m)
  {
    hide Sound, WithWords, Flat, SectorAt;
    var e, f := Entry(g, d, l, o), Entry(g, d, i, j);
    MappedInFile(g, d, l, o);
    FlatLength(data);
    SectorFits(m, g.clusterSectors);
    SectorFits2(k, |data|, g.clusterSectors);
    if l == i && o == j && k <= m < k + |data| {
      SectorWritten(g, d, e, k, data, m);
    } else {
      if l == i && o == j { Outside(k, |data|, m); } else { MappedApart(g, d, i, j, l, o); }
      SectorKept(g, d, f + k * SECTOR, Flat(data), e, m);
    }
  }

  lemma SectorKept(g: Geometry, d: Disk, at: nat, data: Words, e: nat, m: nat)
    requires m < g.clusterSectors && e + g.ClusterWords() <= |d.file| && at + |data| <= |d.file|
    requires Apart(at, |data|, e + m * SECTOR, SECTOR)
    ensures |WithWords(d, at, data).file| == |d.file| && SectorAt(g, WithWords(d, at, data), e, m) == SectorAt(g, d, e, m)
  {
    SectorFits(m, g.clusterSectors);
    WordsAt(d, at, data, 0);
    var a, b := SectorAt(g, WithWords(d, at, data), e, m), SectorAt(g, d, e, m);
    forall x | 0 <= x < SECTOR ensures a[x] == b[x] { WordsAt(d, at, data, e + m * SECTOR + x); }
  }

  lemma SectorWritten(g: Geometry, d: Disk, e: nat, k: nat, data: seq<Sector>, m: nat)
    requires k <= m < k + |data| && k + |data| <= g.clusterSectors && e + g.ClusterWords() <= |d.file|
    ensures e + k * SECTOR + |Flat(data)| <= |d.file|
    ensures |WithWords(d, e + k * SECTOR, Flat(data)).file| == |d.file|
    ensures SectorAt(g, WithWords(d, e + k * SECTOR, Flat(data)), e, m) == data[m - k]
  {
    FlatLength(data);
    SectorFits(m, g.clusterSectors);
    SectorFits2(k, |data|, g.clusterSectors);
    var at := e + k * SECTOR;
    WordsAt(d, at, Flat(data), 0);
    var a := SectorAt(g, WithWords(d, at, Flat(data)), e, m);
    forall x | 0 <= x < SECTOR ensures a[x] == data[m - k][x] {
      FlatAt(data, m - k, x);
      WordsAt(d, at, Flat(data), at + ((m - k) * SECTOR + x));
    }
  }

  lemma MappedApart(g: Geometry, d: Disk, i: nat, j: nat, k: nat, l: nat)
    requires Sound(g, d) && Mapped(g, d, i, j) && Mapped(g, d, k, l) && (i != k || j != l)
    ensures Apart(Entry(g, d, i, j), g.ClusterWords(), Entry(g, d, k, l), g.ClusterWords())
  {
  }

  /** The words of some sectors. */
  function Flat(data: seq<Sector>): Words {
    if data == [] then [] else data[0] + Flat(data[1..])
  }

  lemma {:induction false} FlatLength(data: seq<Sector>)
    ensures |Flat(data)| == |data| * SECTOR
  {
    if data != [] { FlatLength(data[1..]); }
  }

  lemma {:induction false} FlatAt(data: seq<Sector>, k: nat, x: nat)
    requires k < |data| && x < SECTOR
    ensures |Flat(data)| == |data| * SECTOR && k * SECTOR + x < |data| * SECTOR
    ensures Flat(data)[k * SECTOR + x] == data[k][x]
  {
    FlatLength(data);
    if k > 0 { FlatAt(data[1..], k - 1, x); }
  }

  lemma SectorFits2(k: nat, n: nat, m: nat)
    requires k + n <= m
    ensures k * SECTOR + n * SECTOR <= m * SECTOR
  {
  }

  lemma Outside(k: nat, n: nat, m: nat)
    requires !(k <= m < k + n)
    ensures m * SECTOR + SECTOR <= k * SECTOR || k * SECTOR + n * SECTOR <= m * SECTOR
  {
  }

  // ---------------------------------------------------------------------------------------
  // The driver

  /** The cluster that holds the end of the file, rounded up. */
  function RoundUp(n: nat, unit: nat): (r: nat)
    requires unit > 0
    ensures n <= r < n + unit && r % unit == 0
  {
    RoundUpFacts(n, unit);
    (n + unit - 1) / unit * unit
  }

  lemma RoundUpFacts(n: nat, unit: nat)
    requires unit > 0
    ensures (n + unit - 1) / unit * unit >= n && (n + unit - 1) / unit * unit % unit == 0
  {
    var q := (n + unit - 1) / unit;
    MultipleMod(q, unit);
  }

  lemma MultipleMod(q: nat, unit: nat)
    requires unit > 0
    ensures q * unit % unit == 0
  {
    G.DivModUnique(q * unit, unit, q, 0);
  }

  lemma SectorAligned(n: nat, sectors: nat)
    requires sectors > 0 && n % (sectors * SECTOR) == 0
    ensures n % SECTOR == 0
  {
    var q := n / (sectors * SECTOR);
    assert n == q * (sectors * SECTOR);
    assert q * (sectors * SECTOR) == (q * sectors) * SECTOR;
    MultipleMod(q * sectors, SECTOR);
  }

  /** The sixteen slots of the table cache: address (0 when unused), hit count and content of each. */
  datatype Cache = Cache(offsets: Words, counts: Words, tables: seq<Words>)

  ghost predicate CacheShape(c: Cache) {
    && |c.offsets| == |c.counts| == |c.tables| == CACHE_SLOTS
    && forall k :: 0 <= k < CACHE_SLOTS ==> c.counts[k] < MAX_HITS
  }

  ghost predicate HoldsTable(c: Cache, k: nat, file: Words, l2Size: nat)
    requires k < |c.offsets| && k < |c.tables|
  {
    c.offsets[k] + l2Size <= |file| && c.tables[k] == file[c.offsets[k]..c.offsets[k] + l2Size]
  }

  /** Used slots belong to different tables in use and hold what is in the file. */
  ghost predicate CacheSound(c: Cache, file: Words, l1: Words, l2Size: nat) {
    && CacheShape(c)
    && (forall k :: 0 <= k < CACHE_SLOTS && c.offsets[k] != 0 ==> c.offsets[k] in l1 && HoldsTable(c, k, file, l2Size))
    && forall k, l :: 0 <= k < l < CACHE_SLOTS && c.offsets[k] != 0 ==> c.offsets[k] != c.offsets[l]
  }

  lemma CacheLoad(c: Cache, file: Words, l1: Words, l2Size: nat, slot: nat, t: nat, table: Words)
    requires CacheSound(c, file, l1, l2Size) && slot < CACHE_SLOTS && t in l1 && t !in c.offsets && t != 0
    requires t + l2Size <= |file| && table == file[t..t + l2Size]
    ensures CacheSound(Cache(c.offsets[slot := t], c.counts[slot := 1], c.tables[slot := table]), file, l1, l2Size)
  {
    var n := Cache(c.offsets[slot := t], c.counts[slot := 1], c.tables[slot := table]);
    forall k | 0 <= k < CACHE_SLOTS && n.offsets[k] != 0 ensures n.offsets[k] in l1 && HoldsTable(n, k, file, l2Size) {
      if k != slot { assert HoldsTable(c, k, file, l2Size); }
    }
  }

  function Put(table: Words, j: nat, v: nat): Words
    requires j < |table|
  {
    table[j := v]
  }

  lemma CacheRecount(c: Cache, counts: Words, file: Words, l1: Words, l2Size: nat)
    requires CacheSound(c, file, l1, l2Size) && CacheShape(c.(counts := counts))
    ensures CacheSound(c.(counts := counts), file, l1, l2Size)
  {
    var n := c.(counts := counts);
    forall k | 0 <= k < CACHE_SLOTS && n.offsets[k] != 0 ensures HoldsTable(n, k, file, l2Size) { assert HoldsTable(c, k, file, l2Size); }
  }

  lemma ShapeOf(c: Cache, file: Words, l1: Words, l2Size: nat)
    requires CacheSound(c, file, l1, l2Size)
    ensures CacheShape(c)
  {
  }

  lemma TableCached(c: Cache, file: Words, l1: Words, l2Size: nat, slot: nat, t: nat)
    requires CacheSound(c, file, l1, l2Size) && slot < CACHE_SLOTS && c.offsets[slot] == t != 0
    ensures t + l2Size <= |file| && c.tables[slot] == file[t..t + l2Size]
  {
    assert HoldsTable(c, slot, file, l2Size);
  }

  /** A change outside the tables in use. */
  lemma CacheKeeps(g: Geometry, c: Cache, d: Disk, n: Disk)
    requires TablesOk(g, d) && CacheSound(c, d.file, d.l1, g.l2Size) && |n.file| >= |d.file|
    requires forall t :: t in d.l1 && t != 0 ==> t in n.l1
    requires forall t, x :: t in d.l1 && t != 0 && t <= x < t + g.l2Size && x < |d.file| ==> n.file[x] == d.file[x]
    ensures CacheSound(c, n.file, n.l1, g.l2Size)
  {
    forall k | 0 <= k < CACHE_SLOTS && c.offsets[k] != 0 ensures HoldsTable(c, k, n.file, g.l2Size) {
      assert HoldsTable(c, k, d.file, g.l2Size);
      var t := c.offsets[k];
      assert d.file[t..t + g.l2Size] == n.file[t..t + g.l2Size];
    }
  }

  lemma CacheTable(g: Geometry, c: Cache, d: Disk, i: nat, at: nat)
    requires g.Valid() && TablesOk(g, d) && CacheSound(c, d.file, d.l1, g.l2Size) && i < g.l1Size && d.l1[i] == 0 && at >= |d.file|
    ensures var n := WithTable(g, d, i, at); CacheSound(c, n.file, n.l1, g.l2Size)
    ensures at !in c.offsets && at != 0
    ensures var n := WithTable(g, d, i, at); at in n.l1 && at + g.l2Size <= |n.file| && n.file[at..at + g.l2Size] == Zeros(g.l2Size)
  {
    var n := WithTable(g, d, i, at);
    assert n.l1[i] == at;
    forall t | t in d.l1 && t != 0 ensures t in n.l1 && g.First() <= t {
      var k :| 0 <= k < |d.l1| && d.l1[k] == t;
      assert n.l1[k] == t;
    }
    forall k | 0 <= k < CACHE_SLOTS ensures c.offsets[k] != at {
      if c.offsets[k] != 0 { assert HoldsTable(c, k, d.file, g.l2Size); }
    }
    CacheKeeps(g, c, d, n);
  }

  function NoTables(): (t: seq<Words>)
    ensures |t| == CACHE_SLOTS
  {
    seq(CACHE_SLOTS, _ => [])
  }

  lemma EmptySound(g: Geometry, c: Cache)
    requires g.Valid() && c == Cache(Zeros(CACHE_SLOTS), Zeros(CACHE_SLOTS), NoTables())
    ensures Sound(g, Disk(Zeros(g.First()), Zeros(g.l1Size)))
    ensures CacheSound(c, Zeros(g.First()), Zeros(g.l1Size), g.l2Size)
    ensures forall x: nat :: L1Index(g, x) < g.l1Size ==>
      ViewSector(g, Disk(Zeros(g.First()), Zeros(g.l1Size)), x) == g.Backing(x)
  {
    EmptyFile(g, Disk(Zeros(g.First()), Zeros(g.l1Size)), c);
  }

  lemma EmptyFile(g: Geometry, d: Disk, c: Cache)
    requires g.Valid() && c == Cache(Zeros(CACHE_SLOTS), Zeros(CACHE_SLOTS), NoTables())
    requires |d.file| == g.First() && d.l1 == Zeros(g.l1Size) && d.file[g.l1Offset..] == d.l1
    ensures Sound(g, d) && CacheSound(c, d.file, d.l1, g.l2Size)
    ensures forall x: nat :: L1Index(g, x) < g.l1Size ==> ViewSector(g, d, x) == g.Backing(x)
  {
    hide L1Index, L2Index;
    forall i | 0 <= i < g.l1Size ensures d.file[g.l1Offset + i] == d.l1[i] { assert d.file[g.l1Offset..][i] == d.l1[i]; }
  }

  class Driver {
    const g: Geometry
    var file: Words
    var l1Table: Words
    var cacheOffsets: Words
    var cacheCounts: Words
    var cache: seq<Words>

    ghost function Now(): Disk
      reads this
    {
      Disk(file, l1Table)
    }

    ghost function CacheNow(): Cache
      reads this
    {
      Cache(cacheOffsets, cacheCounts, cache)
    }

    ghost predicate Valid()
      reads this
    {
      Sound(g, Now()) && CacheSound(CacheNow(), file, l1Table, g.l2Size)
    }

    /** A new image: header, an empty L1 table and nothing else. */
    constructor Create(geometry: Geometry)
      requires geometry.Valid()
      ensures Valid() && g == geometry && l1Table == Zeros(g.l1Size)
      ensures forall x: nat :: L1Index(g, x) < g.l1Size ==> ViewSector(g, Now(), x) == g.Backing(x)
    {
      g := geometry;
      file := Zeros(geometry.First());
      l1Table := Zeros(geometry.l1Size);
      cacheOffsets, cacheCounts, cache := Zeros(CACHE_SLOTS), Zeros(CACHE_SLOTS), NoTables();
      new;
      EmptySound(g, CacheNow());
    }

    /** Forgets everything that was written: an empty L1 table, and the file cut off behind it. */
    method MakeEmpty()
      requires Valid()
      modifies this
      ensures Valid() && |file| == g.First() && l1Table == Zeros(g.l1Size)
      ensures forall x: nat :: L1Index(g, x) < g.l1Size ==> ViewSector(g, Now(), x) == g.Backing(x)
    {
      l1Table := Zeros(g.l1Size);
      file := file[..g.l1Offset] + l1Table;
      cacheOffsets, cacheCounts, cache := Zeros(CACHE_SLOTS), Zeros(CACHE_SLOTS), NoTables();
      EmptyFile(g, Now(), CacheNow());
    }

    /** Looks a table up and counts the hit; all counters are halved before one can overflow. */
    method Seek(t: nat) returns (slot: int)
      requires CacheShape(CacheNow())
      modifies this`cacheCounts
      ensures CacheShape(CacheNow())
      ensures slot < 0 ==> slot == -1 && t !in cacheOffsets
      ensures slot >= 0 ==> slot < CACHE_SLOTS && cacheOffsets[slot] == t
    {
      for i := 0 to CACHE_SLOTS
        invariant forall k :: 0 <= k < i ==> cacheOffsets[k] != t
        invariant cacheCounts == old(cacheCounts)
      {
        if t == cacheOffsets[i] {
          cacheCounts := cacheCounts[i := cacheCounts[i] + 1];
          if cacheCounts[i] == MAX_HITS {
            cacheCounts := seq(CACHE_SLOTS, k requires 0 <= k < CACHE_SLOTS && |cacheCounts| == CACHE_SLOTS reads this =>
              cacheCounts[k] / 2);
          }
          return i;
        }
      }
      return -1;
    }

    /** The slot with the smallest hit count, the first of these. */
    method LeastUsed() returns (slot: nat)
      requires |cacheCounts| == CACHE_SLOTS && forall k :: 0 <= k < CACHE_SLOTS ==> cacheCounts[k] < MAX_HITS
      ensures slot < CACHE_SLOTS && forall k :: 0 <= k < CACHE_SLOTS ==> cacheCounts[slot] <= cacheCounts[k]
      ensures forall k :: 0 <= k < slot ==> cacheCounts[slot] < cacheCounts[k]
    {
      slot := 0;
      var least := MAX_HITS;
      for i := 0 to CACHE_SLOTS
        invariant slot < CACHE_SLOTS && (i > 0 ==> slot < i && least == cacheCounts[slot])
        invariant i == 0 ==> least == MAX_HITS && slot == 0
        invariant forall k :: 0 <= k < i ==> least <= cacheCounts[k]
        invariant forall k :: 0 <= k < slot ==> least < cacheCounts[k]
      {
        if cacheCounts[i] < least {
          least := cacheCounts[i];
          slot := i;
        }
      }
    }

    /** The cached table of L1 entry i; with allocate a missing one is added at the end of the file. */
    method GetTable(i: nat, allocate: bool) returns (slot: nat, t: nat)
      requires Valid() && i < g.l1Size
      modifies this
      ensures Valid() && |file| >= |old(file)| && SameEntries(g, old(Now()), Now())
      ensures t == l1Table[i] && (t == 0 <==> old(l1Table)[i] == 0 && !allocate)
      ensures t != 0 ==> slot < CACHE_SLOTS && cacheOffsets[slot] == t
      ensures !allocate ==> file == old(file) && l1Table == old(l1Table)
      ensures SameCells(g, old(Now()), Now())
    {
      hide Sound, ViewSector, CellOf, SameEntries, Entry, CacheSound;
      ghost var before := Now();
      Positive(g, before);
      NothingChanged(g, before);
      t, slot := l1Table[i], 0;
      if t == 0 {
        if allocate { slot, t := AddTable(i); }
        return;
      }
      slot := LoadTable(t);
    }

    method LoadTable(t: nat) returns (slot: nat)
      requires CacheSound(CacheNow(), file, l1Table, g.l2Size) && t in l1Table && t != 0 && t + g.l2Size <= |file|
      modifies this`cacheOffsets, this`cacheCounts, this`cache
      ensures CacheSound(CacheNow(), file, l1Table, g.l2Size) && slot < CACHE_SLOTS && cacheOffsets[slot] == t
    {
      hide CacheSound;
      ghost var cached := CacheNow();
      ShapeOf(cached, file, l1Table, g.l2Size);
      var found := Seek(t);
      CacheRecount(cached, cacheCounts, file, l1Table, g.l2Size);
      if found >= 0 { return found; }
      slot := LeastUsed();
      CacheLoad(CacheNow(), file, l1Table, g.l2Size, slot, t, file[t..t + g.l2Size]);
      cache := cache[slot := file[t..t + g.l2Size]];
      cacheOffsets := cacheOffsets[slot := t];
      cacheCounts := cacheCounts[slot := 1];
    }

    /** A new L2 table at the end of the file: the L1 entry first, in memory and in the file, then the empty table. */
    method AddTable(i: nat) returns (slot: nat, t: nat)
      requires Valid() && i < g.l1Size && l1Table[i] == 0
      modifies this
      ensures Valid() && |file| >= |old(file)| && SameEntries(g, old(Now()), Now())
      ensures t == l1Table[i] != 0 && slot < CACHE_SLOTS && cacheOffsets[slot] == t
      ensures SameCells(g, old(Now()), Now())
    {
      hide Sound, ViewSector, CellOf, SameEntries, Entry, CacheSound, WithTable;
      ghost var before := Now();
      Positive(g, before);
      t := RoundUp(|file|, g.ClusterWords());
      TableSound(g, before, i, t);
      TableEntries(g, before, i, t);
      TableFile(g, before, i, t);
      CacheTable(g, CacheNow(), before, i, t);
      l1Table := l1Table[i := t];
      file := file[g.l1Offset + i := t];
      ghost var cached := CacheNow();
      ShapeOf(cached, before.file, before.l1, g.l2Size);
      var found := Seek(t);
      assert found < 0;
      slot := LeastUsed();
      file := file + Zeros(t - |file|) + Zeros(g.l2Size);
      assert Now() == WithTable(g, before, i, t);
      CacheRecount(cached, cacheCounts, file, l1Table, g.l2Size);
      CacheLoad(CacheNow(), file, l1Table, g.l2Size, slot, t, Zeros(g.l2Size));
      cache := cache[slot := Zeros(g.l2Size)];
      cacheOffsets := cacheOffsets[slot := t];
      cacheCounts := cacheCounts[slot := 1];
    }

    /** Sectors of a new cluster of an encrypted image that the write leaves out: encrypted zeros. */
    method InitSectors(e: nat, start: nat, nStart: nat, nEnd: nat)
      requires g.Valid() && |file| == e + g.ClusterWords() && g.cipher.on
      modifies this`file
      ensures |file| == |old(file)| && file[..e] == old(file)[..e]
      ensures InitOk(g, file[e..], start, nStart, nEnd)
    {
      hide WithWords, SectorAt, Geometry.Valid, Cipher.Encode;
      ghost var l1 := l1Table;
      for i := 0 to g.clusterSectors
        invariant |file| == |old(file)| && file[..e] == old(file)[..e]
        invariant forall k: nat :: k < i && !(nStart <= k < nEnd) ==>
          SectorAt(g, Disk(file, l1), e, k) == g.cipher.Encode(start + k, Zeros(SECTOR))
      {
        if i < nStart || i >= nEnd {
          var data := g.cipher.Encode(start + i, Zeros(SECTOR));
          SectorFits(i, g.clusterSectors);
          ghost var d := Disk(file, l1);
          OneSector(data);
          SectorWritten(g, d, e, i, [data], i);
          forall k: nat | k < i ensures SectorAt(g, WithWords(d, e + i * SECTOR, data), e, k) == SectorAt(g, d, e, k) {
            SectorKept(g, d, e + i * SECTOR, data, e, k);
          }
          WordsFile(d, e + i * SECTOR, data, e);
          file := file[..e + i * SECTOR] + data + file[e + i * SECTOR + SECTOR..];
          assert Disk(file, l1) == WithWords(d, e + i * SECTOR, data);
          assert SectorAt(g, Disk(file, l1), e, i) == data;
          assert forall k: nat :: k < i ==> SectorAt(g, Disk(file, l1), e, k) == SectorAt(g, d, e, k);
        }
      }
      Initialised(g, file, l1, e, start, nStart, nEnd);
    }

    /** A new cluster at the end of the file for guest sector s, named in the cached table and in the file. */
    method NewCluster(s: nat, slot: nat, nStart: nat, nEnd: nat) returns (e: nat)
      requires Valid() && L1Index(g, s) < g.l1Size && l1Table[L1Index(g, s)] != 0
      requires slot < CACHE_SLOTS && cacheOffsets[slot] == l1Table[L1Index(g, s)]
      requires Entry(g, Now(), L1Index(g, s), L2Index(g, s)) == 0 && nStart < nEnd <= g.clusterSectors
      modifies this
      ensures Valid() && l1Table == old(l1Table)
      ensures Placed(g, old(Now()), Now(), s, e, nStart, nEnd)
    {
      hide Sound, ViewSector, CellOf, Entry, CacheSound, WithCluster, InitOk, L1Index, L2Index, InCluster, Base, RoundUp, Placed, Zeros, Part, CacheShape;
      ghost var before := Now();
      ghost var cached := CacheNow();
      Positive(g, before);
      ShapeOf(cached, file, l1Table, g.l2Size);
      var i, j := L1Index(g, s), L2Index(g, s);
      var t := l1Table[i];
      e := RoundUp(|file|, g.ClusterWords());
      SectorAligned(e, g.clusterSectors);
      file := file + Zeros(e - |file|) + Zeros(g.ClusterWords());
      ghost var base := file[..e];
      if g.cipher.on && nEnd - nStart < g.clusterSectors {
        InitSectors(e, Base(g, s), nStart, nEnd);
      } else {
        PlainContent(g, Base(g, s), nStart, nEnd);
        assert file[e..] == Zeros(g.ClusterWords());
      }
      ghost var content := file[e..];
      assert file == base + content;
      TableCached(cached, before.file, before.l1, g.l2Size, slot, t);
      cache := cache[slot := Put(cache[slot], j, e)];
      file := file[t + j := e];
      ClusterFile(g, before, i, j, e, content);
      assert Now() == WithCluster(g, before, i, j, e, content);
      ClusterSound(g, before, i, j, e, content);
      CacheCluster(g, cached, before, i, j, e, content, slot);
      ClusterPlaced(g, before, s, e, content, nStart, nEnd);
    }

    /** Where the cluster of guest sector s is, 0 if it has none; with allocate it gets one. */
    method GetClusterOffset(s: nat, allocate: bool, nStart: nat, nEnd: nat) returns (e: nat)
      requires Valid() && L1Index(g, s) < g.l1Size && (allocate ==> nStart < nEnd <= g.clusterSectors)
      modifies this
      ensures Valid() && e == Entry(g, Now(), L1Index(g, s), L2Index(g, s)) && (allocate ==> e != 0)
      ensures !allocate ==> file == old(file) && l1Table == old(l1Table)
      ensures old(Entry(g, Now(), L1Index(g, s), L2Index(g, s))) != 0 ==>
        SameEntries(g, old(Now()), Now()) && SameCells(g, old(Now()), Now())
      ensures allocate && old(Entry(g, Now(), L1Index(g, s), L2Index(g, s))) == 0 ==>
        Placed(g, old(Now()), Now(), s, e, nStart, nEnd)
    {
      hide Sound, ViewSector, CellOf, Entry, CacheSound, SameEntries, Placed, L1Index, L2Index;
      ghost var before := Now();
      Positive(g, before);
      var slot, t := GetTable(L1Index(g, s), allocate);
      ghost var middle := Now();
      SameEntryAt(g, before, middle, L1Index(g, s), L2Index(g, s));
      if t == 0 {
        NoTable(g, middle, L1Index(g, s), L2Index(g, s));
        return 0;
      }
      Positive(g, middle);
      ShapeOf(CacheNow(), file, l1Table, g.l2Size);
      TableCached(CacheNow(), file, l1Table, g.l2Size, slot, t);
      EntryIs(g, middle, L1Index(g, s), L2Index(g, s));
      e := cache[slot][L2Index(g, s)];
      if e == 0 && allocate {
        e := NewCluster(s, slot, nStart, nEnd);
        PlacedAfter(g, before, middle, Now(), s, e, nStart, nEnd);
        PlacedAt(g, before, Now(), s, e, nStart, nEnd);
      }
    }

    /** Sectors that all lie in one guest cluster. */
    method WriteRun(s: nat, data: seq<Sector>)
      requires Valid() && data != [] && L1Index(g, s) < g.l1Size && InCluster(g, s) + |data| <= g.clusterSectors
      modifies this
      ensures Valid() && Wrote(g, old(Now()), Now(), s, data)
    {
      hide Sound, ViewSector, CellOf, Entry, CacheSound, Placed, Wrote, L1Index, L2Index, InCluster, WithWords, SameEntries, Flat;
      ghost var before := Now();
      var k := InCluster(g, s);
      Positive(g, before);
      var e := GetClusterOffset(s, true, k, k + |data|);
      ghost var middle := Now();
      var words := Flat(EncodeRun(g, s, data));
      Positive(g, middle);
      MappedNow(g, middle, L1Index(g, s), L2Index(g, s), k, EncodeRun(g, s, data));
      WordsSound(g, middle, L1Index(g, s), L2Index(g, s), k, words);
      WordsFile(middle, e + k * SECTOR, words, 0);
      CacheWords(g, CacheNow(), middle, L1Index(g, s), L2Index(g, s), k, words);
      file := file[..e + k * SECTOR] + words + file[e + k * SECTOR + |words|..];
      assert Now() == WithWords(middle, e + k * SECTOR, words);
      WroteRun(g, before, middle, s, data, e);
    }

    /** The write of a guest, cluster by cluster. */
    method QcowWrite(s: nat, buf: seq<Sector>)
      requires Valid() && (buf != [] ==> L1Index(g, s + |buf| - 1) < g.l1Size)
      modifies this
      ensures Valid() && Wrote(g, old(Now()), Now(), s, buf)
    {
      hide Sound, ViewSector, CellOf, Entry, CacheSound, Wrote, L1Index, L2Index;
      ghost var before := Now();
      Positive(g, before);
      WroteNothing(g, before, s);
      var done := 0;
      while done < |buf|
        invariant done <= |buf| && Valid() && Wrote(g, before, Now(), s, buf[..done])
        invariant done == 0 || done == |buf| || InCluster(g, s + done) == 0
      {
        var n := g.clusterSectors - InCluster(g, s + done);
        if n > |buf| - done { n := |buf| - done; }
        InDisk(g, s + done, s + |buf| - 1);
        ghost var middle := Now();
        WriteRun(s + done, buf[done..done + n]);
        assert buf[..done] + buf[done..done + n] == buf[..done + n];
        WroteJoin(g, before, middle, Now(), s, buf[..done], buf[done..done + n]);
        NextCluster(g, s + done, n);
        done := done + n;
      }
      assert buf[..|buf|] == buf;
    }

    /** The read of a guest, cluster by cluster. */
    method QcowRead(s: nat, n: nat) returns (buf: seq<Sector>)
      requires Valid() && (n > 0 ==> L1Index(g, s + n - 1) < g.l1Size)
      modifies this
      ensures Valid() && Now() == old(Now()) && |buf| == n && Shows(g, Now(), s, buf) && Reads(g, Now(), s, buf)
    {
      hide Sound, Entry, CacheSound, L1Index, L2Index, Shows, Reads, ReadAt, CellOf;
      Positive(g, Now());
      buf := [];
      ShowsNothing(g, Now(), s);
      while |buf| < n
        invariant |buf| <= n && Valid() && Now() == old(Now()) && Shows(g, Now(), s, buf)
      {
        var at := s + |buf|;
        var m := g.clusterSectors - InCluster(g, at);
        if m > n - |buf| { m := n - |buf|; }
        InDisk(g, at, s + n - 1);
        var e := GetClusterOffset(at, false, 0, 0);
        var part := ReadRun(at, m, e);
        ShowsJoin(g, Now(), s, buf, part);
        buf := buf + part;
      }
      ShowsReads(g, Now(), s, buf);
    }

    /** Sectors of one cluster: from the file, else from the backing disk, else zeros. */
    method ReadRun(s: nat, n: nat, e: nat) returns (part: seq<Sector>)
      requires Valid() && L1Index(g, s) < g.l1Size && InCluster(g, s) + n <= g.clusterSectors
      requires e == Entry(g, Now(), L1Index(g, s), L2Index(g, s))
      ensures |part| == n && Shows(g, Now(), s, part)
    {
      hide Sound, Entry, CacheSound, L1Index, L2Index, Shows, InCluster, SectorAt;
      Positive(g, Now());
      part := [];
      ShowsNothing(g, Now(), s);
      for i := 0 to n
        invariant |part| == i && Shows(g, Now(), s, part)
      {
        RunSector(g, Now(), s, i);
        var data;
        if e == 0 {
          data := g.Backing(s + i);
        } else {
          data := g.cipher.Decode(s + i, SectorAt(g, Disk(file, l1Table), e, InCluster(g, s) + i));
        }
        ShowsOne(g, Now(), s + i, data);
        ShowsJoin(g, Now(), s, part, [data]);
        part := part + [data];
      }
    }
  }

  // ---------------------------------------------------------------------------------------
  // Reading

  ghost predicate ShowsAt(g: Geometry, d: Disk, x: nat, data: Sector) {
    Sound(g, d) && L1Index(g, x) < g.l1Size && data == ViewSector(g, d, x)
  }

  /** What a guest reads in sector x: what the file has there, decrypted when the image is encrypted; where the file has
      nothing, the backing disk, and zeros behind its end. */
  ghost predicate ReadAt(g: Geometry, d: Disk, x: nat, data: Sector) {
    && Sound(g, d) && L1Index(g, x) < g.l1Size
    && match CellOf(g, d, x)
       case Stored(c) => data == if g.cipher.on then g.cipher.dec(x, c) else c
       case Hole => data == if x < |g.backing| then g.backing[x] else seq(SECTOR, _ => 0)
  }

  ghost predicate Reads(g: Geometry, d: Disk, s: nat, buf: seq<Sector>) {
    forall i: nat :: i < |buf| ==> ReadAt(g, d, s + i, buf[i])
  }

  lemma ShowsReads(g: Geometry, d: Disk, s: nat, buf: seq<Sector>)
    requires Shows(g, d, s, buf)
    ensures Reads(g, d, s, buf)
  {
    hide Sound, L1Index, CellOf;
    forall i: nat | i < |buf| ensures ReadAt(g, d, s + i, buf[i]) { assert ShowsAt(g, d, s + i, buf[i]); }
  }

  /** The guest sees buf in the sectors from s on. */
  ghost predicate Shows(g: Geometry, d: Disk, s: nat, buf: seq<Sector>) {
    forall x: nat :: x < |buf| ==> ShowsAt(g, d, s + x, buf[x])
  }

  lemma ShowsNothing(g: Geometry, d: Disk, s: nat)
    ensures Shows(g, d, s, [])
  {
  }

  lemma ShowsOne(g: Geometry, d: Disk, s: nat, data: Sector)
    requires ShowsAt(g, d, s, data)
    ensures Shows(g, d, s, [data])
  {
  }

  lemma ShowsJoin(g: Geometry, d: Disk, s: nat, a: seq<Sector>, b: seq<Sector>)
    requires Shows(g, d, s, a) && Shows(g, d, s + |a|, b)
    ensures Shows(g, d, s, a + b)
  {
    hide ShowsAt;
    forall x: nat | x < |a + b| ensures ShowsAt(g, d, s + x, (a + b)[x]) {
      if x >= |a| { assert ShowsAt(g, d, s + |a| + (x - |a|), b[x - |a|]); }
    }
  }

  lemma RunSector(g: Geometry, d: Disk, s: nat, i: nat)
    requires Sound(g, d) && L1Index(g, s) < g.l1Size && InCluster(g, s) + i < g.clusterSectors
    ensures var e := Entry(g, d, L1Index(g, s), L2Index(g, s));
      if e == 0 then ShowsAt(g, d, s + i, g.Backing(s + i))
      else e + g.ClusterWords() <= |d.file| && ShowsAt(g, d, s + i, g.cipher.Decode(s + i, SectorAt(g, d, e, InCluster(g, s) + i)))
  {
    Positive(g, d);
    InRun(g, s, i);
    if Entry(g, d, L1Index(g, s), L2Index(g, s)) != 0 { MappedInFile(g, d, L1Index(g, s), L2Index(g, s)); }
  }

  // ---------------------------------------------------------------------------------------
  // Writing

  function EncodeRun(g: Geometry, s: nat, data: seq<Sector>): (r: seq<Sector>)
    ensures |r| == |data|
  {
    seq(|data|, i requires 0 <= i < |data| => g.cipher.Encode(s + i, data[i]))
  }

  /** One of n sectors from s on is in the cluster of x. */
  predicate Reached(g: Geometry, x: nat, s: nat, n: nat)
    requires g.clusterSectors > 0
  {
    n > 0 && Base(g, x) < s + n && s < Base(g, x) + g.clusterSectors
  }

  ghost function EntryOf(g: Geometry, d: Disk, x: nat): nat
    requires Sound(g, d) && L1Index(g, x) < g.l1Size
  {
    Entry(g, d, L1Index(g, x), L2Index(g, x))
  }

  /** A write: its sectors show the data, the rest of clusters it had to allocate shows zeros, and nothing else has changed. */
  ghost predicate Wrote(g: Geometry, d: Disk, n: Disk, s: nat, data: seq<Sector>) {
    && Sound(g, d) && Sound(g, n)
    && (forall x: nat :: L1Index(g, x) < g.l1Size ==> CellOf(g, n, x) == WrittenCell(g, d, s, data, x))
    && forall x: nat :: L1Index(g, x) < g.l1Size && !Reached(g, x, s, |data|) ==> EntryOf(g, n, x) == EntryOf(g, d, x)
  }

  ghost function Written(g: Geometry, d: Disk, s: nat, data: seq<Sector>, x: nat): Sector
    requires Sound(g, d) && L1Index(g, x) < g.l1Size
  {
    if s <= x < s + |data| then data[x - s]
    else if Reached(g, x, s, |data|) && EntryOf(g, d, x) == 0 then Zeros(SECTOR)
    else ViewSector(g, d, x)
  }

  /** The same as it is stored: encrypted with the number of the sector when the image is encrypted. */
  ghost function WrittenCell(g: Geometry, d: Disk, s: nat, data: seq<Sector>, x: nat): Cell
    requires Sound(g, d) && L1Index(g, x) < g.l1Size
  {
    if s <= x < s + |data| then Stored(if g.cipher.on then g.cipher.enc(x, data[x - s]) else data[x - s])
    else if Reached(g, x, s, |data|) && EntryOf(g, d, x) == 0 then
      Stored(if g.cipher.on then g.cipher.enc(x, Zeros(SECTOR)) else Zeros(SECTOR))
    else CellOf(g, d, x)
  }

  /** What the guest sees after a write. */
  lemma WroteView(g: Geometry, d: Disk, n: Disk, s: nat, data: seq<Sector>)
    requires Wrote(g, d, n, s, data)
    ensures forall x: nat :: L1Index(g, x) < g.l1Size ==> ViewSector(g, n, x) == Written(g, d, s, data, x)
  {
    Positive(g, d);
    hide Sound, L1Index, L2Index, Entry, Reached, Zeros, CellOf;
  }

  lemma WroteNothing(g: Geometry, d: Disk, s: nat)
    requires Sound(g, d)
    ensures Wrote(g, d, d, s, [])
  {
  }

  lemma InDisk(g: Geometry, x: nat, y: nat)
    requires g.clusterSectors > 0 && g.l2Size > 0 && x <= y
    ensures L1Index(g, x) <= L1Index(g, y)
  {
    G.DivMonotone(x, y, g.clusterSectors);
    G.DivMonotone(x / g.clusterSectors, y / g.clusterSectors, g.l2Size);
  }

  /** The other sectors of the cluster of s. */
  lemma InRun(g: Geometry, s: nat, i: nat)
    requires g.clusterSectors > 0 && g.l2Size > 0 && InCluster(g, s) + i < g.clusterSectors
    ensures SameCluster(g, s + i, s) && InCluster(g, s + i) == InCluster(g, s) + i
  {
    G.DivModUnique(s + i, g.clusterSectors, s / g.clusterSectors, InCluster(g, s) + i);
  }

  lemma NextCluster(g: Geometry, s: nat, n: nat)
    requires g.clusterSectors > 0 && InCluster(g, s) + n <= g.clusterSectors
    ensures InCluster(g, s) + n == g.clusterSectors ==> InCluster(g, s + n) == 0
  {
    if InCluster(g, s) + n == g.clusterSectors {
      G.Distribute(s / g.clusterSectors, 1, g.clusterSectors);
      G.DivModUnique(s + n, g.clusterSectors, s / g.clusterSectors + 1, 0);
    }
  }

  /** A write inside one cluster reaches the sectors of that cluster and no others. */
  lemma ReachedIs(g: Geometry, x: nat, s: nat, n: nat)
    requires g.clusterSectors > 0 && g.l2Size > 0 && n > 0 && InCluster(g, s) + n <= g.clusterSectors
    ensures Reached(g, x, s, n) <==> SameCluster(g, x, s)
  {
    var b := g.clusterSectors;
    var p, q := x / b, s / b;
    assert Base(g, x) == p * b && Base(g, s) == q * b;
    G.MulBound(p - q, b);
    assert (p - q) * b == p * b - q * b;
    if SameCluster(g, x, s) { DivModSame(p, q, g.l2Size); }
  }

  lemma MappedNow(g: Geometry, d: Disk, i: nat, j: nat, k: nat, data: seq<Sector>)
    requires TablesOk(g, d) && Slot(g, i, j) && Entry(g, d, i, j) != 0 && k + |data| <= g.clusterSectors
    ensures Mapped(g, d, i, j) && k * SECTOR + |Flat(data)| <= g.ClusterWords()
  {
    FlatLength(data);
    SectorFits2(k, |data|, g.clusterSectors);
  }

  lemma CacheWords(g: Geometry, c: Cache, d: Disk, i: nat, j: nat, k: nat, data: Words)
    requires Sound(g, d) && Mapped(g, d, i, j) && CacheSound(c, d.file, d.l1, g.l2Size)
    requires k * SECTOR + |data| <= g.ClusterWords() && Entry(g, d, i, j) + k * SECTOR + |data| <= |d.file|
    ensures var n := WithWords(d, Entry(g, d, i, j) + k * SECTOR, data); CacheSound(c, n.file, n.l1, g.l2Size)
  {
    var at := Entry(g, d, i, j) + k * SECTOR;
    var n := WithWords(d, at, data);
    WordsAt(d, at, data, 0);
    forall t, x | t in d.l1 && t != 0 && t <= x < t + g.l2Size && x < |d.file| ensures n.file[x] == d.file[x] {
      var m :| 0 <= m < |d.l1| && d.l1[m] == t;
      assert Apart(Entry(g, d, i, j), g.ClusterWords(), d.l1[m], g.l2Size);
      WordsAt(d, at, data, x);
    }
    CacheKeeps(g, c, d, n);
  }

  lemma WroteRun(g: Geometry, d: Disk, m: Disk, s: nat, data: seq<Sector>, e: nat)
    requires Sound(g, d) && Sound(g, m) && data != [] && L1Index(g, s) < g.l1Size && InCluster(g, s) + |data| <= g.clusterSectors
    requires e == EntryOf(g, m, s) != 0 && e + InCluster(g, s) * SECTOR + |Flat(EncodeRun(g, s, data))| <= |m.file|
    requires EntryOf(g, d, s) != 0 ==>
      SameEntries(g, d, m) && SameCells(g, d, m)
    requires EntryOf(g, d, s) == 0 ==> Placed(g, d, m, s, e, InCluster(g, s), InCluster(g, s) + |data|)
    requires var n := WithWords(m, e + InCluster(g, s) * SECTOR, Flat(EncodeRun(g, s, data))); Sound(g, n) && SameEntries(g, m, n)
    ensures Wrote(g, d, WithWords(m, e + InCluster(g, s) * SECTOR, Flat(EncodeRun(g, s, data))), s, data)
  {
    hide Sound, ViewSector, CellOf, Entry, L1Index, L2Index, InCluster, Base, WithWords, Flat, Reached, Zeros, Written, EncodeRun, Placed,
         SameEntries, TablesOk, Mapped;
    Positive(g, d);
    MappedEntry(g, m, s);
    var k, run := InCluster(g, s), EncodeRun(g, s, data);
    var n := WithWords(m, e + k * SECTOR, Flat(run));
    forall x: nat | L1Index(g, x) < g.l1Size
      ensures CellOf(g, n, x) == WrittenCell(g, d, s, data, x)
      ensures !Reached(g, x, s, |data|) ==> EntryOf(g, n, x) == EntryOf(g, d, x)
    {
      WordsView(g, m, L1Index(g, s), L2Index(g, s), k, run, x);
      SameEntryAt(g, m, n, L1Index(g, x), L2Index(g, x));
      if EntryOf(g, d, s) != 0 { SameEntryAt(g, d, m, L1Index(g, x), L2Index(g, x)); }
      WroteSector(g, d, m, s, data, e, x);
    }
  }

  lemma MappedEntry(g: Geometry, d: Disk, s: nat)
    requires Sound(g, d) && L1Index(g, s) < g.l1Size && EntryOf(g, d, s) != 0
    ensures Mapped(g, d, L1Index(g, s), L2Index(g, s))
  {
  }

  /** One sector after the cluster was placed, if it had to be, and then the data written. */
  lemma WroteSector(g: Geometry, d: Disk, m: Disk, s: nat, data: seq<Sector>, e: nat, x: nat)
    requires Sound(g, d) && Sound(g, m) && data != [] && L1Index(g, s) < g.l1Size && InCluster(g, s) + |data| <= g.clusterSectors
    requires L1Index(g, x) < g.l1Size
    requires EntryOf(g, d, s) != 0 ==> CellOf(g, m, x) == CellOf(g, d, x) && EntryOf(g, m, x) == EntryOf(g, d, x)
    requires EntryOf(g, d, s) == 0 ==> Placed(g, d, m, s, e, InCluster(g, s), InCluster(g, s) + |data|)
    ensures var k, run := InCluster(g, s), EncodeRun(g, s, data);
      WrittenCell(g, d, s, data, x) ==
        if SameCluster(g, x, s) && k <= InCluster(g, x) < k + |run| then Stored(run[InCluster(g, x) - k])
        else CellOf(g, m, x)
    ensures !Reached(g, x, s, |data|) ==> EntryOf(g, m, x) == EntryOf(g, d, x)
  {
    Positive(g, d);
    ReachedIs(g, x, s, |data|);
    InRangeIs(g, x, s, |data|);
    if s <= x < s + |data| { Encoded(g, s, data, x - s); }
    hide Sound, ViewSector, CellOf, Entry, L1Index, L2Index, InCluster, Base, Reached, Zeros, EncodeRun;
    if EntryOf(g, d, s) == 0 && !SameCluster(g, x, s) { assert SameSector(g, d, m, x); }
  }

  lemma Encoded(g: Geometry, s: nat, data: seq<Sector>, i: nat)
    requires i < |data|
    ensures EncodeRun(g, s, data)[i] == if g.cipher.on then g.cipher.enc(s + i, data[i]) else data[i]
  {
  }

  /** Inside the cluster of s, positions decide. */
  lemma InRangeIs(g: Geometry, x: nat, s: nat, n: nat)
    requires g.clusterSectors > 0 && g.l2Size > 0 && InCluster(g, s) + n <= g.clusterSectors
    ensures s <= x < s + n <==> SameCluster(g, x, s) && InCluster(g, s) <= InCluster(g, x) < InCluster(g, s) + n
    ensures s <= x < s + n ==> x - s == InCluster(g, x) - InCluster(g, s)
  {
    if SameCluster(g, x, s) { SameBase(g, x, s); }
    if s <= x < s + n { InRun(g, s, x - s); }
  }

  /** Two writes, the second from a cluster boundary on, are one. */
  lemma WroteJoin(g: Geometry, d: Disk, m: Disk, n: Disk, s: nat, a: seq<Sector>, b: seq<Sector>)
    requires Wrote(g, d, m, s, a) && Wrote(g, m, n, s + |a|, b) && b != []
    requires g.clusterSectors > 0 && (a == [] || InCluster(g, s + |a|) == 0)
    ensures Wrote(g, d, n, s, a + b)
  {
    Positive(g, d);
    hide Sound, ViewSector, CellOf, Entry, L1Index, L2Index, InCluster, Base, Zeros, WrittenCell, Reached, EntryOf;
    forall x: nat | L1Index(g, x) < g.l1Size
      ensures CellOf(g, n, x) == WrittenCell(g, d, s, a + b, x)
      ensures !Reached(g, x, s, |a + b|) ==> EntryOf(g, n, x) == EntryOf(g, d, x)
    {
      WroteJoinSector(g, d, m, n, s, a, b, x);
    }
  }

  lemma WroteAt(g: Geometry, d: Disk, m: Disk, s: nat, a: seq<Sector>, x: nat)
    requires Wrote(g, d, m, s, a) && L1Index(g, x) < g.l1Size
    ensures Sound(g, d) && Sound(g, m) && CellOf(g, m, x) == WrittenCell(g, d, s, a, x)
    ensures !Reached(g, x, s, |a|) ==> EntryOf(g, m, x) == EntryOf(g, d, x)
  {
    hide Sound, CellOf, L1Index, Reached, EntryOf, WrittenCell;
  }

  lemma WroteJoinSector(g: Geometry, d: Disk, m: Disk, n: Disk, s: nat, a: seq<Sector>, b: seq<Sector>, x: nat)
    requires Wrote(g, d, m, s, a) && Wrote(g, m, n, s + |a|, b) && b != [] && L1Index(g, x) < g.l1Size
    requires g.clusterSectors > 0 && (a == [] || InCluster(g, s + |a|) == 0)
    ensures Sound(g, d) && Sound(g, n) && CellOf(g, n, x) == WrittenCell(g, d, s, a + b, x)
    ensures !Reached(g, x, s, |a + b|) ==> EntryOf(g, n, x) == EntryOf(g, d, x)
  {
    hide Wrote, Sound, ViewSector, CellOf, Entry, L1Index, L2Index, InCluster, Base, Zeros, Reached, EntryOf, WrittenCell;
    WroteAt(g, d, m, s, a, x);
    WroteAt(g, m, n, s + |a|, b, x);
    ReachedApart(g, x, s, |a|, |b|);
    WroteJoinAt(g, d, m, n, s, a, b, x);
  }

  lemma WroteJoinAt(g: Geometry, d: Disk, m: Disk, n: Disk, s: nat, a: seq<Sector>, b: seq<Sector>, x: nat)
    requires Sound(g, d) && Sound(g, m) && Sound(g, n) && b != [] && L1Index(g, x) < g.l1Size
    requires CellOf(g, m, x) == WrittenCell(g, d, s, a, x) && CellOf(g, n, x) == WrittenCell(g, m, s + |a|, b, x)
    requires !Reached(g, x, s, |a|) ==> EntryOf(g, m, x) == EntryOf(g, d, x)
    requires g.clusterSectors > 0 && (a == [] || InCluster(g, s + |a|) == 0)
    ensures CellOf(g, n, x) == WrittenCell(g, d, s, a + b, x)
  {
    hide Sound, ViewSector, CellOf, Entry, L1Index, L2Index, InCluster, Base, Zeros, Reached, EntryOf;
    ReachedApart(g, x, s, |a|, |b|);
    if x < s + |a| { assert x >= s ==> (a + b)[x - s] == a[x - s]; } else { assert x < s + |a + b| ==> (a + b)[x - s] == b[x - s - |a|]; }
  }

  /** The clusters that two such writes reach are different. */
  lemma ReachedApart(g: Geometry, x: nat, s: nat, a: nat, b: nat)
    requires g.clusterSectors > 0 && b > 0 && (a == 0 || InCluster(g, s + a) == 0)
    ensures Reached(g, x, s, a + b) <==> Reached(g, x, s, a) || Reached(g, x, s + a, b)
    ensures !(Reached(g, x, s, a) && Reached(g, x, s + a, b))
    ensures s <= x < s + a ==> Reached(g, x, s, a)
    ensures s + a <= x < s + a + b ==> Reached(g, x, s + a, b)
  {
    if a > 0 {
      var c := g.clusterSectors;
      var p, q := x / c, (s + a) / c;
      assert Base(g, x) == p * c && s + a == q * c;
      G.MulBound(p - q, c);
      assert (p - q) * c == p * c - q * c;
    }
  }

  /** A write changes its sectors and nothing else. */
  ghost predicate FlatWrite(g: Geometry, d: Disk, n: Disk, s: nat, data: seq<Sector>) {
    && Sound(g, d) && Sound(g, n)
    && forall x: nat :: L1Index(g, x) < g.l1Size ==>
         ViewSector(g, n, x) == if s <= x < s + |data| then data[x - s] else ViewSector(g, d, x)
  }

  /** Outside the write, the clusters it allocates cover nothing but zeros of the backing disk. */
  ghost predicate NothingCovered(g: Geometry, d: Disk, s: nat, n: nat)
    requires Sound(g, d)
  {
    forall x: nat :: L1Index(g, x) < g.l1Size && !(s <= x < s + n) && Reached(g, x, s, n) && EntryOf(g, d, x) == 0 ==>
      g.Backing(x) == Zeros(SECTOR)
  }

  /** A write acts like one on a flat disk exactly when it covers up nothing of the backing disk. */
  lemma FlatExactly(g: Geometry, d: Disk, n: Disk, s: nat, data: seq<Sector>)
    requires Wrote(g, d, n, s, data)
    ensures FlatWrite(g, d, n, s, data) <==> NothingCovered(g, d, s, |data|)
  {
    Positive(g, d);
    WroteView(g, d, n, s, data);
    hide Sound, Entry, L1Index, L2Index, Reached, Zeros;
    forall x: nat | L1Index(g, x) < g.l1Size ensures EntryOf(g, d, x) == 0 ==> ViewSector(g, d, x) == g.Backing(x) {
    }
    if FlatWrite(g, d, n, s, data) {
      forall x: nat | L1Index(g, x) < g.l1Size && !(s <= x < s + |data|) && Reached(g, x, s, |data|) && EntryOf(g, d, x) == 0
        ensures g.Backing(x) == Zeros(SECTOR)
      {
        assert ViewSector(g, n, x) == Written(g, d, s, data, x);
      }
    }
    if NothingCovered(g, d, s, |data|) {
      forall x: nat | L1Index(g, x) < g.l1Size
        ensures ViewSector(g, n, x) == if s <= x < s + |data| then data[x - s] else ViewSector(g, d, x)
      {
        assert ViewSector(g, n, x) == Written(g, d, s, data, x);
      }
    }
  }

  /** So it is without a backing disk, and with clusters of one sector. */
  lemma FlatCases(g: Geometry, d: Disk, s: nat, n: nat)
    requires Sound(g, d) && (g.backing == [] || g.clusterSectors == 1)
    ensures NothingCovered(g, d, s, n)
  {
    hide Sound, Entry, L1Index, L2Index;
  }

  /** On any empty image of such a geometry, a write to sector s covers up what the backing disk shows in another sector x of the cluster:
      the guest saw the backing disk there, and sees zeros now. */
  method CoversUp(g: Geometry, s: nat, x: nat, data: Sector) returns (img: Driver)
    requires g.Valid() && L1Index(g, s) < g.l1Size && x != s && x / g.clusterSectors == s / g.clusterSectors
    requires g.Backing(x) != Zeros(SECTOR)
    ensures img.Valid() && img.g == g && L1Index(g, x) < g.l1Size
    ensures ViewSector(g, img.Now(), x) == Zeros(SECTOR) != g.Backing(x)
  {
    hide Sound, CacheSound, L1Index, L2Index, Zeros;
    SameIndexes(g, s, x);
    img := new Driver.Create(g);
    ghost var before := img.Now();
    img.QcowWrite(s, [data]);
    SameReach(g, s, x);
    WroteView(g, before, img.Now(), s, [data]);
    assert ViewSector(g, img.Now(), x) == Written(g, before, s, [data], x);
    assert EntryOf(g, before, x) == 0;
  }

  lemma SameIndexes(g: Geometry, s: nat, x: nat)
    requires g.clusterSectors > 0 && g.l2Size > 0 && x / g.clusterSectors == s / g.clusterSectors
    ensures L1Index(g, x) == L1Index(g, s) && L2Index(g, x) == L2Index(g, s)
  {
  }

  lemma SameReach(g: Geometry, s: nat, x: nat)
    requires g.clusterSectors > 0 && x / g.clusterSectors == s / g.clusterSectors
    ensures Reached(g, x, s, 1)
  {
    assert Base(g, x) == x / g.clusterSectors * g.clusterSectors == Base(g, s);
  }

  /** The geometry of a new image: single-sector clusters over a backing file, clusters of eight sectors without one. */
  function NewGeometry(totalSectors: nat, headerWords: nat, cipher: Cipher, backing: seq<Sector>, onBacking: bool): Geometry {
    var span := if onBacking then 1 * 4096 else 8 * 512;
    Geometry(headerWords, (totalSectors + span - 1) / span, if onBacking then 4096 else 512, if onBacking then 1 else 8,
             cipher, if onBacking then backing else [])
  }

  lemma NewGeometryFlat(totalSectors: nat, headerWords: nat, cipher: Cipher, backing: seq<Sector>, onBacking: bool)
    requires totalSectors > 0 && headerWords > 0 && cipher.Valid()
    ensures var g := NewGeometry(totalSectors, headerWords, cipher, backing, onBacking);
      && g.Valid() && (g.backing == [] || g.clusterSectors == 1)
      && (forall x: nat :: x < totalSectors ==> L1Index(g, x) < g.l1Size)
      && g.clusterSectors * g.l2Size * (g.l1Size - 1) < totalSectors <= g.clusterSectors * g.l2Size * g.l1Size
      && (if onBacking then g.clusterSectors == 1 && g.l2Size == 4096 else g.clusterSectors == 8 && g.l2Size == 512)
  {
    var g := NewGeometry(totalSectors, headerWords, cipher, backing, onBacking);
    forall x: nat | x < totalSectors ensures L1Index(g, x) < g.l1Size {}
  }

  /** A guest write, or emptying the image. */
  datatype Access = Write(sector: nat, data: seq<Sector>) | Empty

  /** What the last of some writes that covers sector x has put there since the image was emptied. */
  function Latest(g: Geometry, run: seq<Access>, x: nat): Sector {
    if run == [] then g.Backing(x)
    else
      match run[|run| - 1]
      case Empty => g.Backing(x)
      case Write(sector, data) => if sector <= x < sector + |data| then data[x - sector] else Latest(g, run[..|run| - 1], x)
  }

  /** Sector x holds data, in the file encrypted with its number when the image is encrypted, or on the backing disk. */
  ghost predicate StoredAt(g: Geometry, d: Disk, x: nat, data: Sector) {
    && Sound(g, d) && L1Index(g, x) < g.l1Size
    && match CellOf(g, d, x)
       case Stored(c) => c == if g.cipher.on then g.cipher.enc(x, data) else data
       case Hole => data == g.Backing(x)
  }

  lemma EmptyStored(g: Geometry, d: Disk)
    requires Sound(g, d) && d.l1 == Zeros(g.l1Size)
    ensures forall x: nat :: L1Index(g, x) < g.l1Size ==> StoredAt(g, d, x, g.Backing(x))
  {
    hide Sound, L1Index, L2Index;
    Positive(g, d);
  }

  lemma WriteStored(g: Geometry, d: Disk, n: Disk, s: nat, data: seq<Sector>, x: nat, was: Sector)
    requires Wrote(g, d, n, s, data) && StoredAt(g, d, x, was) && NothingCovered(g, d, s, |data|)
    ensures StoredAt(g, n, x, if s <= x < s + |data| then data[x - s] else was)
  {
    hide Sound, L1Index, L2Index, Reached, Entry, Zeros;
    Positive(g, d);
    assert CellOf(g, n, x) == WrittenCell(g, d, s, data, x);
  }

  /** Every run of writes and emptyings on a new image acts like the same run on a flat disk. */
  method Execute(totalSectors: nat, headerWords: nat, cipher: Cipher, backing: seq<Sector>, onBacking: bool, run: seq<Access>)
    returns (img: Driver)
    requires totalSectors > 0 && headerWords > 0 && cipher.Valid()
    requires forall i :: 0 <= i < |run| && run[i].Write? ==> run[i].sector + |run[i].data| <= totalSectors
    ensures img.Valid() && img.g == NewGeometry(totalSectors, headerWords, cipher, backing, onBacking)
    ensures forall x: nat :: x < totalSectors ==> ShowsAt(img.g, img.Now(), x, Latest(img.g, run, x))
    ensures forall x: nat :: x < totalSectors ==> StoredAt(img.g, img.Now(), x, Latest(img.g, run, x))
  {
    hide Sound, CacheSound, Entry, L1Index, L2Index, Reached, NewGeometry, StoredAt, CellOf, ViewSector;
    NewGeometryFlat(totalSectors, headerWords, cipher, backing, onBacking);
    img := new Driver.Create(NewGeometry(totalSectors, headerWords, cipher, backing, onBacking));
    EmptyStored(img.g, img.Now());
    for i := 0 to |run|
      invariant img.Valid() && img.g == NewGeometry(totalSectors, headerWords, cipher, backing, onBacking)
      invariant forall x: nat :: x < totalSectors ==> ShowsAt(img.g, img.Now(), x, Latest(img.g, run[..i], x))
      invariant forall x: nat :: x < totalSectors ==> StoredAt(img.g, img.Now(), x, Latest(img.g, run[..i], x))
    {
      ghost var before := img.Now();
      assert run[..i + 1][..i] == run[..i];
      match run[i]
      case Empty =>
        img.MakeEmpty();
        EmptyStored(img.g, img.Now());
      case Write(sector, data) =>
        img.QcowWrite(sector, data);
        FlatCases(img.g, before, sector, |data|);
        FlatExactly(img.g, before, img.Now(), sector, data);
        ghost var g, now, part := img.g, img.Now(), run[..i + 1];
        forall x: nat | x < totalSectors ensures StoredAt(g, now, x, Latest(g, part, x)) {
          WriteStored(g, before, now, sector, data, x, Latest(g, run[..i], x));
        }
    }
    assert run[..|run|] == run;
  }

  // ---------------------------------------------------------------------------------------
  // A new cluster

  /** The sectors outside nStart .. nEnd - 1 show zeros. */
  ghost predicate InitOk(g: Geometry, content: Words, start: nat, nStart: nat, nEnd: nat) {
    && |content| == g.ClusterWords()
    && forall k: nat :: k < g.clusterSectors && !(nStart <= k < nEnd) ==>
         Part(content, k, g.clusterSectors) == g.cipher.Encode(start + k, Zeros(SECTOR))
  }

  predicate SameCluster(g: Geometry, x: nat, s: nat)
    requires g.clusterSectors > 0 && g.l2Size > 0
  {
    L1Index(g, x) == L1Index(g, s) && L2Index(g, x) == L2Index(g, s)
  }

  /** The cluster of s was placed at e: its sectors outside nStart .. nEnd - 1 show zeros, everything else is as before. */
  ghost predicate Placed(g: Geometry, d: Disk, n: Disk, s: nat, e: nat, nStart: nat, nEnd: nat) {
    && Sound(g, d) && Sound(g, n) && L1Index(g, s) < g.l1Size && e != 0
    && Entry(g, n, L1Index(g, s), L2Index(g, s)) == e
    && (forall x: nat :: L1Index(g, x) < g.l1Size && !SameCluster(g, x, s) ==> SameSector(g, d, n, x))
    && forall x: nat :: L1Index(g, x) < g.l1Size && SameCluster(g, x, s) && !(nStart <= InCluster(g, x) < nEnd) ==>
         CellOf(g, n, x) == Stored(if g.cipher.on then g.cipher.enc(x, Zeros(SECTOR)) else Zeros(SECTOR))
  }

  /** Sector x is where it was and shows what it showed. */
  ghost predicate SameSector(g: Geometry, d: Disk, n: Disk, x: nat)
    requires Sound(g, d) && Sound(g, n) && L1Index(g, x) < g.l1Size
  {
    && CellOf(g, n, x) == CellOf(g, d, x)
    && Entry(g, n, L1Index(g, x), L2Index(g, x)) == Entry(g, d, L1Index(g, x), L2Index(g, x))
  }

  lemma OneSector(data: Sector)
    ensures Flat([data]) == data
  {
    assert Flat([data][1..]) == [];
  }

  lemma WordsFile(d: Disk, at: nat, data: Words, e: nat)
    requires at + |data| <= |d.file| && e <= at
    ensures WithWords(d, at, data) == Disk(d.file[..at] + data + d.file[at + |data|..], d.l1)
    ensures WithWords(d, at, data).file[..e] == d.file[..e] && |WithWords(d, at, data).file| == |d.file|
  {
  }

  lemma ClusterFile(g: Geometry, d: Disk, i: nat, j: nat, at: nat, content: Words)
    requires TablesOk(g, d) && Slot(g, i, j) && d.l1[i] != 0 && at >= |d.file|
    ensures WithCluster(g, d, i, j, at, content) == Disk((d.file + Zeros(at - |d.file|) + content)[d.l1[i] + j := at], d.l1)
  {
  }

  lemma Initialised(g: Geometry, file: Words, l1: Words, e: nat, start: nat, nStart: nat, nEnd: nat)
    requires g.Valid() && g.cipher.on && |file| == e + g.ClusterWords()
    requires forall k: nat :: k < g.clusterSectors && !(nStart <= k < nEnd) ==>
      SectorAt(g, Disk(file, l1), e, k) == g.cipher.Encode(start + k, Zeros(SECTOR))
    ensures InitOk(g, file[e..], start, nStart, nEnd)
  {
    forall k: nat | k < g.clusterSectors && !(nStart <= k < nEnd)
      ensures Part(file[e..], k, g.clusterSectors) == g.cipher.Encode(start + k, Zeros(SECTOR))
    {
      SectorFits(k, g.clusterSectors);
      assert Part(file[e..], k, g.clusterSectors) == SectorAt(g, Disk(file, l1), e, k);
    }
  }

  lemma PlainContent(g: Geometry, start: nat, nStart: nat, nEnd: nat)
    requires g.Valid() && (!g.cipher.on || nEnd - nStart >= g.clusterSectors) && nStart < nEnd <= g.clusterSectors
    ensures InitOk(g, Zeros(g.ClusterWords()), start, nStart, nEnd)
  {
    forall k: nat | k < g.clusterSectors && !(nStart <= k < nEnd)
      ensures Part(Zeros(g.ClusterWords()), k, g.clusterSectors) == g.cipher.Encode(start + k, Zeros(SECTOR))
    {
      SectorFits(k, g.clusterSectors);
      assert Part(Zeros(g.ClusterWords()), k, g.clusterSectors) == Zeros(SECTOR);
    }
  }

  lemma SameBase(g: Geometry, x: nat, s: nat)
    requires g.clusterSectors > 0 && g.l2Size > 0 && SameCluster(g, x, s)
    ensures x == Base(g, s) + InCluster(g, x)
  {
    DivModSame(x / g.clusterSectors, s / g.clusterSectors, g.l2Size);
  }

  lemma DivModSame(a: nat, b: nat, n: nat)
    requires n > 0 && a / n == b / n && a % n == b % n
    ensures a == b
  {
  }

  lemma ClusterPlaced(g: Geometry, d: Disk, s: nat, e: nat, content: Words, nStart: nat, nEnd: nat)
    requires Sound(g, d) && L1Index(g, s) < g.l1Size && d.l1[L1Index(g, s)] != 0 && Entry(g, d, L1Index(g, s), L2Index(g, s)) == 0
    requires e >= |d.file| && e % SECTOR == 0 && InitOk(g, content, Base(g, s), nStart, nEnd)
    requires Sound(g, WithCluster(g, d, L1Index(g, s), L2Index(g, s), e, content))
    ensures Placed(g, d, WithCluster(g, d, L1Index(g, s), L2Index(g, s), e, content), s, e, nStart, nEnd)
  {
    hide ViewSector, CellOf, Entry, WithCluster, L1Index, L2Index, InCluster, Part;
    var i, j := L1Index(g, s), L2Index(g, s);
    var n := WithCluster(g, d, i, j, e, content);
    ClusterEntries(g, d, i, j, e, content);
    assert Slot(g, i, j);
    forall x: nat | L1Index(g, x) < g.l1Size
      ensures !SameCluster(g, x, s) ==> SameSector(g, d, n, x)
      ensures SameCluster(g, x, s) && !(nStart <= InCluster(g, x) < nEnd) ==>
        CellOf(g, n, x) == Stored(if g.cipher.on then g.cipher.enc(x, Zeros(SECTOR)) else Zeros(SECTOR))
    {
      ClusterView(g, d, i, j, e, content, x);
      assert Slot(g, L1Index(g, x), L2Index(g, x));
      if SameCluster(g, x, s) { SameBase(g, x, s); }
    }
  }

  lemma CacheCluster(g: Geometry, c: Cache, d: Disk, i: nat, j: nat, e: nat, content: Words, slot: nat)
    requires Sound(g, d) && CacheSound(c, d.file, d.l1, g.l2Size) && Slot(g, i, j) && d.l1[i] != 0
    requires slot < CACHE_SLOTS && c.offsets[slot] == d.l1[i] && e >= |d.file| && |c.tables[slot]| == g.l2Size
    ensures var n := WithCluster(g, d, i, j, e, content);
      CacheSound(c.(tables := c.tables[slot := Put(c.tables[slot], j, e)]), n.file, n.l1, g.l2Size)
  {
    var n := WithCluster(g, d, i, j, e, content);
    var k := c.(tables := c.tables[slot := Put(c.tables[slot], j, e)]);
    ClusterL1(g, d, i, j, e, content);
    ClusterWordAt(g, d, i, j, e, content, 0);
    hide WithCluster;
    forall m | 0 <= m < CACHE_SLOTS && k.offsets[m] != 0 ensures HoldsTable(k, m, n.file, g.l2Size) {
      assert HoldsTable(c, m, d.file, g.l2Size);
      var t := k.offsets[m];
      var o :| 0 <= o < |d.l1| && d.l1[o] == t;
      if m != slot { assert Apart(d.l1[if o < i then o else i], g.l2Size, d.l1[if o < i then i else o], g.l2Size); }
      assert t + g.l2Size <= |n.file| && k.tables[m] == n.file[t..t + g.l2Size] by {
        forall x | 0 <= x < g.l2Size ensures k.tables[m][x] == n.file[t + x] { ClusterWordAt(g, d, i, j, e, content, t + x); }
      }
    }
  }

  lemma NoTable(g: Geometry, d: Disk, i: nat, j: nat)
    requires TablesOk(g, d) && Slot(g, i, j) && d.l1[i] == 0
    ensures Entry(g, d, i, j) == 0
  {
  }

  lemma EntryIs(g: Geometry, d: Disk, i: nat, j: nat)
    requires TablesOk(g, d) && Slot(g, i, j) && d.l1[i] != 0
    ensures d.l1[i] + g.l2Size <= |d.file| && Entry(g, d, i, j) == d.file[d.l1[i]..d.l1[i] + g.l2Size][j]
  {
  }

  lemma PlacedAt(g: Geometry, d: Disk, n: Disk, s: nat, e: nat, nStart: nat, nEnd: nat)
    requires Placed(g, d, n, s, e, nStart, nEnd)
    ensures Entry(g, n, L1Index(g, s), L2Index(g, s)) == e != 0
  {
  }

  lemma PlacedAfter(g: Geometry, d: Disk, m: Disk, n: Disk, s: nat, e: nat, nStart: nat, nEnd: nat)
    requires Sound(g, d) && Sound(g, m) && SameEntries(g, d, m)
    requires SameCells(g, d, m)
    requires Placed(g, m, n, s, e, nStart, nEnd)
    ensures Placed(g, d, n, s, e, nStart, nEnd)
  {
    Positive(g, d);
    hide Sound, ViewSector, CellOf, L1Index, L2Index, InCluster;
    forall x: nat | L1Index(g, x) < g.l1Size && !SameCluster(g, x, s) ensures SameSector(g, d, n, x) {
      assert SameSector(g, m, n, x);
      SameEntryAt(g, d, m, L1Index(g, x), L2Index(g, x));
    }
  }

  lemma TableFile(g: Geometry, d: Disk, i: nat, at: nat)
    requires TablesOk(g, d) && i < g.l1Size && at >= |d.file|
    ensures WithTable(g, d, i, at) == Disk(d.file[g.l1Offset + i := at] + Zeros(at - |d.file|) + Zeros(g.l2Size), d.l1[i := at])
    ensures |WithTable(g, d, i, at).file| >= |d.file|
  {
  }

  lemma NothingChanged(g: Geometry, d: Disk)
    requires Sound(g, d)
    ensures SameEntries(g, d, d)
  {
  }
}
