/** The image file of a qcow2 disk: words, sectors, clusters, tables that span clusters. */
module Layout {

  /** A 64-bit word of the file, taken apart into the bit fields the driver uses:
      bit 63 (COPIED), bit 62 (COMPRESSED), the cluster number and the offset inside the cluster.
      Every word of the file has this form, whether it is used as a table entry or as guest data. */
  datatype Word = Word(copied: bool, compressed: bool, cluster: nat, low: nat)

  const ZERO := Word(false, false, 0, 0)
  const SECTOR_WORDS := 64

  /** 2 ^ (cluster_bits - 9) for the cluster sizes that opening an image accepts. */
  type ClusterSectors = n: nat | n in {1, 2, 4, 8, 16, 32, 64, 128} witness 8

  /** Left open: every result holds for each of the admitted cluster sizes. */
  const CLUSTER_SECTORS: ClusterSectors
  /** Table entries in one cluster. */
  const L2_SIZE: nat := SECTOR_WORDS * CLUSTER_SECTORS

  type Sector = s: seq<Word> | |s| == SECTOR_WORDS witness seq(SECTOR_WORDS, _ => ZERO)
  type Cluster = c: seq<Word> | |c| == L2_SIZE witness seq(L2_SIZE, _ => ZERO)

  function ZeroSector(): Sector { seq(SECTOR_WORDS, _ => ZERO) }

  /** Clusters written so far. */
  type File = map<nat, Cluster>

  /** A cluster that was never written is a hole and reads as zeros. */
  function Read(file: File, c: nat): Cluster {
    if c in file then file[c] else seq(L2_SIZE, _ => ZERO)
  }

  lemma ReadPut(file: File, c: nat, content: Cluster, x: nat)
    ensures Read(file[c := content], x) == if x == c then content else Read(file, x)
  {
  }

  /** Entries that differ at most in the COPIED flag. */
  predicate SameEntry(a: Word, b: Word) {
    a == b || (a != ZERO && b != ZERO && a.(copied := b.copied) == b)
  }

  predicate SameTable(t: seq<Word>, u: seq<Word>) {
    |t| == |u| && forall j :: 0 <= j < |t| ==> SameEntry(t[j], u[j])
  }

  // ---------------------------------------------------------------------------------------
  // Tables that may span several clusters (L1 tables)

  /** Clusters needed for a table of n entries. */
  function Clusters(n: nat): nat {
    if n == 0 then 0 else if n <= L2_SIZE then 1 else 1 + Clusters(n - L2_SIZE)
  }

  function ReadTable(file: File, c: nat, n: nat): (t: seq<Word>)
    ensures |t| == n
    decreases n
  {
    if n <= L2_SIZE then Read(file, c)[..n]
    else Read(file, c) + ReadTable(file, c + 1, n - L2_SIZE)
  }

  function WriteTable(file: File, c: nat, t: seq<Word>): File
    decreases |t|
  {
    if t == [] then file
    else if |t| <= L2_SIZE then file[c := t + Read(file, c)[|t|..]]
    else WriteTable(file[c := t[..L2_SIZE]], c + 1, t[L2_SIZE..])
  }

  function WriteEntry(file: File, c: nat, i: nat, w: Word): File
    decreases i
  {
    if i < L2_SIZE then file[c := Read(file, c)[i := w]] else WriteEntry(file, c + 1, i - L2_SIZE, w)
  }

  lemma {:induction false} ClustersIsCeiling(n: nat)
    ensures L2_SIZE * Clusters(n) >= n
    ensures n > 0 ==> L2_SIZE * (Clusters(n) - 1) < n
  {
    if n > L2_SIZE {
      ClustersIsCeiling(n - L2_SIZE);
      calc {
        L2_SIZE * Clusters(n);
        L2_SIZE * (1 + Clusters(n - L2_SIZE));
        L2_SIZE + L2_SIZE * Clusters(n - L2_SIZE);
      }
      calc {
        L2_SIZE * (Clusters(n) - 1);
        L2_SIZE * (1 + (Clusters(n - L2_SIZE) - 1));
        L2_SIZE + L2_SIZE * (Clusters(n - L2_SIZE) - 1);
      }
    }
  }

  lemma {:induction false} ClustersMonotone(m: nat, n: nat)
    requires m <= n
    ensures Clusters(m) <= Clusters(n)
    decreases n
  {
    if m > L2_SIZE { ClustersMonotone(m - L2_SIZE, n - L2_SIZE); }
  }

  lemma {:induction false} WriteTableFrame(file: File, c: nat, t: seq<Word>, x: nat)
    requires x < c || c + Clusters(|t|) <= x
    ensures Read(WriteTable(file, c, t), x) == Read(file, x)
    decreases |t|
  {
    if |t| > L2_SIZE { WriteTableFrame(file[c := t[..L2_SIZE]], c + 1, t[L2_SIZE..], x); }
  }

  lemma {:induction false} ReadTableFrame(file: File, other: File, c: nat, n: nat)
    requires forall x :: c <= x < c + Clusters(n) ==> Read(file, x) == Read(other, x)
    ensures ReadTable(file, c, n) == ReadTable(other, c, n)
    decreases n
  {
    if n > L2_SIZE {
      ReadTableFrame(file, other, c + 1, n - L2_SIZE);
    } else if n > 0 {
      assert Read(file, c) == Read(other, c);
    }
  }

  lemma {:induction false} ReadWriteTable(file: File, c: nat, t: seq<Word>)
    ensures ReadTable(WriteTable(file, c, t), c, |t|) == t
    decreases |t|
  {
    if |t| > L2_SIZE {
      var first := file[c := t[..L2_SIZE]];
      ReadWriteTable(first, c + 1, t[L2_SIZE..]);
      WriteTableFrame(first, c + 1, t[L2_SIZE..], c);
    }
  }

  /** Entry r of the q-th cluster of a table. */
  lemma {:induction false} TableWord(file: File, c: nat, n: nat, q: nat, r: nat)
    requires r < L2_SIZE && q * L2_SIZE + r < n
    ensures ReadTable(file, c, n)[q * L2_SIZE + r] == Read(file, c + q)[r]
    decreases q
  {
    hide ReadTable, Read;
    if q == 0 {
      TableHead(file, c, n, r);
    } else {
      LessOne(q, L2_SIZE);
      TableTail(file, c, n, q * L2_SIZE + r);
      TableWord(file, c + 1, n - L2_SIZE, q - 1, r);
    }
  }

  lemma LessOne(q: nat, b: nat)
    requires q > 0
    ensures q * b == (q - 1) * b + b >= b
  {
  }

  lemma TableHead(file: File, c: nat, n: nat, i: nat)
    requires i < n && i < L2_SIZE
    ensures ReadTable(file, c, n)[i] == Read(file, c)[i]
  {
  }

  lemma TableTail(file: File, c: nat, n: nat, i: nat)
    requires L2_SIZE <= i < n
    ensures ReadTable(file, c, n)[i] == ReadTable(file, c + 1, n - L2_SIZE)[i - L2_SIZE]
  {
  }

  /** The words behind a table of n entries in the last of its clusters. */
  function Rest(file: File, c: nat, n: nat): seq<Word>
    decreases n
  {
    if n == 0 then [] else if n <= L2_SIZE then Read(file, c)[n..] else Rest(file, c + 1, n - L2_SIZE)
  }

  lemma {:induction false} RestFrame(file: File, other: File, c: nat, n: nat)
    requires forall x :: c <= x < c + Clusters(n) ==> Read(file, x) == Read(other, x)
    ensures Rest(file, c, n) == Rest(other, c, n)
    decreases n
  {
    if n > L2_SIZE { RestFrame(file, other, c + 1, n - L2_SIZE); } else if n > 0 { assert Read(file, c) == Read(other, c); }
  }

  /** Writing a table leaves the words behind it alone. */
  lemma {:induction false} RestWrite(file: File, c: nat, t: seq<Word>)
    ensures Rest(WriteTable(file, c, t), c, |t|) == Rest(file, c, |t|)
    decreases |t|
  {
    if |t| > L2_SIZE {
      var first := file[c := t[..L2_SIZE]];
      RestWrite(first, c + 1, t[L2_SIZE..]);
      RestFrame(file, first, c + 1, |t| - L2_SIZE);
    }
  }

  /** What a longer table shows behind the first n entries. */
  lemma {:induction false} TableBehind(file: File, other: File, c: nat, n: nat, m: nat)
    requires n <= m && Rest(file, c, n) == Rest(other, c, n)
    requires forall x :: c + Clusters(n) <= x < c + Clusters(m) ==> Read(file, x) == Read(other, x)
    ensures ReadTable(other, c, m) == ReadTable(other, c, n) + ReadTable(file, c, m)[n..]
    decreases n
  {
    hide Read, ReadTable, Rest, Clusters;
    if n > L2_SIZE {
      TableNext(file, c, n);
      TableNext(other, c, n);
      TableNext(file, c, m);
      TableNext(other, c, m);
      TableBehind(file, other, c + 1, n - L2_SIZE, m - L2_SIZE);
      SkipFirst(Read(file, c), ReadTable(file, c + 1, m - L2_SIZE), n);
    } else if n == 0 {
      TableShort(other, c, 0);
      ReadTableFrame(file, other, c, m);
    } else {
      TableShort(file, c, n);
      assert Read(file, c)[n..] == Read(other, c)[n..] by { RestFirst(file, c, n); RestFirst(other, c, n); }
      TableBehindFirst(file, other, c, n, m);
    }
  }

  lemma TableNext(file: File, c: nat, n: nat)
    requires n > L2_SIZE
    ensures ReadTable(file, c, n) == Read(file, c) + ReadTable(file, c + 1, n - L2_SIZE)
    ensures Rest(file, c, n) == Rest(file, c + 1, n - L2_SIZE) && Clusters(n) == 1 + Clusters(n - L2_SIZE)
  {
  }

  lemma RestFirst(file: File, c: nat, n: nat)
    requires 0 < n <= L2_SIZE
    ensures Rest(file, c, n) == Read(file, c)[n..]
  {
  }

  lemma SkipFirst(a: seq<Word>, b: seq<Word>, n: nat)
    requires |a| <= n <= |a| + |b|
    ensures (a + b)[n..] == b[n - |a|..]
  {
  }

  lemma TableBehindFirst(file: File, other: File, c: nat, n: nat, m: nat)
    requires 0 < n <= L2_SIZE && n <= m && Read(file, c)[n..] == Read(other, c)[n..]
    requires forall x :: c + 1 <= x < c + Clusters(m) ==> Read(file, x) == Read(other, x)
    ensures ReadTable(other, c, m) == ReadTable(other, c, n) + ReadTable(file, c, m)[n..]
  {
    hide Read, ReadTable, Clusters;
    TableShort(other, c, n);
    if m > L2_SIZE {
      TableNext(file, c, m);
      TableNext(other, c, m);
      ReadTableFrame(file, other, c + 1, m - L2_SIZE);
      Spliced(Read(file, c), Read(other, c), ReadTable(file, c + 1, m - L2_SIZE), n);
    } else {
      TableShort(file, c, m);
      TableShort(other, c, m);
      assert Read(other, c)[..m] == Read(other, c)[..n] + Read(other, c)[n..][..m - n];
      assert Read(file, c)[..m][n..] == Read(file, c)[n..][..m - n];
    }
  }

  lemma TableShort(file: File, c: nat, n: nat)
    requires n <= L2_SIZE
    ensures ReadTable(file, c, n) == Read(file, c)[..n] && Clusters(n) == if n == 0 then 0 else 1
  {
  }

  lemma Spliced(a: seq<Word>, b: seq<Word>, t: seq<Word>, n: nat)
    requires n <= |a| && n <= |b| && a[n..] == b[n..]
    ensures b + t == b[..n] + (a + t)[n..]
  {
    assert (a + t)[n..] == a[n..] + t;
    assert b == b[..n] + b[n..];
  }

  lemma UpdateConcat(a: seq<Word>, b: seq<Word>, i: nat, w: Word)
    requires i < |a| + |b|
    ensures (a + b)[i := w] == if i < |a| then a[i := w] + b else a + b[i - |a| := w]
  {
  }

  lemma {:induction false} WriteEntryFrame(file: File, c: nat, n: nat, i: nat, w: Word, x: nat)
    requires i < n && (x < c || c + Clusters(n) <= x)
    ensures Read(WriteEntry(file, c, i, w), x) == Read(file, x)
    decreases n
  {
    if i >= L2_SIZE { WriteEntryFrame(file, c + 1, n - L2_SIZE, i - L2_SIZE, w, x); }
  }

  lemma {:induction false} WriteEntryBefore(file: File, c: nat, i: nat, w: Word, x: nat)
    requires x < c
    ensures Read(WriteEntry(file, c, i, w), x) == Read(file, x)
    decreases i
  {
    if i >= L2_SIZE { WriteEntryBefore(file, c + 1, i - L2_SIZE, w, x); }
  }

  lemma WriteHead(file: File, c: nat, n: nat, i: nat, w: Word)
    requires i < L2_SIZE < n
    ensures Read(WriteEntry(file, c, i, w), c) == Read(file, c)[i := w]
    ensures ReadTable(WriteEntry(file, c, i, w), c + 1, n - L2_SIZE) == ReadTable(file, c + 1, n - L2_SIZE)
  {
    ReadTableFrame(file, WriteEntry(file, c, i, w), c + 1, n - L2_SIZE);
  }

  /** Rewriting one entry of a table that spans clusters changes that entry alone. */
  lemma {:induction false} ReadWriteEntry(file: File, c: nat, n: nat, i: nat, w: Word)
    requires i < n
    ensures ReadTable(WriteEntry(file, c, i, w), c, n) == ReadTable(file, c, n)[i := w]
    decreases n
  {
    if n <= L2_SIZE { return; }
    hide Read;
    UpdateConcat(Read(file, c), ReadTable(file, c + 1, n - L2_SIZE), i, w);
    if i >= L2_SIZE {
      WriteEntryBefore(file, c + 1, i - L2_SIZE, w, c);
      ReadWriteEntry(file, c + 1, n - L2_SIZE, i - L2_SIZE, w);
    } else {
      WriteHead(file, c, n, i, w);
    }
  }

  // ---------------------------------------------------------------------------------------
  // Sectors inside clusters

  function SectorOf(c: Cluster, k: nat): Sector
    requires k < CLUSTER_SECTORS
  {
    c[SECTOR_WORDS * k..SECTOR_WORDS * (k + 1)]
  }

  function PutSector(c: Cluster, k: nat, s: Sector): Cluster
    requires k < CLUSTER_SECTORS
  {
    c[..SECTOR_WORDS * k] + s + c[SECTOR_WORDS * (k + 1)..]
  }

  lemma SectorOfPut(c: Cluster, k: nat, s: Sector, m: nat)
    requires k < CLUSTER_SECTORS && m < CLUSTER_SECTORS
    ensures SectorOf(PutSector(c, k, s), m) == if m == k then s else SectorOf(c, m)
  {
    var d := PutSector(c, k, s);
    if m < k {
      assert d[..SECTOR_WORDS * k] == c[..SECTOR_WORDS * k];
      forall x | 0 <= x < SECTOR_WORDS ensures SectorOf(d, m)[x] == SectorOf(c, m)[x] {
        assert SectorOf(d, m)[x] == d[SECTOR_WORDS * m + x];
      }
    } else if m > k {
      assert d[SECTOR_WORDS * (k + 1)..] == c[SECTOR_WORDS * (k + 1)..];
      forall x | 0 <= x < SECTOR_WORDS ensures SectorOf(d, m)[x] == SectorOf(c, m)[x] {
        var y := SECTOR_WORDS * (m - k - 1) + x;
        assert SectorOf(d, m)[x] == d[SECTOR_WORDS * (k + 1)..][y];
        assert SectorOf(c, m)[x] == c[SECTOR_WORDS * (k + 1)..][y];
      }
    }
  }
}
