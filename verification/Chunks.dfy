/** Compressed chunks share clusters: each cluster counts the chunks that touch it. */
module Chunks {
  import opened Layout
  import opened Counting
  import opened Guest
  import opened Bytes
  import opened State

  datatype Chunk = Chunk(offset: nat, size: nat)

  ghost function Touches(chunks: seq<Chunk>): multiset<nat> {
    if chunks == [] then multiset{}
    else
      var last := chunks[|chunks| - 1];
      Touches(chunks[..|chunks| - 1]) + ByteRun(last.offset, last.size)
  }

  predicate Before(a: Chunk, b: Chunk) {
    a.offset + a.size <= b.offset
  }

  ghost predicate Apart(chunks: seq<Chunk>) {
    forall i, j :: 0 <= i < j < |chunks| ==> Before(chunks[i], chunks[j]) || Before(chunks[j], chunks[i])
  }

  ghost predicate Counted(rc: multiset<nat>, chunks: seq<Chunk>, others: multiset<nat>, c: nat) {
    rc[c] == others[c] + Touches(chunks)[c] && (others[c] == 0 || Touches(chunks)[c] == 0)
  }

  /** Chunks do not overlap, and every count is the number of chunks there plus that of other references. */
  ghost predicate Booked(rc: multiset<nat>, chunks: seq<Chunk>, others: multiset<nat>) {
    && (forall i :: 0 <= i < |chunks| ==> 1 <= chunks[i].size <= CLUSTER_BYTES)
    && Apart(chunks)
    && forall c: nat :: Counted(rc, chunks, others, c)
  }

  /** The cluster of free is in use up to free, and has been given to at most one chunk per byte. */
  ghost predicate Open(chunks: seq<Chunk>, free: nat) {
    var c := ClusterOf(free);
    && At(free) != 0
    && 1 <= Touches(chunks)[c] <= At(free)
    && forall i :: 0 <= i < |chunks| ==> chunks[i].offset + chunks[i].size <= free || Start(c + 1) <= chunks[i].offset
  }

  /** The invariant of chunk allocation; free == 0 says that no cluster is open. */
  ghost predicate Books(rc: multiset<nat>, free: nat, chunks: seq<Chunk>, others: multiset<nat>) {
    && 0 in others
    && Booked(rc, chunks, others)
    && (free != 0 ==> Open(chunks, free))
  }

  /** The open cluster cannot be counted once more. */
  ghost predicate Saturated(rc: multiset<nat>, free: nat) {
    free != 0 && rc[ClusterOf(free)] == MAX_REFCOUNT
  }

  lemma NoChunks(rc: multiset<nat>)
    requires 0 in rc
    ensures Books(rc, 0, [], rc) && Sparse(rc, 0)
  {
    forall c: nat ensures Counted(rc, [], rc, c) {}
  }

  lemma TouchesAppend(chunks: seq<Chunk>, x: Chunk)
    ensures Touches(chunks + [x]) == Touches(chunks) + ByteRun(x.offset, x.size)
  {
    assert (chunks + [x])[..|chunks|] == chunks;
  }

  lemma {:induction false} TouchesMember(chunks: seq<Chunk>, i: nat, c: nat)
    requires i < |chunks| && c in ByteRun(chunks[i].offset, chunks[i].size)
    ensures c in Touches(chunks)
  {
    if i < |chunks| - 1 { TouchesMember(chunks[..|chunks| - 1], i, c); }
  }

  /** A cluster without references holds no byte of a chunk. */
  lemma ClearCluster(rc: multiset<nat>, chunks: seq<Chunk>, others: multiset<nat>, n: nat, i: nat)
    requires Booked(rc, chunks, others) && rc[n] == 0 && i < |chunks|
    ensures chunks[i].offset + chunks[i].size <= Start(n) || Start(n + 1) <= chunks[i].offset
  {
    hide Touches, ByteRun, Start;
    assert Counted(rc, chunks, others, n);
    TouchedBy(chunks[i].offset, chunks[i].size, n);
    if n in ByteRun(chunks[i].offset, chunks[i].size) { TouchesMember(chunks, i, n); }
  }

  lemma BookedAppend(rc: multiset<nat>, chunks: seq<Chunk>, others: multiset<nat>, x: Chunk)
    requires Booked(rc, chunks, others) && 1 <= x.size <= CLUSTER_BYTES
    requires forall i :: 0 <= i < |chunks| ==> Before(chunks[i], x) || Before(x, chunks[i])
    requires forall c: nat :: c in ByteRun(x.offset, x.size) ==> others[c] == 0
    ensures Booked(rc + ByteRun(x.offset, x.size), chunks + [x], others)
  {
    hide Touches, ByteRun, Before;
    TouchesAppend(chunks, x);
    forall c: nat ensures Counted(rc + ByteRun(x.offset, x.size), chunks + [x], others, c) {
      assert Counted(rc, chunks, others, c);
    }
  }

  /** The bytes inside one cluster. */
  lemma OneCluster(c: nat, at: nat, size: nat)
    requires 1 <= size && at + size <= CLUSTER_BYTES
    ensures ByteRun(Start(c) + at, size) == multiset{c}
  {
    hide Start, ClusterOf, At;
    AddressUnique(c, at);
    AddressUnique(c, at + size - 1);
    RunExtend(c, 0);
  }

  /** The bytes from the rest of one cluster into the next. */
  lemma TwoClusters(c: nat, at: nat, size: nat)
    requires at < CLUSTER_BYTES < at + size && size <= CLUSTER_BYTES
    ensures ByteRun(Start(c) + at, size) == multiset{c} + multiset{c + 1}
  {
    hide Start, ClusterOf, At;
    NextStart(c);
    AddressUnique(c, at);
    AddressUnique(c + 1, at + size - 1 - CLUSTER_BYTES);
    RunExtend(c, 0);
    RunExtend(c, 1);
  }

  /** Where the next chunk goes after one that ends at a given byte. */
  function NextFree(end: nat): nat {
    if At(end) == 0 then 0 else end
  }

  /** The chunk follows its predecessor in the open cluster. */
  lemma PlaceInside(rc: multiset<nat>, free: nat, chunks: seq<Chunk>, others: multiset<nat>, size: nat)
    requires Books(rc, free, chunks, others) && free != 0 && 1 <= size <= CLUSTER_BYTES - At(free)
    ensures Books(rc + multiset{ClusterOf(free)}, NextFree(free + size), chunks + [Chunk(free, size)], others)
  {
    hide Touches, ByteRun, Start, ClusterOf, At;
    var c, at, x := ClusterOf(free), At(free), Chunk(free, size);
    Address(free);
    NextStart(c);
    OneCluster(c, at, size);
    assert Counted(rc, chunks, others, c);
    BookedAppend(rc, chunks, others, x);
    TouchesAppend(chunks, x);
    if at + size < CLUSTER_BYTES { AddressUnique(c, at + size); } else { AddressUnique(c + 1, 0); }
  }

  /** The chunk starts a cluster that was not in use. */
  lemma PlaceNew(rc: multiset<nat>, free: nat, chunks: seq<Chunk>, others: multiset<nat>, n: nat, size: nat)
    requires Books(rc, free, chunks, others) && rc[n] == 0 && 1 <= size <= CLUSTER_BYTES
    ensures Books(rc + multiset{n}, NextFree(Start(n) + size), chunks + [Chunk(Start(n), size)], others)
  {
    hide Touches, ByteRun, Start, ClusterOf, At;
    var x := Chunk(Start(n), size);
    OneCluster(n, 0, size);
    NextStart(n);
    assert Counted(rc, chunks, others, n);
    forall i | 0 <= i < |chunks| ensures Before(chunks[i], x) || Start(n + 1) <= chunks[i].offset {
      ClearCluster(rc, chunks, others, n, i);
    }
    BookedAppend(rc, chunks, others, x);
    TouchesAppend(chunks, x);
    if size < CLUSTER_BYTES { AddressUnique(n, size); } else { AddressUnique(n + 1, 0); }
  }

  /** The chunk fills the open cluster and goes on in the next one, which was not in use. */
  lemma PlaceAcross(rc: multiset<nat>, free: nat, chunks: seq<Chunk>, others: multiset<nat>, size: nat)
    requires Books(rc, free, chunks, others) && free != 0 && rc[ClusterOf(free) + 1] == 0
    requires CLUSTER_BYTES - At(free) < size <= CLUSTER_BYTES
    ensures Books(rc + multiset{ClusterOf(free) + 1} + multiset{ClusterOf(free)}, free + size, chunks + [Chunk(free, size)], others)
  {
    hide Touches, ByteRun, Start, ClusterOf, At;
    var c, at, x := ClusterOf(free), At(free), Chunk(free, size);
    Address(free);
    NextStart(c);
    NextStart(c + 1);
    TwoClusters(c, at, size);
    assert Counted(rc, chunks, others, c) && Counted(rc, chunks, others, c + 1);
    forall i | 0 <= i < |chunks| ensures Before(chunks[i], x) || Start(c + 2) <= chunks[i].offset {
      ClearCluster(rc, chunks, others, c + 1, i);
    }
    BookedAppend(rc, chunks, others, x);
    TouchesAppend(chunks, x);
    AddressUnique(c + 1, at + size - CLUSTER_BYTES);
    assert rc + multiset{c + 1} + multiset{c} == rc + ByteRun(free, size);
  }

  /** Other references to clusters that were not in use. */
  lemma OtherRun(rc: multiset<nat>, free: nat, chunks: seq<Chunk>, others: multiset<nat>, c: nat, n: nat)
    requires Books(rc, free, chunks, others) && forall x: nat :: c <= x < c + n ==> rc[x] == 0
    ensures Books(rc + Run(c, n), free, chunks, others + Run(c, n))
  {
    hide Touches, ByteRun;
    RunCounts(c, n);
    forall x: nat ensures Counted(rc + Run(c, n), chunks, others + Run(c, n), x) { assert Counted(rc, chunks, others, x); }
  }

  /** A chunk that is not counted in its cluster breaks the books. */
  lemma Uncounted(rc: multiset<nat>, free: nat, chunks: seq<Chunk>, others: multiset<nat>, next: nat, x: Chunk, rc': multiset<nat>)
    requires Books(rc, free, chunks, others) && x.size >= 1 && rc'[ClusterOf(x.offset)] == rc[ClusterOf(x.offset)]
    ensures !Books(rc', next, chunks + [x], others)
  {
    hide Touches;
    var c := ClusterOf(x.offset);
    TouchesAppend(chunks, x);
    assert Counted(rc, chunks, others, c);
    RunCounts(c, Touched(x.offset, x.size));
    assert !Counted(rc', chunks + [x], others, c);
  }

  /** With clusters below 64 KB a cluster never runs out of counts. */
  lemma NeverSaturated(rc: multiset<nat>, free: nat, chunks: seq<Chunk>, others: multiset<nat>)
    requires Books(rc, free, chunks, others)
    ensures Saturated(rc, free) ==> CLUSTER_SECTORS == 128 && At(free) == CLUSTER_BYTES - 1
  {
    hide Touches;
    if free != 0 { assert Counted(rc, chunks, others, ClusterOf(free)); }
  }

  /** A cluster that is open has one reference at least and at most the largest count. */
  lemma OpenCount(rc: multiset<nat>, free: nat, chunks: seq<Chunk>, others: multiset<nat>)
    requires Books(rc, free, chunks, others)
    ensures free != 0 ==> At(free) != 0 && 1 <= rc[ClusterOf(free)] <= MAX_REFCOUNT
    ensures rc[0] >= 1
  {
    hide Touches, ClusterOf;
    assert Counted(rc, chunks, others, 0);
    if free != 0 { assert Counted(rc, chunks, others, ClusterOf(free)); }
  }

  lemma StartInjective(a: nat, b: nat)
    requires Start(a) + CLUSTER_BYTES == Start(b)
    ensures b == a + 1
  {
    hide At, ClusterOf, Start;
    NextStart(a);
    AddressUnique(a + 1, 0);
    AddressUnique(b, 0);
  }

  // ---------------------------------------------------------------------------------------
  // Where the next chunk goes

  /** One reference more, unless the count is at its maximum. */
  function OneMore(rc: multiset<nat>, c: nat): multiset<nat> {
    if rc[c] == MAX_REFCOUNT then rc else rc + multiset{c}
  }

  /** The chunk fits into what is left of the open cluster. */
  predicate Fits(free: nat, size: nat) {
    free != 0 && size <= CLUSTER_BYTES - At(free)
  }

  /** The first cluster at or after index without references. */
  predicate FirstFree(rc: multiset<nat>, index: nat, c: nat) {
    index <= c && rc[c] == 0 && forall x :: index <= x < c ==> rc[x] != 0
  }

  /** A chunk is put behind the last one, or across into the next cluster if that is the first free one,
      or else at the start of the first free cluster. */
  ghost predicate Placed(rc: multiset<nat>, index: nat, free: nat, size: nat, offset: nat,
                         rc': multiset<nat>, index': nat, free': nat) {
    if Fits(free, size) then
      offset == free && free' == NextFree(free + size) && index' == index && rc' == OneMore(rc, ClusterOf(free))
    else
      && index' >= 1 && FirstFree(rc, index, index' - 1)
      && if free != 0 && index' == ClusterOf(free) + 2
         then offset == free && free' == free + size && rc' == OneMore(rc + multiset{index' - 1}, ClusterOf(free))
         else offset == Start(index' - 1) && free' == NextFree(offset + size) && rc' == rc + multiset{index' - 1}
  }

  /** The chunk is to be counted once more in a cluster whose count is at its maximum. */
  ghost predicate Crowded(rc: multiset<nat>, index: nat, free: nat, size: nat) {
    Saturated(rc, free) && (Fits(free, size) || FirstFree(rc, index, ClusterOf(free) + 1))
  }

  lemma FirstFreeUnique(rc: multiset<nat>, index: nat, c: nat, d: nat)
    requires FirstFree(rc, index, c) && FirstFree(rc, index, d)
    ensures c == d
  {
  }

  /** Allocating keeps the books exactly when the cluster is not too crowded. */
  lemma PlacedBooks(rc: multiset<nat>, index: nat, free: nat, size: nat, offset: nat, rc': multiset<nat>, index': nat, free': nat,
                    chunks: seq<Chunk>, others: multiset<nat>)
    requires Books(rc, free, chunks, others) && 1 <= size <= CLUSTER_BYTES
    requires Placed(rc, index, free, size, offset, rc', index', free')
    ensures Books(rc', free', chunks + [Chunk(offset, size)], others) <==> !Crowded(rc, index, free, size)
  {
    hide Touches, ByteRun, Start, ClusterOf, At, Books, NextFree, FirstFree;
    FreeUnreferenced(rc, index, index' - 1);
    if Fits(free, size) {
      if Saturated(rc, free) {
        Uncounted(rc, free, chunks, others, free', Chunk(free, size), rc');
      } else {
        PlaceInside(rc, free, chunks, others, size);
      }
      return;
    }
    var c := index' - 1;
    if free != 0 && c == ClusterOf(free) + 1 {
      CrossedBooks(rc, free, chunks, others, size, rc');
    } else {
      PlaceNew(rc, free, chunks, others, c, size);
      if FirstFree(rc, index, ClusterOf(free) + 1) { FirstFreeUnique(rc, index, c, ClusterOf(free) + 1); }
    }
  }

  lemma FreeUnreferenced(rc: multiset<nat>, index: nat, c: int)
    ensures c >= 0 && FirstFree(rc, index, c) ==> rc[c] == 0
  {
  }

  /** What allocating across a cluster boundary does to the books. */
  lemma CrossedBooks(rc: multiset<nat>, free: nat, chunks: seq<Chunk>, others: multiset<nat>, size: nat, rc': multiset<nat>)
    requires Books(rc, free, chunks, others) && free != 0 && CLUSTER_BYTES - At(free) < size <= CLUSTER_BYTES
    requires rc[ClusterOf(free) + 1] == 0 && rc' == OneMore(rc + multiset{ClusterOf(free) + 1}, ClusterOf(free))
    ensures Books(rc', free + size, chunks + [Chunk(free, size)], others) <==> !Saturated(rc, free)
  {
    hide Touches, ByteRun, Start, ClusterOf, At, Booked, Open;
    if Saturated(rc, free) {
      Uncounted(rc, free, chunks, others, free + size, Chunk(free, size), rc');
    } else {
      PlaceAcross(rc, free, chunks, others, size);
    }
  }

  /** Half of the bytes of the open cluster, at most, start a chunk. */
  predicate Sparse(rc: multiset<nat>, free: nat) {
    free != 0 ==> 2 * rc[ClusterOf(free)] <= At(free) + 2
  }

  /** It stays so while chunks have at least two bytes. */
  lemma PlacedSparse(rc: multiset<nat>, index: nat, free: nat, size: nat, offset: nat, rc': multiset<nat>, index': nat, free': nat)
    requires Placed(rc, index, free, size, offset, rc', index', free') && Sparse(rc, free) && 2 <= size <= CLUSTER_BYTES
    ensures Sparse(rc', free')
  {
    hide Start, ClusterOf, At, FirstFree, OneMore;
    FreeUnreferenced(rc, index, index' - 1);
    if Fits(free, size) {
      Address(free);
      var c, at := ClusterOf(free), At(free);
      if at + size < CLUSTER_BYTES {
        AddressUnique(c, at + size);
        OneMoreIs(rc, c);
      } else {
        NextStart(c);
        AddressUnique(c + 1, 0);
      }
      return;
    }
    var n := index' - 1;
    if free != 0 && n == ClusterOf(free) + 1 {
      var c, at := ClusterOf(free), At(free);
      Address(free);
      NextStart(c);
      AddressUnique(c + 1, at + size - CLUSTER_BYTES);
      OneMoreIs(rc + multiset{n}, c);
    } else if size < CLUSTER_BYTES {
      AddressUnique(n, size);
    } else {
      NextStart(n);
      AddressUnique(n + 1, 0);
    }
  }

  lemma OneMoreIs(rc: multiset<nat>, c: nat)
    ensures OneMore(rc, c)[c] <= rc[c] + 1 && forall x: nat :: x != c ==> OneMore(rc, c)[x] == rc[x]
  {
  }

  lemma SparseRoom(rc: multiset<nat>, free: nat)
    requires Sparse(rc, free)
    ensures !Saturated(rc, free)
  {
    hide ClusterOf;
  }

  lemma OtherSparse(rc: multiset<nat>, free: nat, chunks: seq<Chunk>, others: multiset<nat>, c: nat, n: nat)
    requires Books(rc, free, chunks, others) && Sparse(rc, free) && forall x: nat :: c <= x < c + n ==> rc[x] == 0
    ensures Sparse(rc + Run(c, n), free)
  {
    hide ClusterOf, At, Books;
    OpenCount(rc, free, chunks, others);
    RunCounts(c, n);
  }

  function Dropped(chunks: seq<Chunk>, k: nat): seq<Chunk>
    requires k < |chunks|
  {
    chunks[..k] + chunks[k + 1..]
  }

  lemma {:induction false} TouchesDropped(chunks: seq<Chunk>, k: nat)
    requires k < |chunks|
    ensures Touches(chunks) == Touches(Dropped(chunks, k)) + ByteRun(chunks[k].offset, chunks[k].size)
  {
    hide ByteRun;
    var n := |chunks| - 1;
    if k == n {
      assert Dropped(chunks, k) == chunks[..n];
    } else {
      TouchesDropped(chunks[..n], k);
      assert Dropped(chunks, k) == Dropped(chunks[..n], k) + [chunks[n]];
      TouchesAppend(Dropped(chunks[..n], k), chunks[n]);
    }
  }

  /** Freeing the packed entry of a chunk takes exactly that chunk out of the books. */
  lemma FreeUndoes(rc: multiset<nat>, chunks: seq<Chunk>, others: multiset<nat>, k: nat)
    requires Booked(rc, chunks, others) && k < |chunks| && chunks[k].offset < CSIZE_UNIT
    ensures var run := EntryClusters(Pack(chunks[k].offset, chunks[k].size));
      run <= rc && Booked(rc - run, Dropped(chunks, k), others)
  {
    hide Touches, ByteRun, EntryClusters, Before;
    var x := chunks[k];
    PackRoundTrip(x.offset, x.size);
    TouchesDropped(chunks, k);
    var run := ByteRun(x.offset, x.size);
    forall c: nat ensures run[c] <= rc[c] && Counted(rc - run, Dropped(chunks, k), others, c) {
      assert Counted(rc, chunks, others, c);
    }
    DroppedApart(chunks, k);
  }

  lemma DroppedApart(chunks: seq<Chunk>, k: nat)
    requires Apart(chunks) && k < |chunks|
    ensures Apart(Dropped(chunks, k))
  {
    hide Before;
    var d := Dropped(chunks, k);
    forall i, j | 0 <= i < j < |d| ensures Before(d[i], d[j]) || Before(d[j], d[i]) {
      assert d[i] == chunks[if i < k then i else i + 1] && d[j] == chunks[if j < k then j else j + 1];
    }
  }
}
