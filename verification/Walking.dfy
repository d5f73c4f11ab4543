/** The walk over all references of one L1 table: counts moved one by one, flags recomputed on the way. */
module Walking {
  import opened Layout
  import opened Counting
  import opened Forest
  import opened Steps
  import opened State

  /** All references made through one root. */
  ghost function RootRefs(file: File, t: seq<Word>): multiset<nat> {
    EntryRefs(t, 0) + DataRefs(file, t, 0)
  }

  /** Counts on the way from `from`: the references in `rest` are still to be moved, out of `all`. */
  ghost predicate Moved(addend: int, from: multiset<nat>, now: multiset<nat>, all: multiset<nat>, rest: multiset<nat>) {
    forall x: nat :: MovedAt(addend, from, now, all, rest, x)
  }

  ghost predicate MovedAt(addend: int, from: multiset<nat>, now: multiset<nat>, all: multiset<nat>, rest: multiset<nat>, x: nat) {
    && rest[x] <= all[x]
    && (if addend == 1 then now[x] + rest[x] == from[x] + all[x]
        else if addend == -1 then now[x] + all[x] == from[x] + rest[x]
        else now[x] == from[x])
  }

  /** Moving is possible: no count overflows or falls below zero, and added references are to clusters in use. */
  ghost predicate Room(addend: int, from: multiset<nat>, all: multiset<nat>) {
    forall x: nat :: RoomAt(addend, from, all, x)
  }

  ghost predicate RoomAt(addend: int, from: multiset<nat>, all: multiset<nat>, x: nat) {
    && from[x] <= MAX_REFCOUNT
    && (addend == 1 ==> from[x] + all[x] <= MAX_REFCOUNT && (all[x] > 0 ==> from[x] > 0))
    && (addend == -1 ==> all[x] <= from[x])
  }

  lemma MovedStart(addend: int, from: multiset<nat>, all: multiset<nat>)
    ensures Moved(addend, from, from, all, all)
  {
    forall x: nat ensures MovedAt(addend, from, from, all, all, x) {}
  }

  /** One reference to c is moved. */
  lemma MovedStep(addend: int, from: multiset<nat>, now: multiset<nat>, all: multiset<nat>, c: nat, rest: multiset<nat>)
    requires addend in {-1, 0, 1} && Room(addend, from, all) && Moved(addend, from, now, all, multiset{c} + rest)
    ensures 0 <= now[c] + addend <= MAX_REFCOUNT
    ensures Moved(addend, from, now[c := now[c] + addend], all, rest)
    ensures addend == 1 ==> now[c] + addend >= 2
  {
    assert MovedAt(addend, from, now, all, multiset{c} + rest, c);
    assert RoomAt(addend, from, all, c);
    var next := now[c := now[c] + addend];
    forall x: nat ensures MovedAt(addend, from, next, all, rest, x) {
      assert MovedAt(addend, from, now, all, multiset{c} + rest, x);
    }
  }

  lemma MovedEnd(addend: int, from: multiset<nat>, now: multiset<nat>, all: multiset<nat>)
    requires Moved(addend, from, now, all, multiset{}) && Room(addend, from, all)
    ensures addend == 1 ==> now == from + all
    ensures addend == -1 ==> all <= from && now == from - all
    ensures addend == 0 ==> now == from
    ensures addend == 1 ==> forall x: nat :: x in all ==> now[x] >= 2
  {
    forall x: nat
      ensures addend == 1 ==> now[x] == (from + all)[x] && (x in all ==> now[x] >= 2)
      ensures addend == -1 ==> all[x] <= from[x] && now[x] == (from - all)[x]
      ensures addend == 0 ==> now[x] == from[x]
    {
      assert MovedAt(addend, from, now, all, multiset{}, x);
      assert RoomAt(addend, from, all, x);
    }
  }

  /** What the walk leaves of the flag of an entry: recomputed, or cleared when references were added. */
  predicate FlagDone(addend: int, rc: multiset<nat>, w: Word) {
    && (addend == 0 ==> FlagOk(rc, w))
    && (addend == 1 ==> !w.copied)
  }

  predicate FlagsDone(addend: int, rc: multiset<nat>, t: seq<Word>, n: nat)
    requires n <= |t|
  {
    forall j :: 0 <= j < n ==> FlagDone(addend, rc, t[j])
  }

  /** The flag the walk writes, given the count it saw. */
  function Flagged(w: Word, count: int): Word {
    w.(copied := count == 1)
  }

  predicate TablesDone(addend: int, rc: multiset<nat>, file: File, t: seq<Word>, n: nat)
    requires n <= |t|
  {
    forall i :: 0 <= i < n && t[i] != ZERO ==> FlagsDone(addend, rc, Read(file, t[i].cluster), L2_SIZE)
  }

  /** The tables on the way, compared with what they were when the walk began. */
  ghost predicate OnTheWay(file: File, other: File, t: seq<Word>, u: seq<Word>) {
    && AlikeRoot(file, t, other, u)
    && forall x: nat :: x !in EntryRefs(t, 0) ==> Read(file, x) == Read(other, x)
  }

  lemma OnTheWayStep(file: File, other: File, next: File, t: seq<Word>, u: seq<Word>, i: nat, w: Word)
    requires OnTheWay(file, other, t, u) && i < |t| && t[i] != ZERO
    requires SameTable(Read(other, t[i].cluster), Read(next, t[i].cluster))
    requires forall x: nat :: x != t[i].cluster ==> Read(next, x) == Read(other, x)
    requires SameEntry(u[i], w)
    ensures OnTheWay(file, next, t, u[i := w])
  {
    hide EntryRefs, Read;
    EntryRefsMember(t, 0, i);
    assert SameEntry(t[i], u[i]);
    forall k | 0 <= k < |t| && t[k] != ZERO
      ensures SameTable(Read(file, t[k].cluster), Read(next, t[k].cluster))
    {
      assert SameTable(Read(file, t[k].cluster), Read(other, t[k].cluster));
      if t[k].cluster == t[i].cluster {
        SameTableTrans(Read(file, t[k].cluster), Read(other, t[k].cluster), Read(next, t[k].cluster));
      }
    }
    forall k | 0 <= k < |t| ensures SameEntry(t[k], u[i := w][k]) { assert SameEntry(t[k], u[k]); }
  }

  lemma SameTableTrans(a: seq<Word>, b: seq<Word>, c: seq<Word>)
    requires SameTable(a, b) && SameTable(b, c)
    ensures SameTable(a, c)
  {
    forall j | 0 <= j < |a| ensures SameEntry(a[j], c[j]) {
      assert SameEntry(a[j], b[j]) && SameEntry(b[j], c[j]);
    }
  }

  /** The walk is over: what it did to counts, tables and flags. */
  ghost predicate Walked(addend: int, file: File, other: File, rc: multiset<nat>, rc': multiset<nat>, c: nat,
                         t: seq<Word>, u: seq<Word>) {
    && AlikeRoot(file, t, other, u)
    && (forall x: nat :: x !in EntryRefs(t, 0) && !(c <= x < c + Clusters(|t|)) ==> Read(file, x) == Read(other, x))
    && Rest(file, c, |t|) == Rest(other, c, |t|)
    && (addend == 1 ==> rc' == rc + (EntryRefs(t, 0) + DataRefs(file, t, 0)))
    && (addend == -1 ==> EntryRefs(t, 0) + DataRefs(file, t, 0) <= rc && rc' == rc - (EntryRefs(t, 0) + DataRefs(file, t, 0)))
    && (addend == 0 ==> rc' == rc)
    && (addend >= 0 ==> FlagRoot(other, rc', u))
  }

  /** Roots whose references are to be walked: plain, and with the L1 table itself apart from the L2 tables. */
  ghost predicate Walkable(file: File, c: nat, t: seq<Word>) {
    && PlainRoot(file, t)
    && 0 !in EntryRefs(t, 0) && 0 !in DataRefs(file, t, 0)
    && forall x: nat :: c <= x < c + Clusters(|t|) ==> x !in EntryRefs(t, 0)
  }

  lemma WalkFinish(addend: int, file: File, middle: File, other: File, rc: multiset<nat>, rc': multiset<nat>, c: nat,
                   t: seq<Word>, u: seq<Word>)
    requires addend in {-1, 0, 1} && Walkable(file, c, t) && OnTheWay(file, middle, t, u)
    requires Room(addend, rc, EntryRefs(t, 0) + DataRefs(file, t, 0))
    requires Moved(addend, rc, rc', EntryRefs(t, 0) + DataRefs(file, t, 0), multiset{})
    requires FlagsDone(addend, rc', u, |u|) && TablesDone(addend, rc', middle, u, |u|)
    requires forall x: nat :: !(c <= x < c + Clusters(|t|)) ==> Read(middle, x) == Read(other, x)
    requires Rest(file, c, |t|) == Rest(other, c, |t|)
    ensures Walked(addend, file, other, rc, rc', c, t, u)
  {
    hide Rest, EntryRefs, DataRefs, Read, Clusters, Moved, Room, FlagsDone, FlagTable, TablesDone, FlagRoot, AlikeRoot, PlainRoot;
    MovedEnd(addend, rc, rc', EntryRefs(t, 0) + DataRefs(file, t, 0));
    WalkFrame(file, middle, other, c, t, u);
    AlikeRefs(file, t, middle, u);
    if addend >= 0 { WalkFlags(addend, middle, other, rc', EntryRefs(t, 0) + DataRefs(file, t, 0), u); }
  }

  lemma WalkFrame(file: File, middle: File, other: File, c: nat, t: seq<Word>, u: seq<Word>)
    requires Walkable(file, c, t) && OnTheWay(file, middle, t, u)
    requires forall x: nat :: !(c <= x < c + Clusters(|t|)) ==> Read(middle, x) == Read(other, x)
    ensures AlikeRoot(file, t, other, u)
    ensures forall i :: 0 <= i < |u| && u[i] != ZERO ==> Read(middle, u[i].cluster) == Read(other, u[i].cluster)
  {
    hide EntryRefs, DataRefs, Read, Clusters, PlainRoot;
    forall i | 0 <= i < |t| && t[i] != ZERO
      ensures Read(middle, t[i].cluster) == Read(other, t[i].cluster)
    {
      EntryRefsMember(t, 0, i);
    }
    forall i | 0 <= i < |u| && u[i] != ZERO ensures Read(middle, u[i].cluster) == Read(other, u[i].cluster) {
      SameEntryZero(t, u, i);
    }
  }

  lemma WalkFlags(addend: int, middle: File, other: File, rc: multiset<nat>, all: multiset<nat>, u: seq<Word>)
    requires addend in {0, 1}
    requires all == EntryRefs(u, 0) + DataRefs(middle, u, 0)
    requires addend == 1 ==> forall x: nat :: x in all ==> rc[x] >= 2
    requires FlagsDone(addend, rc, u, |u|) && TablesDone(addend, rc, middle, u, |u|)
    requires forall i :: 0 <= i < |u| && u[i] != ZERO ==> Read(middle, u[i].cluster) == Read(other, u[i].cluster)
    ensures FlagRoot(other, rc, u)
  {
    hide EntryRefs, DataRefs, Read;
    forall i | 0 <= i < |u| ensures FlagOk(rc, u[i]) {
      assert FlagDone(addend, rc, u[i]);
      if u[i] != ZERO { EntryRefsMember(u, 0, i); }
    }
    forall i | 0 <= i < |u| && u[i] != ZERO ensures FlagTable(rc, Read(other, u[i].cluster)) {
      assert FlagsDone(addend, rc, Read(middle, u[i].cluster), L2_SIZE);
      forall j | 0 <= j < L2_SIZE ensures FlagOk(rc, Read(middle, u[i].cluster)[j]) {
        assert FlagDone(addend, rc, Read(middle, u[i].cluster)[j]);
        if Read(middle, u[i].cluster)[j] != ZERO { DataMember(middle, u, i, j); }
      }
    }
  }

  lemma FlagsKept(addend: int, rc: multiset<nat>, other: multiset<nat>, t: seq<Word>, n: nat)
    requires n <= |t| && FlagsDone(addend, rc, t, n) && (addend == 0 ==> rc == other)
    ensures FlagsDone(addend, other, t, n)
  {
    forall j | 0 <= j < n ensures FlagDone(addend, other, t[j]) { assert FlagDone(addend, rc, t[j]); }
  }

  lemma TablesKept(addend: int, rc: multiset<nat>, other: multiset<nat>, file: File, next: File, t: seq<Word>, i: nat)
    requires i < |t| && t[i] != ZERO && TablesDone(addend, rc, file, t, i) && (addend == 0 ==> rc == other)
    requires forall x: nat :: x != t[i].cluster ==> Read(next, x) == Read(file, x)
    requires FlagsDone(addend, other, Read(next, t[i].cluster), L2_SIZE)
    ensures TablesDone(addend, other, next, t, i + 1)
  {
    hide Read, FlagsDone;
    forall k | 0 <= k < i + 1 && t[k] != ZERO ensures FlagsDone(addend, other, Read(next, t[k].cluster), L2_SIZE) {
      if t[k].cluster != t[i].cluster { FlagsKept(addend, rc, other, Read(file, t[k].cluster), L2_SIZE); }
    }
  }

  lemma SameEntryZero(t: seq<Word>, u: seq<Word>, i: nat)
    requires SameTable(t, u) && i < |t|
    ensures t[i] == ZERO <==> u[i] == ZERO
    ensures t[i].cluster == u[i].cluster
  {
    assert SameEntry(t[i], u[i]);
  }

  lemma DataRefsStep(file: File, t: seq<Word>, i: nat)
    requires i < |t|
    ensures DataRefs(file, t, i) == PathRefs(file, t[i]) + DataRefs(file, t, i + 1)
    ensures DataRefs(file, t, |t|) == multiset{}
  {
  }

  /** The references still to be moved, entry by entry. */
  lemma RestStep(file: File, t: seq<Word>, i: nat)
    requires i < |t|
    ensures t[i] == ZERO ==>
      EntryRefs(t, i) + DataRefs(file, t, i) == EntryRefs(t, i + 1) + DataRefs(file, t, i + 1)
    ensures t[i] != ZERO ==>
      EntryRefs(t, i) + DataRefs(file, t, i)
      == EntryRefs(Read(file, t[i].cluster), 0) + (multiset{t[i].cluster} + (EntryRefs(t, i + 1) + DataRefs(file, t, i + 1)))
  {
    hide EntryRefs, DataRefs;
    EntryRefsStep(t, i);
    DataRefsStep(file, t, i);
  }

  lemma SameEntrySelf(w: Word)
    ensures SameEntry(w, w)
  {
  }

  lemma FlagZero(addend: int, rc: multiset<nat>, w: Word)
    requires w == ZERO
    ensures FlagDone(addend, rc, w)
  {
  }

  lemma TableStep(u: seq<Word>, j: nat, rest: multiset<nat>)
    requires j < |u|
    ensures u[j] == ZERO ==> EntryRefs(u, j) + rest == EntryRefs(u, j + 1) + rest
    ensures u[j] != ZERO ==> EntryRefs(u, j) + rest == multiset{u[j].cluster} + (EntryRefs(u, j + 1) + rest)
  {
    hide EntryRefs;
    EntryRefsStep(u, j);
  }

  lemma ReadPutAll(file: File, c: nat, v: Cluster)
    ensures forall x: nat :: Read(file[c := v], x) == if x == c then v else Read(file, x)
  {
    forall x: nat ensures Read(file[c := v], x) == if x == c then v else Read(file, x) { ReadPut(file, c, v, x); }
  }

  lemma OnTheWayStart(file: File, t: seq<Word>)
    ensures OnTheWay(file, file, t, t)
  {
    hide EntryRefs, Read;
    forall i | 0 <= i < |t| ensures SameEntry(t[i], t[i]) { SameEntrySelf(t[i]); }
    forall i | 0 <= i < |t| && t[i] != ZERO ensures SameTable(Read(file, t[i].cluster), Read(file, t[i].cluster)) {
      forall j | 0 <= j < L2_SIZE ensures SameEntry(Read(file, t[i].cluster)[j], Read(file, t[i].cluster)[j]) {
        SameEntrySelf(Read(file, t[i].cluster)[j]);
      }
    }
  }

  /** Entry i on the way: its table names what it named when the walk began, nothing in cluster 0. */
  lemma TableOnTheWay(file: File, other: File, c: nat, t: seq<Word>, u: seq<Word>, i: nat)
    requires Walkable(file, c, t) && OnTheWay(file, other, t, u) && i < |t| && t[i] != ZERO
    ensures EntryRefs(Read(other, t[i].cluster), 0) == EntryRefs(Read(file, t[i].cluster), 0)
    ensures 0 !in EntryRefs(Read(file, t[i].cluster), 0) && t[i].cluster != 0
  {
    hide EntryRefs, DataRefs, Read, Clusters;
    SameTableRefs(Read(file, t[i].cluster), Read(other, t[i].cluster), 0);
    EntryRefsMember(t, 0, i);
    PathWithin(file, t, 0, i);
  }

  lemma TablesWithEntry(addend: int, rc: multiset<nat>, file: File, u: seq<Word>, i: nat, w: Word)
    requires i < |u| && u[i] != ZERO && TablesDone(addend, rc, file, u, i + 1)
    requires SameEntry(u[i], w)
    ensures TablesDone(addend, rc, file, u[i := w], i + 1)
  {
    hide Read, FlagsDone;
  }

  lemma TablesSkip(addend: int, rc: multiset<nat>, file: File, u: seq<Word>, i: nat)
    requires i < |u| && u[i] == ZERO && TablesDone(addend, rc, file, u, i)
    ensures TablesDone(addend, rc, file, u, i + 1)
  {
    hide Read, FlagsDone;
  }

  lemma OnTheWaySize(file: File, other: File, t: seq<Word>, u: seq<Word>)
    requires OnTheWay(file, other, t, u)
    ensures |t| == |u|
  {
  }

  lemma TablesRecount(addend: int, rc: multiset<nat>, other: multiset<nat>, file: File, u: seq<Word>, n: nat)
    requires n <= |u| && TablesDone(addend, rc, file, u, n) && (addend == 0 ==> rc == other)
    ensures TablesDone(addend, other, file, u, n)
  {
    hide Read, FlagsDone;
    forall i | 0 <= i < n && u[i] != ZERO ensures FlagsDone(addend, other, Read(file, u[i].cluster), L2_SIZE) {
      FlagsKept(addend, rc, other, Read(file, u[i].cluster), L2_SIZE);
    }
  }

  /** Writing the table back, if it changed, ends the walk. */
  lemma WalkedFile(addend: int, file: File, middle: File, rc: multiset<nat>, rc': multiset<nat>, c: nat, t: seq<Word>, u: seq<Word>)
    requires addend in {-1, 0, 1} && Walkable(file, c, t) && OnTheWay(file, middle, t, u) && t == ReadTable(file, c, |t|)
    requires Room(addend, rc, EntryRefs(t, 0) + DataRefs(file, t, 0))
    requires Moved(addend, rc, rc', EntryRefs(t, 0) + DataRefs(file, t, 0), multiset{})
    requires FlagsDone(addend, rc', u, |u|) && TablesDone(addend, rc', middle, u, |u|)
    ensures var other := if u != t then WriteTable(middle, c, u) else middle;
            Walked(addend, file, other, rc, rc', c, t, u) && ReadTable(other, c, |t|) == u
  {
    OnTheWaySize(file, middle, t, u);
    hide EntryRefs, DataRefs, Read, Clusters, Moved, Room, FlagsDone, TablesDone, Walked, WriteTable, ReadTable, Rest;
    var other := if u != t then WriteTable(middle, c, u) else middle;
    forall x: nat | !(c <= x < c + Clusters(|t|)) ensures Read(middle, x) == Read(other, x) {
      if u != t { WriteTableFrame(middle, c, u, x); }
    }
    WalkableFrame(file, middle, c, t, u);
    if u != t {
      ReadWriteTable(middle, c, u);
      RestWrite(middle, c, u);
    }
    WalkFinish(addend, file, middle, other, rc, rc', c, t, u);
  }

  lemma WalkableFrame(file: File, middle: File, c: nat, t: seq<Word>, u: seq<Word>)
    requires Walkable(file, c, t) && OnTheWay(file, middle, t, u)
    ensures ReadTable(file, c, |t|) == ReadTable(middle, c, |t|) && Rest(file, c, |t|) == Rest(middle, c, |t|)
  {
    hide EntryRefs, DataRefs, Read, Clusters, PlainRoot, AlikeRoot;
    ReadTableFrame(file, middle, c, |t|);
    RestFrame(file, middle, c, |t|);
  }
}
