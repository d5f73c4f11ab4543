/** Reference counting: how often the tables of an image name each cluster.
    These sums are what the consistency check of the driver recomputes. */
module Counting {
  import opened Layout

  predicate InRun(first: nat, n: nat, x: nat) {
    first <= x < first + n
  }

  /** The clusters first .. first + n - 1, each once. */
  function Run(first: nat, n: nat): multiset<nat> {
    multiset(set x: nat | x < first + n && InRun(first, n, x))
  }

  function Ref(w: Word): multiset<nat> {
    if w == ZERO then multiset{} else multiset{w.cluster}
  }

  /** Clusters named by the entries of table t from index i on. */
  function EntryRefs(t: seq<Word>, i: nat): multiset<nat>
    requires i <= |t|
    decreases |t| - i
  {
    if i == |t| then multiset{} else Ref(t[i]) + EntryRefs(t, i + 1)
  }

  /** Clusters named by the L2 table that an L1 entry points to. */
  function PathRefs(file: File, w: Word): multiset<nat> {
    if w == ZERO then multiset{} else EntryRefs(Read(file, w.cluster), 0)
  }

  /** Clusters named through the L2 tables of the L1 entries of t from index i on. */
  function DataRefs(file: File, t: seq<Word>, i: nat): multiset<nat>
    requires i <= |t|
    decreases |t| - i
  {
    if i == |t| then multiset{} else PathRefs(file, t[i]) + DataRefs(file, t, i + 1)
  }

  // ---------------------------------------------------------------------------------------

  lemma RunCounts(first: nat, n: nat)
    ensures forall x: nat :: Run(first, n)[x] == if first <= x < first + n then 1 else 0
  {
  }

  lemma RunExtend(first: nat, n: nat)
    ensures Run(first, n + 1) == Run(first, n) + multiset{first + n}
    ensures Run(first, 0) == multiset{}
  {
  }

  lemma RunOfOne(c: nat)
    ensures Run(c, 1) == multiset{c}
  {
    RunExtend(c, 0);
  }

  lemma {:induction false} EntryRefsSame(t: seq<Word>, u: seq<Word>, i: nat)
    requires |t| == |u| && i <= |t|
    requires forall j :: i <= j < |t| ==> Ref(t[j]) == Ref(u[j])
    ensures EntryRefs(t, i) == EntryRefs(u, i)
    decreases |t| - i
  {
    if i < |t| {
      assert Ref(t[i]) == Ref(u[i]);
      EntryRefsSame(t, u, i + 1);
    }
  }

  lemma SameTableRefs(t: seq<Word>, u: seq<Word>, i: nat)
    requires SameTable(t, u) && i <= |t|
    ensures EntryRefs(t, i) == EntryRefs(u, i)
  {
    forall j | i <= j < |t| ensures Ref(t[j]) == Ref(u[j]) { assert SameEntry(t[j], u[j]); }
    EntryRefsSame(t, u, i);
  }

  lemma {:induction false} EntryRefsUpdateAt(t: seq<Word>, i: nat, j: nat, w: Word, c: nat)
    requires i <= j < |t|
    ensures EntryRefs(t[j := w], i)[c] + Ref(t[j])[c] == EntryRefs(t, i)[c] + Ref(w)[c]
    decreases j - i
  {
    if i == j {
      EntryRefsSame(t, t[j := w], i + 1);
    } else {
      EntryRefsUpdateAt(t, i + 1, j, w, c);
    }
  }

  lemma EntryRefsUpdate(t: seq<Word>, j: nat, w: Word)
    requires j < |t|
    ensures forall c: nat :: EntryRefs(t[j := w], 0)[c] + Ref(t[j])[c] == EntryRefs(t, 0)[c] + Ref(w)[c]
  {
    forall c: nat ensures EntryRefs(t[j := w], 0)[c] + Ref(t[j])[c] == EntryRefs(t, 0)[c] + Ref(w)[c] {
      EntryRefsUpdateAt(t, 0, j, w, c);
    }
  }

  lemma {:induction false} EntryRefsMember(t: seq<Word>, i: nat, j: nat)
    requires i <= j < |t| && t[j] != ZERO
    ensures t[j].cluster in EntryRefs(t, i)
    decreases j - i
  {
    if i < j { EntryRefsMember(t, i + 1, j); }
  }

  lemma {:induction false} EntryRefsWitness(t: seq<Word>, i: nat, c: nat) returns (j: nat)
    requires i <= |t| && c in EntryRefs(t, i)
    ensures i <= j < |t| && t[j] != ZERO && t[j].cluster == c
    decreases |t| - i
  {
    if t[i] != ZERO && t[i].cluster == c { j := i; } else { j := EntryRefsWitness(t, i + 1, c); }
  }

  /** Two entries that name the same cluster count twice. */
  lemma EntryRefsTwice(t: seq<Word>, j: nat, k: nat)
    requires j < k < |t| && t[j] != ZERO && t[k] != ZERO && t[j].cluster == t[k].cluster
    ensures EntryRefs(t, 0)[t[j].cluster] >= 2
  {
    var u := t[j := ZERO];
    EntryRefsUpdate(t, j, ZERO);
    EntryRefsMember(u, 0, k);
  }

  lemma {:induction false} EntryRefsAppendZeros(t: seq<Word>, z: seq<Word>, i: nat)
    requires i <= |t| && forall j :: 0 <= j < |z| ==> z[j] == ZERO
    ensures EntryRefs(t + z, i) == EntryRefs(t, i)
    decreases |t| - i
  {
    if i < |t| { EntryRefsAppendZeros(t, z, i + 1); } else { EntryRefsZeros(t + z, i); }
  }

  lemma {:induction false} EntryRefsZeros(t: seq<Word>, i: nat)
    requires i <= |t| && forall j :: i <= j < |t| ==> t[j] == ZERO
    ensures EntryRefs(t, i) == multiset{}
    decreases |t| - i
  {
    if i < |t| { EntryRefsZeros(t, i + 1); }
  }

  lemma {:induction false} DataRefsSame(file: File, other: File, t: seq<Word>, u: seq<Word>, i: nat)
    requires |t| == |u| && i <= |t|
    requires forall j :: i <= j < |t| ==> PathRefs(file, t[j]) == PathRefs(other, u[j])
    ensures DataRefs(file, t, i) == DataRefs(other, u, i)
    decreases |t| - i
  {
    if i < |t| {
      assert PathRefs(file, t[i]) == PathRefs(other, u[i]);
      DataRefsSame(file, other, t, u, i + 1);
    }
  }

  lemma {:induction false} DataRefsUpdateAt(file: File, t: seq<Word>, i: nat, j: nat, w: Word, c: nat)
    requires i <= j < |t|
    ensures DataRefs(file, t[j := w], i)[c] + PathRefs(file, t[j])[c] == DataRefs(file, t, i)[c] + PathRefs(file, w)[c]
    decreases j - i
  {
    if i == j {
      DataRefsSame(file, file, t, t[j := w], i + 1);
    } else {
      DataRefsUpdateAt(file, t, i + 1, j, w, c);
    }
  }

  lemma DataRefsUpdate(file: File, t: seq<Word>, j: nat, w: Word)
    requires j < |t|
    ensures forall c: nat ::
      DataRefs(file, t[j := w], 0)[c] + PathRefs(file, t[j])[c] == DataRefs(file, t, 0)[c] + PathRefs(file, w)[c]
  {
    forall c: nat
      ensures DataRefs(file, t[j := w], 0)[c] + PathRefs(file, t[j])[c] == DataRefs(file, t, 0)[c] + PathRefs(file, w)[c]
    {
      DataRefsUpdateAt(file, t, 0, j, w, c);
    }
  }

  lemma {:induction false} DataRefsAppendZeros(file: File, t: seq<Word>, z: seq<Word>, i: nat)
    requires i <= |t| && forall j :: 0 <= j < |z| ==> z[j] == ZERO
    ensures DataRefs(file, t + z, i) == DataRefs(file, t, i)
    decreases |t| - i
  {
    if i < |t| { DataRefsAppendZeros(file, t, z, i + 1); } else { DataRefsZeros(file, t + z, i); }
  }

  lemma {:induction false} DataRefsZeros(file: File, t: seq<Word>, i: nat)
    requires i <= |t| && forall j :: i <= j < |t| ==> t[j] == ZERO
    ensures DataRefs(file, t, i) == multiset{}
    decreases |t| - i
  {
    if i < |t| { DataRefsZeros(file, t, i + 1); }
  }

  lemma {:induction false} PathWithin(file: File, t: seq<Word>, i: nat, j: nat)
    requires i <= j < |t|
    ensures PathRefs(file, t[j]) <= DataRefs(file, t, i)
    decreases j - i
  {
    hide PathRefs;
    if i < j { PathWithin(file, t, i + 1, j); }
  }

  /** Two L1 entries whose L2 tables both name c make c count twice. */
  lemma DataRefsTwice(file: File, t: seq<Word>, j: nat, k: nat, c: nat)
    requires j < k < |t| && c in PathRefs(file, t[j]) && c in PathRefs(file, t[k])
    ensures DataRefs(file, t, 0)[c] >= 2
  {
    var u := t[j := ZERO];
    DataRefsUpdate(file, t, j, ZERO);
    PathWithin(file, u, 0, k);
    assert DataRefs(file, u, 0)[c] >= PathRefs(file, u[k])[c];
  }

  lemma EntryRefsStep(t: seq<Word>, i: nat)
    requires i < |t|
    ensures EntryRefs(t, i) == Ref(t[i]) + EntryRefs(t, i + 1)
    ensures EntryRefs(t, |t|) == multiset{}
  {
  }

  lemma {:induction false} EntryRefsAppend(t: seq<Word>, w: Word, i: nat)
    requires i <= |t|
    ensures forall c: nat :: EntryRefs(t + [w], i)[c] == EntryRefs(t, i)[c] + Ref(w)[c]
    decreases |t| - i
  {
    if i == |t| {
      assert EntryRefs(t + [w], i) == Ref(w) + EntryRefs(t + [w], i + 1);
      return;
    }
    EntryRefsAppend(t, w, i + 1);
    assert (t + [w])[i] == t[i];
  }

  /** The references of v and those set aside are together those of u and the new ones. */
  ghost predicate Tally(v: seq<Word>, aside: multiset<nat>, u: seq<Word>, more: multiset<nat>) {
    forall d: nat :: EntryRefs(v, 0)[d] + aside[d] == EntryRefs(u, 0)[d] + more[d]
  }

  function SetAside(aside: seq<Word>, w: Word): seq<Word> {
    if w == ZERO then aside else aside + [w]
  }

  /** Entry x of v is replaced by one that names a cluster; the old entry, unless unused, is set aside. */
  lemma ReplaceEntry(v: seq<Word>, x: nat, w: Word, aside: seq<Word>, u: seq<Word>, more: multiset<nat>)
    requires x < |v| && w != ZERO
    requires Tally(v, EntryRefs(aside, 0), u, more)
    ensures Tally(v[x := w], EntryRefs(SetAside(aside, v[x]), 0), u, more + multiset{w.cluster})
  {
    hide EntryRefs;
    EntryRefsUpdate(v, x, w);
    EntryRefsAppend(aside, v[x], 0);
    forall d: nat
      ensures EntryRefs(v[x := w], 0)[d] + EntryRefs(SetAside(aside, v[x]), 0)[d]
              == EntryRefs(u, 0)[d] + (more + multiset{w.cluster})[d]
    {
      assert EntryRefs(v[x := w], 0)[d] + Ref(v[x])[d] == EntryRefs(v, 0)[d] + Ref(w)[d];
      assert EntryRefs(v, 0)[d] + EntryRefs(aside, 0)[d] == EntryRefs(u, 0)[d] + more[d];
    }
  }

  lemma TallyStart(u: seq<Word>)
    ensures Tally(u, EntryRefs([], 0), u, multiset{})
  {
  }
}
