/** What a user expects of a disk with snapshots: every snapshot is a full copy of the disk as it was. */
module Library {
  import opened Layout
  import opened Transfer

  type Disk = imap<nat, Sector>

  datatype Saved = Saved(id: string, name: string, disk: Disk)

  /** The disk and its saved copies. */
  datatype Shelf = Shelf(disk: Disk, saved: seq<Saved>)

  datatype Op =
    | Write(sector: nat, data: seq<Sector>)
    | Create(id: string, name: string)
    | Delete(key: string)
    | Goto(key: string)

  /** The first index from k on whose saved copy has the id; -1 if there is none. */
  ghost function IdIndex(saved: seq<Saved>, id: string, k: nat): (r: int)
    requires k <= |saved|
    ensures r == -1 || k <= r < |saved|
    ensures r < 0 ==> forall i :: k <= i < |saved| ==> saved[i].id != id
    ensures r >= 0 ==> saved[r].id == id && forall i :: k <= i < r ==> saved[i].id != id
    decreases |saved| - k
  {
    if k == |saved| then -1 else if saved[k].id == id then k else IdIndex(saved, id, k + 1)
  }

  ghost function NameIndex(saved: seq<Saved>, name: string, k: nat): (r: int)
    requires k <= |saved|
    ensures r == -1 || k <= r < |saved|
    ensures r < 0 ==> forall i :: k <= i < |saved| ==> saved[i].name != name
    ensures r >= 0 ==> saved[r].name == name && forall i :: k <= i < r ==> saved[i].name != name
    decreases |saved| - k
  {
    if k == |saved| then -1 else if saved[k].name == name then k else NameIndex(saved, name, k + 1)
  }

  /** Copy k is the first one whose id is the key; when no id is the key, the first one whose name is. */
  ghost predicate FirstMatch(saved: seq<Saved>, key: string, k: int) {
    && 0 <= k < |saved|
    && if exists i :: 0 <= i < |saved| && saved[i].id == key
       then saved[k].id == key && forall i :: 0 <= i < k ==> saved[i].id != key
       else saved[k].name == key && forall i :: 0 <= i < k ==> saved[i].name != key
  }

  /** Ids take precedence over names. */
  ghost function Index(saved: seq<Saved>, key: string): (r: int)
    ensures r == -1 || 0 <= r < |saved|
    ensures r < 0 <==> forall i :: 0 <= i < |saved| ==> saved[i].id != key && saved[i].name != key
    ensures r >= 0 ==> FirstMatch(saved, key, r)
  {
    if IdIndex(saved, key, 0) >= 0 then IdIndex(saved, key, 0) else NameIndex(saved, key, 0)
  }

  ghost predicate Total(d: Disk) {
    forall s: nat :: s in d
  }

  ghost function Apply(s: Shelf, op: Op): Shelf
    requires Total(s.disk)
  {
    match op
    case Write(sector, data) => s.(disk := Overwrite(s.disk, sector, data))
    case Create(id, name) =>
      if IdIndex(s.saved, id, 0) >= 0 then s else s.(saved := s.saved + [Saved(id, name, s.disk)])
    case Delete(key) =>
      var k := Index(s.saved, key);
      if k < 0 then s else s.(saved := s.saved[..k] + s.saved[k + 1..])
    case Goto(key) =>
      var k := Index(s.saved, key);
      if k < 0 then s else s.(disk := s.saved[k].disk)
  }

  // What the operations do, by sectors, ids and names.

  lemma WriteMeans(s: Shelf, sector: nat, data: seq<Sector>)
    requires Total(s.disk)
    ensures Apply(s, Write(sector, data)).saved == s.saved && Total(Apply(s, Write(sector, data)).disk)
    ensures forall x: nat :: Apply(s, Write(sector, data)).disk[x] == if sector <= x < sector + |data| then data[x - sector] else s.disk[x]
  {
  }

  lemma CreateMeans(s: Shelf, id: string, name: string)
    requires Total(s.disk)
    ensures Apply(s, Create(id, name)).disk == s.disk
    ensures Apply(s, Create(id, name)).saved ==
      if exists i :: 0 <= i < |s.saved| && s.saved[i].id == id then s.saved else s.saved + [Saved(id, name, s.disk)]
  {
  }

  /** The first match goes, the others stay in order. */
  lemma DeleteMeans(s: Shelf, key: string)
    requires Total(s.disk)
    ensures Apply(s, Delete(key)).disk == s.disk
    ensures if exists i :: 0 <= i < |s.saved| && (s.saved[i].id == key || s.saved[i].name == key)
      then exists k :: FirstMatch(s.saved, key, k) && Apply(s, Delete(key)).saved == s.saved[..k] + s.saved[k + 1..]
      else Apply(s, Delete(key)).saved == s.saved
  {
    hide Index, FirstMatch;
  }

  lemma GotoMeans(s: Shelf, key: string)
    requires Total(s.disk)
    ensures Apply(s, Goto(key)).saved == s.saved
    ensures if exists i :: 0 <= i < |s.saved| && (s.saved[i].id == key || s.saved[i].name == key)
      then exists k :: FirstMatch(s.saved, key, k) && Apply(s, Goto(key)).disk == s.saved[k].disk
      else Apply(s, Goto(key)).disk == s.disk
  {
    hide Index, FirstMatch;
  }

  ghost predicate Ok(s: Shelf) {
    && Total(s.disk)
    && (forall k :: 0 <= k < |s.saved| ==> Total(s.saved[k].disk))
    && (forall i, j :: 0 <= i < j < |s.saved| ==> s.saved[i].id != s.saved[j].id)
  }

  lemma ApplyOk(s: Shelf, op: Op)
    requires Ok(s)
    ensures Ok(Apply(s, op))
  {
  }

  ghost function Run(s: Shelf, ops: seq<Op>): (r: Shelf)
    requires Ok(s)
    ensures Ok(r)
    decreases |ops|
  {
    if ops == [] then s
    else
      ApplyOk(s, ops[0]);
      Run(Apply(s, ops[0]), ops[1..])
  }

  /** Whenever the run saves a copy, fewer than limit are there. */
  ghost predicate Fits(s: Shelf, ops: seq<Op>, limit: nat)
    requires Ok(s)
    decreases |ops|
  {
    ops == [] ||
    (ApplyOk(s, ops[0]);
     && (ops[0].Create? && IdIndex(s.saved, ops[0].id, 0) < 0 ==> |s.saved| < limit)
     && Fits(Apply(s, ops[0]), ops[1..], limit))
  }

  /** No step of the run deletes the copy with the given id. */
  ghost predicate Spares(s: Shelf, ops: seq<Op>, id: string)
    requires Ok(s)
    decreases |ops|
  {
    ops == [] ||
    (ApplyOk(s, ops[0]);
     && (ops[0].Delete? ==> var k := Index(s.saved, ops[0].key); k >= 0 ==> s.saved[k].id != id)
     && Spares(Apply(s, ops[0]), ops[1..], id))
  }

  /** A saved copy that is not deleted never changes. */
  lemma {:induction false} SavedForever(s: Shelf, ops: seq<Op>, k: nat) returns (m: nat)
    requires Ok(s) && k < |s.saved| && Spares(s, ops, s.saved[k].id)
    ensures m < |Run(s, ops).saved| && Run(s, ops).saved[m] == s.saved[k]
    decreases |ops|
  {
    if ops == [] { return k; }
    var t := Apply(s, ops[0]);
    ApplyOk(s, ops[0]);
    var next := k;
    if ops[0].Delete? {
      var d := Index(s.saved, ops[0].key);
      if 0 <= d < k { next := k - 1; }
    }
    assert t.saved[next] == s.saved[k];
    m := SavedForever(t, ops[1..], next);
  }

  lemma {:induction false} IdIndexIs(saved: seq<Saved>, k: nat, i: nat)
    requires i <= k < |saved| && forall a, b :: 0 <= a < b < |saved| ==> saved[a].id != saved[b].id
    ensures IdIndex(saved, saved[k].id, i) == k
    decreases k - i
  {
    if i < k { IdIndexIs(saved, k, i + 1); }
  }

  lemma {:induction false} RunAppend(s: Shelf, a: seq<Op>, op: Op)
    requires Ok(s)
    ensures Run(s, a + [op]) == Apply(Run(s, a), op)
    decreases |a|
  {
    if a == [] {
      ApplyOk(s, op);
      assert Run(Apply(s, op), []) == Apply(s, op);
      assert ([] + [op])[1..] == [];
    } else {
      ApplyOk(s, a[0]);
      RunAppend(Apply(s, a[0]), a[1..], op);
      assert (a + [op])[1..] == a[1..] + [op];
    }
  }

  /** Going back to a snapshot restores the disk as it was when the snapshot was taken, whatever happened in between. */
  lemma GotoRestores(s: Shelf, id: string, name: string, ops: seq<Op>)
    requires Ok(s) && IdIndex(s.saved, id, 0) < 0
    requires Spares(s, [Create(id, name)] + ops, id)
    ensures Run(s, [Create(id, name)] + ops + [Goto(id)]).disk == s.disk
  {
    var t := Apply(s, Create(id, name));
    ApplyOk(s, Create(id, name));
    assert ([Create(id, name)] + ops)[0] == Create(id, name) && ([Create(id, name)] + ops)[1..] == ops;
    var m := SavedForever(t, ops, |s.saved|);
    var r := Run(t, ops);
    IdIndexIs(r.saved, m, 0);
    RunAppend(s, [Create(id, name)] + ops, Goto(id));
    assert Run(s, [Create(id, name)] + ops) == r;
  }
}
