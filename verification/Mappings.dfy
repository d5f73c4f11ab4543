/** The sorted array that says which clusters of the virtual volume belong to which file or directory. */
module Mappings {

  /** The clusters begin .. end - 1. first is the index of the mapping that starts the file, or negative when
      it is this one; link is the index of the parent's mapping for a directory, the offset for a file. */
  datatype Mapping = Mapping(begin: nat, end: nat, dirIndex: nat, first: int, isDir: bool, link: int, path: string)

  /** In order of clusters, not empty, not overlapping. */
  ghost predicate Sorted(s: seq<Mapping>) {
    && (forall i :: 0 <= i < |s| ==> s[i].begin < s[i].end)
    && forall i, j :: 0 <= i < j < |s| ==> s[i].end <= s[j].begin
  }

  /** The least index whose mapping ends after cluster c. */
  ghost predicate FirstAfter(s: seq<Mapping>, c: nat, r: nat) {
    && r <= |s|
    && (forall i :: 0 <= i < r ==> s[i].end <= c)
    && forall i :: r <= i < |s| ==> s[i].end > c
  }

  /** A reference after adjust mappings came in, or went away, at index at. */
  function Moved(r: int, at: int, adjust: int): int {
    if r >= at then r + adjust else r
  }

  function Renamed(m: Mapping, at: int, adjust: int): Mapping {
    m.(first := Moved(m.first, at, adjust), link := if m.isDir then Moved(m.link, at, adjust) else m.link)
  }

  function RenamedAll(s: seq<Mapping>, at: int, adjust: int): (t: seq<Mapping>)
    ensures |t| == |s|
  {
    seq(|s|, i requires 0 <= i < |s| => Renamed(s[i], at, adjust))
  }

  /** The mapping that contains cut ends there. */
  function Cut(m: Mapping, cut: nat): Mapping {
    if m.begin < cut < m.end then m.(end := cut) else m
  }

  /** References i into s denote the same mappings as references Moved(i) into t, but for the one that was cut. */
  ghost predicate SameReferences(s: seq<Mapping>, t: seq<Mapping>, at: int, adjust: int, cut: nat) {
    forall i :: 0 <= i < |s| ==>
      0 <= Moved(i, at, adjust) < |t| && t[Moved(i, at, adjust)] == Cut(Renamed(s[i], at, adjust), cut)
  }

  /** All of s is in t, with references adjusted to one more mapping at index. */
  ghost predicate Widened(s: seq<Mapping>, t: seq<Mapping>, index: nat) {
    && index <= |s| && |t| == |s| + 1
    && (forall i :: 0 <= i < index ==> t[i] == Renamed(s[i], index, 1))
    && forall i :: index < i < |t| ==> t[i] == Renamed(s[i - 1], index, 1)
  }

  /** All of s but the mapping at index is in t, with references adjusted to one mapping less. */
  ghost predicate Narrowed(s: seq<Mapping>, t: seq<Mapping>, index: nat) {
    && index < |s| && |t| == |s| - 1
    && (forall i :: 0 <= i < index ==> t[i] == Renamed(s[i], index, -1))
    && forall i :: index < i < |s| ==> t[i - 1] == Renamed(s[i], index, -1)
  }

  class MappingArray {
    var buffer: array<Mapping>
    var next: nat

    ghost predicate Valid()
      reads this
    {
      next <= buffer.Length
    }

    ghost function Contents(): seq<Mapping>
      reads this, buffer
      requires Valid()
    {
      buffer[..next]
    }

    constructor ()
      ensures Valid() && Contents() == [] && fresh(buffer)
    {
      buffer := new Mapping[0];
      next := 0;
    }

    // -------------------------------------------------------------------------------------
    // The growable array

    /** Makes room for one element at index; it keeps whatever was stored there. */
    method Insert(index: nat)
      requires Valid() && index <= next
      modifies this, buffer
      ensures Valid() && next == old(next) + 1 && (buffer == old(buffer) || fresh(buffer))
      ensures Contents()[..index] == old(Contents())[..index]
      ensures Contents()[index + 1..] == old(Contents())[index..]
    {
      if next + 1 > buffer.Length {
        var bigger := new Mapping[buffer.Length + 1](i requires 0 <= i <= buffer.Length reads this, buffer =>
          if i < buffer.Length then buffer[i] else Mapping(0, 0, 0, 0, false, 0, ""));
        buffer := bigger;
      }
      assert buffer[..next] == old(Contents());
      forall i | index < i <= next { buffer[i] := buffer[i - 1]; }
      next := next + 1;
    }

    /** Moves the element at from to index to; those between move by one. -1 for an index outside the array. */
    method Roll(to: int, from: int) returns (r: int)
      requires Valid()
      modifies buffer
      ensures r == 0 || r == -1
      ensures r == 0 <==> 0 <= to < next && 0 <= from < next
      ensures r == -1 ==> buffer[..] == old(buffer[..])
      ensures r == 0 ==> Contents() == Rolled(old(Contents()), to, from)
    {
      if to < 0 || to >= next || from < 0 || from >= next { return -1; }
      if to == from { return 0; }
      ghost var was := Contents();
      var taken := buffer[from];
      if to < from {
        forall i | to < i <= from { buffer[i] := buffer[i - 1]; }
      } else {
        forall i | from <= i < to { buffer[i] := buffer[i + 1]; }
      }
      buffer[to] := taken;
      IsRolled(was, Contents(), to, from);
      return 0;
    }

    method Remove(index: nat)
      requires Valid() && index < next
      modifies this`next, buffer
      ensures Valid() && next == old(next) - 1
      ensures Contents() == old(Contents())[..index] + old(Contents())[index + 1..]
    {
      var _ := Roll(next - 1, index);
      next := next - 1;
    }

    // -------------------------------------------------------------------------------------
    // The mappings

    /** Binary search. */
    method FindMappingForClusterAux(c: nat) returns (r: nat)
      requires Valid() && next > 0 && Sorted(Contents())
      ensures FirstAfter(Contents(), c, r)
    {
      var index1, index2 := 0, next;
      while true
        invariant index1 <= index2 <= next && index1 < next
        invariant index1 == index2 ==> index1 == 0 && Contents()[0].begin >= c
        invariant index1 > 0 ==> Contents()[index1].begin < c
        invariant index2 < next ==> Contents()[index2].begin >= c
        decreases index2 - index1, if index1 == index2 then 0 else 1
      {
        var index3 := (index1 + index2) / 2;
        var m := buffer[index3];
        assert m == Contents()[index3];
        if m.begin >= c {
          if index2 == index3 { return index1; }
          index2 := index3;
        } else {
          if index1 == index3 { return if m.end <= c then index2 else index1; }
          index1 := index3;
        }
      }
    }

    /** The index of the mapping that contains cluster c, -1 when none does. */
    method FindMappingForCluster(c: nat) returns (r: int)
      requires Valid() && next > 0 && Sorted(Contents())
      ensures -1 <= r < next
      ensures r >= 0 ==> Contents()[r].begin <= c < Contents()[r].end
      ensures r < 0 ==> forall i :: 0 <= i < next ==> !(Contents()[i].begin <= c < Contents()[i].end)
    {
      var index := FindMappingForClusterAux(c);
      if index >= next { return -1; }
      if buffer[index].begin > c { return -1; }
      return index;
    }

    method AdjustMappingIndices(offset: int, adjust: int)
      requires Valid()
      modifies buffer
      ensures Contents() == RenamedAll(old(Contents()), offset, adjust)
    {
      for i := 0 to next
        invariant forall k :: 0 <= k < i ==> buffer[k] == Renamed(old(buffer[k]), offset, adjust)
        invariant forall k :: i <= k < next ==> buffer[k] == old(buffer[k])
      {
        var m := buffer[i];
        if m.first >= offset { m := m.(first := m.first + adjust); }
        if m.isDir && m.link >= offset { m := m.(link := m.link + adjust); }
        buffer[i] := m;
      }
    }

    /** Ends the mapping that contains begin there; finds the place of the first mapping that begins at or after begin. */
    method CutMapping(begin: nat) returns (index: nat)
      requires Valid() && next > 0 && Sorted(Contents())
      requires !(Contents()[next - 1].begin < begin < Contents()[next - 1].end)
      modifies buffer
      ensures Sorted(Contents()) && index <= next
      ensures forall i :: 0 <= i < next ==> Contents()[i] == Cut(old(Contents())[i], begin)
      ensures forall i :: 0 <= i < index ==> Contents()[i].end <= begin
      ensures forall i :: index <= i < next ==> Contents()[i].begin >= begin
    {
      index := FindMappingForClusterAux(begin);
      if index < next && buffer[index].begin < begin {
        buffer[index] := buffer[index].(end := begin);
        index := index + 1;
        assert index < next;
      }
    }

    /** Puts a new mapping at index and adjusts all references. */
    method AddMapping(index: nat, begin: nat, end: nat)
      requires Valid() && index <= next
      modifies this, buffer
      ensures Valid() && next == old(next) + 1 && (buffer == old(buffer) || fresh(buffer))
      ensures Contents()[index].begin == begin && Contents()[index].end == end && Contents()[index].path == ""
      ensures Widened(old(Contents()), Contents(), index)
    {
      ghost var was := Contents();
      Insert(index);
      ghost var wide := Contents();
      buffer[index] := buffer[index].(path := "");
      assert Contents() == wide[index := buffer[index]];
      AdjustMappingIndices(index, 1);
      ghost var adjusted := Contents();
      buffer[index] := buffer[index].(begin := begin, end := end);
      assert Contents() == adjusted[index := buffer[index]];
      AdjustedWidely(was, wide, adjusted, Contents(), index);
    }

    /** Adds or updates the mapping that begins at begin; the one that contained begin ends there. */
    method InsertMapping(begin: nat, end: nat) returns (index: nat)
      requires Valid() && next > 0 && Sorted(Contents())
      requires begin < end && forall i :: 0 <= i < next && Contents()[i].begin > begin ==> end <= Contents()[i].begin
      requires !(Contents()[next - 1].begin < begin < Contents()[next - 1].end)
      modifies this, buffer
      ensures Valid() && Sorted(Contents()) && (buffer == old(buffer) || fresh(buffer))
      ensures index < next && Contents()[index].begin == begin && Contents()[index].end == end
      ensures next == old(next) <==> exists i :: 0 <= i < old(next) && old(Contents())[i].begin == begin
      ensures next == old(next) ==>
        Contents() == old(Contents())[index := old(Contents())[index].(end := end)] && old(Contents())[index].begin == begin
      ensures next != old(next) ==> next == old(next) + 1 && Contents()[index].path == ""
                                    && SameReferences(old(Contents()), Contents(), index, 1, begin)
    {
      ghost var was := Contents();
      index := CutMapping(begin);
      ghost var cut := Contents();
      if index >= next || buffer[index].begin > begin {
        AddMapping(index, begin, end);
        Inserted(was, cut, Contents(), index, begin, end);
        return;
      }
      assert cut[index] == was[index];
      buffer[index] := buffer[index].(begin := begin, end := end);
      Updated(was, cut, index, begin, end);
    }

    /** Removes a mapping; references to other mappings still denote these. */
    method RemoveMapping(index: nat)
      requires Valid() && index < next && Sorted(Contents())
      modifies this`next, buffer
      ensures Valid() && Sorted(Contents()) && next == old(next) - 1
      ensures Narrowed(old(Contents()), Contents(), index)
    {
      ghost var was := Contents();
      Remove(index);
      AdjustMappingIndices(index, -1);
      IsNarrowed(was, Contents(), index);
    }
  }

  ghost function Rolled(s: seq<Mapping>, to: int, from: int): seq<Mapping>
    requires 0 <= to < |s| && 0 <= from < |s|
  {
    var rest := s[..from] + s[from + 1..];
    rest[..to] + [s[from]] + rest[to..]
  }

  /** The same mapping but for the end and for its references; the offset of a file, and a first that names no mapping, stay. */
  ghost predicate Same(u: Mapping, m: Mapping, end: nat) {
    && u.begin == m.begin && u.end == end && u.dirIndex == m.dirIndex && u.isDir == m.isDir && u.path == m.path
    && (!m.isDir ==> u.link == m.link) && (m.first < 0 ==> u.first == m.first)
  }

  /** The end of a mapping after one that begins at cut came in. */
  function EndAfter(m: Mapping, cut: nat): nat {
    if m.begin < cut < m.end then cut else m.end
  }

  /** What references mean after a removal: the same mappings, unless these are gone. The first mapping of a file
      is one reference, the parent of a directory the other. */
  lemma RemovedReference(s: seq<Mapping>, t: seq<Mapping>, index: nat, i: nat)
    requires Narrowed(s, t, index) && i < |s| && i != index
    ensures var u := t[if i > index then i - 1 else i];
      && Same(u, s[i], s[i].end)
      && (0 <= s[i].first < |s| && s[i].first != index ==>
            0 <= u.first < |t| && Same(t[u.first], s[s[i].first], s[s[i].first].end))
      && (s[i].isDir && 0 <= s[i].link < |s| && s[i].link != index ==>
            0 <= u.link < |t| && Same(t[u.link], s[s[i].link], s[s[i].link].end))
  {
  }

  lemma IsNarrowed(s: seq<Mapping>, t: seq<Mapping>, index: nat)
    requires Sorted(s) && index < |s| && t == RenamedAll(s[..index] + s[index + 1..], index, -1)
    ensures Narrowed(s, t, index) && Sorted(t)
  {
    forall i, j | 0 <= i < j < |t| ensures t[i].end <= t[j].begin {
      assert s[if i < index then i else i + 1].end <= s[if j < index then j else j + 1].begin;
    }
  }

  /** And after an insertion. */
  lemma InsertedReference(s: seq<Mapping>, t: seq<Mapping>, index: nat, cut: nat, i: nat)
    requires SameReferences(s, t, index, 1, cut) && i < |s|
    ensures (if i >= index then i + 1 else i) < |t|
    ensures var u := t[if i >= index then i + 1 else i];
      && Same(u, s[i], EndAfter(s[i], cut))
      && (0 <= s[i].first < |s| ==>
            0 <= u.first < |t| && Same(t[u.first], s[s[i].first], EndAfter(s[s[i].first], cut)))
      && (s[i].isDir && 0 <= s[i].link < |s| ==>
            0 <= u.link < |t| && Same(t[u.link], s[s[i].link], EndAfter(s[s[i].link], cut)))
  {
    assert t[Moved(i, index, 1)] == Cut(Renamed(s[i], index, 1), cut);
    if 0 <= s[i].first < |s| {
      assert t[Moved(s[i].first, index, 1)] == Cut(Renamed(s[s[i].first], index, 1), cut);
    }
    if 0 <= s[i].link < |s| {
      assert t[Moved(s[i].link, index, 1)] == Cut(Renamed(s[s[i].link], index, 1), cut);
    }
  }

  lemma IsRolled(s: seq<Mapping>, t: seq<Mapping>, to: int, from: int)
    requires |s| == |t| && 0 <= to < |s| && 0 <= from < |s|
    requires t[to] == s[from]
    requires forall k :: 0 <= k < |s| && k != to ==> t[k] == s[if to < k <= from then k - 1 else if from <= k < to then k + 1 else k]
    ensures t == Rolled(s, to, from)
  {
    var rest := s[..from] + s[from + 1..];
    forall k | 0 <= k < |s| ensures t[k] == Rolled(s, to, from)[k] {
      if k < to { assert Rolled(s, to, from)[k] == rest[k]; }
      if k > to { assert Rolled(s, to, from)[k] == rest[k - 1]; }
    }
  }

  lemma Inserted(was: seq<Mapping>, cut: seq<Mapping>, t: seq<Mapping>, index: nat, begin: nat, end: nat)
    requires Sorted(was) && Sorted(cut) && |was| == |cut| && |t| == |cut| + 1 && index <= |cut| && begin < end
    requires forall i :: 0 <= i < |was| ==> cut[i] == Cut(was[i], begin)
    requires forall i :: 0 <= i < |was| && was[i].begin > begin ==> end <= was[i].begin
    requires forall i :: 0 <= i < index ==> cut[i].end <= begin
    requires forall i :: index <= i < |cut| ==> cut[i].begin >= begin
    requires index < |cut| ==> cut[index].begin > begin
    requires t[index].begin == begin && t[index].end == end && Widened(cut, t, index)
    ensures Sorted(t) && SameReferences(was, t, index, 1, begin)
    ensures forall i :: 0 <= i < |was| ==> was[i].begin != begin
  {
    forall i | 0 <= i < |was| ensures was[i].begin != begin {
      if i < index { assert cut[i].begin < cut[i].end <= begin; } else { assert cut[index].begin <= cut[i].begin; }
    }
    forall i | 0 <= i < |was|
      ensures 0 <= Moved(i, index, 1) < |t| && t[Moved(i, index, 1)] == Cut(Renamed(was[i], index, 1), begin)
    {
      assert t[Moved(i, index, 1)] == Renamed(cut[i], index, 1);
    }
    WidenedSorted(cut, t, index);
  }

  lemma WidenedSorted(s: seq<Mapping>, t: seq<Mapping>, index: nat)
    requires Sorted(s) && Widened(s, t, index) && t[index].begin < t[index].end
    requires forall i :: 0 <= i < index ==> s[i].end <= t[index].begin
    requires forall i :: index <= i < |s| ==> t[index].end <= s[i].begin
    ensures Sorted(t)
  {
    forall i, j | 0 <= i < j < |t| ensures t[i].end <= t[j].begin {
      if i != index && j != index { assert s[if i < index then i else i - 1].end <= s[if j < index then j else j - 1].begin; }
    }
  }

  lemma AdjustedWidely(was: seq<Mapping>, wide: seq<Mapping>, adjusted: seq<Mapping>, t: seq<Mapping>, index: nat)
    requires index <= |was| && |wide| == |was| + 1 && wide[..index] == was[..index] && wide[index + 1..] == was[index..]
    requires |adjusted| == |wide| && forall i :: 0 <= i < |wide| && i != index ==> adjusted[i] == Renamed(wide[i], index, 1)
    requires |t| == |wide| && forall i :: 0 <= i < |wide| && i != index ==> t[i] == adjusted[i]
    ensures Widened(was, t, index)
  {
    forall i | 0 <= i < index ensures t[i] == Renamed(was[i], index, 1) { assert wide[i] == wide[..index][i]; }
    forall i | index < i < |t| ensures t[i] == Renamed(was[i - 1], index, 1) {
      assert wide[i] == wide[index + 1..][i - index - 1];
      assert was[i - 1] == was[index..][i - index - 1];
    }
  }

  lemma Updated(was: seq<Mapping>, cut: seq<Mapping>, index: nat, begin: nat, end: nat)
    requires Sorted(was) && |was| == |cut| && index < |was| && begin < end && was[index].begin == begin
    requires forall i :: 0 <= i < |was| ==> cut[i] == Cut(was[i], begin)
    requires forall i :: 0 <= i < |was| && was[i].begin > begin ==> end <= was[i].begin
    ensures cut == was && Sorted(was[index := was[index].(end := end)])
  {
    forall i | 0 <= i < |was| ensures cut[i] == was[i] {
      if i < index { assert was[i].end <= was[index].begin; }
      if i > index { assert was[index].begin < was[index].end <= was[i].begin; }
    }
    forall i | index < i < |was| ensures end <= was[i].begin { assert was[index].end <= was[i].begin; }
  }
}
