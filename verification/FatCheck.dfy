/** The consistency check of a FAT volume before guest changes are written back: the walk over all directories
    that marks every cluster once, and the comparison with the allocation table. */
module FatCheck {

  const USED_DIRECTORY: nat := 1
  const USED_FILE: nat := 2
  const USED_ALLOCATED: nat := 4

  /** A directory entry as the walk sees it: labels, dots, free entries and parts of long names are skipped,
      a malformed name is bad. */
  datatype Entry = Skip | Bad | Sub(begin: nat) | Data(begin: nat, size: nat)

  /** A directory or a non-empty file with its chain of clusters. */
  datatype Node = Dir(chain: seq<nat>, kids: seq<Node>) | File(chain: seq<nat>)

  /** What the check reads: the allocation table the guest wrote, and the directory entries in each cluster. */
  datatype Disk = Disk(clusters: nat, rootEnd: nat, maxFat: nat, fat2: seq<nat>, clusterSize: nat, entries: nat -> seq<Entry>) {

    /** Table entries and first clusters lie in the volume, or end a chain; sizes have 32 bits. */
    ghost predicate Valid() {
      && 1 <= rootEnd <= clusters && clusters + 8 <= maxFat && |fat2| == clusters && 512 <= clusterSize < 0x1_0000_0000
      && (forall c :: 0 <= c < clusters ==> fat2[c] < clusters || Eof(fat2[c]))
      && (forall c: nat, i :: 0 <= i < |entries(c)| ==> Placed(entries(c)[i]))
    }

    predicate Placed(e: Entry) {
      (e.Sub? ==> e.begin < clusters) && (e.Data? ==> e.begin < clusters && e.size < 0x1_0000_0000)
    }

    predicate Eof(e: nat) {
      e > maxFat - 8
    }

    /** The root directory has no chain in the table: its clusters come first. */
    function Next(c: nat): nat
      requires c < clusters == |fat2|
    {
      if c < rootEnd then if c + 1 == rootEnd then maxFat else c + 1
      else fat2[c]
    }

    /** The clusters a file of that size has to have, as the walk computes it in 32-bit arithmetic. */
    function Need(size: nat): nat
      requires clusterSize > 0
    {
      (size + clusterSize - 1) % 0x1_0000_0000 / clusterSize
    }

    /** A file that takes clusters. Sizes within one cluster of 4 GB wrap around and count as empty. */
    predicate Sized(e: Entry) {
      e.Data? && 0 < e.size <= 0x1_0000_0000 - clusterSize
    }

    /** n clusters hold that many bytes, and one less does not. */
    predicate Holds(n: nat, size: nat) {
      n * clusterSize - clusterSize < size <= n * clusterSize
    }

    // -------------------------------------------------------------------------------------
    // Chains

    predicate Follows(ch: seq<nat>, i: nat)
      requires |fat2| == clusters && i + 1 < |ch| && ch[i] < clusters
    {
      ch[i + 1] == Next(ch[i]) && !Eof(ch[i + 1])
    }

    ghost predicate Linked(ch: seq<nat>)
      requires |fat2| == clusters
    {
      && ch != [] && (forall i :: 0 <= i < |ch| ==> ch[i] < clusters)
      && forall i: nat :: i + 1 < |ch| ==> Follows(ch, i)
    }

    ghost predicate Chain(ch: seq<nat>)
      requires |fat2| == clusters
    {
      Linked(ch) && Eof(Next(ch[|ch| - 1]))
    }

    /** Chains of files may not run through reserved cluster numbers. */
    ghost predicate FileChain(ch: seq<nat>)
      requires |fat2| == clusters
    {
      Chain(ch) && forall i :: 1 <= i < |ch| ==> 2 <= ch[i] <= maxFat - 16
    }

    // -------------------------------------------------------------------------------------
    // The tree of directories and files

    function Contents(ch: seq<nat>): seq<Entry> {
      if ch == [] then [] else Contents(ch[..|ch| - 1]) + entries(ch[|ch| - 1])
    }

    /** Entries of subdirectories and of files that need clusters. */
    function Relevant(es: seq<Entry>): (r: seq<Entry>)
      requires clusterSize > 0
      ensures |r| <= |es|
    {
      if es == [] then []
      else
        var e := es[|es| - 1];
        Relevant(es[..|es| - 1]) + (if e.Sub? || Sized(e) then [e] else [])
    }

    predicate Fit(e: Entry, n: Node)
      requires clusterSize > 0
    {
      match e
      case Sub(begin) => begin != 0 && n.Dir? && n.chain != [] && n.chain[0] == begin
      case Data(begin, size) => begin != 0 && n.File? && n.chain != [] && n.chain[0] == begin && Holds(|n.chain|, size)
      case _ => false
    }

    ghost predicate Tree(n: Node)
      requires |fat2| == clusters && clusterSize > 0
      decreases n
    {
      match n
      case File(ch) => FileChain(ch)
      case Dir(ch, kids) => Chain(ch) && KidsFor(Contents(ch), kids)
    }

    /** One node for each relevant entry, in order. */
    ghost predicate KidsFor(es: seq<Entry>, kids: seq<Node>)
      requires |fat2| == clusters && clusterSize > 0
      decreases kids
    {
      && (forall i :: 0 <= i < |es| ==> es[i] != Bad)
      && |kids| == |Relevant(es)|
      && forall k :: 0 <= k < |kids| ==> Fit(Relevant(es)[k], kids[k]) && Tree(kids[k])
    }
  }

  /** The clusters of a node and all below it. */
  ghost function Cover(n: Node): multiset<nat>
    decreases n, 0
  {
    match n
    case File(ch) => multiset(ch)
    case Dir(ch, kids) => multiset(ch) + CoverAll(kids)
  }

  ghost function CoverAll(kids: seq<Node>): multiset<nat>
    decreases kids, 0
  {
    if kids == [] then multiset{} else CoverAll(kids[..|kids| - 1]) + Cover(kids[|kids| - 1])
  }

  ghost predicate Once(m: multiset<nat>) {
    forall x: nat :: m[x] <= 1
  }

  // An empty file has no node, but the walk looks at its first cluster, should it name one. It is hosted when the
  // walk has been at this cluster before: in the directories and files that come earlier in the order of the walk.

  ghost function Members(m: multiset<nat>): set<nat> {
    set x | x in m
  }

  /** Below this node, with the clusters in done behind it, all empty files are hosted. */
  ghost predicate Hosted(d: Disk, n: Node, done: set<nat>)
    requires d.clusterSize > 0
    decreases n, 0, 0
  {
    n.Dir? ==> HostedPath(d, n.chain, n.kids, done)
  }

  /** Of a directory, in the clusters of path. */
  ghost predicate HostedPath(d: Disk, path: seq<nat>, kids: seq<Node>, done: set<nat>)
    requires d.clusterSize > 0
    decreases kids, 2, |path|
  {
    path == [] ||
    var p := path[..|path| - 1];
    var k := |d.Relevant(d.Contents(p))|;
    assert k == |kids| ==> kids[..k] == kids;
    k <= |kids| && HostedPath(d, p, kids[..k], done)
    && HostedIn(d, d.entries(path[|path| - 1]), kids[k..], done + Members(multiset(path) + CoverAll(kids[..k])))
  }

  /** In a list of entries. */
  ghost predicate HostedIn(d: Disk, es: seq<Entry>, kids: seq<Node>, done: set<nat>)
    requires d.clusterSize > 0
    decreases kids, 1, |es|
  {
    es == [] ||
    var a := es[..|es| - 1];
    var k := |d.Relevant(a)|;
    assert k == |kids| ==> kids[..k] == kids;
    k <= |kids| && HostedIn(d, a, kids[..k], done)
    && HostedEntry(d, es[|es| - 1], kids[k..], done + Members(CoverAll(kids[..k])))
  }

  ghost predicate HostedEntry(d: Disk, e: Entry, kid: seq<Node>, done: set<nat>)
    requires d.clusterSize > 0
    decreases kid, 0, 0
  {
    match e
    case Sub(_) => |kid| == 1 ==> Hosted(d, kid[0], done)
    case Data(begin, size) => !d.Sized(e) && begin != 0 ==> begin in done
    case _ => true
  }

  // ---------------------------------------------------------------------------------------
  // Lists of entries and of nodes

  lemma {:induction false} RelevantAppend(d: Disk, a: seq<Entry>, b: seq<Entry>)
    requires d.clusterSize > 0
    ensures d.Relevant(a + b) == d.Relevant(a) + d.Relevant(b)
    decreases |b|
  {
    if b == [] {
      assert a + b == a;
    } else {
      assert (a + b)[..|a + b| - 1] == a + b[..|b| - 1];
      RelevantAppend(d, a, b[..|b| - 1]);
    }
  }

  lemma {:induction false} CoverAppend(a: seq<Node>, b: seq<Node>)
    ensures CoverAll(a + b) == CoverAll(a) + CoverAll(b)
    decreases |b|
  {
    if b == [] {
      assert a + b == a;
    } else {
      assert (a + b)[..|a + b| - 1] == a + b[..|b| - 1];
      CoverAppend(a, b[..|b| - 1]);
    }
  }

  lemma KidsAppend(d: Disk, a: seq<Entry>, b: seq<Entry>, k: seq<Node>, l: seq<Node>)
    requires |d.fat2| == d.clusters && d.clusterSize > 0 && d.KidsFor(a, k) && d.KidsFor(b, l)
    ensures d.KidsFor(a + b, k + l)
  {
    hide Disk.Tree, Disk.Fit, Disk.Relevant;
    RelevantAppend(d, a, b);
    forall i | 0 <= i < |k + l| ensures d.Fit(d.Relevant(a + b)[i], (k + l)[i]) && d.Tree((k + l)[i]) {
      if i >= |k| { assert (k + l)[i] == l[i - |k|]; }
    }
  }

  lemma KidsSplit(d: Disk, a: seq<Entry>, b: seq<Entry>, k: seq<Node>)
    requires |d.fat2| == d.clusters && d.clusterSize > 0 && d.KidsFor(a + b, k)
    ensures |d.Relevant(a)| <= |k|
    ensures d.KidsFor(a, k[..|d.Relevant(a)|]) && d.KidsFor(b, k[|d.Relevant(a)|..])
  {
    RelevantAppend(d, a, b);
    forall i | 0 <= i < |a| ensures a[i] != Bad { assert (a + b)[i] == a[i]; }
    forall i | 0 <= i < |b| ensures b[i] != Bad { assert (a + b)[|a| + i] == b[i]; }
  }

  // ---------------------------------------------------------------------------------------
  // What chains and the nodes of a directory are, in numbers

  /** The clusters of the root directory come one after the other; elsewhere the table names the next one, up to a value
      above maxFat - 8. */
  ghost predicate TableChain(d: Disk, ch: seq<nat>)
    requires |d.fat2| == d.clusters
  {
    && ch != [] && (forall i :: 0 <= i < |ch| ==> ch[i] < d.clusters)
    && forall i: nat :: i < |ch| ==> TableStep(d, ch, i)
  }

  ghost predicate TableStep(d: Disk, ch: seq<nat>, i: nat)
    requires |d.fat2| == d.clusters && i < |ch| && ch[i] < d.clusters
  {
    if ch[i] + 1 < d.rootEnd then i + 1 < |ch| && ch[i + 1] == ch[i] + 1
    else if ch[i] + 1 == d.rootEnd || d.fat2[ch[i]] > d.maxFat - 8 then i + 1 == |ch|
    else i + 1 < |ch| && ch[i + 1] == d.fat2[ch[i]]
  }

  lemma ChainMeans(d: Disk, ch: seq<nat>)
    requires d.Valid()
    ensures d.Chain(ch) <==> TableChain(d, ch)
  {
    if d.Chain(ch) {
      forall i: nat | i < |ch| ensures TableStep(d, ch, i) {
        if i + 1 < |ch| { assert d.Follows(ch, i); }
      }
    }
    if TableChain(d, ch) {
      forall i: nat | i + 1 < |ch| ensures d.Follows(ch, i) { assert TableStep(d, ch, i); }
      assert TableStep(d, ch, |ch| - 1);
    }
  }

  /** This node is for that entry. */
  ghost predicate Named(d: Disk, e: Entry, n: Node) {
    && n.chain != []
    && match e
       case Sub(begin) => n.Dir? && begin != 0 && n.chain[0] == begin
       case Data(begin, size) =>
         && n.File? && begin != 0 && n.chain[0] == begin && 0 < size <= 0x1_0000_0000 - d.clusterSize
         && (|n.chain| - 1) * d.clusterSize < size <= |n.chain| * d.clusterSize
       case _ => false
  }

  /** The nodes are for the entries at these places, in order, and no other entry is a subdirectory or a file of some size. */
  ghost predicate Pairs(d: Disk, es: seq<Entry>, kids: seq<Node>, at: seq<nat>) {
    && |at| == |kids|
    && (forall k: nat :: k < |at| ==> at[k] < |es| && Named(d, es[at[k]], kids[k]))
    && (forall j: nat, k: nat :: j < k < |at| ==> at[j] < at[k])
    && (forall i: nat :: i < |es| && (es[i].Sub? || (es[i].Data? && 0 < es[i].size <= 0x1_0000_0000 - d.clusterSize)) ==> i in at)
  }

  ghost predicate Trees(d: Disk, kids: seq<Node>)
    requires |d.fat2| == d.clusters && d.clusterSize > 0
  {
    forall k :: 0 <= k < |kids| ==> d.Tree(kids[k])
  }

  /** The nodes below a directory. */
  lemma KidsMean(d: Disk, es: seq<Entry>, kids: seq<Node>)
    requires |d.fat2| == d.clusters && d.clusterSize > 0
    ensures d.KidsFor(es, kids) <==> Bad !in es && Trees(d, kids) && exists at: seq<nat> :: Pairs(d, es, kids, at)
  {
    hide Disk.KidsFor, Trees, Pairs;
    if d.KidsFor(es, kids) {
      var at := KidsPlaces(d, es, kids);
    } else if at: seq<nat> :| Bad !in es && Trees(d, kids) && Pairs(d, es, kids, at) {
      PlacesKids(d, es, kids, at);
    }
  }

  /** A tree, one level of it. */
  ghost predicate Level(d: Disk, n: Node)
    requires |d.fat2| == d.clusters && d.clusterSize > 0
  {
    && TableChain(d, n.chain)
    && match n
       case File(ch) => forall i :: 1 <= i < |ch| ==> 2 <= ch[i] <= d.maxFat - 16
       case Dir(ch, kids) => Bad !in d.Contents(ch) && Trees(d, kids) && exists at: seq<nat> :: Pairs(d, d.Contents(ch), kids, at)
  }

  lemma TreeMeans(d: Disk, n: Node)
    requires d.Valid()
    ensures d.Tree(n) <==> Level(d, n)
  {
    hide Disk.Chain, Disk.KidsFor, TableChain, Trees, Pairs, Disk.Contents;
    ChainMeans(d, n.chain);
    if n.Dir? { KidsMean(d, d.Contents(n.chain), n.kids); }
  }

  lemma OneKid(d: Disk, e: Entry, kid: seq<Node>)
    requires |d.fat2| == d.clusters && d.clusterSize > 0
    ensures d.KidsFor([e], kid) <==> e != Bad && if e.Sub? || d.Sized(e) then |kid| == 1 && Named(d, e, kid[0]) && d.Tree(kid[0]) else kid == []
  {
    hide Disk.Tree, Disk.Relevant;
    RelevantOne(d, e);
    assert [e][0] == e;
    if e.Data? && |kid| == 1 { NamedFile(d, e, kid[0]); }
  }

  lemma NamedFile(d: Disk, e: Entry, n: Node)
    requires d.clusterSize > 0 && e.Data?
    ensures Named(d, e, n) <==> d.Sized(e) && d.Fit(e, n)
  {
    assert (|n.chain| - 1) * d.clusterSize == |n.chain| * d.clusterSize - d.clusterSize;
  }

  lemma {:induction false} KidsPlaces(d: Disk, es: seq<Entry>, kids: seq<Node>) returns (at: seq<nat>)
    requires |d.fat2| == d.clusters && d.clusterSize > 0 && d.KidsFor(es, kids)
    ensures Bad !in es && Trees(d, kids) && Pairs(d, es, kids, at)
    decreases |es|
  {
    hide Disk.Tree, Disk.KidsFor, Disk.Relevant, Named;
    if es == [] {
      at := NoPlaces(d, kids);
      return;
    }
    var n := |es| - 1;
    var a, e := es[..n], es[n];
    assert es == a + [e];
    KidsSplit(d, a, [e], kids);
    var m := |d.Relevant(a)|;
    var p := KidsPlaces(d, a, kids[..m]);
    OneKid(d, e, kids[m..]);
    if e.Sub? || d.Sized(e) {
      at := p + [n];
      assert kids == kids[..m] + [kids[m]];
    } else {
      at := p;
      assert kids == kids[..m];
    }
    PlacesNext(d, a, e, kids[..m], kids[m..], p, at);
  }

  lemma NoPlaces(d: Disk, kids: seq<Node>) returns (at: seq<nat>)
    requires |d.fat2| == d.clusters && d.clusterSize > 0 && d.KidsFor([], kids)
    ensures Trees(d, kids) && Pairs(d, [], kids, at)
  {
    at := [];
  }

  /** One more entry, with its node if it has one. */
  lemma PlacesNext(d: Disk, a: seq<Entry>, e: Entry, kids: seq<Node>, kid: seq<Node>, p: seq<nat>, at: seq<nat>)
    requires |d.fat2| == d.clusters && d.clusterSize > 0
    requires if e.Sub? || d.Sized(e) then |kid| == 1 && Named(d, e, kid[0]) && d.Tree(kid[0]) else kid == []
    requires |p| == |kids| && at == if e.Sub? || d.Sized(e) then p + [|a|] else p
    ensures Pairs(d, a, kids, p) && Trees(d, kids) ==> Pairs(d, a + [e], kids + kid, at) && Trees(d, kids + kid)
  {
    hide Disk.Tree, Named;
    if Pairs(d, a, kids, p) && Trees(d, kids) {
      var es, all := a + [e], kids + kid;
      forall k: nat | k < |at| ensures at[k] < |es| && Named(d, es[at[k]], all[k]) {
        if k < |p| { assert es[at[k]] == a[p[k]]; }
      }
      forall i: nat | i < |es| && (es[i].Sub? || d.Sized(es[i])) ensures i in at {
        if i < |a| { assert es[i] == a[i] && i in p; } else { assert at[|p|] == i; }
      }
    }
  }

  lemma {:induction false} PlacesKids(d: Disk, es: seq<Entry>, kids: seq<Node>, at: seq<nat>)
    requires |d.fat2| == d.clusters && d.clusterSize > 0
    requires Bad !in es && Trees(d, kids) && Pairs(d, es, kids, at)
    ensures d.KidsFor(es, kids)
    decreases |es|
  {
    hide Disk.Tree, Disk.KidsFor, Named;
    if es == [] {
      NoKids(d, es, kids, at);
      return;
    }
    var n := |es| - 1;
    var a, e := es[..n], es[n];
    assert es == a + [e];
    var m := PlacesBack(d, a, e, kids, at);
    assert Trees(d, kids[..m]) && Bad !in a;
    PlacesKids(d, a, kids[..m], at[..m]);
    OneKid(d, e, kids[m..]);
    KidsAppend(d, a, [e], kids[..m], kids[m..]);
    assert kids == kids[..m] + kids[m..];
  }

  lemma NoKids(d: Disk, es: seq<Entry>, kids: seq<Node>, at: seq<nat>)
    requires |d.fat2| == d.clusters && d.clusterSize > 0 && es == [] && Pairs(d, es, kids, at)
    ensures d.KidsFor(es, kids)
  {
    var first := if |at| > 0 then at[0] else 0;
    assert |at| > 0 ==> first < |es|;
  }

  lemma PlacesBack(d: Disk, a: seq<Entry>, e: Entry, kids: seq<Node>, at: seq<nat>) returns (m: nat)
    requires |d.fat2| == d.clusters && d.clusterSize > 0 && Trees(d, kids) && Pairs(d, a + [e], kids, at)
    ensures m <= |kids| && Pairs(d, a, kids[..m], at[..m])
    ensures if e.Sub? || d.Sized(e) then |kids[m..]| == 1 && Named(d, e, kids[m..][0]) && d.Tree(kids[m..][0]) else kids[m..] == []
  {
    hide Disk.Tree;
    var es, n := a + [e], |a|;
    assert es[n] == e;
    if at != [] { assert Named(d, es[at[|at| - 1]], kids[|at| - 1]); }
    if e.Sub? || d.Sized(e) {
      assert n in at;
      m := |kids| - 1;
    } else {
      m := |kids|;
    }
    PlacesBefore(d, a, e, kids, at, m);
  }

  lemma PlacesBefore(d: Disk, a: seq<Entry>, e: Entry, kids: seq<Node>, at: seq<nat>, m: nat)
    requires |d.fat2| == d.clusters && d.clusterSize > 0 && Pairs(d, a + [e], kids, at) && m <= |kids|
    requires forall k: nat :: k < |at| ==> (at[k] == |a| <==> k >= m)
    ensures Pairs(d, a, kids[..m], at[..m])
  {
    hide Named;
    var es := a + [e];
    forall k: nat | k < m ensures at[..m][k] < |a| && Named(d, a[at[..m][k]], kids[..m][k]) {
      assert es[at[k]] == a[at[k]];
    }
    forall i: nat | i < |a| && (a[i].Sub? || (a[i].Data? && 0 < a[i].size <= 0x1_0000_0000 - d.clusterSize)) ensures i in at[..m] {
      assert es[i] == a[i] && i in at;
      var k: nat :| k < |at| && at[k] == i;
      assert at[..m][k] == i;
    }
  }

  /** Entries after others: the clusters of those count as seen. */
  lemma {:induction false} HostedAppend(d: Disk, a: seq<Entry>, b: seq<Entry>, k: seq<Node>, l: seq<Node>, done: set<nat>)
    requires d.clusterSize > 0 && |d.Relevant(a)| == |k| && |d.Relevant(b)| == |l|
    ensures HostedIn(d, a + b, k + l, done) <==> HostedIn(d, a, k, done) && HostedIn(d, b, l, done + Members(CoverAll(k)))
    decreases |b|
  {
    hide CoverAll;
    if b == [] {
      assert a + b == a && k + l == k;
      return;
    }
    var c, e := b[..|b| - 1], b[|b| - 1];
    var m := |d.Relevant(c)|;
    assert (a + b)[..|a + b| - 1] == a + c;
    RelevantAppend(d, a, c);
    HostedAppend(d, a, c, k, l[..m], done);
    assert (k + l)[..|k| + m] == k + l[..m] && (k + l)[|k| + m..] == l[m..];
    CoverAppend(k, l[..m]);
    assert done + Members(CoverAll(k + l[..m])) == done + Members(CoverAll(k)) + Members(CoverAll(l[..m]));
  }

  /** What holds of a whole directory holds at each of its clusters. */
  lemma {:induction false} HostedPrefix(d: Disk, chain: seq<nat>, kids: seq<Node>, done: set<nat>, n: nat)
    requires |d.fat2| == d.clusters && d.clusterSize > 0 && n <= |chain| && HostedPath(d, chain, kids, done)
    requires |d.Relevant(d.Contents(chain))| == |kids|
    ensures |d.Relevant(d.Contents(chain[..n]))| <= |kids|
    ensures HostedPath(d, chain[..n], kids[..|d.Relevant(d.Contents(chain[..n]))|], done)
  {
    if n == |chain| {
      assert chain[..n] == chain && kids[..|kids|] == kids;
    } else {
      var p := chain[..|chain| - 1];
      var k := |d.Relevant(d.Contents(p))|;
      HostedPrefix(d, p, kids[..k], done, n);
      assert p[..n] == chain[..n];
      var m := |d.Relevant(d.Contents(p[..n]))|;
      assert kids[..k][..m] == kids[..m];
    }
  }

  /** A chain is determined by its first cluster. */
  lemma {:induction false} ChainUnique(d: Disk, a: seq<nat>, b: seq<nat>, i: nat)
    requires d.Valid() && d.Linked(a) && d.Chain(b) && a[0] == b[0] && i < |a|
    ensures i < |b| && a[i] == b[i]
  {
    if i > 0 {
      ChainUnique(d, a, b, i - 1);
      assert d.Follows(a, i - 1);
      if i < |b| { assert d.Follows(b, i - 1); }
    }
  }

  lemma ChainsEqual(d: Disk, a: seq<nat>, b: seq<nat>)
    requires d.Valid() && d.Chain(a) && d.Chain(b) && a[0] == b[0]
    ensures a == b
  {
    ChainUnique(d, a, b, |a| - 1);
    ChainUnique(d, b, a, |b| - 1);
    forall i | 0 <= i < |a| ensures a[i] == b[i] { ChainUnique(d, a, b, i); }
  }

  /** So is the whole tree below it. */
  lemma {:induction false} TreeUnique(d: Disk, a: Node, b: Node)
    requires d.Valid() && d.Tree(a) && d.Tree(b) && a.Dir? == b.Dir? && a.chain[0] == b.chain[0]
    ensures a == b
    decreases a, 0
  {
    ChainsEqual(d, a.chain, b.chain);
    if a.Dir? { KidsUnique(d, d.Contents(a.chain), a.kids, b.kids); }
  }

  lemma {:induction false} KidsUnique(d: Disk, es: seq<Entry>, a: seq<Node>, b: seq<Node>)
    requires d.Valid() && d.KidsFor(es, a) && d.KidsFor(es, b)
    ensures a == b
    decreases a, 1
  {
    forall k | 0 <= k < |a| ensures a[k] == b[k] { TreeUnique(d, a[k], b[k]); }
  }

  // ---------------------------------------------------------------------------------------
  // Marks

  predicate Marked(v: nat) {
    v % 4 != 0
  }

  /** Marks only come; those of the given clusters came, and, when exact, no others. */
  ghost predicate Grew(was: seq<nat>, now: seq<nat>, cover: multiset<nat>, exact: bool) {
    && |was| == |now|
    && (forall x: nat :: x < |was| && Marked(was[x]) ==> now[x] == was[x])
    && (forall x: nat :: x < |was| && now[x] != was[x] ==> Marked(now[x]))
    && (forall x: nat :: x in cover ==> x < |was| && !Marked(was[x]) && Marked(now[x]))
    && (exact ==> forall x: nat :: x < |was| && x !in cover ==> now[x] == was[x])
  }

  /** None of these clusters is marked. */
  ghost predicate Free(now: seq<nat>, cover: multiset<nat>) {
    forall x: nat :: x in cover ==> x < |now| && !Marked(now[x])
  }

  /** New marks are on clusters in use. */
  ghost predicate Lively(d: Disk, was: seq<nat>, now: seq<nat>)
    requires |was| == |now| == d.clusters == |d.fat2|
  {
    forall x: nat :: x < |was| && now[x] != was[x] ==> d.Next(x) != 0
  }

  lemma GrewStep(a: seq<nat>, b: seq<nat>, c: seq<nat>, m: multiset<nat>, n: multiset<nat>, exact: bool)
    requires Grew(a, b, m, exact) && Grew(b, c, n, exact) && Once(m) && Once(n)
    ensures Grew(a, c, m + n, exact) && Once(m + n)
  {
    forall x: nat ensures (m + n)[x] <= 1 {
      if x in m && x in n { assert false; }
    }
  }

  /** If nothing else was marked in the end, nothing else was marked on the way. */
  lemma GrewParts(a: seq<nat>, b: seq<nat>, c: seq<nat>, m: multiset<nat>, n: multiset<nat>)
    requires Grew(a, b, m, false) && Grew(b, c, n, false) && Grew(a, c, m + n, true)
    ensures Grew(a, b, m, true) && Grew(b, c, n, true)
  {
  }

  ghost function MarkedIn(s: seq<nat>): set<nat> {
    set x: nat | x < |s| && Marked(s[x])
  }

  lemma MarkedIs(s: seq<nat>, x: nat)
    requires x < |s|
    ensures x in MarkedIn(s) <==> Marked(s[x])
  {
  }

  lemma MarkedAfter(a: seq<nat>, b: seq<nat>, m: multiset<nat>)
    requires Grew(a, b, m, true)
    ensures MarkedIn(b) == MarkedIn(a) + Members(m)
  {
  }

  lemma GrewLoosely(a: seq<nat>, b: seq<nat>, m: multiset<nat>, exact: bool)
    requires Grew(a, b, m, exact)
    ensures Grew(a, b, multiset{}, false)
  {
  }

  /** Clusters that are counted once in all are still free after the others are marked. */
  lemma StillFree(a: seq<nat>, b: seq<nat>, m: multiset<nat>, n: multiset<nat>, all: multiset<nat>)
    requires Grew(a, b, m, true) && Free(a, all) && Once(all) && m + n <= all
    ensures Free(b, n) && Once(n)
  {
    forall x: nat ensures n[x] <= 1 && (x in n ==> x < |b| && !Marked(b[x])) {
      assert (m + n)[x] <= all[x];
    }
  }

  ghost function Unmarked(s: seq<nat>): set<nat> {
    set x: nat | x < |s| && !Marked(s[x])
  }

  lemma Shrinks(a: seq<nat>, b: seq<nat>)
    requires Grew(a, b, multiset{}, false)
    ensures |Unmarked(b)| <= |Unmarked(a)|
    ensures a != b ==> |Unmarked(b)| < |Unmarked(a)|
  {
    Subset(Unmarked(b), Unmarked(a));
    if a != b {
      var x :| 0 <= x < |a| && a[x] != b[x];
      assert x in Unmarked(a) && x !in Unmarked(b);
      assert Unmarked(b) < Unmarked(a);
      ProperSubset(Unmarked(b), Unmarked(a), x);
    }
  }

  lemma Subset(a: set<nat>, b: set<nat>)
    requires a <= b
    ensures |a| <= |b|
  {
    assert b == a + (b - a);
  }

  lemma ProperSubset(a: set<nat>, b: set<nat>, x: nat)
    requires a <= b && x in b && x !in a
    ensures |a| < |b|
  {
    Subset(a + {x}, b);
  }

  // ---------------------------------------------------------------------------------------
  // The walk

  lemma MarkOne(was: seq<nat>, c: nat, v: nat)
    requires c < |was| && !Marked(was[c]) && Marked(v)
    ensures Grew(was, was[c := v], multiset{c}, true) && Once(multiset{c})
  {
  }

  lemma AppendCluster(ch: seq<nat>, c: nat)
    ensures multiset(ch + [c]) == multiset(ch) + multiset{c}
  {
  }

  lemma LinkedNext(d: Disk, ch: seq<nat>, next: nat)
    requires d.Valid() && d.Linked(ch) && next == d.Next(ch[|ch| - 1]) && !d.Eof(next) && next < d.clusters
    ensures d.Linked(ch + [next])
  {
    var l := ch + [next];
    forall i: nat | i + 1 < |l| ensures d.Follows(l, i) {
      if i + 1 < |ch| { assert d.Follows(ch, i); }
    }
  }

  /** A walk along the chain of a file that has come to the last cluster of path. */
  ghost predicate OnChain(d: Disk, path: seq<nat>, begin: nat) {
    && |d.fat2| == d.clusters && d.Linked(path) && path[0] == begin
    && forall i :: 1 <= i < |path| ==> 2 <= path[i] <= d.maxFat - 16
  }

  /** The clusters of ch have been marked, and nothing else. */
  ghost predicate Walked(d: Disk, was: seq<nat>, now: seq<nat>, ch: seq<nat>) {
    && |was| == |now| == d.clusters == |d.fat2|
    && Once(multiset(ch)) && Grew(was, now, multiset(ch), true) && Lively(d, was, now)
  }

  /** A chain of free clusters that the walk has to find. */
  ghost predicate Findable(d: Disk, was: seq<nat>, begin: nat, t: seq<nat>) {
    && |d.fat2| == d.clusters && begin != 0
    && d.FileChain(t) && t[0] == begin && Once(multiset(t)) && Free(was, multiset(t))
  }

  lemma NextOfChain(d: Disk, path: seq<nat>, begin: nat, t: seq<nat>, was: seq<nat>, now: seq<nat>)
    requires d.Valid() && OnChain(d, path, begin) && Findable(d, was, begin, t) && Walked(d, was, now, path[..|path| - 1])
    ensures !Marked(now[path[|path| - 1]])
  {
    var n := |path| - 1;
    ChainUnique(d, path, t, n);
    forall i | 0 <= i < |path| ensures path[i] == t[i] { ChainUnique(d, path, t, i); }
    assert t == t[..n] + [t[n]] + t[n + 1..];
    assert path[..n] == t[..n];
    assert multiset(t) == multiset(t[..n]) + multiset{t[n]} + multiset(t[n + 1..]);
    assert multiset(t)[t[n]] <= 1;
  }

  /** The last cluster of the path is marked too. */
  lemma WalkedStep(d: Disk, path: seq<nat>, begin: nat, was: seq<nat>, now: seq<nat>, v: nat)
    requires d.Valid() && OnChain(d, path, begin) && Walked(d, was, now, path[..|path| - 1]) && Marked(v)
    requires !Marked(now[path[|path| - 1]])
    ensures var next := now[path[|path| - 1] := v];
      && Grew(was, next, multiset{}, false) && |Unmarked(next)| < |Unmarked(now)|
      && Once(multiset(path)) && Grew(was, next, multiset(path), true)
      && (d.Next(path[|path| - 1]) != 0 ==> Walked(d, was, next, path))
  {
    hide Grew;
    var n := |path| - 1;
    var c := path[n];
    var ch := path[..n];
    assert path == ch + [c];
    AppendCluster(ch, c);
    MarkOne(now, c, v);
    GrewStep(was, now, now[c := v], multiset(ch), multiset{c}, true);
    GrewLoosely(was, now[c := v], multiset(path), true);
    GrewLoosely(now, now[c := v], multiset{c}, true);
    Shrinks(now, now[c := v]);
  }

  /** The clusters of a file, each marked; -1 for a chain that leaves the volume, 0 when a cluster is taken.
      A chain t of free clusters is found. */
  method GetClusterCount(used: array<nat>, d: Disk, begin: nat, ghost t: seq<nat>) returns (ret: int, ghost ch: seq<nat>)
    requires d.Valid() && used.Length == d.clusters && begin < d.clusters
    modifies used
    ensures Grew(old(used[..]), used[..], multiset{}, false)
    ensures ret >= 0 ==> Lively(d, old(used[..]), used[..])
    ensures ret > 0 ==> begin != 0 && d.FileChain(ch) && ch[0] == begin && |ch| == ret && Walked(d, old(used[..]), used[..], ch)
    ensures begin == 0 || Marked(old(used[begin])) ==> ret == 0 && used[..] == old(used[..])
    ensures begin != 0 && used[..] == old(used[..]) ==> Marked(old(used[begin]))
    ensures Findable(d, old(used[..]), begin, t) ==> ret > 0
  {
    hide Disk.Valid, Grew, Free, OnChain, Disk.FileChain, Lively, Findable, Walked;
    ghost var was := used[..];
    ret, ch := 0, [];
    ValidShape(d);
    WalkedNothing(d, was);
    if begin == 0 {
      NotFindable(d, was, t);
      return;
    }
    var c := begin;
    ghost var path: seq<nat> := [begin];
    StartChain(d, begin);
    assert was[begin] == used[begin];
    while true
      invariant |path| == ret + 1 && OnChain(d, path, begin) && c == path[ret] < d.clusters
      invariant Walked(d, was, used[..], path[..ret]) && |used[..]| == |was|
      invariant if ret == 0 then used[..] == was && c == begin else !Marked(was[begin]) && Marked(used[..][begin])
      decreases |Unmarked(used[..])|
    {
      ghost var before := used[..];
      WalkedLoosely(d, was, before, path[..ret]);
      if Findable(d, was, begin, t) { NextOfChain(d, path, begin, t, was, before); }
      ret := ret + 1;
      if Marked(used[c]) { return 0, path; }
      used[c] := USED_FILE;
      WalkedStep(d, path, begin, was, before, USED_FILE);
      assert used[..] == before[c := USED_FILE];
      NextInside(d, c);
      c := d.Next(c);
      if d.Eof(c) {
        ChainEnds(d, path, begin);
        WalkedLoosely(d, was, used[..], path);
        return ret, path;
      }
      if c < 2 || c > d.maxFat - 16 {
        if Findable(d, was, begin, t) { NotTheEnd(d, path, begin, was, t); }
        return -1, path;
      }
      ChainGrows(d, path, begin, c);
      path := path + [c];
      assert path[..ret] == path[..|path| - 1];
    }
  }

  lemma WalkedNothing(d: Disk, s: seq<nat>)
    requires |s| == d.clusters == |d.fat2|
    ensures Walked(d, s, s, []) && Grew(s, s, multiset{}, false) && Lively(d, s, s)
  {
  }

  lemma WalkedLoosely(d: Disk, was: seq<nat>, now: seq<nat>, ch: seq<nat>)
    requires Walked(d, was, now, ch)
    ensures Grew(was, now, multiset{}, false) && Lively(d, was, now)
  {
  }

  lemma NotFindable(d: Disk, was: seq<nat>, t: seq<nat>)
    ensures !Findable(d, was, 0, t)
  {
  }

  lemma ValidShape(d: Disk)
    requires d.Valid()
    ensures |d.fat2| == d.clusters >= 1 && d.clusterSize > 0
  {
  }

  lemma StartChain(d: Disk, c: nat)
    requires d.Valid() && c < d.clusters
    ensures OnChain(d, [c], c)
  {
  }

  lemma NextInside(d: Disk, c: nat)
    requires d.Valid() && c < d.clusters
    ensures d.Eof(d.Next(c)) || d.Next(c) < d.clusters
    ensures d.Eof(d.Next(c)) ==> d.Next(c) != 0
  {
  }

  lemma ChainEnds(d: Disk, path: seq<nat>, begin: nat)
    requires d.Valid() && OnChain(d, path, begin) && d.Eof(d.Next(path[|path| - 1]))
    ensures d.FileChain(path) && path[0] == begin
  {
  }

  lemma ChainGrows(d: Disk, path: seq<nat>, begin: nat, c: nat)
    requires d.Valid() && OnChain(d, path, begin) && c == d.Next(path[|path| - 1]) && !d.Eof(c) && 2 <= c <= d.maxFat - 16
    ensures OnChain(d, path + [c], begin)
  {
    LinkedNext(d, path, c);
  }

  lemma NotTheEnd(d: Disk, path: seq<nat>, begin: nat, was: seq<nat>, t: seq<nat>)
    requires d.Valid() && OnChain(d, path, begin) && Findable(d, was, begin, t) && !d.Eof(d.Next(path[|path| - 1]))
    ensures 2 <= d.Next(path[|path| - 1]) <= d.maxFat - 16
  {
    ChainUnique(d, path, t, |path| - 1);
    if |path| < |t| { assert d.Follows(t, |path| - 1); }
  }

  /** The clusters of m have been marked; perhaps others too when empty files name clusters. */
  ghost predicate Taken(d: Disk, was: seq<nat>, now: seq<nat>, m: multiset<nat>) {
    && |was| == |now| == d.clusters == |d.fat2| && d.clusterSize > 0
    && Once(m) && Grew(was, now, m, false) && Lively(d, was, now)
  }

  /** The nodes t belong to these entries, their clusters are all free and different, and all empty files are hosted. */
  ghost predicate Expected(d: Disk, was: seq<nat>, es: seq<Entry>, t: seq<Node>) {
    && |d.fat2| == d.clusters && d.clusterSize > 0 && HostedIn(d, es, t, MarkedIn(was))
    && d.KidsFor(es, t) && Once(CoverAll(t)) && Free(was, CoverAll(t))
  }

  ghost predicate ExpectedDir(d: Disk, was: seq<nat>, c: nat, t: Node) {
    && |d.fat2| == d.clusters && d.clusterSize > 0 && Hosted(d, t, MarkedIn(was))
    && d.Tree(t) && t.Dir? && t.chain[0] == c && Once(Cover(t)) && Free(was, Cover(t))
  }

  /** Nothing else has been marked if and only if the empty files among these entries are hosted. */
  ghost predicate Judged(d: Disk, was: seq<nat>, now: seq<nat>, es: seq<Entry>, kids: seq<Node>)
    requires d.clusterSize > 0
  {
    Grew(was, now, CoverAll(kids), true) <==> HostedIn(d, es, kids, MarkedIn(was))
  }

  lemma TakenNothing(d: Disk, s: seq<nat>)
    requires |s| == d.clusters == |d.fat2| && d.clusterSize > 0
    ensures Taken(d, s, s, multiset{}) && Grew(s, s, multiset{}, false)
  {
  }

  lemma GrewTrans(a: seq<nat>, b: seq<nat>, c: seq<nat>)
    requires Grew(a, b, multiset{}, false) && Grew(b, c, multiset{}, false)
    ensures Grew(a, c, multiset{}, false)
  {
  }

  lemma TakenStep(d: Disk, a: seq<nat>, b: seq<nat>, c: seq<nat>, m: multiset<nat>, n: multiset<nat>)
    requires Taken(d, a, b, m) && Taken(d, b, c, n)
    ensures Taken(d, a, c, m + n)
  {
    GrewStep(a, b, c, m, n, false);
  }

  /** One list of entries after another. */
  lemma JudgedStep(d: Disk, was: seq<nat>, now: seq<nat>, next: seq<nat>, a: seq<Entry>, b: seq<Entry>, k: seq<Node>, l: seq<Node>)
    requires Taken(d, was, now, CoverAll(k)) && Taken(d, now, next, CoverAll(l))
    requires |d.Relevant(a)| == |k| && |d.Relevant(b)| == |l|
    requires Judged(d, was, now, a, k) && Judged(d, now, next, b, l)
    ensures Judged(d, was, next, a + b, k + l)
  {
    hide Grew, HostedIn, MarkedIn, Members, CoverAll, Disk.Relevant, Lively, Once;
    HostedAppend(d, a, b, k, l, MarkedIn(was));
    CoverAppend(k, l);
    GrewBoth(was, now, next, CoverAll(k), CoverAll(l));
    if Grew(was, now, CoverAll(k), true) { MarkedAfter(was, now, CoverAll(k)); }
  }

  lemma OneNode(n: Node)
    ensures CoverAll([n]) == Cover(n)
  {
    assert CoverAll([n][..0]) == multiset{};
  }

  lemma RelevantOne(d: Disk, e: Entry)
    requires d.clusterSize > 0
    ensures d.Relevant([e]) == if e.Sub? || d.Sized(e) then [e] else []
  {
    assert d.Relevant([e][..0]) == [];
  }

  lemma HostedOne(d: Disk, e: Entry, kid: seq<Node>, done: set<nat>)
    requires d.clusterSize > 0
    ensures HostedIn(d, [e], kid, done) <==> HostedEntry(d, e, kid, done)
  {
    hide HostedEntry;
    assert [e][..0] == [] && kid[0..] == kid && kid[..0] == [];
    assert done + Members(CoverAll([])) == done;
  }

  lemma SkipKid(d: Disk, s: seq<nat>)
    requires |s| == d.clusters == |d.fat2| && d.clusterSize > 0
    ensures d.KidsFor([Skip], []) && Taken(d, s, s, CoverAll([])) && CoverAll([]) == multiset{}
    ensures Judged(d, s, s, [Skip], [])
  {
    RelevantOne(d, Skip);
    HostedOne(d, Skip, [], MarkedIn(s));
  }

  lemma NeverBad(d: Disk, was: seq<nat>, t: seq<Node>)
    ensures !Expected(d, was, [Bad], t)
  {
    assert [Bad][0] == Bad;
  }

  lemma SubExpected(d: Disk, was: seq<nat>, begin: nat, t: seq<Node>)
    ensures Expected(d, was, [Sub(begin)], t) ==> |t| == 1 && begin != 0 && ExpectedDir(d, was, begin, t[0])
  {
    if Expected(d, was, [Sub(begin)], t) {
      RelevantOne(d, Sub(begin));
      OneNode(t[0]);
      assert t == [t[0]];
      HostedOne(d, Sub(begin), t, MarkedIn(was));
    }
  }

  lemma SubKid(d: Disk, was: seq<nat>, now: seq<nat>, begin: nat, g: Node)
    requires d.Valid() && begin != 0 && d.Tree(g) && g.Dir? && g.chain[0] == begin
    requires Grew(was, now, Cover(g), true) <==> Hosted(d, g, MarkedIn(was))
    ensures d.KidsFor([Sub(begin)], [g]) && CoverAll([g]) == Cover(g) && Judged(d, was, now, [Sub(begin)], [g])
  {
    HostedOne(d, Sub(begin), [g], MarkedIn(was));
    RelevantOne(d, Sub(begin));
    OneNode(g);
  }

  /** What the walk computes is the number of clusters that hold the file, or 0. */
  lemma NeedIs(d: Disk, begin: nat, size: nat, n: nat)
    requires d.Valid() && d.Placed(Data(begin, size))
    ensures n == d.Need(size) <==> if d.Sized(Data(begin, size)) then d.Holds(n, size) else n == 0
    ensures d.Sized(Data(begin, size)) && d.Holds(n, size) ==> n > 0
  {
    hide Disk.Valid;
    ClusterBounds(d);
    NeedOf(d, size, n);
    if size + d.clusterSize > 0x1_0000_0000 || size == 0 { NeedOf(d, size, 0); }
  }

  lemma NeedOf(d: Disk, size: nat, n: nat)
    requires 0 < d.clusterSize < 0x1_0000_0000 && size < 0x1_0000_0000
    ensures n == d.Need(size) <==>
      n * d.clusterSize <= Wrapped(size + d.clusterSize - 1) < n * d.clusterSize + d.clusterSize
  {
    Quotient(Wrapped(size + d.clusterSize - 1), d.clusterSize, n);
  }

  /** A number below 2^33 cut to 32 bits. */
  function Wrapped(m: nat): (r: nat)
    requires m < 0x2_0000_0000
    ensures r == m % 0x1_0000_0000
  {
    if m < 0x1_0000_0000 then m else m - 0x1_0000_0000
  }

  lemma ClusterBounds(d: Disk)
    requires d.Valid()
    ensures 512 <= d.clusterSize < 0x1_0000_0000
  {
  }

  lemma Quotient(m: nat, c: nat, n: nat)
    requires c > 0
    ensures n == m / c <==> n * c <= m < n * c + c
  {
    var q := m / c;
    assert m == q * c + m % c;
    if n < q {
      Further(n, q, c);
    } else if n > q {
      Further(q, n, c);
    }
  }

  lemma Further(a: nat, b: nat, c: nat)
    requires a < b
    ensures a * c + c <= b * c
  {
    var k := b - a - 1;
    assert b * c == (a + 1 + k) * c == a * c + c + k * c;
  }

  lemma DataExpected(d: Disk, was: seq<nat>, begin: nat, size: nat, t: seq<Node>)
    requires Expected(d, was, [Data(begin, size)], t)
    ensures if !d.Sized(Data(begin, size)) then t == [] && (begin == 0 || begin in MarkedIn(was)) else
      |t| == 1 && Findable(d, was, begin, t[0].chain) && d.Holds(|t[0].chain|, size)
  {
    hide Disk.Sized, Disk.Holds, CoverAll, Disk.Chain, Disk.Relevant, MarkedIn;
    RelevantOne(d, Data(begin, size));
    HostedOne(d, Data(begin, size), t, MarkedIn(was));
    if !d.Sized(Data(begin, size)) { return; }
    OneNode(t[0]);
    assert t == [t[0]];
    assert d.Fit(d.Relevant([Data(begin, size)])[0], t[0]) && d.Tree(t[0]);
  }

  lemma DataFound(d: Disk, was: seq<nat>, begin: nat, size: nat, t: seq<Node>, n: int, ch: seq<nat>)
    requires d.Valid() && d.Placed(Data(begin, size)) && Expected(d, was, [Data(begin, size)], t)
    requires begin == 0 || begin in MarkedIn(was) ==> n == 0
    requires |t| == 1 && Findable(d, was, begin, t[0].chain) ==> n > 0
    requires n > 0 ==> d.FileChain(ch) && ch[0] == begin && |ch| == n
    ensures n == d.Need(size)
  {
    hide Disk.Need, Disk.Sized, Disk.Holds, Disk.Valid, Expected;
    DataExpected(d, was, begin, size, t);
    if d.Sized(Data(begin, size)) { ChainsEqual(d, ch, t[0].chain); }
    NeedIs(d, begin, size, n);
  }

  lemma FileKid(d: Disk, was: seq<nat>, now: seq<nat>, begin: nat, size: nat, ch: seq<nat>)
    requires d.Valid() && begin != 0 && d.FileChain(ch) && ch[0] == begin && Walked(d, was, now, ch)
    requires d.Sized(Data(begin, size)) && d.Holds(|ch|, size)
    ensures d.KidsFor([Data(begin, size)], [File(ch)]) && Taken(d, was, now, CoverAll([File(ch)]))
    ensures |CoverAll([File(ch)])| == |ch| && Judged(d, was, now, [Data(begin, size)], [File(ch)])
  {
    HostedOne(d, Data(begin, size), [File(ch)], MarkedIn(was));
    RelevantOne(d, Data(begin, size));
    OneNode(File(ch));
  }

  lemma EmptyKid(d: Disk, was: seq<nat>, now: seq<nat>, begin: nat, size: nat)
    requires d.Valid() && !d.Sized(Data(begin, size)) && |was| == |now| == d.clusters && Grew(was, now, multiset{}, false) && Lively(d, was, now)
    requires was == now <==> begin == 0 || begin in MarkedIn(was)
    ensures d.KidsFor([Data(begin, size)], []) && Taken(d, was, now, CoverAll([])) && |CoverAll([])| == 0
    ensures Judged(d, was, now, [Data(begin, size)], [])
  {
    HostedOne(d, Data(begin, size), [], MarkedIn(was));
    RelevantOne(d, Data(begin, size));
  }

  /** One entry: a subdirectory is walked, the clusters of a file are counted and compared with its size. */
  method CheckEntry(used: array<nat>, d: Disk, e: Entry, ghost t: seq<Node>) returns (ok: bool, count: nat, ghost kid: seq<Node>)
    requires d.Valid() && used.Length == d.clusters && d.Placed(e) && Marked(used[0])
    modifies used
    ensures Grew(old(used[..]), used[..], multiset{}, false)
    ensures ok ==> d.KidsFor([e], kid) && Taken(d, old(used[..]), used[..], CoverAll(kid)) && count == |CoverAll(kid)|
    ensures ok ==> Judged(d, old(used[..]), used[..], [e], kid)
    ensures Expected(d, old(used[..]), [e], t) ==> ok
    decreases |Unmarked(used[..])|, 1
  {
    hide Disk.Valid, Grew, Taken, Cover, CoverAll, Judged, MarkedIn, Hosted, Disk.Tree, Expected, ExpectedDir, Disk.Need, Disk.Sized, Disk.Holds, Walked, Lively,
         Disk.KidsFor, Findable, Disk.FileChain, Unmarked;
    ghost var was := used[..];
    ok, count, kid := false, 0, [];
    ValidShape(d);
    TakenNothing(d, was);
    SkipKid(d, was);
    match e
    case Skip => ok := true;
    case Bad => NeverBad(d, was, t);
    case Sub(begin) =>
      SubExpected(d, was, begin, t);
      if begin == 0 { return; }
      ghost var g;
      count, g := CheckDirectory(used, d, begin, if |t| == 1 then t[0] else File([]));
      if count == 0 { return; }
      SubKid(d, was, used[..], begin, g);
      ok, kid := true, [g];
    case Data(begin, size) =>
      var n;
      ghost var ch;
      n, ch := GetClusterCount(used, d, begin, if |t| == 1 then t[0].chain else []);
      MarkedIs(was, begin);
      if Expected(d, was, [e], t) { DataFound(d, was, begin, size, t, n, ch); }
      if n != d.Need(size) { return; }
      NeedIs(d, begin, size, n);
      if n > 0 {
        FileKid(d, was, used[..], begin, size, ch);
        kid := [File(ch)];
      } else {
        EmptyKid(d, was, used[..], begin, size);
      }
      ok, count := true, n;
  }

  lemma KidsSize(d: Disk, es: seq<Entry>, kids: seq<Node>)
    requires |d.fat2| == d.clusters && d.clusterSize > 0 && d.KidsFor(es, kids)
    ensures |kids| == |d.Relevant(es)|
  {
  }

  /** The nodes for the next entry are those after the ones found so far. */
  lemma ExpectedNext(d: Disk, was: seq<nat>, now: seq<nat>, a: seq<Entry>, b: seq<Entry>, c: seq<Entry>, t: seq<Node>, kids: seq<Node>)
    requires d.Valid() && Expected(d, was, a + b + c, t) && d.KidsFor(a, kids) && Taken(d, was, now, CoverAll(kids))
    requires Judged(d, was, now, a, kids)
    ensures |kids| + |d.Relevant(b)| <= |t|
    ensures Expected(d, now, b, t[|kids|..][..|d.Relevant(b)|])
  {
    hide Disk.KidsFor, Grew, Free, Once, Lively, CoverAll, Disk.Relevant, HostedIn, MarkedIn, Members;
    var n := |kids|;
    KidsSize(d, a, kids);
    assert a + b + c == a + (b + c);
    KidsSplit(d, a, b + c, t);
    KidsUnique(d, a, t[..n], kids);
    KidsSplit(d, b, c, t[n..]);
    var m := |d.Relevant(b)|;
    assert t == kids + (t[n..][..m] + t[n..][m..]);
    CoverAppend(kids, t[n..][..m] + t[n..][m..]);
    CoverAppend(t[n..][..m], t[n..][m..]);
    KidsSize(d, b + c, t[n..]);
    KidsSize(d, b, t[n..][..m]);
    KidsSize(d, c, t[n..][m..]);
    HostedAppend(d, a, b + c, kids, t[n..], MarkedIn(was));
    MarkedAfter(was, now, CoverAll(kids));
    HostedAppend(d, b, c, t[n..][..m], t[n..][m..], MarkedIn(now));
    StillFree(was, now, CoverAll(kids), CoverAll(t[n..][..m]), CoverAll(t));
  }

  /** All entries in one cluster of a directory. */
  method CheckCluster(used: array<nat>, d: Disk, c: nat, ghost t: seq<Node>) returns (ok: bool, count: nat, ghost kids: seq<Node>)
    requires d.Valid() && used.Length == d.clusters && Marked(used[0])
    modifies used
    ensures Grew(old(used[..]), used[..], multiset{}, false)
    ensures ok ==> d.KidsFor(d.entries(c), kids) && Taken(d, old(used[..]), used[..], CoverAll(kids)) && count == |CoverAll(kids)|
    ensures ok ==> Judged(d, old(used[..]), used[..], d.entries(c), kids)
    ensures Expected(d, old(used[..]), d.entries(c), t) ==> ok
    decreases |Unmarked(used[..])|, 2
  {
    hide Disk.Valid, Grew, Taken, Cover, CoverAll, Judged, MarkedIn, Hosted, Expected, Disk.Need, Lively, Disk.KidsFor, Unmarked, Disk.Relevant;
    var es := d.entries(c);
    ghost var was := used[..];
    ValidShape(d);
    assert Marked(was[0]);
    count, kids := 0, [];
    TakenNothing(d, was);
    NoEntries(d, was);
    for i := 0 to |es|
      invariant d.KidsFor(es[..i], kids) && Taken(d, was, used[..], CoverAll(kids)) && count == |CoverAll(kids)|
      invariant Grew(was, used[..], multiset{}, false) && Judged(d, was, used[..], es[..i], kids)
    {
      ghost var now := used[..];
      ghost var expected := Expected(d, was, es, t);
      if expected {
        assert es == es[..i] + [es[i]] + es[i + 1..];
        ExpectedNext(d, was, now, es[..i], [es[i]], es[i + 1..], t, kids);
      }
      EntryPlaced(d, c, i);
      StillMarked(was, now);
      Shrinks(was, now);
      ghost var part := if expected then t[|kids|..][..|d.Relevant([es[i]])|] else [];
      var good, n;
      ghost var kid;
      good, n, kid := CheckEntry(used, d, es[i], part);
      GrewTrans(was, now, used[..]);
      if !good { return false, count, kids; }
      TakenStep(d, was, now, used[..], CoverAll(kids), CoverAll(kid));
      KidsSize(d, es[..i], kids);
      KidsSize(d, [es[i]], kid);
      JudgedStep(d, was, now, used[..], es[..i], [es[i]], kids, kid);
      CoverAppend(kids, kid);
      KidsAppend(d, es[..i], [es[i]], kids, kid);
      assert es[..i + 1] == es[..i] + [es[i]];
      kids := kids + kid;
      count := count + n;
    }
    assert es[..|es|] == es;
    ok := true;
  }

  lemma NoEntries(d: Disk, s: seq<nat>)
    requires |s| == d.clusters == |d.fat2| && d.clusterSize > 0
    ensures d.KidsFor([], []) && Taken(d, s, s, CoverAll([])) && |CoverAll([])| == 0 && Judged(d, s, s, [], [])
  {
  }

  lemma EntryPlaced(d: Disk, c: nat, i: nat)
    requires d.Valid() && i < |d.entries(c)|
    ensures d.Placed(d.entries(c)[i])
  {
  }

  lemma StillMarked(was: seq<nat>, now: seq<nat>)
    requires Grew(was, now, multiset{}, false)
    ensures |now| == |was|
    ensures forall x: nat :: x < |was| && Marked(was[x]) ==> Marked(now[x])
  {
  }

  // A directory under way: the chain so far, and the nodes for the entries in it.

  ghost predicate DirSoFar(d: Disk, was: seq<nat>, now: seq<nat>, path: seq<nat>, kids: seq<Node>, c: nat) {
    && |d.fat2| == d.clusters && d.clusterSize > 0
    && d.Linked(path) && path[0] == c
    && d.KidsFor(d.Contents(path[..|path| - 1]), kids)
    && |was| == |now| == d.clusters
    && Once(multiset(path[..|path| - 1]) + CoverAll(kids))
    && Grew(was, now, multiset(path[..|path| - 1]) + CoverAll(kids), false)
    && (Grew(was, now, multiset(path[..|path| - 1]) + CoverAll(kids), true) <==> HostedPath(d, path[..|path| - 1], kids, MarkedIn(was)))
    && (Lively(d, was, now) || (path[|path| - 1] == 0 && |path| > 1))
  }

  lemma DirStart(d: Disk, was: seq<nat>, c: nat)
    requires d.Valid() && |was| == d.clusters && c < d.clusters
    ensures DirSoFar(d, was, was, [c], [], c) && |CoverAll([])| == 0 && Grew(was, was, multiset{}, false)
  {
    assert [c][..0] == [];
    assert multiset([c][..0]) + CoverAll([]) == multiset{};
  }

  /** The clusters of a directory and of what lies below it, split at one place of its chain. */
  lemma DirSplit(t: Node, n: nat, kids: seq<Node>, part: seq<Node>, rest: seq<Node>)
    requires t.Dir? && n < |t.chain| && t.kids == kids + part + rest
    ensures Cover(t) == multiset(t.chain[..n]) + CoverAll(kids) + multiset{t.chain[n]} + CoverAll(part)
                        + multiset(t.chain[n + 1..]) + CoverAll(rest)
  {
    hide CoverAll;
    assert t.chain == t.chain[..n] + [t.chain[n]] + t.chain[n + 1..];
    CoverAppend(kids + part, rest);
    CoverAppend(kids, part);
    Rearrange(multiset(t.chain[..n]), multiset{t.chain[n]}, multiset(t.chain[n + 1..]), CoverAll(kids), CoverAll(part), CoverAll(rest));
  }

  lemma Rearrange(a: multiset<nat>, x: multiset<nat>, c: multiset<nat>, k: multiset<nat>, p: multiset<nat>, r: multiset<nat>)
    ensures (a + x + c) + (k + p + r) == a + k + x + p + c + r
  {
  }

  lemma {:induction false} ContentsAppend(d: Disk, a: seq<nat>, b: seq<nat>)
    ensures d.Contents(a + b) == d.Contents(a) + d.Contents(b)
    decreases |b|
  {
    if b == [] {
      assert a + b == a;
    } else {
      assert (a + b)[..|a + b| - 1] == a + b[..|b| - 1];
      ContentsAppend(d, a, b[..|b| - 1]);
    }
  }

  lemma ContentsOne(d: Disk, c: nat)
    ensures d.Contents([c]) == d.entries(c)
  {
    assert d.Contents([c][..0]) == [];
  }

  lemma PathPrefix(d: Disk, path: seq<nat>, t: seq<nat>)
    requires d.Valid() && d.Linked(path) && d.Chain(t) && path[0] == t[0]
    ensures |path| <= |t| && path == t[..|path|]
  {
    ChainUnique(d, path, t, |path| - 1);
    forall i | 0 <= i < |path| ensures path[i] == t[i] { ChainUnique(d, path, t, i); }
  }

  /** The nodes of a directory, split at one place of its chain. */
  lemma KidsAt(d: Disk, chain: seq<nat>, n: nat, t: seq<Node>, kids: seq<Node>) returns (part: seq<Node>, rest: seq<Node>)
    requires d.Valid() && n < |chain| && d.KidsFor(d.Contents(chain), t) && d.KidsFor(d.Contents(chain[..n]), kids)
    ensures t == kids + part + rest && d.KidsFor(d.entries(chain[n]), part)
  {
    hide Disk.KidsFor, Disk.Contents, Disk.Relevant;
    var a, b, r := d.Contents(chain[..n]), d.entries(chain[n]), d.Contents(chain[n + 1..]);
    assert chain == chain[..n] + ([chain[n]] + chain[n + 1..]);
    ContentsAppend(d, chain[..n], [chain[n]] + chain[n + 1..]);
    ContentsAppend(d, [chain[n]], chain[n + 1..]);
    ContentsOne(d, chain[n]);
    KidsSplit(d, a, b + r, t);
    var k := |d.Relevant(a)|;
    KidsUnique(d, a, t[..k], kids);
    KidsSplit(d, b, r, t[k..]);
    var m := |d.Relevant(b)|;
    part, rest := t[k..][..m], t[k..][m..];
  }

  /** The tree t tells which nodes the next cluster of the directory has to give. */
  lemma DirExpected(d: Disk, was: seq<nat>, now: seq<nat>, path: seq<nat>, kids: seq<Node>, c: nat, t: Node, v: nat)
    returns (part: seq<Node>)
    requires d.Valid() && DirSoFar(d, was, now, path, kids, c) && ExpectedDir(d, was, c, t) && Marked(v)
    ensures !Marked(now[path[|path| - 1]])
    ensures Expected(d, now[path[|path| - 1] := v], d.entries(path[|path| - 1]), part)
  {
    hide Disk.KidsFor, Disk.Contents, Grew, Free, Once, Lively, Cover, CoverAll, Disk.Chain, HostedIn, HostedPath, MarkedIn, Members;
    var n := |path| - 1;
    var x := path[n];
    PathPrefix(d, path, t.chain);
    assert path[..n] == t.chain[..n] && x == t.chain[n];
    var rest;
    part, rest := KidsAt(d, t.chain, n, t.kids, kids);
    DirSplit(t, n, kids, part, rest);
    KidsSize(d, d.Contents(path[..n]), kids);
    KidsSize(d, d.entries(x), part);
    DirHosted(d, t, n, kids, part, rest, MarkedIn(was));
    MarkedAfter(was, now, multiset(path[..n]) + CoverAll(kids));
    NewlyMarked(was, now, path, CoverAll(kids), v);
    NewlyFree(was, now, multiset(path[..n]) + CoverAll(kids), x, CoverAll(part), Cover(t), v);
  }

  lemma DirHosted(d: Disk, t: Node, n: nat, kids: seq<Node>, part: seq<Node>, rest: seq<Node>, done: set<nat>)
    requires |d.fat2| == d.clusters && d.clusterSize > 0 && d.Tree(t) && t.Dir? && n < |t.chain| && Hosted(d, t, done)
    requires t.kids == kids + part + rest
    requires |d.Relevant(d.Contents(t.chain[..n]))| == |kids| && |d.Relevant(d.entries(t.chain[n]))| == |part|
    ensures HostedPath(d, t.chain[..n], kids, done)
    ensures HostedIn(d, d.entries(t.chain[n]), part, done + Members(multiset(t.chain[..n + 1]) + CoverAll(kids)))
  {
    hide Disk.Relevant, CoverAll, HostedIn, Members, Disk.Chain, Disk.Fit;
    HostedPrefix(d, t.chain, t.kids, done, n + 1);
    var p := t.chain[..n + 1];
    assert p[..|p| - 1] == t.chain[..n] && p[n] == t.chain[n];
    assert d.Contents(p) == d.Contents(t.chain[..n]) + d.entries(t.chain[n]);
    RelevantAppend(d, d.Contents(t.chain[..n]), d.entries(t.chain[n]));
    assert t.kids[..|kids| + |part|] == kids + part;
    assert (kids + part)[..|kids|] == kids && (kids + part)[|kids|..] == part;
  }

  lemma NewlyMarked(was: seq<nat>, now: seq<nat>, path: seq<nat>, k: multiset<nat>, v: nat)
    requires path != [] && Marked(v) && path[|path| - 1] < |now|
    requires MarkedIn(now) == MarkedIn(was) + Members(multiset(path[..|path| - 1]) + k)
    ensures MarkedIn(now[path[|path| - 1] := v]) == MarkedIn(was) + Members(multiset(path) + k)
  {
    var n := |path| - 1;
    assert path == path[..n] + [path[n]];
    assert MarkedIn(now[path[n] := v]) == MarkedIn(now) + {path[n]};
  }

  lemma NewlyFree(was: seq<nat>, now: seq<nat>, done: multiset<nat>, x: nat, part: multiset<nat>, all: multiset<nat>, v: nat)
    requires Grew(was, now, done, true) && Once(all) && Free(was, all) && done + multiset{x} + part <= all && Marked(v)
    ensures x < |now| && !Marked(now[x])
    ensures Once(part) && Free(now[x := v], part)
  {
    assert (done + multiset{x} + part)[x] <= all[x];
    forall y: nat ensures part[y] <= 1 && (y in part ==> y < |now| && !Marked(now[x := v][y])) {
      assert (done + multiset{x} + part)[y] <= all[y];
    }
  }

  lemma DirCover(path: seq<nat>, kids: seq<Node>, more: seq<Node>)
    requires path != []
    ensures multiset(path) + CoverAll(kids + more)
            == multiset(path[..|path| - 1]) + CoverAll(kids) + multiset{path[|path| - 1]} + CoverAll(more)
    ensures |multiset(path) + CoverAll(kids + more)| == |path| + |CoverAll(kids)| + |CoverAll(more)|
  {
    hide CoverAll;
    CoverAppend(kids, more);
    assert path == path[..|path| - 1] + [path[|path| - 1]];
  }

  /** The last cluster of the path is marked, and its entries are done. */
  lemma DirStep(d: Disk, was: seq<nat>, now: seq<nat>, path: seq<nat>, kids: seq<Node>, c: nat, v: nat,
                after: seq<nat>, more: seq<Node>)
    requires d.Valid() && DirSoFar(d, was, now, path, kids, c) && Marked(v) && !Marked(now[path[|path| - 1]])
    requires path[|path| - 1] == 0 ==> |path| == 1
    requires Taken(d, now[path[|path| - 1] := v], after, CoverAll(more)) && d.KidsFor(d.entries(path[|path| - 1]), more)
    requires Judged(d, now[path[|path| - 1] := v], after, d.entries(path[|path| - 1]), more)
    ensures var all := multiset(path) + CoverAll(kids + more);
      && Once(all) && Grew(was, after, all, false)
      && (Grew(was, after, all, true) <==> HostedPath(d, path, kids + more, MarkedIn(was)))
      && |all| == |path| + |CoverAll(kids)| + |CoverAll(more)|
    ensures d.KidsFor(d.Contents(path), kids + more) && d.Linked(path) && path[0] == c
    ensures d.Next(path[|path| - 1]) != 0 ==> Lively(d, was, after)
  {
    hide Grew, Disk.KidsFor, CoverAll, HostedPath, HostedIn, MarkedIn, Members, Disk.Valid, Once, Lively, Disk.Contents;
    var x := path[|path| - 1];
    KidsSize(d, d.entries(x), more);
    DirCovers(d, was, now, path, kids, c, v, after, more);
    DirJudged(d, was, now, path, kids, c, v, after, more);
    DirKids(d, path, kids, more);
    if d.Next(x) != 0 { LivelyStep(d, was, now, x, v, after, path, kids, c); }
  }

  lemma DirKids(d: Disk, path: seq<nat>, kids: seq<Node>, more: seq<Node>)
    requires |d.fat2| == d.clusters && d.clusterSize > 0 && path != []
    requires d.KidsFor(d.Contents(path[..|path| - 1]), kids) && d.KidsFor(d.entries(path[|path| - 1]), more)
    ensures d.KidsFor(d.Contents(path), kids + more)
  {
    hide Disk.KidsFor;
    KidsAppend(d, d.Contents(path[..|path| - 1]), d.entries(path[|path| - 1]), kids, more);
  }

  lemma DirCovers(d: Disk, was: seq<nat>, now: seq<nat>, path: seq<nat>, kids: seq<Node>, c: nat, v: nat,
                  after: seq<nat>, more: seq<Node>)
    requires d.Valid() && DirSoFar(d, was, now, path, kids, c) && Marked(v) && !Marked(now[path[|path| - 1]])
    requires Taken(d, now[path[|path| - 1] := v], after, CoverAll(more))
    ensures var all := multiset(path) + CoverAll(kids + more);
      && Once(all) && Grew(was, after, all, false) && |all| == |path| + |CoverAll(kids)| + |CoverAll(more)|
  {
    hide Grew, Disk.KidsFor, CoverAll, HostedPath, MarkedIn, Disk.Valid, Lively, Disk.Contents;
    var x := path[|path| - 1];
    var done := multiset(path[..|path| - 1]) + CoverAll(kids);
    MarkExactly(now, x, v);
    GrewStep(was, now, now[x := v], done, multiset{x}, false);
    GrewStep(was, now[x := v], after, done + multiset{x}, CoverAll(more), false);
    DirCover(path, kids, more);
  }

  lemma MarkExactly(now: seq<nat>, x: nat, v: nat)
    requires x < |now| && !Marked(now[x]) && Marked(v)
    ensures Grew(now, now[x := v], multiset{x}, true) && Grew(now, now[x := v], multiset{x}, false)
  {
  }

  lemma DirJudged(d: Disk, was: seq<nat>, now: seq<nat>, path: seq<nat>, kids: seq<Node>, c: nat, v: nat,
                  after: seq<nat>, more: seq<Node>)
    requires d.Valid() && DirSoFar(d, was, now, path, kids, c) && Marked(v) && !Marked(now[path[|path| - 1]])
    requires Taken(d, now[path[|path| - 1] := v], after, CoverAll(more)) && |d.Relevant(d.entries(path[|path| - 1]))| == |more|
    requires Judged(d, now[path[|path| - 1] := v], after, d.entries(path[|path| - 1]), more)
    ensures Grew(was, after, multiset(path) + CoverAll(kids + more), true) <==> HostedPath(d, path, kids + more, MarkedIn(was))
  {
    hide Grew, Disk.KidsFor, CoverAll, Disk.Valid, HostedIn, MarkedIn, Members, Lively, Disk.Relevant;
    var n := |path| - 1;
    var x, p := path[n], path[..n];
    var done := multiset(p) + CoverAll(kids);
    var next := now[x := v];
    MarkExactly(now, x, v);
    GrewBoth(was, now, next, done, multiset{x});
    GrewBoth(was, next, after, done + multiset{x}, CoverAll(more));
    DirCover(path, kids, more);
    KidsSize(d, d.Contents(p), kids);
    assert (kids + more)[..|kids|] == kids && (kids + more)[|kids|..] == more;
    if Grew(was, now, done, true) {
      MarkedAfter(was, now, done);
      NewlyMarked(was, now, path, CoverAll(kids), v);
    }
  }

  lemma GrewBoth(a: seq<nat>, b: seq<nat>, c: seq<nat>, m: multiset<nat>, n: multiset<nat>)
    requires Grew(a, b, m, false) && Grew(b, c, n, false) && Once(m) && Once(n)
    ensures Grew(a, c, m + n, false) && Once(m + n)
    ensures Grew(a, c, m + n, true) <==> Grew(a, b, m, true) && Grew(b, c, n, true)
  {
    hide Grew, Once;
    GrewStep(a, b, c, m, n, false);
    if Grew(a, c, m + n, true) {
      GrewParts(a, b, c, m, n);
    } else if Grew(a, b, m, true) && Grew(b, c, n, true) {
      GrewStep(a, b, c, m, n, true);
    }
  }

  lemma LivelyStep(d: Disk, was: seq<nat>, now: seq<nat>, x: nat, v: nat, after: seq<nat>, path: seq<nat>, kids: seq<Node>, c: nat)
    requires d.Valid() && DirSoFar(d, was, now, path, kids, c) && x == path[|path| - 1] && (x == 0 ==> |path| == 1)
    requires |after| == d.clusters && Lively(d, now[x := v], after) && d.Next(x) != 0
    ensures Lively(d, was, after)
  {
    hide Disk.KidsFor, Disk.Valid;
  }

  /** The walk through a directory and all below it; t is the tree it has to find. */
  method CheckDirectory(used: array<nat>, d: Disk, c: nat, ghost t: Node) returns (ret: nat, ghost g: Node)
    requires d.Valid() && used.Length == d.clusters && c < d.clusters && (c == 0 || Marked(used[0]))
    modifies used
    ensures Grew(old(used[..]), used[..], multiset{}, false)
    ensures ret > 0 ==> d.Tree(g) && g.Dir? && g.chain[0] == c && Taken(d, old(used[..]), used[..], Cover(g)) && ret == |Cover(g)|
    ensures ret > 0 ==> (Grew(old(used[..]), used[..], Cover(g), true) <==> Hosted(d, g, MarkedIn(old(used[..]))))
    ensures ExpectedDir(d, old(used[..]), c, t) ==> ret > 0
    decreases |Unmarked(used[..])|, 0
  {
    hide Disk.Valid, Grew, Taken, Cover, CoverAll, Judged, MarkedIn, Hosted, Disk.Tree, Expected, ExpectedDir, Disk.KidsFor, Unmarked,
         Disk.Contents, DirSoFar, Disk.Linked, Lively, HostedPath;
    ghost var was := used[..];
    ghost var path: seq<nat>, kids: seq<Node> := [c], [];
    ret, g := 0, File([]);
    var cur := c;
    ValidShape(d);
    DirStart(d, was, c);
    while true
      invariant |path| >= 1 && cur == path[|path| - 1] < d.clusters && DirSoFar(d, was, used[..], path, kids, c)
      invariant ret == |path| - 1 + |CoverAll(kids)| && Grew(was, used[..], multiset{}, false)
      invariant path[0] == c && ((|path| == 1 && c == 0) || Marked(used[0]))
      decreases |Unmarked(used[..])|
    {
      ghost var now := used[..];
      ghost var expected := ExpectedDir(d, was, c, t);
      ghost var part := [];
      if expected { part := DirExpected(d, was, now, path, kids, c, t, USED_DIRECTORY); }
      ret := ret + 1;
      if Marked(used[cur]) { return 0, g; }
      used[cur] := USED_DIRECTORY;
      ghost var marked := used[..];
      assert marked == now[cur := USED_DIRECTORY];
      MarkLoosely(was, now, cur, USED_DIRECTORY);
      var ok, count;
      ghost var more;
      ok, count, more := CheckCluster(used, d, cur, part);
      GrewFurther(was, marked, used[..]);
      if !ok { return 0, g; }
      DirStep(d, was, now, path, kids, c, USED_DIRECTORY, used[..], more);
      kids := kids + more;
      ret := ret + count;
      NextInside(d, cur);
      cur := d.Next(cur);
      if d.Eof(cur) {
        g := Dir(path, kids);
        DirDone(d, was, used[..], path, kids);
        return;
      }
      DirNext(d, was, used[..], path, kids, c, cur);
      path := path + [cur];
    }
  }

  lemma MarkLoosely(was: seq<nat>, now: seq<nat>, x: nat, v: nat)
    requires x < |now| && !Marked(now[x]) && Marked(v) && Grew(was, now, multiset{}, false)
    ensures Grew(was, now[x := v], multiset{}, false)
    ensures |Unmarked(now[x := v])| < |Unmarked(now)| <= |Unmarked(was)|
    ensures x == 0 || Marked(now[0]) ==> Marked(now[x := v][0])
  {
    Shrinks(was, now);
    Shrinks(now, now[x := v]);
  }

  lemma GrewFurther(was: seq<nat>, now: seq<nat>, next: seq<nat>)
    requires Grew(was, now, multiset{}, false) && Grew(now, next, multiset{}, false)
    ensures Grew(was, next, multiset{}, false) && |Unmarked(next)| <= |Unmarked(now)|
    ensures forall x: nat :: x < |now| && Marked(now[x]) ==> Marked(next[x])
  {
    Shrinks(now, next);
  }

  lemma DirDone(d: Disk, was: seq<nat>, now: seq<nat>, path: seq<nat>, kids: seq<Node>)
    requires d.Valid() && d.Linked(path) && d.Eof(d.Next(path[|path| - 1])) && d.KidsFor(d.Contents(path), kids)
    requires var all := multiset(path) + CoverAll(kids);
      && Once(all) && Grew(was, now, all, false)
      && (Grew(was, now, all, true) <==> HostedPath(d, path, kids, MarkedIn(was)))
    requires |was| == d.clusters && Lively(d, was, now)
    ensures d.Tree(Dir(path, kids)) && Taken(d, was, now, Cover(Dir(path, kids)))
    ensures Grew(was, now, Cover(Dir(path, kids)), true) <==> Hosted(d, Dir(path, kids), MarkedIn(was))
    ensures Cover(Dir(path, kids)) == multiset(path) + CoverAll(kids)
  {
  }

  lemma DirNext(d: Disk, was: seq<nat>, now: seq<nat>, path: seq<nat>, kids: seq<Node>, c: nat, cur: nat)
    requires d.Valid() && d.Linked(path) && path[0] == c && d.KidsFor(d.Contents(path), kids)
    requires cur == d.Next(path[|path| - 1]) && !d.Eof(cur) && cur < d.clusters
    requires var all := multiset(path) + CoverAll(kids);
      && Once(all) && Grew(was, now, all, false)
      && (Grew(was, now, all, true) <==> HostedPath(d, path, kids, MarkedIn(was)))
    requires |was| == d.clusters && (cur != 0 ==> Lively(d, was, now))
    ensures DirSoFar(d, was, now, path + [cur], kids, c)
  {
    LinkedNext(d, path, cur);
    assert (path + [cur])[..|path|] == path;
  }

  // ---------------------------------------------------------------------------------------
  // The verdict

  predicate InUse(d: Disk, x: nat)
    requires x < |d.fat2|
  {
    x < d.rootEnd || d.fat2[x] != 0
  }

  /** The guest wrote to this cluster. */
  predicate Allocated(v: nat) {
    v / 4 % 2 == 1
  }

  /** All chains of directories and non-empty files are disjoint, and together they are the root directory and
      exactly the clusters the table has in use; no other cluster was written to. */
  ghost predicate Sane(d: Disk, was: seq<nat>, g: Node) {
    && |was| == |d.fat2| == d.clusters && d.clusterSize > 0
    && d.Tree(g) && g.Dir? && g.chain[0] == 0 && Once(Cover(g))
    && (forall x: nat :: x in Cover(g) <==> x < d.clusters && InUse(d, x))
    && forall x: nat :: d.rootEnd <= x < d.clusters && Allocated(was[x]) ==> x in Cover(g)
  }

  /** The root directory has a sane tree below it, and all empty files that name a cluster are hosted. */
  ghost predicate Acceptable(d: Disk, was: seq<nat>) {
    d.clusterSize > 0 && exists n: Node :: Sane(d, was, n) && Hosted(d, n, {})
  }

  /** The clusters of the tree are marked, and no cluster outside it is marked or written to. */
  ghost predicate Reckoned(now: seq<nat>, g: Node) {
    forall x: nat :: x < |now| ==> if x in Cover(g) then Marked(now[x]) else now[x] == 0
  }

  ghost function UsedUpTo(d: Disk, n: nat): set<nat>
    requires n <= |d.fat2|
  {
    set x: nat | x < n && InUse(d, x)
  }

  lemma {:induction false} RootClusters(d: Disk, n: nat)
    requires d.Valid() && n <= d.rootEnd
    ensures |UsedUpTo(d, n)| == n
  {
    if n == 0 {
      assert UsedUpTo(d, 0) == {};
    } else {
      RootClusters(d, n - 1);
      assert UsedUpTo(d, n) == UsedUpTo(d, n - 1) + {n - 1};
    }
  }

  lemma UsedNext(d: Disk, n: nat)
    requires d.Valid() && d.rootEnd <= n < d.clusters
    ensures |UsedUpTo(d, n + 1)| == |UsedUpTo(d, n)| + if d.Next(n) != 0 then 1 else 0
  {
    assert UsedUpTo(d, n + 1) == if InUse(d, n) then UsedUpTo(d, n) + {n} else UsedUpTo(d, n);
  }

  lemma {:induction false} OnceSize(m: multiset<nat>, s: set<nat>)
    requires Once(m) && forall x: nat :: x in m <==> x in s
    ensures |m| == |s|
  {
    assert m == multiset(s);
  }

  lemma OnceWithin(m: multiset<nat>, s: set<nat>)
    requires Once(m) && (forall x: nat :: x in m ==> x in s) && |m| == |s|
    ensures forall x: nat :: x in s ==> x in m
  {
    var r := set x | x in s && x in m;
    OnceSize(m, r);
    if exists x :: x in s && x !in m {
      var x :| x in s && x !in m;
      ProperSubset(r, s, x);
    }
  }

  /** The marks of an earlier check are removed. */
  ghost predicate Cleared(was: seq<nat>, now: seq<nat>) {
    |was| == |now| && forall x: nat :: x < |was| ==> now[x] == was[x] - was[x] % 4
  }

  /** What the final pass over the table has seen up to n. */
  ghost predicate Scanned(d: Disk, now: seq<nat>, n: nat)
    requires |now| == |d.fat2| && n <= |now|
  {
    forall x: nat :: d.rootEnd <= x < n ==> (d.fat2[x] != 0 ==> now[x] != 0) && now[x] != USED_ALLOCATED
  }

  lemma SaneIs(d: Disk, was: seq<nat>, clear: seq<nat>, now: seq<nat>, g: Node)
    requires d.Valid() && |was| == d.clusters && Cleared(was, clear) && (forall x: nat :: x < |was| ==> was[x] < 8)
    requires d.Tree(g) && g.Dir? && g.chain[0] == 0 && Taken(d, clear, now, Cover(g))
    requires Scanned(d, now, d.clusters) && |Cover(g)| == |UsedUpTo(d, d.clusters)|
    requires Grew(clear, now, Cover(g), true) <==> Hosted(d, g, MarkedIn(clear))
    ensures Sane(d, was, g) && Hosted(d, g, {}) && Reckoned(now, g)
  {
    hide Cover, Disk.Tree, Hosted;
    forall x: nat | x in Cover(g) ensures x < d.clusters && InUse(d, x) {
      assert now[x] != clear[x];
      assert d.Next(x) != 0;
    }
    OnceWithin(Cover(g), UsedUpTo(d, d.clusters));
    forall x: nat | d.rootEnd <= x < d.clusters && Allocated(was[x]) ensures x in Cover(g) {
      assert clear[x] == USED_ALLOCATED;
      assert now[x] != clear[x];
      assert d.Next(x) != 0 && x in UsedUpTo(d, d.clusters);
    }
    assert Grew(clear, now, Cover(g), true) by {
      forall x: nat | x < d.clusters && now[x] != clear[x] ensures x in Cover(g) { assert x in UsedUpTo(d, d.clusters); }
    }
    assert MarkedIn(clear) == {};
    forall x: nat | x < |now| && x !in Cover(g) ensures now[x] == 0 { assert now[x] == clear[x] && x !in UsedUpTo(d, d.clusters); }
  }

  lemma SaneExpected(d: Disk, was: seq<nat>, clear: seq<nat>, t: Node)
    requires d.Valid() && Cleared(was, clear) && Sane(d, was, t) && Hosted(d, t, {})
    ensures ExpectedDir(d, clear, 0, t)
  {
    hide Cover, Disk.Tree;
    forall x: nat | x in Cover(t) ensures x < |clear| && !Marked(clear[x]) {}
    assert MarkedIn(clear) == {};
  }

  lemma SaneScan(d: Disk, was: seq<nat>, clear: seq<nat>, now: seq<nat>, g: Node, t: Node)
    requires d.Valid() && Cleared(was, clear) && Sane(d, was, t) && Hosted(d, t, {}) && (forall x: nat :: x < |was| ==> was[x] < 8)
    requires d.Tree(g) && g.Dir? && g.chain[0] == 0 && Taken(d, clear, now, Cover(g))
    ensures Scanned(d, now, d.clusters) && |Cover(g)| == |UsedUpTo(d, d.clusters)|
  {
    hide Cover, Disk.Tree, Disk.Chain;
    TreeUnique(d, g, t) by { assert |g.chain| > 0 by { TreeChain(d, g); } }
    OnceSize(Cover(g), UsedUpTo(d, d.clusters));
    forall x: nat | d.rootEnd <= x < d.clusters ensures (d.fat2[x] != 0 ==> now[x] != 0) && now[x] != USED_ALLOCATED {
      if x in Cover(g) {
        assert Marked(now[x]);
      } else {
        assert now[x] == clear[x] && !Allocated(was[x]);
      }
    }
  }

  lemma TreeChain(d: Disk, g: Node)
    requires d.Valid() && d.Tree(g)
    ensures g.chain != []
  {
  }

  /** Whether the directories and the table the guest wrote fit together: the number of clusters in use, or 0 when they
      do not. */
  method IsConsistent(used: array<nat>, d: Disk) returns (ret: nat, ghost g: Node)
    requires d.Valid() && used.Length == d.clusters && forall x: nat :: x < used.Length ==> used[x] < 8
    modifies used
    ensures ret > 0 <==> Acceptable(d, old(used[..]))
    ensures ret > 0 ==> Sane(d, old(used[..]), g) && Hosted(d, g, {}) && ret == |Cover(g)| && Reckoned(used[..], g)
  {
    hide Disk.Valid, Taken, Cover, Disk.Tree, ExpectedDir, Sane, Scanned, Cleared, Grew, UsedUpTo, Hosted, MarkedIn, Reckoned, Acceptable;
    ghost var was := used[..];
    ghost var acceptable := Acceptable(d, was);
    ghost var t := File([]);
    ValidShape(d);
    if acceptable { t := AcceptedTree(d, was); }
    RootInside(d);
    ClearMarks(used);
    ghost var clear := used[..];
    if acceptable { SaneExpected(d, was, clear, t); }
    ret, g := CheckDirectory(used, d, 0, t);
    if ret == 0 { return; }
    ghost var now := used[..];
    if acceptable { SaneScan(d, was, clear, now, g, t); }
    var check := d.rootEnd;
    RootClusters(d, d.rootEnd);
    ScanStart(d, now);
    for i := d.rootEnd to d.clusters
      invariant used[..] == now && check == |UsedUpTo(d, i)| && Scanned(d, now, i)
    {
      UsedNext(d, i);
      ScanNext(d, now, i);
      if d.Next(i) != 0 {
        if used[i] == 0 { return 0, g; }
        check := check + 1;
      }
      if used[i] == USED_ALLOCATED { return 0, g; }
    }
    if check != ret { return 0, g; }
    SaneIs(d, was, clear, now, g);
    TreeAccepted(d, was, g);
  }

  lemma AcceptedTree(d: Disk, was: seq<nat>) returns (t: Node)
    requires d.clusterSize > 0 && Acceptable(d, was)
    ensures Sane(d, was, t) && Hosted(d, t, {})
  {
    hide Sane, Hosted;
    t :| Sane(d, was, t) && Hosted(d, t, {});
  }

  lemma TreeAccepted(d: Disk, was: seq<nat>, t: Node)
    requires d.clusterSize > 0 && Sane(d, was, t) && Hosted(d, t, {})
    ensures Acceptable(d, was)
  {
    hide Sane, Hosted;
  }

  // ---------------------------------------------------------------------------------------
  // Empty files that name clusters

  /** When no empty file names a cluster, a sane tree is enough. */
  lemma UnplacedAcceptable(d: Disk, was: seq<nat>)
    requires d.Valid() && EmptyUnplaced(d)
    ensures Acceptable(d, was) <==> exists n: Node :: Sane(d, was, n)
  {
    hide Hosted, Disk.Valid, EmptyUnplaced;
    ValidShape(d);
    if n: Node :| Sane(d, was, n) { UnplacedHosted(d, n, {}); }
  }

  ghost predicate EmptyUnplaced(d: Disk)
    requires d.clusterSize > 0
  {
    forall c: nat, i :: 0 <= i < |d.entries(c)| ==> Unplaced(d, d.entries(c)[i])
  }

  predicate Unplaced(d: Disk, e: Entry)
    requires d.clusterSize > 0
  {
    e.Data? && !d.Sized(e) ==> e.begin == 0
  }

  lemma {:induction false} UnplacedHosted(d: Disk, n: Node, done: set<nat>)
    requires |d.fat2| == d.clusters && d.clusterSize > 0 && EmptyUnplaced(d) && d.Tree(n)
    ensures Hosted(d, n, done)
    decreases n, 0, 0
  {
    if n.Dir? { UnplacedPath(d, n.chain, n.kids, done); }
  }

  lemma {:induction false} UnplacedPath(d: Disk, path: seq<nat>, kids: seq<Node>, done: set<nat>)
    requires |d.fat2| == d.clusters && d.clusterSize > 0 && EmptyUnplaced(d) && d.KidsFor(d.Contents(path), kids)
    ensures HostedPath(d, path, kids, done)
    decreases kids, 2, |path|
  {
    hide EmptyUnplaced, Disk.KidsFor, HostedIn, CoverAll, Members;
    if path == [] { return; }
    var p, x := path[..|path| - 1], path[|path| - 1];
    var k := |d.Relevant(d.Contents(p))|;
    KidsSplit(d, d.Contents(p), d.entries(x), kids);
    assert k == |kids| ==> kids[..k] == kids;
    UnplacedPath(d, p, kids[..k], done);
    EntriesUnplaced(d, x);
    UnplacedIn(d, d.entries(x), kids[k..], done + Members(multiset(path) + CoverAll(kids[..k])));
  }

  lemma EntriesUnplaced(d: Disk, x: nat)
    requires d.clusterSize > 0 && EmptyUnplaced(d)
    ensures forall i :: 0 <= i < |d.entries(x)| ==> Unplaced(d, d.entries(x)[i])
  {
  }

  lemma {:induction false} UnplacedIn(d: Disk, es: seq<Entry>, kids: seq<Node>, done: set<nat>)
    requires |d.fat2| == d.clusters && d.clusterSize > 0 && EmptyUnplaced(d) && d.KidsFor(es, kids)
    requires forall i :: 0 <= i < |es| ==> Unplaced(d, es[i])
    ensures HostedIn(d, es, kids, done)
    decreases kids, 1, |es|
  {
    hide EmptyUnplaced, CoverAll, Members;
    if es == [] { return; }
    var a, e := es[..|es| - 1], es[|es| - 1];
    var k := |d.Relevant(a)|;
    assert es == a + [e];
    KidsSplit(d, a, [e], kids);
    assert k == |kids| ==> kids[..k] == kids;
    UnplacedIn(d, a, kids[..k], done);
    if e.Sub? && |kids[k..]| == 1 {
      assert d.Tree(kids[k..][0]);
      UnplacedHosted(d, kids[k..][0], done + Members(CoverAll(kids[..k])));
    }
  }

  /** A file and an empty file that names the same cluster, before or behind it. */
  function Pair(size: nat, later: bool): (r: seq<Entry>) {
    if later then [Data(2, size), Data(2, 0)] else [Data(2, 0), Data(2, size)]
  }

  /** A volume of three clusters with the root directory in the first one and the end of a chain in the last one. */
  function Small(size: nat, later: bool): Disk {
    Disk(3, 1, 4095, [0, 0, 4095], 512, c => if c == 0 then Pair(size, later) else [])
  }

  const SMALL_TREE: Node := Dir([0], [File([2])])

  lemma SmallShape(size: nat, later: bool)
    requires 1 <= size <= 512
    ensures var d := Small(size, later); d.Valid() && d.Sized(Data(2, size)) && d.Holds(1, size) && !d.Sized(Data(2, 0))
  {
    var d := Small(size, later);
    forall c: nat, i | 0 <= i < |d.entries(c)| ensures d.Placed(d.entries(c)[i]) {}
  }

  lemma SmallRelevant(size: nat, later: bool)
    requires 1 <= size <= 512
    ensures Small(size, later).Relevant(Pair(size, later)) == [Data(2, size)]
  {
    hide Disk.Relevant, Disk.Sized, Disk.Valid;
    var r, d := Pair(size, later), Small(size, later);
    SmallShape(size, later);
    assert r == [r[0]] + [r[1]];
    RelevantAppend(d, [r[0]], [r[1]]);
    RelevantOne(d, r[0]);
    RelevantOne(d, r[1]);
  }

  lemma SmallTree(size: nat, later: bool)
    requires 1 <= size <= 512
    ensures Small(size, later).Tree(SMALL_TREE) && Cover(SMALL_TREE) == multiset{0, 2}
  {
    hide Disk.Relevant, Disk.Sized, Disk.Valid;
    var r, d := Pair(size, later), Small(size, later);
    SmallShape(size, later);
    SmallRelevant(size, later);
    ContentsOne(d, 0);
    OneNode(File([2]));
    assert d.Fit(Data(2, size), File([2])) && d.Tree(File([2]));
  }

  lemma PairHosted(size: nat, later: bool)
    requires 1 <= size <= 512
    ensures HostedIn(Small(size, later), Pair(size, later), [File([2])], {0}) <==> later
  {
    hide Disk.Relevant, Disk.Sized, Disk.Valid, HostedIn, CoverAll;
    var r, d := Pair(size, later), Small(size, later);
    var k, l: seq<Node> := if later then [File([2])] else [], if later then [] else [File([2])];
    SmallShape(size, later);
    RelevantOne(d, r[0]);
    RelevantOne(d, r[1]);
    assert r == [r[0]] + [r[1]] && k + l == [File([2])];
    HostedAppend(d, [r[0]], [r[1]], k, l, {0});
    HostedOne(d, r[0], k, {0});
    HostedOne(d, r[1], l, {0} + Members(CoverAll(k)));
    OneNode(File([2]));
  }

  lemma HostedFirst(d: Disk, c: nat, kids: seq<Node>, done: set<nat>)
    requires d.clusterSize > 0
    ensures HostedPath(d, [c], kids, done) <==> HostedIn(d, d.entries(c), kids, done + {c})
  {
    hide HostedIn, Disk.Sized;
    var path := [c];
    assert path[..0] == [] && kids[0..] == kids && kids[..0] == [];
    assert d.Contents([]) == [] && d.Relevant([]) == [];
    assert Members(multiset(path) + CoverAll([])) == {c};
  }

  lemma SmallHosted(size: nat, later: bool)
    requires 1 <= size <= 512
    ensures Hosted(Small(size, later), SMALL_TREE, {}) <==> later
  {
    hide HostedIn, HostedPath;
    HostedFirst(Small(size, later), 0, [File([2])], {});
    PairHosted(size, later);
    assert {} + {0} == {0};
  }

  lemma SaneUnique(d: Disk, was: seq<nat>, a: Node, b: Node)
    requires d.Valid() && Sane(d, was, a) && Sane(d, was, b)
    ensures a == b
  {
    hide Cover, Disk.Tree;
    assert a.chain != [] by { TreeChain(d, a); }
    TreeUnique(d, a, b);
  }

  lemma SmallSane(size: nat, later: bool)
    requires 1 <= size <= 512
    ensures var d := Small(size, later);
      && d.Valid() && d.clusters == 3 && Sane(d, [0, 0, 0], SMALL_TREE) && |Cover(SMALL_TREE)| == 2
      && (Acceptable(d, [0, 0, 0]) <==> later)
  {
    hide Disk.Relevant, Disk.Sized, Disk.Tree, Cover, Hosted;
    var d := Small(size, later);
    SmallShape(size, later);
    SmallTree(size, later);
    SmallHosted(size, later);
    assert Sane(d, [0, 0, 0], SMALL_TREE);
    if Acceptable(d, [0, 0, 0]) {
      var n := AcceptedTree(d, [0, 0, 0]);
      SaneUnique(d, [0, 0, 0], n, SMALL_TREE);
    }
  }

  /** Two volumes with the same table and the same files, sane both. An empty file names the cluster of the other one:
      where it comes second the volume is accepted, where it comes first the volume is refused. */
  method OrderMatters(size: nat) returns (later: nat, earlier: nat)
    requires 1 <= size <= 512
    ensures Sane(Small(size, true), [0, 0, 0], SMALL_TREE) && later == 2
    ensures Sane(Small(size, false), [0, 0, 0], SMALL_TREE) && earlier == 0
  {
    hide Sane, Acceptable, Cover, Hosted, Reckoned, Disk.Valid, Small;
    SmallSane(size, true);
    SmallSane(size, false);
    ghost var g;
    var used := new nat[3](_ => 0);
    assert used[..] == [0, 0, 0];
    later, g := IsConsistent(used, Small(size, true));
    SaneUnique(Small(size, true), [0, 0, 0], g, SMALL_TREE);
    used := new nat[3](_ => 0);
    assert used[..] == [0, 0, 0];
    earlier, g := IsConsistent(used, Small(size, false));
  }

  method ClearMarks(used: array<nat>)
    modifies used
    ensures Cleared(old(used[..]), used[..])
  {
    for i := 0 to used.Length
      invariant forall x :: 0 <= x < i ==> used[x] == old(used[x]) - old(used[x]) % 4
      invariant forall x :: i <= x < used.Length ==> used[x] == old(used[x])
    {
      used[i] := used[i] - used[i] % 4;
    }
  }

  lemma RootInside(d: Disk)
    requires d.Valid()
    ensures 1 <= d.rootEnd <= d.clusters
  {
  }

  lemma ScanStart(d: Disk, now: seq<nat>)
    requires d.Valid() && |now| == d.clusters
    ensures Scanned(d, now, d.rootEnd)
  {
  }

  lemma ScanNext(d: Disk, now: seq<nat>, i: nat)
    requires d.Valid() && |now| == d.clusters && d.rootEnd <= i < d.clusters && Scanned(d, now, i)
    ensures (d.Next(i) != 0 ==> now[i] != 0) && now[i] != USED_ALLOCATED <==> Scanned(d, now, i + 1)
    ensures Scanned(d, now, d.clusters) ==> Scanned(d, now, i + 1)
  {
  }

  /** The chain of the root directory is the clusters before rootEnd, in order. */
  lemma {:induction false} RootChain(d: Disk, ch: seq<nat>, i: nat)
    requires d.Valid() && d.Chain(ch) && ch[0] == 0 && i < |ch|
    ensures ch[i] == i < d.rootEnd && (i + 1 == |ch| <==> i + 1 == d.rootEnd)
  {
    if i > 0 {
      RootChain(d, ch, i - 1);
      assert d.Follows(ch, i - 1);
    }
    if i + 1 < |ch| { assert d.Follows(ch, i); }
  }
}
