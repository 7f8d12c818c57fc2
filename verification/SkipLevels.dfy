/** The forward pointers of a skip list, level by level. */
module SkipLevels {
  import opened Basics

  const NULL := -1

  /** Keys and forward pointers of all nodes ever created; node 0 is the header. */
  datatype Nodes = Nodes(key: seq<int>, fwd: seq<seq<int>>)

  ghost predicate Has(s: Nodes, n: int, i: int) { 0 <= n < |s.fwd| && 0 <= i < |s.fwd[n]| }

  /** `n` is a live node, or the header, that reaches level `i`. */
  ghost predicate OnLevel(s: Nodes, live: set<int>, n: int, i: int) { (n == 0 || n in live) && Has(s, n, i) }

  /** Live node `m` reaches level `i`. */
  ghost predicate At(s: Nodes, live: set<int>, m: int, i: int) { m in live && Has(s, m, i) }

  ghost predicate After(s: Nodes, n: int, m: int) {
    0 <= n < |s.key| && 0 <= m < |s.key| && (n == 0 || s.key[n] < s.key[m])
  }

  /** The pointer of `n` at level `i` leads to the nearest later node of that level. */
  ghost predicate Link(s: Nodes, live: set<int>, n: int, i: int)
    requires Has(s, n, i)
  {
    var f := s.fwd[n][i];
    if f == NULL then forall m {:trigger At(s, live, m, i)} :: At(s, live, m, i) ==> !After(s, n, m)
    else
      && At(s, live, f, i) && After(s, n, f)
      && forall m {:trigger At(s, live, m, i)} :: At(s, live, m, i) && After(s, n, m) ==> s.key[f] <= s.key[m]
  }

  ghost predicate LevelOk(s: Nodes, live: set<int>, i: int) {
    forall n {:trigger OnLevel(s, live, n, i)} :: OnLevel(s, live, n, i) ==> Link(s, live, n, i)
  }

  /** Live nodes exist, have different keys, and reach level 0. */
  ghost predicate Shaped(s: Nodes, live: set<int>) {
    && |s.key| == |s.fwd| >= 1 && |s.fwd[0]| >= 1
    && (forall m :: m in live ==> 0 < m < |s.key| && 1 <= |s.fwd[m]| <= |s.fwd[0]|)
    && (forall a, b :: a in live && b in live && s.key[a] == s.key[b] ==> a == b)
  }

  ghost predicate Linked(s: Nodes, live: set<int>) {
    Shaped(s, live) && forall i {:trigger LevelOk(s, live, i)} :: 0 <= i < |s.fwd[0]| ==> LevelOk(s, live, i)
  }

  /** The live nodes still ahead of `n`. */
  ghost function Ahead(s: Nodes, live: set<int>, n: int): set<int> { set m | m in live && After(s, n, m) }

  lemma AheadShrinks(s: Nodes, live: set<int>, n: int, f: int)
    requires Shaped(s, live) && f in live && After(s, n, f)
    ensures |Ahead(s, live, f)| < |Ahead(s, live, n)|
  {
    var a, b := Ahead(s, live, f), Ahead(s, live, n);
    assert f in b && f !in a && a <= b;
    SubsetSize(a, b);
  }

  // ---------- Walking a level ----------

  /** The nodes met when level `i` is followed from `n` on. */
  ghost function Chain(s: Nodes, live: set<int>, i: int, n: int): seq<int>
    requires Linked(s, live) && 0 <= i < |s.fwd[0]| && OnLevel(s, live, n, i)
    decreases |Ahead(s, live, n)|
  {
    assert LevelOk(s, live, i) && Link(s, live, n, i);
    var f := s.fwd[n][i];
    if f == NULL then [] else
      AheadShrinks(s, live, n, f);
      [f] + Chain(s, live, i, f)
  }

  ghost predicate Ascending(s: Nodes, c: seq<int>) {
    && (forall p :: 0 <= p < |c| ==> 0 <= c[p] < |s.key|)
    && forall p, q :: 0 <= p < q < |c| ==> s.key[c[p]] < s.key[c[q]]
  }

  /** Following a level meets exactly the later nodes of that level, in strictly ascending order. */
  lemma {:induction false} ChainIs(s: Nodes, live: set<int>, i: int, n: int)
    requires Linked(s, live) && 0 <= i < |s.fwd[0]| && OnLevel(s, live, n, i)
    ensures Ascending(s, Chain(s, live, i, n))
    ensures forall m :: m in Chain(s, live, i, n) <==> At(s, live, m, i) && After(s, n, m)
    decreases |Ahead(s, live, n)|
  {
    assert LevelOk(s, live, i) && Link(s, live, n, i);
    var f, c := s.fwd[n][i], Chain(s, live, i, n);
    if f != NULL {
      AheadShrinks(s, live, n, f);
      ChainIs(s, live, i, f);
      var rest := Chain(s, live, i, f);
      assert c == [f] + rest;
      forall m ensures m in c <==> At(s, live, m, i) && After(s, n, m) {
        assert m in c <==> m == f || m in rest;
      }
      forall p | 0 <= p < |rest| ensures After(s, f, rest[p]) { assert rest[p] in rest; }
    }
  }

  ghost function Keep(s: Nodes, c: seq<int>, i: int): seq<int> {
    if c == [] then [] else (if Has(s, c[0], i) then [c[0]] else []) + Keep(s, c[1..], i)
  }

  lemma {:induction false} KeepIs(s: Nodes, c: seq<int>, i: int)
    requires Ascending(s, c)
    ensures Ascending(s, Keep(s, c, i))
    ensures forall m :: m in Keep(s, c, i) <==> m in c && Has(s, m, i)
  {
    if c != [] {
      var rest := Keep(s, c[1..], i);
      assert Ascending(s, c[1..]);
      KeepIs(s, c[1..], i);
      assert c == [c[0]] + c[1..];
      forall p | 0 <= p < |rest| ensures s.key[c[0]] < s.key[rest[p]] {
        assert rest[p] in rest;
        var q :| 0 <= q < |c[1..]| && c[1..][q] == rest[p];
        assert c[q + 1] == rest[p];
      }
    }
  }

  lemma {:induction false} SameAscending(s: Nodes, a: seq<int>, b: seq<int>)
    requires Ascending(s, a) && Ascending(s, b) && forall m :: m in a <==> m in b
    ensures a == b
  {
    EmptyIff(a);
    EmptyIff(b);
    if a != [] {
      SameHead(s, a, b);
      forall m ensures m in a[1..] <==> m in b[1..] {
        TailMember(s, a, m);
        TailMember(s, b, m);
      }
      SameAscending(s, a[1..], b[1..]);
      assert a == [a[0]] + a[1..] && b == [b[0]] + b[1..];
    }
  }

  lemma SameHead(s: Nodes, a: seq<int>, b: seq<int>)
    requires Ascending(s, a) && Ascending(s, b) && a != [] && b != [] && forall m :: m in a <==> m in b
    ensures a[0] == b[0]
  {
    var x, y := a[0], b[0];
    assert x in b && y in a;
    var p :| 0 <= p < |b| && b[p] == x;
    var q :| 0 <= q < |a| && a[q] == y;
  }

  lemma EmptyIff(a: seq<int>)
    ensures a == [] <==> forall m :: m !in a
  {
    if a != [] {
      var m := a[0];
      assert m in a;
    }
  }

  lemma TailMember(s: Nodes, a: seq<int>, m: int)
    requires Ascending(s, a) && a != []
    ensures m in a[1..] <==> m in a && m != a[0]
  {
    assert a == [a[0]] + a[1..];
    forall p | 0 <= p < |a[1..]| ensures a[1..][p] != a[0] { assert a[1..][p] == a[p + 1]; }
  }

  /** Each level is the level below with the nodes that do not reach it left out. */
  lemma LevelIsSublist(s: Nodes, live: set<int>, i: int)
    requires Linked(s, live) && 0 <= i && i + 1 < |s.fwd[0]|
    ensures OnLevel(s, live, 0, i) && OnLevel(s, live, 0, i + 1)
    ensures Ascending(s, Chain(s, live, i, 0))
    ensures Chain(s, live, i + 1, 0) == Keep(s, Chain(s, live, i, 0), i + 1)
  {
    ChainIs(s, live, i, 0);
    ChainIs(s, live, i + 1, 0);
    KeepIs(s, Chain(s, live, i, 0), i + 1);
    SameAscending(s, Chain(s, live, i + 1, 0), Keep(s, Chain(s, live, i, 0), i + 1));
  }

  /** Level 0 lists every live node. */
  lemma BottomIsAll(s: Nodes, live: set<int>)
    requires Linked(s, live)
    ensures OnLevel(s, live, 0, 0)
    ensures forall m :: m in Chain(s, live, 0, 0) <==> m in live
  {
    ChainIs(s, live, 0, 0);
  }

  // ---------- Splicing ----------

  /** `n` is the last node of level `i` whose key is below `k`. */
  ghost predicate Before(s: Nodes, live: set<int>, n: int, i: int, k: int) {
    && OnLevel(s, live, n, i) && n < |s.key| && (n == 0 || s.key[n] < k)
    && forall m {:trigger At(s, live, m, i)} :: At(s, live, m, i) && m < |s.key| && After(s, n, m) ==> s.key[m] >= k
  }

  lemma BeforeBySearch(s: Nodes, live: set<int>, n: int, i: int, k: int)
    requires Linked(s, live) && 0 <= i < |s.fwd[0]| && OnLevel(s, live, n, i) && (n == 0 || s.key[n] < k)
    requires s.fwd[n][i] == NULL || (0 <= s.fwd[n][i] < |s.key| && s.key[s.fwd[n][i]] >= k)
    ensures Before(s, live, n, i, k)
  {
    assert LevelOk(s, live, i) && Link(s, live, n, i);
  }

  /** The pointers after node `j` is put behind `u` on level `i`. */
  ghost function Splice(s: Nodes, u: int, j: int, i: int): Nodes
    requires Has(s, u, i) && Has(s, j, i)
  {
    var g := s.fwd[j := s.fwd[j][i := s.fwd[u][i]]];
    s.(fwd := g[u := g[u][i := j]])
  }

  lemma SpliceLevel(s: Nodes, live: set<int>, u: int, j: int, i: int)
    requires Shaped(s, live) && LevelOk(s, live, i) && 0 < j < |s.key| && j !in live && Has(s, j, i)
    requires Before(s, live, u, i, s.key[j]) && forall m :: m in live ==> s.key[m] != s.key[j]
    ensures LevelOk(Splice(s, u, j, i), live + {j}, i)
  {
    var t, live' := Splice(s, u, j, i), live + {j};
    assert OnLevel(s, live, u, i) && Link(s, live, u, i);
    forall m ensures At(t, live', m, i) <==> At(s, live, m, i) || m == j { }
    forall n | OnLevel(t, live', n, i) ensures Link(t, live', n, i) {
      if n == j { SpliceNew(s, live, u, j, i); }
      else if n == u { SpliceAtU(s, live, u, j, i); }
      else { SpliceOther(s, live, u, j, i, n); }
    }
  }

  lemma SpliceNew(s: Nodes, live: set<int>, u: int, j: int, i: int)
    requires Shaped(s, live) && LevelOk(s, live, i) && 0 < j < |s.key| && j !in live && Has(s, j, i)
    requires Before(s, live, u, i, s.key[j]) && forall m :: m in live ==> s.key[m] != s.key[j]
    ensures Link(Splice(s, u, j, i), live + {j}, j, i)
  {
    var t, live' := Splice(s, u, j, i), live + {j};
    assert OnLevel(s, live, u, i) && Link(s, live, u, i);
    forall m | At(t, live', m, i) && After(t, j, m) ensures At(s, live, m, i) && After(s, u, m) { }
    var f := s.fwd[u][i];
    if f != NULL { assert At(s, live, f, i); assert At(t, live', f, i); }
  }

  lemma SpliceAtU(s: Nodes, live: set<int>, u: int, j: int, i: int)
    requires Shaped(s, live) && LevelOk(s, live, i) && 0 < j < |s.key| && j !in live && Has(s, j, i)
    requires Before(s, live, u, i, s.key[j]) && forall m :: m in live ==> s.key[m] != s.key[j]
    ensures Has(Splice(s, u, j, i), u, i) && Link(Splice(s, u, j, i), live + {j}, u, i)
  {
    var t, live' := Splice(s, u, j, i), live + {j};
    forall m | At(t, live', m, i) && After(t, u, m) ensures s.key[j] <= s.key[m] {
      assert m != j ==> At(s, live, m, i) && After(s, u, m);
    }
    assert At(t, live', j, i);
  }

  lemma SpliceOther(s: Nodes, live: set<int>, u: int, j: int, i: int, n: int)
    requires Shaped(s, live) && LevelOk(s, live, i) && 0 < j < |s.key| && j !in live && Has(s, j, i)
    requires Before(s, live, u, i, s.key[j]) && forall m :: m in live ==> s.key[m] != s.key[j]
    requires OnLevel(s, live, n, i) && n != u && n != j
    ensures Has(Splice(s, u, j, i), n, i) && Link(Splice(s, u, j, i), live + {j}, n, i)
  {
    var t, live' := Splice(s, u, j, i), live + {j};
    assert Link(s, live, n, i);
    var f := s.fwd[n][i];
    assert u != 0 ==> At(s, live, u, i);
    assert n != 0 ==> At(s, live, n, i);
    forall m | At(t, live', m, i) && m != j ensures At(s, live, m, i) { }
    if f != NULL { assert At(t, live', f, i); }
  }

  /** Levels that a change does not touch, and that the new node does not reach. */
  lemma LevelFrame(s: Nodes, live: set<int>, t: Nodes, live': set<int>, i: int)
    requires Shaped(s, live) && LevelOk(s, live, i)
    requires |t.key| >= |s.key| && |t.fwd| >= |s.fwd| && t.key[..|s.key|] == s.key
    requires forall m {:trigger At(t, live', m, i)} :: At(t, live', m, i) <==> At(s, live, m, i)
    requires forall n {:trigger OnLevel(t, live', n, i)} :: OnLevel(t, live', n, i) ==> Has(s, n, i) && t.fwd[n][i] == s.fwd[n][i]
    ensures LevelOk(t, live', i)
  {
    assert forall m :: 0 <= m < |s.key| ==> t.key[..|s.key|][m] == t.key[m];
    forall n | OnLevel(t, live', n, i) ensures Link(t, live', n, i) {
      if n != 0 { assert At(t, live', n, i); assert At(s, live, n, i); }
      assert OnLevel(s, live, n, i) && Link(s, live, n, i);
      var f := s.fwd[n][i];
      if f != NULL { assert At(t, live', f, i); }
      forall m | At(t, live', m, i) ensures After(t, n, m) <==> After(s, n, m) { assert At(s, live, m, i); }
    }
  }

  /** The pointers after `u` is made to skip `j` on level `i`. */
  ghost function Bypass(s: Nodes, u: int, j: int, i: int): Nodes
    requires Has(s, u, i) && Has(s, j, i)
  {
    s.(fwd := s.fwd[u := s.fwd[u][i := s.fwd[j][i]]])
  }

  lemma BypassLevel(s: Nodes, live: set<int>, u: int, j: int, i: int)
    requires Shaped(s, live) && LevelOk(s, live, i) && j in live && Has(s, j, i)
    requires Before(s, live, u, i, s.key[j]) && s.fwd[u][i] == j
    ensures LevelOk(Bypass(s, u, j, i), live - {j}, i)
  {
    var t, live' := Bypass(s, u, j, i), live - {j};
    assert OnLevel(s, live, u, i) && OnLevel(s, live, j, i);
    assert Link(s, live, u, i) && Link(s, live, j, i);
    forall m ensures At(t, live', m, i) <==> At(s, live, m, i) && m != j { }
    forall n | OnLevel(t, live', n, i) ensures Link(t, live', n, i) {
      assert OnLevel(s, live, n, i) && Link(s, live, n, i);
      BypassLink(s, live, u, j, i, n);
    }
  }

  lemma BypassLink(s: Nodes, live: set<int>, u: int, j: int, i: int, n: int)
    requires Shaped(s, live) && j in live && Has(s, j, i) && OnLevel(s, live, n, i) && n != j
    requires Before(s, live, u, i, s.key[j]) && s.fwd[u][i] == j
    requires Link(s, live, u, i) && Link(s, live, j, i) && Link(s, live, n, i)
    ensures Has(Bypass(s, u, j, i), n, i) && Link(Bypass(s, u, j, i), live - {j}, n, i)
  {
    var t, live' := Bypass(s, u, j, i), live - {j};
    var f := t.fwd[n][i];
    assert u != 0 ==> At(s, live, u, i);
    assert n != 0 ==> At(s, live, n, i);
    assert At(s, live, j, i);
    forall m | At(t, live', m, i) ensures At(s, live, m, i) && m != j { }
    if f != NULL { assert At(s, live, f, i); assert At(t, live', f, i); }
  }
}
