/** The skip list: inserting, deleting and searching by following the levels from the top. */
module SkipList {
  import opened Basics
  import opened SkipLevels

  /** What an insertion changes: a new node `j` behind the nodes `update`, on its levels below `i`. */
  ghost predicate Inserting(s: Nodes, live: set<int>, j: int, i: int) {
    && |s.key| == |s.fwd| >= 1
    && Shaped(s, live) && Shaped(s, live + {j}) && 0 < j < |s.key| && j !in live
    && (forall h {:trigger LevelOk(s, live + {j}, h)} :: 0 <= h < i ==> LevelOk(s, live + {j}, h))
    && (forall h {:trigger LevelOk(s, live, h)} :: i <= h < |s.fwd[0]| ==> LevelOk(s, live, h))
  }

  ghost predicate Deleting(s: Nodes, live: set<int>, j: int, i: int) {
    && Shaped(s, live) && j in live
    && (forall h {:trigger LevelOk(s, live - {j}, h)} :: 0 <= h < i ==> LevelOk(s, live - {j}, h))
    && (forall h {:trigger LevelOk(s, live, h)} :: i <= h < |s.fwd[0]| ==> LevelOk(s, live, h))
  }

  /** Every node the search remembered is still the place to splice at, on the levels from `i` on. */
  ghost predicate Places(s: Nodes, live: set<int>, update: seq<int>, k: int, lo: int, hi: int) {
    forall h {:trigger update[h]} :: lo <= h <= hi && 0 <= h < |update| ==> Before(s, live, update[h], h, k)
  }

  /** Appending an unlinked node changes no level. */
  lemma NewNode(s: Nodes, live: set<int>, k: int, top: int)
    requires Linked(s, live) && 0 <= top < |s.fwd[0]| && forall m :: m in live ==> s.key[m] != k
    ensures var t := Nodes(s.key + [k], s.fwd + [seq(top + 1, _ => NULL)]);
      Inserting(t, live, |s.key|, 0)
  {
    var t := Nodes(s.key + [k], s.fwd + [seq(top + 1, _ => NULL)]);
    forall h | 0 <= h < |s.fwd[0]| ensures LevelOk(t, live, h) {
      assert LevelOk(s, live, h);
      LevelFrame(s, live, t, live, h);
    }
  }

  lemma BeforeNewNode(s: Nodes, live: set<int>, n: int, i: int, k: int, top: nat)
    requires Shaped(s, live) && Before(s, live, n, i, k)
    ensures Before(Nodes(s.key + [k], s.fwd + [seq(top + 1, _ => NULL)]), live, n, i, k)
  {
    var t := Nodes(s.key + [k], s.fwd + [seq(top + 1, _ => NULL)]);
    forall m | At(t, live, m, i) && After(t, n, m) ensures t.key[m] >= k { assert At(s, live, m, i); }
  }

  /** Splicing on one level leaves the others and their places alone. */
  lemma InsertStep(s: Nodes, live: set<int>, u: int, j: int, i: int)
    requires Inserting(s, live, j, i) && 0 <= i < |s.fwd[0]| && Has(s, j, i) && Before(s, live, u, i, s.key[j])
    ensures Inserting(Splice(s, u, j, i), live, j, i + 1)
  {
    var t := Splice(s, u, j, i);
    forall m | m in live ensures s.key[m] != s.key[j] { assert m in live + {j} && j in live + {j}; }
    assert LevelOk(s, live, i);
    SpliceLevel(s, live, u, j, i);
    forall h | 0 <= h < i ensures LevelOk(t, live + {j}, h) {
      assert LevelOk(s, live + {j}, h);
      LevelFrame(s, live + {j}, t, live + {j}, h);
    }
    forall h | i + 1 <= h < |t.fwd[0]| ensures LevelOk(t, live, h) {
      assert LevelOk(s, live, h);
      LevelFrame(s, live, t, live, h);
    }
  }

  lemma BeforeSplice(s: Nodes, live: set<int>, u: int, j: int, i: int, n: int, h: int, k: int)
    requires |s.key| == |s.fwd| && Has(s, u, i) && Has(s, j, i) && Before(s, live, n, h, k)
    ensures Before(Splice(s, u, j, i), live, n, h, k)
  {
    var t := Splice(s, u, j, i);
    forall m | At(t, live, m, h) && m < |t.key| && After(t, n, m) ensures t.key[m] >= k { assert At(s, live, m, h); }
  }

  /** Everything the insertion loop keeps: the key table and level counts of `s0`, and the places still to use. */
  ghost predicate InsertLoop(s0: Nodes, s: Nodes, live: set<int>, j: int, top: int, update: seq<int>, i: int) {
    && Inserting(s, live, j, i) && 0 <= i <= top + 1 <= |s.fwd[0]| && |update| == |s.fwd[0]|
    && SameSizes(s0, s) && |s0.fwd[j]| == top + 1
    && Places(s, live, update, s.key[j], i, top)
  }

  lemma InsertFirst(s: Nodes, live: set<int>, k: int, top: nat, update: seq<int>)
    requires Linked(s, live) && top < |s.fwd[0]| == |update| && (forall m :: m in live ==> s.key[m] != k)
    requires Places(s, live, update, k, 0, top)
    ensures var t := Nodes(s.key + [k], s.fwd + [seq(top + 1, _ => NULL)]);
      InsertLoop(t, t, live, |s.key|, top, update, 0)
  {
    var t := Nodes(s.key + [k], s.fwd + [seq(top + 1, _ => NULL)]);
    NewNode(s, live, k, top);
    forall h | 0 <= h <= top ensures Before(t, live, update[h], h, k) {
      BeforeNewNode(s, live, update[h], h, k, top);
    }
  }

  lemma InsertNext(s0: Nodes, s: Nodes, live: set<int>, j: int, top: int, update: seq<int>, i: int)
    requires InsertLoop(s0, s, live, j, top, update, i) && i <= top
    ensures 0 <= i < |update| && Has(s, update[i], i) && Has(s, j, i)
    ensures InsertLoop(s0, Splice(s, update[i], j, i), live, j, top, update, i + 1)
  {
    var u, k := update[i], s.key[j];
    assert Before(s, live, u, i, k);
    InsertStep(s, live, u, j, i);
    forall h | i + 1 <= h <= top ensures Before(Splice(s, u, j, i), live, update[h], h, k) {
      BeforeSplice(s, live, u, j, i, update[h], h, k);
    }
  }

  lemma InsertLast(s0: Nodes, s: Nodes, live: set<int>, j: int, top: int, update: seq<int>)
    requires InsertLoop(s0, s, live, j, top, update, top + 1)
    ensures Linked(s, live + {j}) && SameSizes(s0, s)
  {
    InsertEnd(s, live, j);
  }

  ghost predicate DeleteLoop(s0: Nodes, s: Nodes, live: set<int>, j: int, level: int, update: seq<int>, i: int) {
    && Deleting(s, live, j, i) && 0 <= i <= level + 1 <= |s.fwd[0]| && |update| == |s.fwd[0]|
    && SameSizes(s0, s) && Places(s, live, update, s.key[j], i, level) && |s.fwd[j]| <= level + 1
  }

  lemma DeleteFirst(s: Nodes, live: set<int>, j: int, level: int, update: seq<int>)
    requires Linked(s, live) && j in live && 0 <= level < |s.fwd[0]| == |update| && |s.fwd[j]| <= level + 1
    requires Places(s, live, update, s.key[j], 0, level)
    ensures DeleteLoop(s, s, live, j, level, update, 0)
  {
  }

  lemma DeleteNext(s0: Nodes, s: Nodes, live: set<int>, j: int, level: int, update: seq<int>, i: int)
    requires DeleteLoop(s0, s, live, j, level, update, i) && i <= level
    ensures 0 <= i < |update| && Has(s, update[i], i) && 0 <= j < |s.fwd|
    ensures if s.fwd[update[i]][i] == j then Has(s, j, i) && DeleteLoop(s0, Bypass(s, update[i], j, i), live, j, level, update, i + 1)
            else Linked(s, live - {j})
  {
    var u, k := update[i], s.key[j];
    assert Before(s, live, u, i, k);
    DeletePoints(s, live, u, j, i);
    if s.fwd[u][i] == j {
      DeleteStep(s, live, u, j, i);
      forall h | i + 1 <= h <= level ensures Before(Bypass(s, u, j, i), live, update[h], h, k) {
        BeforeBypass(s, live, u, j, i, update[h], h, k);
      }
    } else {
      DeleteEnd(s, live, j, i);
    }
  }

  lemma DeleteLast(s0: Nodes, s: Nodes, live: set<int>, j: int, level: int, update: seq<int>)
    requires DeleteLoop(s0, s, live, j, level, update, level + 1)
    ensures Linked(s, live - {j})
  {
    DeleteEnd(s, live, j, level + 1);
  }

  /** On the levels above the new node nothing needs to change. */
  lemma InsertEnd(s: Nodes, live: set<int>, j: int)
    requires 0 <= j < |s.fwd| && Inserting(s, live, j, |s.fwd[j]|)
    ensures Linked(s, live + {j})
  {
    forall h | 0 <= h < |s.fwd[0]| ensures LevelOk(s, live + {j}, h) {
      if h >= |s.fwd[j]| {
        assert LevelOk(s, live, h);
        LevelFrame(s, live, s, live + {j}, h);
      }
    }
  }

  lemma DeleteStep(s: Nodes, live: set<int>, u: int, j: int, i: int)
    requires Deleting(s, live, j, i) && 0 <= i < |s.fwd[0]| && Has(s, j, i)
    requires Before(s, live, u, i, s.key[j]) && s.fwd[u][i] == j
    ensures Deleting(Bypass(s, u, j, i), live, j, i + 1)
  {
    var t := Bypass(s, u, j, i);
    assert LevelOk(s, live, i);
    BypassLevel(s, live, u, j, i);
    forall h | 0 <= h < i ensures LevelOk(t, live - {j}, h) {
      assert LevelOk(s, live - {j}, h);
      LevelFrame(s, live - {j}, t, live - {j}, h);
    }
    forall h | i + 1 <= h < |t.fwd[0]| ensures LevelOk(t, live, h) {
      assert LevelOk(s, live, h);
      LevelFrame(s, live, t, live, h);
    }
  }

  lemma BeforeBypass(s: Nodes, live: set<int>, u: int, j: int, i: int, n: int, h: int, k: int)
    requires |s.key| == |s.fwd| && Has(s, u, i) && Has(s, j, i) && Before(s, live, n, h, k)
    ensures Before(Bypass(s, u, j, i), live, n, h, k)
  {
    var t := Bypass(s, u, j, i);
    forall m | At(t, live, m, h) && m < |t.key| && After(t, n, m) ensures t.key[m] >= k { assert At(s, live, m, h); }
  }

  /** A node that is not right behind the place on level `i` does not reach that level. */
  lemma DeletePoints(s: Nodes, live: set<int>, u: int, j: int, i: int)
    requires Deleting(s, live, j, i) && 0 <= i < |s.fwd[0]| && Before(s, live, u, i, s.key[j])
    ensures s.fwd[u][i] == j <==> Has(s, j, i)
  {
    assert LevelOk(s, live, i) && Link(s, live, u, i);
    if Has(s, j, i) {
      assert At(s, live, j, i) && After(s, u, j);
      assert At(s, live, s.fwd[u][i], i);
    }
  }

  lemma DeleteEnd(s: Nodes, live: set<int>, j: int, i: int)
    requires Deleting(s, live, j, i) && |s.fwd[j]| <= i
    ensures Linked(s, live - {j})
  {
    forall h | 0 <= h < |s.fwd[0]| ensures LevelOk(s, live - {j}, h) {
      if h >= i {
        assert LevelOk(s, live, h);
        LevelFrame(s, live, s, live - {j}, h);
      }
    }
  }

  /** What the search ends on: the next node on level 0 carries the key exactly when some live node does. */
  lemma FoundIff(s: Nodes, live: set<int>, n: int, k: int)
    requires Linked(s, live) && Before(s, live, n, 0, k)
    ensures var f := s.fwd[n][0];
      && (f != NULL ==> f in live)
      && ((f != NULL && s.key[f] == k) <==> exists m :: m in live && s.key[m] == k)
  {
    assert LevelOk(s, live, 0) && Link(s, live, n, 0);
    var f := s.fwd[n][0];
    if f != NULL { assert At(s, live, f, 0); }
    if m :| m in live && s.key[m] == k {
      assert At(s, live, m, 0) && After(s, n, m);
      assert f != NULL && At(s, live, f, 0) && s.key[f] <= k;
    }
  }

  class SkipList<V> {
    const maxLevel: nat
    var level: nat
    var count: nat
    var nodes: Nodes
    var values: seq<V>
    ghost var live: set<int>

    ghost predicate Valid()
      reads this
    {
      && Linked(nodes, live) && |nodes.fwd[0]| == maxLevel + 1 && |values| == |nodes.key|
      && level <= maxLevel && count == |live|
      && forall m :: m in live ==> |nodes.fwd[m]| <= level + 1
    }

    /** The map the list stands for. */
    ghost function Contents(): (c: map<int, V>)
      requires Valid()
      reads this
    {
      ContentsOf(nodes, values, live)
    }

    /** The constructor's header node carries no key; `v` stands for its uninitialised value. */
    constructor (max: nat, v: V)
      ensures Valid() && Contents() == map[] && count == 0 && maxLevel == max
    {
      maxLevel, level, count := max, 0, 0;
      nodes := Nodes([0], [seq(max + 1, _ => NULL)]);
      values := [v];
      live := {};
    }

    /** Follows the levels from the top; `update[i]` is the last node of level `i` below `k`. */
    method Find(k: int) returns (update: seq<int>, current: int)
      requires Valid()
      ensures |update| == maxLevel + 1 && Places(nodes, live, update, k, 0, level) && current == update[0]
    {
      current := 0;
      update := seq(maxLevel + 1, _ => 0);
      var i := level;
      while i >= 0
        invariant -1 <= i <= level && |update| == maxLevel + 1
        invariant OnLevel(nodes, live, current, if i < 0 then 0 else i) && (current == 0 || nodes.key[current] < k)
        invariant Places(nodes, live, update, k, i + 1, level)
        invariant i < level ==> current == update[i + 1]
      {
        assert LevelOk(nodes, live, i);
        while nodes.fwd[current][i] != NULL && nodes.key[nodes.fwd[current][i]] < k
          invariant OnLevel(nodes, live, current, i) && (current == 0 || nodes.key[current] < k)
          invariant Link(nodes, live, current, i)
          decreases |Ahead(nodes, live, current)|
        {
          ghost var was := current;
          current := nodes.fwd[current][i];
          assert At(nodes, live, current, i);
          AheadShrinks(nodes, live, was, current);
          assert OnLevel(nodes, live, current, i);
        }
        BeforeBySearch(nodes, live, current, i, k);
        update := update[i := current];
        i := i - 1;
      }
    }

    /** Whether the key is in the map. */
    method SearchElement(k: int) returns (found: bool)
      requires Valid()
      ensures found <==> k in Contents()
    {
      var update, current := Find(k);
      FoundIff(nodes, live, current, k);
      ContentsKeys(nodes, values, live);
      current := nodes.fwd[current][0];
      found := current != NULL && nodes.key[current] == k;
    }

    /** Adds a key that is not there yet, on as many levels as the coins say; never overwrites. */
    method InsertElement(k: int, v: V, coins: nat) returns (r: int)
      requires Valid()
      modifies this`level, this`count, this`nodes, this`values, this`live
      ensures Valid()
      ensures r == if k in old(Contents()) then 1 else 0
      ensures Contents() == if k in old(Contents()) then old(Contents()) else old(Contents())[k := v]
      ensures count == |Contents()|
    {
      var update, current := Find(k);
      FoundIff(nodes, live, current, k);
      ContentsKeys(nodes, values, live);
      current := nodes.fwd[current][0];
      if current != NULL && nodes.key[current] == k {
        return 1;
      }
      Insert(k, v, RandomLevel(coins), update);
      return 0;
    }

    /** One more level for every coin, up to the greatest level. */
    function RandomLevel(coins: nat): (top: nat)
      ensures top <= maxLevel && (top < maxLevel ==> top == coins + 1)
    {
      if coins + 1 < maxLevel then coins + 1 else maxLevel
    }

    /** The levels above the current top start at the header. */
    method ExtendPlaces(k: int, top: nat, places: seq<int>) returns (update: seq<int>)
      requires Valid() && top <= maxLevel && |places| == maxLevel + 1 && Places(nodes, live, places, k, 0, level)
      ensures |update| == maxLevel + 1 && Places(nodes, live, update, k, 0, top)
    {
      update := places;
      var i := level + 1;
      while i < top + 1
        invariant level + 1 <= i && (i <= top + 1 || i == level + 1) && |update| == maxLevel + 1
        invariant Places(nodes, live, update, k, 0, i - 1)
      {
        EmptyLevel(nodes, live, i, k);
        update := update[i := 0];
        i := i + 1;
      }
    }

    method Insert(k: int, v: V, top: nat, places: seq<int>)
      requires Valid() && k !in Contents() && top <= maxLevel
      requires |places| == maxLevel + 1 && Places(nodes, live, places, k, 0, level)
      modifies this`level, this`count, this`nodes, this`values, this`live
      ensures Valid() && Contents() == old(Contents())[k := v] && count == |Contents()|
    {
      hide InsertLoop, LevelOk, Places, ContentsOf, SameSizes;
      ContentsKeys(nodes, values, live);
      var update := ExtendPlaces(k, top, places);
      if top > level { level := top; }
      ghost var s := nodes;
      var j := |nodes.key|;
      InsertFirst(nodes, live, k, top, update);
      nodes := Nodes(nodes.key + [k], nodes.fwd + [seq(top + 1, _ => NULL)]);
      ghost var s0 := nodes;
      SpliceIn(s0, j, top, update);
      values := values + [v];
      live := live + {j};
      count := count + 1;
      SizesOf(s0, nodes);
      ContentsAdd(s, old(values), old(live), nodes, values, j);
      ContentsKeys(nodes, values, live);
    }

    /** Links node `j` in behind the nodes `update`, level by level. */
    method SpliceIn(ghost s0: Nodes, j: int, top: nat, update: seq<int>)
      requires nodes == s0 && InsertLoop(s0, nodes, live, j, top, update, 0)
      modifies this`nodes
      ensures Linked(nodes, live + {j}) && SameSizes(s0, nodes)
    {
      hide InsertLoop, Linked, SameSizes;
      var i := 0;
      while i <= top
        invariant 0 <= i <= top + 1 && InsertLoop(s0, nodes, live, j, top, update, i)
      {
        InsertNext(s0, nodes, live, j, top, update, i);
        var u := update[i];
        var g := nodes.fwd[j := nodes.fwd[j][i := nodes.fwd[u][i]]];
        nodes := nodes.(fwd := g[u := g[u][i := j]]);
        i := i + 1;
      }
      InsertLast(s0, nodes, live, j, top, update);
    }

    /** Removes the key if it is there, and nothing else. */
    method DeleteElement(k: int)
      requires Valid()
      modifies this`level, this`count, this`nodes, this`live
      ensures Valid() && Contents() == old(Contents()) - {k} && count == |Contents()|
    {
      var update, current := Find(k);
      FoundIff(nodes, live, current, k);
      ContentsKeys(nodes, values, live);
      current := nodes.fwd[current][0];
      if current != NULL && nodes.key[current] == k {
        Unlink(k, current, update);
      }
    }

    method Unlink(k: int, j: int, update: seq<int>)
      requires Valid() && j in live && nodes.key[j] == k
      requires |update| == maxLevel + 1 && Places(nodes, live, update, k, 0, level)
      modifies this`level, this`count, this`nodes, this`live
      ensures Valid() && Contents() == old(Contents()) - {k} && count == |Contents()|
    {
      hide DeleteLoop, LevelOk, Places, ContentsOf, SameSizes;
      ghost var s := nodes;
      DeleteFirst(nodes, live, j, level, update);
      SpliceOut(s, j, update);
      SizesOf(s, nodes);
      ContentsRemove(s, values, live, nodes, j);
      live := live - {j};
      count := count - 1;
      ContentsKeys(nodes, values, live);
      LowerLevel();
    }

    /** Makes the nodes `update` skip node `j`, from the bottom up to the first level that `j` does not reach. */
    method SpliceOut(ghost s0: Nodes, j: int, update: seq<int>)
      requires nodes == s0 && DeleteLoop(s0, nodes, live, j, level, update, 0)
      modifies this`nodes
      ensures Linked(nodes, live - {j}) && SameSizes(s0, nodes)
    {
      hide DeleteLoop, Linked, SameSizes;
      var i := 0;
      while i <= level
        invariant 0 <= i <= level + 1 && DeleteLoop(s0, nodes, live, j, level, update, i)
        decreases level - i
      {
        DeleteNext(s0, nodes, live, j, level, update, i);
        DeleteSizes(s0, nodes, live, j, level, update, i);
        var u := update[i];
        if nodes.fwd[u][i] != j { return; }
        nodes := nodes.(fwd := nodes.fwd[u := nodes.fwd[u][i := nodes.fwd[j][i]]]);
        i := i + 1;
      }
      DeleteLast(s0, nodes, live, j, level, update);
      DeleteSizes(s0, nodes, live, j, level, update, i);
    }

    /** Drops the levels on which no node is left. */
    method LowerLevel()
      requires Valid()
      modifies this`level
      ensures Valid() && level <= old(level) && (level > 0 ==> nodes.fwd[0][level] != NULL)
    {
      while level > 0 && nodes.fwd[0][level] == NULL
        invariant level <= old(level)
        invariant forall m :: m in live ==> |nodes.fwd[m]| <= level + 1
      {
        EmptyTop(nodes, live, level);
        level := level - 1;
      }
    }
  }

  lemma DeleteSizes(s0: Nodes, s: Nodes, live: set<int>, j: int, level: int, update: seq<int>, i: int)
    requires DeleteLoop(s0, s, live, j, level, update, i)
    ensures SameSizes(s0, s)
  {
  }

  lemma SizesOf(s: Nodes, t: Nodes)
    requires SameSizes(s, t)
    ensures t.key == s.key && |t.fwd| == |s.fwd| && forall n :: 0 <= n < |s.fwd| ==> |t.fwd[n]| == |s.fwd[n]|
  {
  }

  ghost predicate SameSizes(s: Nodes, t: Nodes) {
    t.key == s.key && |t.fwd| == |s.fwd| && forall n :: 0 <= n < |s.fwd| ==> |t.fwd[n]| == |s.fwd[n]|
  }

  ghost function ContentsOf<V>(s: Nodes, values: seq<V>, live: set<int>): map<int, V>
    requires Shaped(s, live) && |values| == |s.key|
  {
    map k | k in (set m | m in live :: s.key[m]) :: values[NodeOf(s, live, k)]
  }

  ghost function NodeOf(s: Nodes, live: set<int>, k: int): (m: int)
    requires Shaped(s, live) && exists m :: m in live && s.key[m] == k
    ensures m in live && s.key[m] == k
  {
    var m :| m in live && s.key[m] == k; m
  }

  lemma ContentsKeys<V>(s: Nodes, values: seq<V>, live: set<int>)
    requires Shaped(s, live) && |values| == |s.key|
    ensures forall k :: k in ContentsOf(s, values, live) <==> exists m :: m in live && s.key[m] == k
    ensures forall m :: m in live ==> s.key[m] in ContentsOf(s, values, live) && ContentsOf(s, values, live)[s.key[m]] == values[m]
    ensures |ContentsOf(s, values, live)| == |live|
  {
    var c := ContentsOf(s, values, live);
    assert c.Keys == set m | m in live :: s.key[m];
    SameSize(s, live);
  }

  lemma {:induction false} SameSize(s: Nodes, live: set<int>)
    requires Shaped(s, live)
    ensures |set m | m in live :: s.key[m]| == |live|
    decreases live
  {
    var ks := set m | m in live :: s.key[m];
    if live != {} {
      Inhabited(live);
      var x :| x in live;
      SameSize(s, live - {x});
      var rest := set m | m in live - {x} :: s.key[m];
      assert ks == rest + {s.key[x]};
    }
  }

  lemma EmptyLevel(s: Nodes, live: set<int>, i: int, k: int)
    requires Shaped(s, live) && 0 <= i < |s.fwd[0]| && forall m :: m in live ==> |s.fwd[m]| <= i
    ensures Before(s, live, 0, i, k)
  {
  }

  lemma EmptyTop(s: Nodes, live: set<int>, i: int)
    requires Linked(s, live) && 0 < i < |s.fwd[0]| && s.fwd[0][i] == NULL && forall m :: m in live ==> |s.fwd[m]| <= i + 1
    ensures forall m :: m in live ==> |s.fwd[m]| <= i
  {
    assert LevelOk(s, live, i) && OnLevel(s, live, 0, i);
    forall m | m in live ensures |s.fwd[m]| <= i { assert At(s, live, m, i) <==> |s.fwd[m]| == i + 1; }
  }

  lemma ContentsAdd<V>(s: Nodes, values: seq<V>, live: set<int>, s': Nodes, values': seq<V>, j: int)
    requires Shaped(s, live) && |values| == |s.key| == j && Shaped(s', live + {j})
    requires |s'.key| == j + 1 && s'.key[..j] == s.key && |values'| == j + 1 && values'[..j] == values
    requires forall m :: m in live ==> s.key[m] != s'.key[j]
    ensures ContentsOf(s', values', live + {j}) == ContentsOf(s, values, live)[s'.key[j] := values'[j]]
  {
    hide ContentsOf;
    ContentsKeys(s, values, live);
    ContentsKeys(s', values', live + {j});
    var c, c' := ContentsOf(s, values, live), ContentsOf(s', values', live + {j});
    forall m | m in live ensures s'.key[m] == s.key[m] && values'[m] == values[m] {
      assert s'.key[..j][m] == s'.key[m] && values'[..j][m] == values'[m];
    }
    assert j in live + {j};
    hide Shaped;
    forall k | k in c ensures k in c' && c'[k] == c[k] && k != s'.key[j] {
      var m :| m in live && s.key[m] == k;
      assert m in live + {j};
    }
    forall k | k in c' ensures k in c || k == s'.key[j] {
      var m :| m in live + {j} && s'.key[m] == k;
      assert m != j ==> m in live;
    }
  }

  lemma ContentsRemove<V>(s: Nodes, values: seq<V>, live: set<int>, s': Nodes, j: int)
    requires Shaped(s, live) && Shaped(s', live - {j}) && |values| == |s.key| && s'.key == s.key && j in live
    ensures ContentsOf(s', values, live - {j}) == ContentsOf(s, values, live) - {s.key[j]}
  {
    hide ContentsOf;
    ContentsKeys(s, values, live);
    ContentsKeys(s', values, live - {j});
    var c, c' := ContentsOf(s, values, live), ContentsOf(s', values, live - {j});
    forall k | k in c' ensures k in c && c'[k] == c[k] && k != s.key[j] {
      var m :| m in live - {j} && s'.key[m] == k;
    }
    forall k | k in c && k != s.key[j] ensures k in c' {
      var m :| m in live && s.key[m] == k;
      assert m in live - {j};
    }
  }

  // ---------- Sequences of operations ----------

  datatype Op<V> = Insert(key: int, value: V, coins: nat) | Delete(key: int) | Search(key: int)

  /** What an operation does to the map and what it answers; the coins play no part. */
  function Effect<V>(c: map<int, V>, op: Op<V>): (map<int, V>, bool) {
    match op
    case Insert(k, v, _) => (if k in c then c else c[k := v], k in c)
    case Delete(k) => (c - {k}, true)
    case Search(k) => (c, k in c)
  }

  function Effects<V>(c: map<int, V>, ops: seq<Op<V>>): map<int, V> {
    if ops == [] then c else Effect(Effects(c, ops[..|ops| - 1]), ops[|ops| - 1]).0
  }

  method Do<V>(list: SkipList<V>, op: Op<V>) returns (answer: bool)
    requires list.Valid()
    modifies list
    ensures list.Valid() && list.Contents() == Effect(old(list.Contents()), op).0
    ensures answer == Effect(old(list.Contents()), op).1
    ensures list.count == |list.Contents()|
  {
    match op {
      case Insert(k, v, coins) =>
        var r := list.InsertElement(k, v, coins);
        answer := r == 1;
      case Delete(k) =>
        list.DeleteElement(k);
        answer := true;
      case Search(k) =>
        answer := list.SearchElement(k);
        ContentsKeys(list.nodes, list.values, list.live);
    }
  }

  /** The element count is the size of the map. */
  lemma CountIs<V>(list: SkipList<V>)
    requires list.Valid()
    ensures list.count == |list.Contents()|
  {
    ContentsKeys(list.nodes, list.values, list.live);
  }

  /** Performs the operations one after another on a list. */
  method Perform<V>(list: SkipList<V>, ops: seq<Op<V>>) returns (answers: seq<bool>)
    requires list.Valid()
    modifies list
    ensures list.Valid() && list.Contents() == Effects(old(list.Contents()), ops) && list.count == |list.Contents()|
    ensures |answers| == |ops|
    ensures forall i {:trigger ops[i]} :: 0 <= i < |ops| ==> answers[i] == Effect(Effects(old(list.Contents()), ops[..i]), ops[i]).1
  {
    hide Linked, ContentsOf, Effect;
    CountIs(list);
    answers := [];
    ghost var c := list.Contents();
    for i := 0 to |ops|
      invariant list.Valid() && list.Contents() == Effects(c, ops[..i]) && list.count == |list.Contents()| && |answers| == i
      invariant forall h {:trigger ops[h]} :: 0 <= h < i ==> answers[h] == Effect(Effects(c, ops[..h]), ops[h]).1
    {
      assert ops[..i + 1][..i] == ops[..i];
      var answer := Do(list, ops[i]);
      answers := answers + [answer];
    }
    assert ops[..|ops|] == ops;
  }

  /** A value stays until its key is deleted, whatever is inserted. */
  lemma {:induction false} FirstValueStays<V>(c: map<int, V>, ops: seq<Op<V>>, k: int)
    requires k in c && forall op <- ops :: op.Delete? ==> op.key != k
    ensures k in Effects(c, ops) && Effects(c, ops)[k] == c[k]
  {
    if ops != [] { FirstValueStays(c, ops[..|ops| - 1], k); }
  }
}
