/** Circular doubly linked lists over node numbers, in any order. */
module Rings {
  import opened Basics

  ghost function Members(s: seq<int>): set<int> { set j | j in s }

  /** What follows position `i` on the way round. */
  ghost function After(cyc: seq<int>, i: int): int
    requires 0 <= i < |cyc|
  {
    if i + 1 < |cyc| then cyc[i + 1] else cyc[0]
  }

  ghost predicate LinkedAt(next: seq<int>, prev: seq<int>, cyc: seq<int>, i: int) {
    0 <= i < |cyc| ==>
      && 0 <= cyc[i] < |next| && 0 <= After(cyc, i) < |prev|
      && next[cyc[i]] == After(cyc, i) && prev[After(cyc, i)] == cyc[i]
  }

  /** `cyc` is once round a circular list, from its first node on. */
  ghost predicate Cycle(next: seq<int>, prev: seq<int>, cyc: seq<int>) {
    && cyc != [] && NoRepeats(cyc)
    && forall i {:trigger LinkedAt(next, prev, cyc, i)} :: LinkedAt(next, prev, cyc, i)
  }

  /** `next` and `prev` link the members of `s` into one ring. */
  ghost predicate Ring(s: set<int>, next: seq<int>, prev: seq<int>) {
    exists cyc :: Cycle(next, prev, cyc) && Members(cyc) == s
  }

  // ---------- The list from a given node on ----------

  lemma Rotated(next: seq<int>, prev: seq<int>, cyc: seq<int>, k: nat)
    requires Cycle(next, prev, cyc) && k < |cyc|
    ensures var r := cyc[k..] + cyc[..k];
            Cycle(next, prev, r) && Members(r) == Members(cyc) && r[0] == cyc[k]
  {
    var r := cyc[k..] + cyc[..k];
    forall i ensures LinkedAt(next, prev, r, i) {
      if 0 <= i < |r| {
        var p := if i < |cyc| - k then k + i else i - (|cyc| - k);
        assert LinkedAt(next, prev, cyc, p);
        assert r[i] == cyc[p] && After(r, i) == After(cyc, p);
      }
    }
    RotatedDistinct(cyc, k);
  }

  lemma RotatedDistinct(cyc: seq<int>, k: nat)
    requires NoRepeats(cyc) && k < |cyc|
    ensures NoRepeats(cyc[k..] + cyc[..k]) && Members(cyc[k..] + cyc[..k]) == Members(cyc)
  {
    var r := cyc[k..] + cyc[..k];
    forall i, j | 0 <= i < j < |r| ensures r[i] != r[j] {
      var p := if i < |cyc| - k then k + i else i - (|cyc| - k);
      var q := if j < |cyc| - k then k + j else j - (|cyc| - k);
      assert r[i] == cyc[p] && r[j] == cyc[q] && p != q;
    }
    assert cyc == cyc[..k] + cyc[k..];
    forall x ensures x in r <==> x in cyc { }
  }

  /** Once round a ring from `base`; the order is that of the links. */
  ghost function Round(s: set<int>, next: seq<int>, prev: seq<int>, base: int): (r: seq<int>)
    ensures Ring(s, next, prev) && base in s ==> Cycle(next, prev, r) && Members(r) == s && r[0] == base
  {
    if Ring(s, next, prev) && base in s then
      RoundExists(s, next, prev, base);
      var r :| Cycle(next, prev, r) && Members(r) == s && r[0] == base;
      r
    else []
  }

  lemma RoundExists(s: set<int>, next: seq<int>, prev: seq<int>, base: int)
    requires Ring(s, next, prev) && base in s
    ensures exists r :: Cycle(next, prev, r) && Members(r) == s && r[0] == base
  {
    var cyc :| Cycle(next, prev, cyc) && Members(cyc) == s;
    assert base in cyc;
    var k :| 0 <= k < |cyc| && cyc[k] == base;
    Rotated(next, prev, cyc, k);
  }

  // ---------- Neighbours ----------

  /** Going forward and back again. */
  lemma NextPrev(s: set<int>, next: seq<int>, prev: seq<int>, i: int)
    requires Ring(s, next, prev) && i in s
    ensures 0 <= i < |next| && i < |prev|
    ensures next[i] in s && 0 <= next[i] < |next| && next[i] < |prev|
    ensures prev[i] in s && 0 <= prev[i] < |next| && prev[i] < |prev|
    ensures prev[next[i]] == i && next[prev[i]] == i
    ensures next[i] == i || prev[i] == i ==> s == {i}
  {
    var cyc := Round(s, next, prev, i);
    var n := |cyc|;
    assert LinkedAt(next, prev, cyc, 0) && LinkedAt(next, prev, cyc, n - 1);
    assert forall x :: x in cyc <==> x in s;
    assert cyc[n - 1] in cyc && After(cyc, 0) in cyc;
    if n > 1 { assert LinkedAt(next, prev, cyc, 1); } else { assert cyc == [i]; }
    if n > 1 { assert LinkedAt(next, prev, cyc, n - 2); }
  }

  lemma InRange(s: set<int>, next: seq<int>, prev: seq<int>)
    requires Ring(s, next, prev)
    ensures forall i <- s :: 0 <= i < |next| && i < |prev|
  {
    forall i | i in s ensures 0 <= i < |next| && i < |prev| { NextPrev(s, next, prev, i); }
  }

  lemma RingSame(s: set<int>, next: seq<int>, prev: seq<int>, next': seq<int>, prev': seq<int>)
    requires Ring(s, next, prev) && |next'| >= |next| && |prev'| >= |prev|
    requires forall i <- s :: 0 <= i < |next| && i < |prev| ==> next'[i] == next[i] && prev'[i] == prev[i]
    ensures Ring(s, next', prev')
  {
    var cyc :| Cycle(next, prev, cyc) && Members(cyc) == s;
    InRange(s, next, prev);
    forall i ensures LinkedAt(next', prev', cyc, i) {
      assert LinkedAt(next, prev, cyc, i);
      if 0 <= i < |cyc| { assert cyc[i] in Members(cyc) && After(cyc, i) in Members(cyc); }
    }
  }

  lemma Alone(j: int, next: seq<int>, prev: seq<int>)
    requires 0 <= j < |next| && j < |prev| && next[j] == j && prev[j] == j
    ensures Ring({j}, next, prev)
  {
    assert Cycle(next, prev, [j]) by {
      forall i ensures LinkedAt(next, prev, [j], i) { }
    }
    assert Members([j]) == {j};
  }

  /** Taking a member out by joining its neighbours. */
  lemma RingRemove(s: set<int>, next: seq<int>, prev: seq<int>, j: int, other: int)
    requires Ring(s, next, prev) && j in s && other in s && other != j
    ensures 0 <= j < |next| && j < |prev|
    ensures next[j] in s && prev[j] in s && next[j] != j && prev[j] != j
    ensures 0 <= prev[j] < |next| && 0 <= next[j] < |prev|
    ensures Ring(s - {j}, next[prev[j] := next[j]], prev[next[j] := prev[j]])
  {
    NextPrev(s, next, prev, j);
    var p, k := prev[j], next[j];
    var cyc := Round(s, next, prev, j);
    CycleTail(next, prev, cyc);
    assert Members(cyc[1..]) == s - {j} by { TailMembers(cyc); }
  }

  lemma TailMembers(cyc: seq<int>)
    requires cyc != [] && NoRepeats(cyc)
    ensures Members(cyc[1..]) == Members(cyc) - {cyc[0]}
  {
    var tail := cyc[1..];
    assert cyc == [cyc[0]] + tail;
    forall i | 0 <= i < |tail| ensures tail[i] != cyc[0] { assert tail[i] == cyc[i + 1]; }
  }

  /** The first node of a cycle of two or more taken out. */
  lemma CycleTail(next: seq<int>, prev: seq<int>, cyc: seq<int>)
    requires Cycle(next, prev, cyc) && |cyc| > 1
    ensures var j := cyc[0];
            && 0 <= j < |next| && j < |prev| && 0 <= prev[j] < |next| && 0 <= next[j] < |prev|
            && Cycle(next[prev[j] := next[j]], prev[next[j] := prev[j]], cyc[1..])
  {
    var n, j, tail := |cyc|, cyc[0], cyc[1..];
    assert LinkedAt(next, prev, cyc, 0) && LinkedAt(next, prev, cyc, n - 1);
    var p, k := prev[j], next[j];
    assert p == cyc[n - 1] && k == cyc[1];
    var next', prev' := next[p := k], prev[k := p];
    forall i ensures LinkedAt(next', prev', tail, i) {
      if 0 <= i < n - 1 {
        assert LinkedAt(next, prev, cyc, i + 1);
        assert tail[i] == cyc[i + 1];
        if i < n - 2 { assert tail[i] != p && After(tail, i) == cyc[i + 2] != k; }
      }
    }
  }

  /** Adding a new member before `first`. */
  lemma RingAppend(s: set<int>, next: seq<int>, prev: seq<int>, j: int, first: int)
    requires Ring(s, next, prev) && first in s && j !in s
    requires 0 <= j < |next| && j < |prev|
    ensures 0 <= first < |prev| && prev[first] in s && 0 <= prev[first] < |next|
    ensures Ring(s + {j}, next[j := first][prev[first] := j], prev[j := prev[first]][first := j])
  {
    NextPrev(s, next, prev, first);
    var cyc, last := Round(s, next, prev, first), prev[first];
    var n, more := |cyc|, cyc + [j];
    var next', prev' := next[j := first][last := j], prev[j := last][first := j];
    assert LinkedAt(next, prev, cyc, n - 1);
    assert forall x :: x in cyc <==> x in s;
    forall i ensures LinkedAt(next', prev', more, i) {
      if 0 <= i < n - 1 {
        assert LinkedAt(next, prev, cyc, i);
        assert more[i] == cyc[i] && After(more, i) == cyc[i + 1];
        assert cyc[i] in s && cyc[i + 1] in s && cyc[i] != cyc[n - 1] && cyc[i + 1] != cyc[0];
      }
    }
    assert Members(more) == s + {j};
    assert Cycle(next', prev', more);
  }

  // ---------- Walking round a ring ----------

  /** The members a walk from `base` meets before it is back there. */
  ghost function Walk(s: set<int>, next: seq<int>, prev: seq<int>, base: int): seq<int> {
    var r := Round(s, next, prev, base);
    if r == [] then [] else r[1..]
  }

  /** Where `k` stands in a list, or its length. */
  ghost function IndexOf(r: seq<int>, k: int): (i: nat)
    ensures i <= |r| && (i < |r| ==> r[i] == k)
    ensures k in r ==> i < |r|
  {
    if r == [] || r[0] == k then 0 else 1 + IndexOf(r[1..], k)
  }

  lemma IndexUnique(r: seq<int>, i: nat)
    requires NoRepeats(r) && i < |r|
    ensures IndexOf(r, r[i]) == i
  {
    assert r[i] in r;
  }

  /** What a walk from `base` has met before it stands on `k`; the whole ring when it is back at `base`. */
  ghost function WalkTo(s: set<int>, next: seq<int>, prev: seq<int>, base: int, k: int): seq<int> {
    var walk := Walk(s, next, prev, base);
    walk[..IndexOf(walk, k)]
  }

  /** One step of the walk, read forwards or backwards. */
  lemma WalkNext(s: set<int>, next: seq<int>, prev: seq<int>, base: int, i: int)
    requires Ring(s, next, prev) && base in s && i in s
    ensures 0 <= i < |next| && next[i] in s
    ensures WalkTo(s, next, prev, base, next[i]) == if i == base then [] else WalkTo(s, next, prev, base, i) + [i]
    ensures WalkTo(s, next, prev, base, base) == Walk(s, next, prev, base)
    ensures i != base ==> WalkTo(s, next, prev, base, i) + [i] <= Walk(s, next, prev, base)
  {
    NextPrev(s, next, prev, i);
    var r := Round(s, next, prev, base);
    assert i in r by { assert i in Members(r); }
    var p :| 0 <= p < |r| && r[p] == i;
    assert LinkedAt(next, prev, r, p);
    ListWalk(r, p);
  }

  lemma ListWalk(r: seq<int>, p: nat)
    requires NoRepeats(r) && p < |r|
    ensures var walk := r[1..];
            && walk[..IndexOf(walk, After(r, p))] == (if p == 0 then [] else walk[..IndexOf(walk, r[p])] + [r[p]])
            && walk[..IndexOf(walk, r[0])] == walk
            && (p > 0 ==> walk[..IndexOf(walk, r[p])] + [r[p]] <= walk)
  {
    hide IndexOf;
    IndexInTail(r, p);
    IndexInTail(r, if p + 1 < |r| then p + 1 else 0);
    IndexInTail(r, 0);
    var walk := r[1..];
    assert walk[..|walk|] == walk;
    if p > 0 { assert walk[..p] == walk[..p - 1] + [walk[p - 1]]; }
  }

  /** In the list without its first node, the others stand one place earlier and the first not at all. */
  lemma IndexInTail(r: seq<int>, p: nat)
    requires NoRepeats(r) && p < |r|
    ensures IndexOf(r[1..], r[p]) == if p > 0 then p - 1 else |r| - 1
  {
    var tail := r[1..];
    assert forall i :: 0 <= i < |tail| ==> tail[i] == r[i + 1];
    if p > 0 {
      assert tail[p - 1] == r[p];
      IndexUnique(tail, p - 1);
    }
  }

  lemma WalkMembers(s: set<int>, next: seq<int>, prev: seq<int>, base: int)
    requires Ring(s, next, prev) && base in s
    ensures NoRepeats(Walk(s, next, prev, base))
    ensures forall x :: x in Walk(s, next, prev, base) <==> x in s && x != base
  {
    var r := Round(s, next, prev, base);
    TailMembers(r);
    var walk := r[1..];
    assert forall p :: 0 <= p < |walk| ==> walk[p] == r[p + 1];
    forall x ensures x in walk <==> x in s && x != base { assert x in walk <==> x in Members(walk); }
  }
}
