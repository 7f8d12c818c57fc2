/** The middle of the sorted match indices is reached by a majority, if the count is odd. */
module RaftMedian {
  import opened Basics
  import opened RaftNode

  function AtLeast(s: seq<int>, v: int): nat {
    if s == [] then 0 else (if s[0] >= v then 1 else 0) + AtLeast(s[1..], v)
  }

  predicate Sorted(s: seq<int>) {
    forall i, j :: 0 <= i < j < |s| ==> s[i] <= s[j]
  }

  lemma {:induction false} InsertSorted(x: int, s: seq<int>)
    requires Sorted(s)
    ensures Sorted(Insert(x, s)) && forall y <- Insert(x, s) :: y == x || y in s
  {
    if s != [] && x > s[0] {
      InsertSorted(x, s[1..]);
      var r := Insert(x, s[1..]);
      forall j | 0 <= j < |r|
        ensures s[0] <= r[j]
      {
        assert r[j] in r;
      }
      assert Insert(x, s) == [s[0]] + r;
    }
  }

  lemma {:induction false} SortSorted(s: seq<int>)
    ensures Sorted(Sort(s)) && forall y <- Sort(s) :: y in s
  {
    if s != [] {
      SortSorted(s[1..]);
      InsertSorted(s[0], Sort(s[1..]));
    }
  }

  lemma {:induction false} InsertAtLeast(x: int, s: seq<int>, v: int)
    ensures AtLeast(Insert(x, s), v) == AtLeast([x] + s, v)
  {
    if s == [] || x <= s[0] {
    } else {
      InsertAtLeast(x, s[1..], v);
      assert Insert(x, s)[1..] == Insert(x, s[1..]);
      assert ([x] + s[1..])[1..] == s[1..];
      assert ([x] + s)[1..] == s;
    }
  }

  lemma {:induction false} SortAtLeast(s: seq<int>, v: int)
    ensures AtLeast(Sort(s), v) == AtLeast(s, v)
  {
    if s != [] {
      SortAtLeast(s[1..], v);
      InsertAtLeast(s[0], Sort(s[1..]), v);
      assert ([s[0]] + Sort(s[1..]))[1..] == Sort(s[1..]);
    }
  }

  lemma {:induction false} SortedTail(s: seq<int>, k: nat)
    requires Sorted(s) && k < |s|
    ensures AtLeast(s, s[k]) >= |s| - k
  {
    if k > 0 {
      SortedTail(s[1..], k - 1);
    } else if |s| > 1 {
      AllAtLeast(s, s[0]);
    }
  }

  lemma {:induction false} AllAtLeast(s: seq<int>, v: int)
    requires forall i :: 0 <= i < |s| ==> s[i] >= v
    ensures AtLeast(s, v) == |s|
  {
    if s != [] { AllAtLeast(s[1..], v); }
  }

  function Holders(s: seq<int>, v: int): set<nat> {
    set i: nat | i < |s| && s[i] >= v
  }

  lemma {:induction false} HoldersCount(s: seq<int>, v: int)
    ensures |Holders(s, v)| == AtLeast(s, v)
  {
    if s != [] {
      var last := |s| - 1;
      HoldersCount(s[..last], v);
      AtLeastLast(s, v);
      assert Holders(s, v) == Holders(s[..last], v) + (if s[last] >= v then {last} else {});
    }
  }

  lemma {:induction false} AtLeastLast(s: seq<int>, v: int)
    requires s != []
    ensures AtLeast(s, v) == AtLeast(s[..|s| - 1], v) + (if s[|s| - 1] >= v then 1 else 0)
  {
    if |s| > 1 {
      AtLeastLast(s[1..], v);
      assert s[1..][..|s| - 2] == s[..|s| - 1][1..];
    }
  }

  /** At least `|s| - |s| / 2` positions hold the median or more. */
  lemma MedianMajority(s: seq<int>)
    requires s != []
    ensures Median(s) in s
    ensures |Holders(s, Median(s))| >= |s| - |s| / 2
    ensures |s| % 2 == 1 ==> 2 * |Holders(s, Median(s))| > |s|
  {
    var k := |s| / 2;
    SortSorted(s);
    SortedTail(Sort(s), k);
    SortAtLeast(s, Median(s));
    HoldersCount(s, Median(s));
    assert Sort(s)[k] in Sort(s);
  }

  lemma {:induction false} SortedBelow(s: seq<int>, k: nat, v: int)
    requires Sorted(s) && k < |s| && s[k] < v
    ensures AtLeast(s, v) <= |s| - k - 1
  {
    if k > 0 {
      SortedBelow(s[1..], k - 1, v);
    } else {
      AtMostAll(s[1..], v);
    }
  }

  lemma {:induction false} AtMostAll(s: seq<int>, v: int)
    ensures AtLeast(s, v) <= |s|
  {
    if s != [] { AtMostAll(s[1..], v); }
  }

  /** The median is the largest value that a majority of an odd number reaches. */
  lemma MedianIsLargest(s: seq<int>, v: int)
    requires |s| % 2 == 1
    ensures 2 * |Holders(s, v)| > |s| <==> v <= Median(s)
  {
    var k, m := |s| / 2, Median(s);
    SortSorted(s);
    SortAtLeast(s, v);
    HoldersCount(s, v);
    if v <= m {
      MedianMajority(s);
      SubsetSize(Holders(s, m), Holders(s, v));
    } else {
      SortedBelow(Sort(s), k, v);
    }
  }

  // ---------- Why the count must be odd ----------

  /** Half of the servers at 0, the other half at 1. */
  function Halves(n: nat): seq<int> {
    seq(n, i => if i < n / 2 then 0 else 1)
  }

  lemma {:induction false} SortedIsSort(s: seq<int>)
    requires Sorted(s)
    ensures Sort(s) == s
  {
    if s != [] { SortedIsSort(s[1..]); }
  }

  lemma {:induction false} UpperPart(n: nat, k: nat) returns (upper: set<nat>)
    requires k <= n
    ensures |upper| == n - k && forall i: nat :: i in upper <==> k <= i < n
  {
    upper := {};
    for j := k to n
      invariant |upper| == j - k && forall i: nat :: i in upper <==> k <= i < j
    {
      upper := upper + {j};
    }
  }

  /** With any even count the median can sit on half of the servers only. */
  lemma HalvesTie(n: nat)
    requires n > 0 && n % 2 == 0
    ensures |Halves(n)| == n && Median(Halves(n)) == 1 && 2 * |Holders(Halves(n), 1)| == n
  {
    var s := Halves(n);
    SortedIsSort(s);
    var upper := UpperPart(n, n / 2);
    assert Holders(s, 1) == upper;
  }

  /** The median is always on a majority exactly if the number of servers is odd. */
  lemma MedianIsMajorityIffOdd(n: nat)
    requires n > 0
    ensures (forall s: seq<int> :: |s| == n ==> 2 * |Holders(s, Median(s))| > n) <==> n % 2 == 1
  {
    if n % 2 == 1 {
      forall s: seq<int> | |s| == n ensures 2 * |Holders(s, Median(s))| > n { MedianMajority(s); }
    } else {
      HalvesTie(n);
    }
  }
}
