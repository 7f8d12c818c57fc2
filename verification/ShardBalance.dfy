/** Rebalancing shards over groups, with every way of breaking ties. */
module ShardBalance {
  import opened Basics
  import opened ShardConfig

  /** group -> the shards it serves, in the order they were given to it */
  type WorkLoad = map<int, seq<int>>

  // ---------- Sums over groups ----------

  ghost function SumOf(keys: set<int>, f: map<int, int>): int
    requires keys <= f.Keys
  {
    if keys == {} then 0
    else
      Inhabited(keys);
      var k :| k in keys;
      f[k] + SumOf(keys - {k}, f)
  }

  lemma {:induction false} SumSplit(keys: set<int>, f: map<int, int>, x: int)
    requires keys <= f.Keys && x in keys
    ensures SumOf(keys, f) == f[x] + SumOf(keys - {x}, f)
    decreases keys
  {
    var k :| k in keys && SumOf(keys, f) == f[k] + SumOf(keys - {k}, f);
    if k != x {
      SumSplit(keys - {k}, f, x);
      SumSplit(keys - {x}, f, k);
      assert keys - {k} - {x} == keys - {x} - {k};
    }
  }

  lemma {:induction false} SumSame(keys: set<int>, f: map<int, int>, g: map<int, int>)
    requires keys <= f.Keys && keys <= g.Keys
    requires forall k <- keys :: f[k] == g[k]
    ensures SumOf(keys, f) == SumOf(keys, g)
    decreases keys
  {
    if keys != {} {
      Inhabited(keys);
      var k :| k in keys;
      SumSplit(keys, f, k);
      SumSplit(keys, g, k);
      SumSame(keys - {k}, f, g);
    }
  }

  lemma SumUpdate(keys: set<int>, f: map<int, int>, x: int, v: int)
    requires keys <= f.Keys && x in keys
    ensures SumOf(keys, f[x := v]) == SumOf(keys, f) - f[x] + v
  {
    SumSplit(keys, f, x);
    SumSplit(keys, f[x := v], x);
    SumSame(keys - {x}, f, f[x := v]);
  }

  /** A sum of values `low`, and `low + 1` on `high`, leaves |high| over multiples of `low`. */
  lemma {:induction false} SumOfTwoLevels(keys: set<int>, f: map<int, int>, low: int, high: set<int>)
    requires keys <= f.Keys && high <= keys
    requires forall k <- keys :: f[k] == if k in high then low + 1 else low
    ensures SumOf(keys, f) == |keys| * low + |high|
    decreases keys
  {
    if keys != {} {
      Inhabited(keys);
      var k :| k in keys;
      SumSplit(keys, f, k);
      var rest, top := keys - {k}, high - {k};
      SumOfTwoLevels(rest, f, low, top);
      assert |keys| == |rest| + 1 && |high| == |top| + (if k in high then 1 else 0);
      OneMore(|keys|, |rest|, low);
    }
  }

  lemma OneMore(m: int, n: int, low: int)
    requires m == n + 1
    ensures m * low == n * low + low
  {
  }

  // ---------- Loads ----------

  ghost function Sizes(w: WorkLoad): map<int, int> {
    map g | g in w :: |w[g]|
  }

  ghost function Squares(w: WorkLoad): map<int, int> {
    map g | g in w :: |w[g]| * |w[g]|
  }

  ghost function Total(w: WorkLoad): int {
    SumOf(w.Keys, Sizes(w))
  }

  lemma TotalUpdate(w: WorkLoad, g: int, s: seq<int>)
    requires g in w
    ensures Total(w[g := s]) == Total(w) - |w[g]| + |s|
  {
    SumUpdate(w.Keys, Sizes(w), g, |s|);
    assert Sizes(w[g := s]) == Sizes(w)[g := |s|];
    assert w[g := s].Keys == w.Keys;
  }

  ghost function Imbalance(w: WorkLoad): nat
  {
    SquaresNonNegative(w.Keys, w);
    SumOf(w.Keys, Squares(w))
  }

  lemma {:induction false} SquaresNonNegative(keys: set<int>, w: WorkLoad)
    requires keys <= w.Keys
    ensures SumOf(keys, Squares(w)) >= 0
    decreases keys
  {
    if keys != {} {
      Inhabited(keys);
      var k :| k in keys;
      SumSplit(keys, Squares(w), k);
      SquaresNonNegative(keys - {k}, w);
    }
  }

  /** `w` serves shard i from group owner[i], and from no other; 0 stands for none. */
  ghost predicate Serves(w: WorkLoad, owner: seq<int>) {
    && |owner| == NSHARDS && 0 !in w
    && (forall i :: 0 <= i < NSHARDS ==> owner[i] == 0 || owner[i] in w)
    && (forall g <- w :: forall i <- w[g] :: 0 <= i < NSHARDS && owner[i] == g)
    && (forall i :: 0 <= i < NSHARDS && owner[i] != 0 ==> i in w[owner[i]])
    && (forall g <- w :: NoRepeats(w[g]))
  }

  lemma Give(w: WorkLoad, owner: seq<int>, i: int, g: int)
    requires Serves(w, owner) && 0 <= i < NSHARDS && owner[i] == 0 && g in w
    ensures Serves(w[g := w[g] + [i]], owner[i := g])
    ensures Total(w[g := w[g] + [i]]) == Total(w) + 1
  {
    TotalUpdate(w, g, w[g] + [i]);
  }

  // ---------- The two priority queues ----------

  ghost predicate Least(w: WorkLoad, g: int) {
    g in w && forall h <- w :: |w[g]| <= |w[h]|
  }

  ghost predicate Most(w: WorkLoad, g: int) {
    g in w && forall h <- w :: |w[h]| <= |w[g]|
  }

  /** The top of the min-queue: any group of least load. */
  method LeastLoaded(w: WorkLoad) returns (g: int)
    requires w.Keys != {}
    ensures Least(w, g)
  {
    var rest := w.Keys;
    Inhabited(rest);
    g :| g in rest;
    while rest != {}
      invariant rest <= w.Keys && g in w
      invariant forall h <- w.Keys - rest :: |w[g]| <= |w[h]|
      decreases |rest|
    {
      Inhabited(rest);
      var h :| h in rest;
      var better: bool := *;
      if |w[h]| < |w[g]| || (|w[h]| == |w[g]| && better) { g := h; }
      rest := rest - {h};
    }
  }

  /** The top of the max-queue: any group of greatest load. */
  method MostLoaded(w: WorkLoad) returns (g: int)
    requires w.Keys != {}
    ensures Most(w, g)
  {
    var rest := w.Keys;
    Inhabited(rest);
    g :| g in rest;
    while rest != {}
      invariant rest <= w.Keys && g in w
      invariant forall h <- w.Keys - rest :: |w[h]| <= |w[g]|
      decreases |rest|
    {
      Inhabited(rest);
      var h :| h in rest;
      var better: bool := *;
      if |w[h]| > |w[g]| || (|w[h]| == |w[g]| && better) { g := h; }
      rest := rest - {h};
    }
  }

  // ---------- The move loop ----------

  /** If the group count divides the number of shards, loads that are not all equal differ by
      at least two somewhere. */
  lemma UnequalByTwo(w: WorkLoad, low: int, high: int)
    requires Least(w, low) && Most(w, high) && Total(w) == NSHARDS
    requires |w| > 0 && Divides(|w|) && |w[low]| != |w[high]|
    ensures |w[high]| - |w[low]| >= 2
  {
    var a := |w[low]|;
    if |w[high]| == a + 1 {
      var f := Sizes(w);
      var top := set k | k in w.Keys && f[k] == a + 1;
      SumOfTwoLevels(w.Keys, f, a, top);
      assert high in top && low !in top;
      SubsetSize(top, w.Keys);
      assert |w.Keys| == |w|;
      NotDivisible(|w|, a, |top|);
      assert false;
    }
  }

  lemma NotDivisible(m: int, a: int, k: int)
    requires 0 < k < m
    ensures (m * a + k) % m != 0
  {
    var x := m * a + k;
    SameRemainder(m, a, k, x / m, x % m);
  }

  lemma SameRemainder(m: int, a: int, k: int, q: int, r: int)
    requires 0 <= k < m && 0 <= r < m && m * a + k == m * q + r
    ensures k == r
  {
    assert m * (a - q) == r - k;
    if a > q { Scales(m, a - q); } else if q > a { Scales(m, q - a); }
  }

  lemma Scales(m: int, d: int)
    requires m > 0 && d >= 1
    ensures m * d >= m
  {
  }

  /** The shards can be spread over `groups` groups evenly. */
  predicate Divides(groups: nat)
    requires groups > 0
  {
    NSHARDS % groups == 0
  }

  predicate Uneven(low: nat, high: nat, groups: nat)
    requires groups > 0
  {
    if Divides(groups) then low != high else high - low > 1
  }

  /** The last shard of a loaded group moved to a less loaded one. */
  function Move(w: WorkLoad, from: int, to: int): WorkLoad
    requires from in w && to in w && from != to && w[from] != []
  {
    var shard := w[from][|w[from]| - 1];
    w[to := w[to] + [shard]][from := w[from][..|w[from]| - 1]]
  }

  lemma Within(w: WorkLoad, owner: seq<int>, g: int, k: int)
    requires Serves(w, owner) && g in w && 0 <= k < |w[g]|
    ensures 0 <= w[g][k] < NSHARDS == |owner| && owner[w[g][k]] == g
  {
    assert w[g][k] in w[g];
  }

  lemma MoveServes(w: WorkLoad, owner: seq<int>, from: int, to: int, shard: int)
    requires Serves(w, owner) && from in w && to in w && from != to && w[from] != []
    requires shard == w[from][|w[from]| - 1] && 0 <= shard < NSHARDS
    ensures Serves(Move(w, from, to), owner[shard := to])
    ensures 0 !in owner ==> 0 !in owner[shard := to]
    ensures Total(Move(w, from, to)) == Total(w)
  {
    hide Total;
    var last := |w[from]| - 1;
    var w1 := w[to := w[to] + [shard]];
    assert shard in w[from] && owner[shard] == from;
    assert forall g <- w :: g != from ==> shard !in w[g];
    assert shard !in w[from][..last];
    assert forall i <- w[from] :: i == shard || i in w[from][..last];
    var w' := Move(w, from, to);
    assert forall g <- w' :: forall i <- w'[g] :: i == shard || i in w[g];
    assert forall g <- w' :: NoRepeats(w'[g]);
    TotalUpdate(w, to, w[to] + [shard]);
    TotalUpdate(w1, from, w[from][..last]);
  }

  lemma MoveEvens(w: WorkLoad, from: int, to: int)
    requires from in w && to in w && |w[from]| - |w[to]| >= 2
    ensures from != to && w[from] != [] && Imbalance(Move(w, from, to)) < Imbalance(w)
  {
    var x, y := |w[from]|, |w[to]|;
    var s := Squares(w);
    var w' := Move(w, from, to);
    var up, down := (y + 1) * (y + 1), (x - 1) * (x - 1);
    SquaresShrink(x, y);
    SumUpdate(w.Keys, s, to, up);
    SumUpdate(w.Keys, s[to := up], from, down);
    assert Squares(w') == s[to := up][from := down];
    assert w'.Keys == w.Keys;
  }

  lemma SquaresShrink(x: int, y: int)
    requires x - y >= 2
    ensures (x - 1) * (x - 1) + (y + 1) * (y + 1) < x * x + y * y
  {
    assert (x - 1) * (x - 1) == x * x - 2 * x + 1;
    assert (y + 1) * (y + 1) == y * y + 2 * y + 1;
  }

  /** Givers have only given and stay near the top, takers have only taken and stay near the
      bottom, and nobody else has changed. */
  ghost predicate Sides(w0: WorkLoad, w: WorkLoad, givers: set<int>, takers: set<int>, least: int, most: int) {
    && w.Keys == w0.Keys && givers <= w.Keys && takers <= w.Keys
    && (forall g <- givers :: g in w && w[g] <= w0[g] && w[g] != w0[g] && |w[g]| >= most - 1)
    && (forall g <- takers :: g in w && w0[g] <= w[g] && w[g] != w0[g] && |w[g]| <= least + 1)
    && (forall g <- w :: g in givers || g in takers || w[g] == w0[g])
  }

  lemma MoveSides(w0: WorkLoad, w: WorkLoad, givers: set<int>, takers: set<int>, low: int, high: int, low': int, high': int)
    requires Least(w, low) && Most(w, high) && |w[high]| - |w[low]| >= 2
    requires Sides(w0, w, givers, takers, |w[low]|, |w[high]|)
    requires var w' := Move(w, high, low); Least(w', low') && Most(w', high')
    requires givers !! takers
    ensures low !in givers && high !in takers && givers + {high} !! takers + {low}
    ensures var w' := Move(w, high, low);
            Sides(w0, w', givers + {high}, takers + {low}, |w'[low']|, |w'[high']|)
  {
  }

  /** The groups that gave a shard in a list of moves (from, to), and those that received one. */
  ghost function Givers(moves: seq<(int, int)>): set<int> { set m | m in moves :: m.0 }
  ghost function Takers(moves: seq<(int, int)>): set<int> { set m | m in moves :: m.1 }

  ghost predicate CanMove(w: WorkLoad, from: int, to: int) {
    from in w && to in w && from != to && w[from] != []
  }

  /** The work load after the moves; one that cannot be made is skipped. */
  ghost function AfterMoves(w: WorkLoad, moves: seq<(int, int)>): WorkLoad {
    if moves == [] then w
    else
      var v, m := AfterMoves(w, moves[..|moves| - 1]), moves[|moves| - 1];
      if CanMove(v, m.0, m.1) then Move(v, m.0, m.1) else v
  }

  lemma NoMoves(w: WorkLoad)
    ensures AfterMoves(w, []) == w && Givers([]) == {} && Takers([]) == {}
  {
  }

  lemma MovesSnoc(w: WorkLoad, moves: seq<(int, int)>, from: int, to: int)
    requires CanMove(AfterMoves(w, moves), from, to)
    ensures AfterMoves(w, moves + [(from, to)]) == Move(AfterMoves(w, moves), from, to)
    ensures Givers(moves + [(from, to)]) == Givers(moves) + {from}
    ensures Takers(moves + [(from, to)]) == Takers(moves) + {to}
  {
    var more := moves + [(from, to)];
    assert more[..|moves|] == moves && more[|moves|] == (from, to);
    assert (from, to) in more;
    assert Givers(more) == Givers(moves) + {from} by { assert forall m <- more :: m in moves || m == (from, to); }
    assert Takers(more) == Takers(moves) + {to} by { assert forall m <- more :: m in moves || m == (from, to); }
  }

  ghost predicate EvenLoads(w: WorkLoad) {
    forall g, h | g in w && h in w :: !Uneven(|w[g]|, |w[h]|, |w|)
  }

  lemma NotEven(w: WorkLoad, low: int, high: int)
    requires low in w && high in w && Uneven(|w[low]|, |w[high]|, |w|)
    ensures !EvenLoads(w)
  {
  }

  lemma ExtremesEven(w: WorkLoad, low: int, high: int)
    requires Least(w, low) && Most(w, high) && !Uneven(|w[low]|, |w[high]|, |w|)
    ensures EvenLoads(w)
  {
  }

  lemma FarApart(w: WorkLoad, low: int, high: int)
    requires Least(w, low) && Most(w, high) && Total(w) == NSHARDS && |w| > 0 && Uneven(|w[low]|, |w[high]|, |w|)
    ensures |w[high]| - |w[low]| >= 2
  {
    if Divides(|w|) { UnequalByTwo(w, low, high); }
  }

  lemma SidesAtFirst(w: WorkLoad, least: int, most: int)
    ensures Sides(w, w, {}, {}, least, most)
  {
  }

  lemma SidesSay(w0: WorkLoad, w: WorkLoad, givers: set<int>, takers: set<int>, least: int, most: int)
    requires Sides(w0, w, givers, takers, least, most)
    ensures givers <= w.Keys && takers <= w.Keys && w.Keys == w0.Keys
    ensures forall g <- givers :: w[g] <= w0[g] && w[g] != w0[g]
    ensures forall g <- takers :: w0[g] <= w[g] && w[g] != w0[g]
    ensures forall g <- w :: g !in givers && g !in takers ==> w[g] == w0[g]
  {
  }

  /** None of these groups has more than one shard above the least loaded. */
  ghost predicate Low(w: WorkLoad, filled: set<int>) {
    filled <= w.Keys && forall g <- filled :: forall h <- w :: |w[g]| <= |w[h]| + 1
  }

  lemma MoveKeepsLow(w: WorkLoad, filled: set<int>, low: int, high: int)
    requires Least(w, low) && Most(w, high) && |w[high]| - |w[low]| >= 2 && Low(w, filled)
    ensures high !in filled && Low(Move(w, high, low), filled)
  {
  }

  /** Moves shards from the fullest to the emptiest group until loads are even. It ends; every
      shard stays served once; in the moves made, no group that gives a shard ever receives one,
      nor has it been `filled` just before; and nothing moves if the loads are even already. */
  method EvenOut(w0: WorkLoad, ghost owner0: seq<int>, ghost filled: set<int>)
    returns (w: WorkLoad, ghost owner: seq<int>, ghost moves: seq<(int, int)>)
    requires w0.Keys != {} && Serves(w0, owner0) && Total(w0) == NSHARDS && 0 !in owner0 && Low(w0, filled)
    ensures w.Keys == w0.Keys && Serves(w, owner) && 0 !in owner && Total(w) == NSHARDS
    ensures Givers(moves) !! filled
    ensures EvenLoads(w0) ==> moves == [] && w == w0
    ensures EvenLoads(w)
    ensures w == AfterMoves(w0, moves) && Givers(moves) !! Takers(moves)
    ensures Givers(moves) <= w.Keys && Takers(moves) <= w.Keys
    ensures forall g <- Givers(moves) :: w[g] <= w0[g] && w[g] != w0[g]
    ensures forall g <- Takers(moves) :: w0[g] <= w[g] && w[g] != w0[g]
    ensures forall g <- w :: g !in Givers(moves) && g !in Takers(moves) ==> w[g] == w0[g]
  {
    hide Total, Imbalance, Serves, Divides, AfterMoves, Givers, Takers, Sides, Uneven, Low, EvenLoads;
    w, owner, moves := w0, owner0, [];
    NoMoves(w0);
    var low := LeastLoaded(w);
    var high := MostLoaded(w);
    SidesAtFirst(w0, |w[low]|, |w[high]|);
    while Uneven(|w[low]|, |w[high]|, |w|)
      invariant w.Keys == w0.Keys && Serves(w, owner) && Total(w) == NSHARDS && 0 !in owner
      invariant Least(w, low) && Most(w, high)
      invariant Sides(w0, w, Givers(moves), Takers(moves), |w[low]|, |w[high]|)
      invariant w == AfterMoves(w0, moves) && Givers(moves) !! Takers(moves)
      invariant Low(w, filled) && Givers(moves) !! filled
      invariant moves != [] ==> !EvenLoads(w0)
      decreases Imbalance(w)
    {
      FarApart(w, low, high);
      if moves == [] { NoMoves(w0); NotEven(w, low, high); }
      MoveKeepsLow(w, filled, low, high);
      MoveEvens(w, high, low);
      var shard := w[high][|w[high]| - 1];
      Within(w, owner, high, |w[high]| - 1);
      MoveServes(w, owner, high, low, shard);
      ghost var before := w;
      w := w[low := w[low] + [shard]];
      w := w[high := w[high][..|w[high]| - 1]];
      assert w == Move(before, high, low);
      owner := owner[shard := low];
      var low' := LeastLoaded(w);
      var high' := MostLoaded(w);
      MoveSides(w0, before, Givers(moves), Takers(moves), low, high, low', high');
      MovesSnoc(w0, moves, high, low);
      moves := moves + [(high, low)];
      low, high := low', high';
    }
    ExtremesEven(w, low, high);
    SidesSay(w0, w, Givers(moves), Takers(moves), |w[low]|, |w[high]|);
  }

  // ---------- The whole rebalancing ----------

  /** Loads of `shards` over `groups`. */
  function Load(shards: seq<int>, g: int): nat {
    if shards == [] then 0 else (if shards[0] == g then 1 else 0) + Load(shards[1..], g)
  }

  /** The balance the original promises: equal loads if they can be, else within one. */
  predicate Balanced(shards: seq<int>, groups: set<int>) {
    forall g <- groups :: forall h <- groups ::
      Load(shards, g) <= Load(shards, h) + 1
      && (|groups| > 0 && Divides(|groups|) ==> Load(shards, g) == Load(shards, h))
  }

  lemma {:induction false} LoadCount(shards: seq<int>, g: int, s: set<int>)
    requires forall i :: i in s <==> 0 <= i < |shards| && shards[i] == g
    ensures Load(shards, g) == |s|
    decreases |shards|
  {
    if shards == [] {
      if s != {} { Inhabited(s); }
    } else {
      var last := |shards| - 1;
      LoadCount(shards[..last], g, s - {last});
      LoadLast(shards, g);
    }
  }

  lemma {:induction false} LoadLast(shards: seq<int>, g: int)
    requires shards != []
    ensures Load(shards, g) == Load(shards[..|shards| - 1], g) + if shards[|shards| - 1] == g then 1 else 0
  {
    if |shards| > 1 {
      LoadLast(shards[1..], g);
      assert shards[1..][..|shards| - 2] == shards[..|shards| - 1][1..];
    }
  }

  lemma {:induction false} DistinctCount(s: seq<int>)
    requires NoRepeats(s)
    ensures |set x | x in s| == |s|
  {
    if s != [] {
      var last := |s| - 1;
      DistinctCount(s[..last]);
      assert (set x | x in s) == (set x | x in s[..last]) + {s[last]};
    }
  }

  lemma ServesLoad(w: WorkLoad, owner: seq<int>, g: int)
    requires Serves(w, owner) && g in w
    ensures Load(owner, g) == |w[g]|
  {
    LoadCount(owner, g, set x | x in w[g]);
    DistinctCount(w[g]);
  }

  /** Which shards each group serves already. */
  method Collect(config: Config) returns (w: WorkLoad, ghost owner: seq<int>)
    requires PartlyAssigned(config)
    ensures w.Keys == config.groups.Keys && Serves(w, owner) && owner == config.shards
    ensures Total(w) + Load(owner, 0) == NSHARDS
  {
    w := map g | g in config.groups :: [];
    owner := seq(NSHARDS, _ => 0);
    EmptyTotal(w.Keys, w);
    AllFree(owner);
    for i := 0 to NSHARDS
      invariant w.Keys == config.groups.Keys && Serves(w, owner)
      invariant forall k :: 0 <= k < NSHARDS ==> owner[k] == if k < i then config.shards[k] else 0
      invariant Total(w) + Load(owner, 0) == NSHARDS
    {
      hide Total, Load;
      var g := config.shards[i];
      if g != 0 {
        Give(w, owner, i, g);
        FewerFree(owner, i, g);
        owner := owner[i := g];
        w := w[g := w[g] + [i]];
      }
    }
  }

  lemma LowNone(w: WorkLoad)
    ensures Low(w, {})
  {
  }

  lemma GiveLow(w: WorkLoad, filled: set<int>, g: int, i: int)
    requires Low(w, filled) && Least(w, g)
    ensures Low(w[g := w[g] + [i]], filled + {g})
  {
  }

  lemma ServesShape(w: WorkLoad, owner: seq<int>)
    requires Serves(w, owner)
    ensures |owner| == NSHARDS && 0 !in w
  {
  }

  /** Gives every free shard to a group of least load; the groups `filled` end up among the lower ones. */
  method Fill(shards: seq<int>, w0: WorkLoad, ghost owner0: seq<int>)
    returns (w: WorkLoad, ghost owner: seq<int>, ghost filled: set<int>)
    requires w0.Keys != {} && Serves(w0, owner0) && owner0 == shards
    requires Total(w0) + Load(owner0, 0) == NSHARDS
    ensures w.Keys == w0.Keys && Serves(w, owner) && 0 !in owner && Total(w) == NSHARDS
    ensures forall i :: 0 <= i < NSHARDS && shards[i] != 0 ==> owner[i] == shards[i]
    ensures Low(w, filled) && forall g <- w :: w0[g] <= w[g] && (g !in filled ==> w[g] == w0[g])
    ensures 0 !in shards ==> filled == {} && w == w0
  {
    hide Total, Load, Serves, Low;
    w, owner, filled := w0, owner0, {};
    LowNone(w0);
    ServesShape(w0, owner0);
    for i := 0 to NSHARDS
      invariant w.Keys == w0.Keys && Serves(w, owner) && |owner| == |shards| == NSHARDS
      invariant forall k :: 0 <= k < NSHARDS && (i <= k || shards[k] != 0) ==> owner[k] == shards[k]
      invariant forall k :: 0 <= k < i ==> owner[k] != 0
      invariant Low(w, filled) && forall g <- w :: w0[g] <= w[g] && (g !in filled ==> w[g] == w0[g])
      invariant 0 !in shards ==> filled == {} && w == w0
      invariant Total(w) + Load(owner, 0) == NSHARDS
    {
      if shards[i] == 0 {
        var g := LeastLoaded(w);
        ServesShape(w, owner);
        Give(w, owner, i, g);
        GiveLow(w, filled, g, i);
        FewerFree(owner, i, g);
        owner := owner[i := g];
        w := w[g := w[g] + [i]];
        filled := filled + {g};
      }
    }
    LoadCount(owner, 0, {});
  }

  /** A group keeps what it had, or it gets nothing new. */
  predicate Steady(before: seq<int>, after: seq<int>, g: int)
    requires |before| == |after|
  {
    || (forall i :: 0 <= i < |before| && before[i] == g ==> after[i] == g)
    || (forall i :: 0 <= i < |before| && after[i] == g ==> before[i] == g)
  }

  /** The rebalanced shard vector: balanced, with no group both losing and gaining, the same as before if it was
      balanced and complete; and a group that loses a shard had more than an even share and keeps one. */
  method BalanceWorkLoad(config: Config) returns (shards: seq<int>)
    requires PartlyAssigned(config) && config.groups.Keys != {}
    ensures |shards| == NSHARDS && forall i :: 0 <= i < NSHARDS ==> shards[i] in config.groups
    ensures Balanced(shards, config.groups.Keys)
    ensures forall g <- config.groups :: Steady(config.shards, shards, g)
    ensures 0 !in config.shards && Balanced(config.shards, config.groups.Keys) ==> shards == config.shards
    ensures forall i :: 0 <= i < NSHARDS && config.shards[i] != 0 && shards[i] != config.shards[i] ==>
              Load(config.shards, config.shards[i]) > Load(shards, config.shards[i]) >= NSHARDS / |config.groups|
  {
    var w1, w2, w3; ghost var owner1, owner2, owner3, filled, moves;
    w1, owner1 := Collect(config);
    w2, owner2, filled := Fill(config.shards, w1, owner1);
    w3, owner3, moves := EvenOut(w2, owner2, filled);
    shards := WriteBack(config.shards, w3, owner3);
    IsBalanced(w3, owner3);
    Stable(w1, owner1, w2, filled, w3, owner3, moves);
    if 0 !in config.shards && Balanced(config.shards, config.groups.Keys) {
      EvenAlready(w1, owner1);
      SameOwners(w1, owner1, owner3);
    }
    forall i | 0 <= i < NSHARDS ensures shards[i] in config.groups { assert shards[i] in owner3; }
  }

  lemma IsBalanced(w: WorkLoad, owner: seq<int>)
    requires Serves(w, owner) && EvenLoads(w)
    ensures Balanced(owner, w.Keys)
  {
    forall g, h | g in w && h in w
      ensures Load(owner, g) == |w[g]| && Load(owner, h) == |w[h]| && !Uneven(|w[g]|, |w[h]|, |w|)
    {
      ServesLoad(w, owner, g);
      ServesLoad(w, owner, h);
    }
    assert |w| == |w.Keys|;
  }

  lemma EvenAlready(w: WorkLoad, owner: seq<int>)
    requires Serves(w, owner) && Balanced(owner, w.Keys) && w.Keys != {}
    ensures EvenLoads(w)
  {
    assert |w| == |w.Keys|;
    forall g, h | g in w && h in w ensures !Uneven(|w[g]|, |w[h]|, |w|) {
      ServesLoad(w, owner, g);
      ServesLoad(w, owner, h);
    }
  }

  lemma SameOwners(w: WorkLoad, a: seq<int>, b: seq<int>)
    requires Serves(w, a) && Serves(w, b) && 0 !in a && 0 !in b
    ensures a == b
  {
    forall i | 0 <= i < NSHARDS ensures a[i] == b[i] { assert a[i] in a && i in w[a[i]]; }
  }

  lemma Stable(w1: WorkLoad, before: seq<int>, w2: WorkLoad, filled: set<int>, w3: WorkLoad, after: seq<int>, moves: seq<(int, int)>)
    requires Serves(w1, before) && Serves(w3, after) && 0 !in after && Total(w3) == NSHARDS
    requires w1.Keys == w2.Keys == w3.Keys && w1.Keys != {} && Givers(moves) !! filled
    requires forall g <- w2 :: w1[g] <= w2[g] && (g !in filled ==> w2[g] == w1[g])
    requires Givers(moves) <= w3.Keys && forall g <- Givers(moves) :: w3[g] <= w2[g] && w3[g] != w2[g]
    requires forall g <- w3 :: g !in Givers(moves) ==> w2[g] <= w3[g]
    requires EvenLoads(w3)
    ensures forall g <- w1 :: Steady(before, after, g)
    ensures forall i :: 0 <= i < NSHARDS && before[i] != 0 && after[i] != before[i] ==>
              Load(before, before[i]) > Load(after, before[i]) >= NSHARDS / |w1|
  {
    hide Total, Load;
    forall g | g in w1 ensures Steady(before, after, g) {
      if g in Givers(moves) { GivenOnly(w1, before, w3, after, g); } else { TakenOnly(w1, before, w3, after, g); }
    }
    forall i | 0 <= i < NSHARDS && before[i] != 0 && after[i] != before[i]
      ensures Load(before, before[i]) > Load(after, before[i]) >= NSHARDS / |w1|
    {
      var g := before[i];
      assert g in w1;
      if g !in Givers(moves) { TakenOnly(w1, before, w3, after, g); }
      ServesLoad(w1, before, g);
      ServesLoad(w3, after, g);
      EvenShare(w3, g);
      assert |w1| == |w1.Keys| == |w3|;
    }
  }

  lemma GivenOnly(w: WorkLoad, before: seq<int>, w': WorkLoad, after: seq<int>, g: int)
    requires Serves(w, before) && Serves(w', after) && 0 !in after && g in w && g in w' && w'[g] <= w[g]
    ensures forall i :: 0 <= i < NSHARDS && after[i] == g ==> before[i] == g
  {
    forall i | 0 <= i < NSHARDS && after[i] == g ensures before[i] == g { assert i in w'[g] && i in w[g]; }
  }

  lemma TakenOnly(w: WorkLoad, before: seq<int>, w': WorkLoad, after: seq<int>, g: int)
    requires Serves(w, before) && Serves(w', after) && g in w && g in w' && w[g] <= w'[g]
    ensures forall i :: 0 <= i < NSHARDS && before[i] == g ==> after[i] == g
  {
    forall i | 0 <= i < NSHARDS && before[i] == g ensures after[i] == g { assert i in w[g] && i in w'[g]; }
  }

  lemma {:induction false} SumAtMost(keys: set<int>, f: map<int, int>, c: int)
    requires keys <= f.Keys && forall k <- keys :: f[k] <= c
    ensures SumOf(keys, f) <= |keys| * c
    decreases keys
  {
    if keys != {} {
      Inhabited(keys);
      var k :| k in keys;
      var rest := keys - {k};
      SumSplit(keys, f, k);
      SumAtMost(rest, f, c);
      assert |keys| == |rest| + 1;
      OneMore(|keys|, |rest|, c);
    }
  }

  /** When loads are even, nobody is below the even share. */
  lemma EvenShare(w: WorkLoad, g: int)
    requires g in w && Total(w) == NSHARDS && EvenLoads(w)
    ensures |w[g]| >= NSHARDS / |w|
  {
    var q, f, rest := NSHARDS / |w|, Sizes(w), w.Keys - {g};
    assert |w| == |w.Keys| == |rest| + 1;
    if |w[g]| < q {
      forall k | k in rest ensures f[k] <= q { assert !Uneven(|w[g]|, |w[k]|, |w|); }
      SumSplit(w.Keys, f, g);
      SumAtMost(rest, f, q);
      NotEnough(|w|, q, f[g], SumOf(rest, f));
    }
  }

  lemma NotEnough(m: int, q: int, mine: int, others: int)
    requires m > 0 && q == NSHARDS / m && others <= (m - 1) * q && mine < q
    ensures mine + others < NSHARDS
  {
    assert m * q <= NSHARDS;
    OneMore(m, m - 1, q);
  }

  lemma {:induction false} EmptyTotal(keys: set<int>, w: WorkLoad)
    requires keys <= w.Keys && forall g <- w :: w[g] == []
    ensures SumOf(keys, Sizes(w)) == 0
    decreases keys
  {
    if keys != {} {
      Inhabited(keys);
      var k :| k in keys;
      SumSplit(keys, Sizes(w), k);
      EmptyTotal(keys - {k}, w);
    }
  }

  lemma {:induction false} AllFree(shards: seq<int>)
    requires forall i :: 0 <= i < |shards| ==> shards[i] == 0
    ensures Load(shards, 0) == |shards|
  {
    if shards != [] { AllFree(shards[1..]); }
  }

  lemma FewerFree(owner: seq<int>, i: int, g: int)
    requires 0 <= i < |owner| && owner[i] == 0 && g != 0
    ensures Load(owner[i := g], 0) == Load(owner, 0) - 1
  {
    var free := set k | 0 <= k < |owner| && owner[k] == 0;
    LoadCount(owner, 0, free);
    LoadCount(owner[i := g], 0, free - {i});
  }

  /** Writes the final work load back into the shard vector, group by group. */
  method WriteBack(shards0: seq<int>, w: WorkLoad, ghost owner: seq<int>) returns (shards: seq<int>)
    requires |shards0| == NSHARDS && Serves(w, owner) && 0 !in owner
    ensures shards == owner
  {
    shards := shards0;
    var rest := w.Keys;
    while rest != {}
      invariant rest <= w.Keys && |shards| == NSHARDS
      invariant forall i :: 0 <= i < NSHARDS && owner[i] !in rest ==> shards[i] == owner[i]
      decreases |rest|
    {
      Inhabited(rest);
      var g :| g in rest;
      var mine := w[g];
      for k := 0 to |mine|
        invariant |shards| == NSHARDS
        invariant forall i :: 0 <= i < NSHARDS && owner[i] !in rest ==> shards[i] == owner[i]
        invariant forall j :: 0 <= j < k ==> mine[j] in w[g] && shards[mine[j]] == g
      {
        assert mine[k] in w[g];
        shards := shards[mine[k] := g];
      }
      forall i | 0 <= i < NSHARDS && owner[i] == g
        ensures shards[i] == g
      {
        assert i in mine;
      }
      rest := rest - {g};
    }
    forall i | 0 <= i < NSHARDS
      ensures shards[i] == owner[i]
    {
      assert owner[i] in owner;
    }
  }
}
