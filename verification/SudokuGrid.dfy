/** Boards, the constraint columns they leave open, and completed grids. */
module SudokuGrid {
  import opened Basics

  const kCells := 81

  /** The row (k = 0), column (k = 1) or box (k = 2) of a cell. */
  function Unit(k: int, cell: int): int
    requires 0 <= cell < kCells
  {
    if k == 0 then cell / 9 else if k == 1 then cell % 9 else cell / 9 / 3 * 3 + cell % 9 / 3
  }

  /** The `p`-th cell of a unit, and the position of a cell in its unit. */
  function CellOf(k: int, i: int, p: int): (cell: int)
    requires 0 <= i < 9 && 0 <= p < 9
    ensures 0 <= cell < kCells
  {
    if k == 0 then 9 * i + p else if k == 1 then 9 * p + i
    else 9 * (i / 3 * 3 + p / 3) + (i % 3 * 3 + p % 3)
  }

  function PlaceOf(k: int, cell: int): (p: int)
    requires 0 <= cell < kCells
    ensures 0 <= p < 9
  {
    if k == 0 then cell % 9 else if k == 1 then cell / 9 else cell / 9 % 3 * 3 + cell % 9 % 3
  }

  lemma UnitRange(k: int, cell: int)
    requires 0 <= cell < kCells
    ensures 0 <= Unit(k, cell) < 9
  {
  }

  lemma Split9(a: int, b: int)
    requires 0 <= b < 9
    ensures (9 * a + b) / 9 == a && (9 * a + b) % 9 == b
  {
  }

  lemma Split3(a: int, b: int)
    requires 0 <= b < 3
    ensures (a * 3 + b) / 3 == a && (a * 3 + b) % 3 == b
  {
  }

  lemma Rejoin(a: int)
    ensures a / 3 * 3 + a % 3 == a && a / 9 * 9 + a % 9 == a && 0 <= a % 3 < 3 && 0 <= a % 9 < 9
    ensures 0 <= a < 9 ==> 0 <= a / 3 < 3
    ensures 0 <= a < 81 ==> 0 <= a / 9 < 9
  {
  }

  lemma UnitOfPlace(k: int, i: int, p: int)
    requires 0 <= i < 9 && 0 <= p < 9
    ensures Unit(k, CellOf(k, i, p)) == i && PlaceOf(k, CellOf(k, i, p)) == p
  {
    Split9(i, p);
    Split9(p, i);
    BoxOfPlace(i / 3, i % 3, p / 3, p % 3);
  }

  lemma BoxOfPlace(i1: int, i2: int, p1: int, p2: int)
    requires 0 <= i1 < 3 && 0 <= i2 < 3 && 0 <= p1 < 3 && 0 <= p2 < 3
    ensures var cell := 9 * (i1 * 3 + p1) + (i2 * 3 + p2);
      cell / 9 / 3 * 3 + cell % 9 / 3 == i1 * 3 + i2 && cell / 9 % 3 * 3 + cell % 9 % 3 == p1 * 3 + p2
  {
    Split9(i1 * 3 + p1, i2 * 3 + p2);
    Split3(i1, p1);
    Split3(i2, p2);
  }

  lemma PlaceOfUnit(k: int, cell: int)
    requires 0 <= cell < kCells
    ensures 0 <= Unit(k, cell) < 9 && CellOf(k, Unit(k, cell), PlaceOf(k, cell)) == cell
  {
    var r, c := cell / 9, cell % 9;
    Rejoin(cell);
    Rejoin(r);
    Rejoin(c);
    Split3(r / 3, c / 3);
    Split3(r % 3, c % 3);
  }

  predicate IsBoard(b: seq<int>) { |b| == kCells && forall c :: 0 <= c < kCells ==> 0 <= b[c] <= 9 }

  ghost predicate InUnit(k: int, i: int, c: int) { 0 <= c < kCells && Unit(k, c) == i }

  /** Value `v` stands on the board in unit `i` of kind `k`. */
  ghost predicate Used(b: seq<int>, k: int, i: int, v: int) {
    exists c {:trigger InUnit(k, i, c)} :: InUnit(k, i, c) && c < |b| && b[c] == v
  }

  // ---------- Constraint columns and candidate rows ----------

  /** The name of the column for value `v` in unit `i` of kind `k`. */
  function Key(k: int, i: int, v: int): int { 100 * (k + 1) + 10 * i + v }

  ghost predicate IsUnitKey(k: int, i: int, v: int) { 0 <= k < 3 && 0 <= i < 9 && 1 <= v <= 9 }

  /** The columns of a board: its empty cells, and the values each unit still needs. */
  ghost predicate NeedsCell(b: seq<int>, c: int) { 0 <= c < kCells && c < |b| && b[c] == 0 }

  ghost predicate NeedsValue(b: seq<int>, k: int, i: int, v: int) {
    IsUnitKey(k, i, v) && !Used(b, k, i, v)
  }

  /** Row `10 * cell + v`: an empty cell and a value none of its units has. */
  ghost predicate Candidate(b: seq<int>, id: int) {
    && NeedsCell(b, id / 10) && 1 <= id % 10 <= 9
    && forall k :: 0 <= k < 3 ==> !Used(b, k, Unit(k, id / 10), id % 10)
  }

  /** Row `id` meets the column of value `v` in unit `i` of kind `k`. */
  ghost predicate MeetsUnit(id: int, k: int, i: int, v: int) {
    InUnit(k, i, id / 10) && id % 10 == v
  }

  /** A choice of candidates that fills every empty cell and every open place of a unit exactly once. */
  ghost predicate FillsExactly(b: seq<int>, ids: set<int>) {
    && (forall id <- ids :: Candidate(b, id))
    && (forall c {:trigger NeedsCell(b, c)} :: NeedsCell(b, c) ==> exists id :: id in ids && id / 10 == c)
    && (forall k, i, v {:trigger NeedsValue(b, k, i, v)} :: NeedsValue(b, k, i, v) ==>
          exists id :: id in ids && MeetsUnit(id, k, i, v))
    && (forall a, d :: a in ids && d in ids && a / 10 == d / 10 ==> a == d)
    && (forall a, d, k, i, v :: IsUnitKey(k, i, v) && a in ids && d in ids && MeetsUnit(a, k, i, v) && MeetsUnit(d, k, i, v) ==> a == d)
  }

  // ---------- Grids ----------

  ghost predicate IsGrid(g: seq<int>) { |g| == kCells && forall c :: 0 <= c < kCells ==> 1 <= g[c] <= 9 }

  ghost predicate NoTwice(g: seq<int>, k: int, i: int) {
    forall c, d {:trigger InUnit(k, i, c), InUnit(k, i, d)} ::
      InUnit(k, i, c) && InUnit(k, i, d) && c < |g| && d < |g| && g[c] == g[d] ==> c == d
  }

  /** No row, column or box holds a value twice. */
  ghost predicate ValidGrid(g: seq<int>) {
    IsGrid(g) && forall k, i {:trigger NoTwice(g, k, i)} :: 0 <= k < 3 && 0 <= i < 9 ==> NoTwice(g, k, i)
  }

  ghost predicate Extends(g: seq<int>, b: seq<int>) {
    |g| == |b| && forall c :: 0 <= c < |b| && b[c] != 0 ==> g[c] == b[c]
  }

  /** The values of a unit, place by place. */
  ghost function UnitValues(g: seq<int>, k: int, i: int): (s: seq<int>)
    requires |g| == kCells && 0 <= i < 9
    ensures |s| == 9 && forall p :: 0 <= p < 9 ==> s[p] == g[CellOf(k, i, p)]
  {
    seq(9, p requires 0 <= p < 9 => g[CellOf(k, i, p)])
  }

  // ---------- Pigeonhole ----------

  lemma {:induction false} CountDown(n: nat) returns (all: set<int>)
    ensures |all| == n && forall v :: v in all <==> 1 <= v <= n
  {
    all := {};
    for k := 0 to n
      invariant |all| == k && forall v :: v in all <==> 1 <= v <= k
    {
      all := all + {k + 1};
    }
  }

  lemma {:induction false} SetSize(s: seq<int>)
    ensures |set x | x in s| <= |s|
    ensures NoRepeats(s) <==> |set x | x in s| == |s|
  {
    if s != [] {
      var init, last := s[..|s| - 1], s[|s| - 1];
      SetSize(init);
      var a, b := set x | x in init, set x | x in s;
      assert b == a + {last};
      if last in init {
        assert b == a;
        var p :| 0 <= p < |init| && init[p] == last;
        assert s[p] == s[|s| - 1];
      } else {
        assert |b| == |a| + 1;
        assert NoRepeats(init) ==> NoRepeats(s);
        assert NoRepeats(s) ==> forall p, q :: 0 <= p < q < |init| ==> init[p] == s[p] && init[q] == s[q] && init[p] != init[q];
      }
    }
  }

  /** Nine places and nine values: all values occur exactly when none occurs twice. */
  lemma Pigeonhole(s: seq<int>, n: nat)
    requires |s| == n && forall p :: 0 <= p < n ==> 1 <= s[p] <= n
    ensures NoRepeats(s) <==> forall v :: 1 <= v <= n ==> v in s
  {
    var all := CountDown(n);
    var got := set x | x in s;
    SetSize(s);
    SubsetSize(got, all);
    if NoRepeats(s) {
      assert got == all;
      forall v | 1 <= v <= n ensures v in s { assert v in got; }
    }
    if forall v :: 1 <= v <= n ==> v in s {
      assert all <= got;
      assert got == all;
    }
  }

  // ---------- Exact fillings are valid grids ----------

  /** A unit holds no value twice exactly when it holds all nine. */
  lemma UnitComplete(g: seq<int>, k: int, i: int)
    requires IsGrid(g) && 0 <= i < 9
    ensures NoTwice(g, k, i) <==> forall v :: 1 <= v <= 9 ==> Used(g, k, i, v)
  {
    hide Unit, CellOf, PlaceOf, InUnit;
    var s := UnitValues(g, k, i);
    forall p | 0 <= p < 9 ensures InUnit(k, i, CellOf(k, i, p)) && PlaceOf(k, CellOf(k, i, p)) == p { PlaceInUnit(k, i, p); }
    forall c | InUnit(k, i, c) ensures 0 <= c < kCells && CellOf(k, i, PlaceOf(k, c)) == c && s[PlaceOf(k, c)] == g[c] { CellPlace(k, i, c); }
    forall v ensures v in s <==> Used(g, k, i, v) {
      if v in s { var p :| 0 <= p < 9 && s[p] == v; assert InUnit(k, i, CellOf(k, i, p)); }
      if Used(g, k, i, v) { var c :| InUnit(k, i, c) && g[c] == v; }
    }
    Pigeonhole(s, 9);
    if NoRepeats(s) {
      forall c, d | InUnit(k, i, c) && InUnit(k, i, d) && g[c] == g[d] ensures c == d {
        var p, q := PlaceOf(k, c), PlaceOf(k, d);
        assert s[p] == s[q];
        assert p == q;
      }
    }
    if NoTwice(g, k, i) {
      forall p, q | 0 <= p < q < 9 ensures s[p] != s[q] {
        assert InUnit(k, i, CellOf(k, i, p)) && InUnit(k, i, CellOf(k, i, q));
      }
    }
  }

  lemma PlaceInUnit(k: int, i: int, p: int)
    requires 0 <= i < 9 && 0 <= p < 9
    ensures InUnit(k, i, CellOf(k, i, p)) && PlaceOf(k, CellOf(k, i, p)) == p
  {
    UnitOfPlace(k, i, p);
  }

  lemma CellPlace(k: int, i: int, c: int)
    requires InUnit(k, i, c)
    ensures 0 <= c < kCells && 0 <= i < 9 && CellOf(k, i, PlaceOf(k, c)) == c
  {
    PlaceOfUnit(k, c);
  }

  /** `g` is the board with the chosen rows written into it. */
  ghost predicate Placed(b: seq<int>, ids: set<int>, g: seq<int>) {
    && Extends(g, b)
    && forall id <- ids :: 0 <= id / 10 < |g| ==> g[id / 10] == id % 10
  }

  lemma PlacedUnit(b: seq<int>, ids: set<int>, g: seq<int>, k: int, i: int)
    requires IsBoard(b) && FillsExactly(b, ids) && Placed(b, ids, g) && IsGrid(g) && 0 <= k < 3 && 0 <= i < 9
    ensures NoTwice(g, k, i)
  {
    hide Unit, NoTwice;
    forall v | 1 <= v <= 9 ensures Used(g, k, i, v) {
      if Used(b, k, i, v) {
        var c :| InUnit(k, i, c) && c < |b| && b[c] == v;
        assert g[c] == v;
      } else {
        assert NeedsValue(b, k, i, v);
        var id :| id in ids && MeetsUnit(id, k, i, v);
        assert g[id / 10] == v;
      }
    }
    UnitComplete(g, k, i);
  }

  lemma PlacedGrid(b: seq<int>, ids: set<int>, g: seq<int>)
    requires IsBoard(b) && FillsExactly(b, ids) && Placed(b, ids, g)
    ensures IsGrid(g)
  {
    forall c | 0 <= c < kCells ensures 1 <= g[c] <= 9 {
      if b[c] == 0 {
        assert NeedsCell(b, c);
        var id :| id in ids && id / 10 == c;
        assert Candidate(b, id);
      }
    }
  }

  /** Writing an exact filling into the board completes it, also where the clues alone are contradictory. */
  lemma FillingSolves(b: seq<int>, ids: set<int>, g: seq<int>)
    requires IsBoard(b) && FillsExactly(b, ids) && Placed(b, ids, g)
    ensures ValidGrid(g) && Extends(g, b)
  {
    PlacedGrid(b, ids, g);
    forall k, i | 0 <= k < 3 && 0 <= i < 9 ensures NoTwice(g, k, i) { PlacedUnit(b, ids, g, k, i); }
  }

  ghost function Choice(b: seq<int>, g: seq<int>): set<int>
    requires |g| == |b| == kCells
  {
    set c | 0 <= c < kCells && b[c] == 0 :: 10 * c + g[c]
  }

  lemma ChoiceMember(b: seq<int>, g: seq<int>, id: int)
    requires IsBoard(b) && IsGrid(g) && id in Choice(b, g)
    ensures NeedsCell(b, id / 10) && g[id / 10] == id % 10
  {
  }

  lemma ChoiceCandidate(b: seq<int>, g: seq<int>, id: int)
    requires IsBoard(b) && ValidGrid(g) && Extends(g, b) && id in Choice(b, g)
    ensures Candidate(b, id)
  {
    ChoiceMember(b, g, id);
    hide Unit;
    var c, v := id / 10, id % 10;
    forall k | 0 <= k < 3 ensures !Used(b, k, Unit(k, c), v) {
      UnitRange(k, c);
      var i := Unit(k, c);
      assert NoTwice(g, k, i);
      assert InUnit(k, i, c);
      forall d | InUnit(k, i, d) ensures b[d] != v {
        assert g[d] == g[c] ==> d == c;
      }
    }
  }

  lemma ChoiceMeets(b: seq<int>, g: seq<int>, k: int, i: int, v: int) returns (id: int)
    requires IsBoard(b) && ValidGrid(g) && Extends(g, b) && NeedsValue(b, k, i, v)
    ensures id in Choice(b, g) && MeetsUnit(id, k, i, v)
  {
    hide Unit;
    assert NoTwice(g, k, i);
    UnitComplete(g, k, i);
    assert Used(g, k, i, v);
    var c :| InUnit(k, i, c) && c < |g| && g[c] == v;
    id := 10 * c + v;
    assert b[c] == 0;
  }

  lemma ChoiceHas(b: seq<int>, g: seq<int>, c: int)
    requires IsBoard(b) && ValidGrid(g) && NeedsCell(b, c)
    ensures IsGrid(g) && exists id :: id in Choice(b, g) && id / 10 == c
  {
    var id := 10 * c + g[c];
    assert id in Choice(b, g) && id / 10 == c;
  }

  lemma ChoiceApart(b: seq<int>, g: seq<int>, a: int, d: int, k: int, i: int, v: int)
    requires IsBoard(b) && ValidGrid(g) && IsUnitKey(k, i, v) && a in Choice(b, g) && d in Choice(b, g)
    requires MeetsUnit(a, k, i, v) && MeetsUnit(d, k, i, v)
    ensures a == d
  {
    hide Unit;
    ChoiceMember(b, g, a);
    ChoiceMember(b, g, d);
    assert NoTwice(g, k, i);
  }

  /** A valid completion gives an exact filling. */
  lemma SolutionFills(b: seq<int>, g: seq<int>)
    requires IsBoard(b) && IsGrid(g) && ValidGrid(g) && Extends(g, b)
    ensures FillsExactly(b, Choice(b, g))
  {
    var ids := Choice(b, g);
    hide Unit, ValidGrid, Extends, NoTwice, Used;
    forall id | id in ids ensures Candidate(b, id) && g[id / 10] == id % 10 {
      ChoiceCandidate(b, g, id);
      ChoiceMember(b, g, id);
    }
    forall c | NeedsCell(b, c) ensures exists id :: id in ids && id / 10 == c { ChoiceHas(b, g, c); }
    forall k, i, v | NeedsValue(b, k, i, v) ensures exists id :: id in ids && MeetsUnit(id, k, i, v) {
      var id := ChoiceMeets(b, g, k, i, v);
    }
    forall a, d, k, i, v | IsUnitKey(k, i, v) && a in ids && d in ids && MeetsUnit(a, k, i, v) && MeetsUnit(d, k, i, v)
      ensures a == d
    {
      ChoiceApart(b, g, a, d, k, i, v);
    }
  }
}
