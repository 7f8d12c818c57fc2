/** The matrix built from a board: its exact covers are the exact fillings of the board. */
module SudokuMatrix {
  import opened Torus
  import opened ExactCover
  import opened SudokuGrid

  ghost function Heads(m: Matrix): set<int> { set h | 1 <= h <= m.heads && IsHead(m, h) }

  /** Column `key` is one of the board's. */
  ghost predicate OpenKey(b: seq<int>, key: int) {
    NeedsCell(b, key) || exists k, i, v :: NeedsValue(b, k, i, v) && key == Key(k, i, v)
  }

  /** Row `id` has a node in column `key`. */
  ghost predicate HasKey(id: int, key: int) {
    && 0 <= id / 10 < kCells
    && (key == id / 10 || exists k {:trigger Unit(k, id / 10)} :: 0 <= k < 3 && key == Key(k, Unit(k, id / 10), id % 10))
  }

  /** There is one header for each open column. */
  ghost predicate HeadsFor(m: Matrix, name: seq<int>, columns: map<int, int>, b: seq<int>) {
    && |name| == |m.col|
    && (forall key :: key in columns <==> OpenKey(b, key))
    && (forall key <- columns :: IsHead(m, columns[key]) && columns[key] < |name| && name[columns[key]] == key)
    && (forall h {:trigger IsHead(m, h)} :: IsHead(m, h) && h < |name| ==> name[h] in columns && columns[name[h]] == h)
  }

  ghost predicate HasNode(m: Matrix, name: seq<int>, id: int, key: int) {
    exists n :: IsCell(m, n) && n < |m.row| && n < |name| && m.row[n] == id && name[n] == key
  }

  /** The cells are exactly the nodes of the candidates accepted by `done`. */
  ghost predicate RowsFor(m: Matrix, name: seq<int>, b: seq<int>, done: int) {
    && |name| == |m.col| == |m.row|
    && (forall n {:trigger IsCell(m, n)} :: IsCell(m, n) && 0 <= m.col[n] < |name| ==>
          && m.row[n] < done && Candidate(b, m.row[n]) && HasKey(m.row[n], name[n]) && name[n] == name[m.col[n]])
    && (forall id, key {:trigger HasKey(id, key)} :: id < done && Candidate(b, id) && HasKey(id, key) ==> HasNode(m, name, id, key))
  }

  ghost predicate Represents(m: Matrix, name: seq<int>, columns: map<int, int>, b: seq<int>) {
    WellFormed(m) && HeadsFor(m, name, columns, b) && RowsFor(m, name, b, 10 * kCells)
  }

  lemma MeetsIff(m: Matrix, name: seq<int>, columns: map<int, int>, b: seq<int>, id: int, h: int)
    requires Represents(m, name, columns, b) && IsHead(m, h)
    ensures Meets(m, id, h) <==> Candidate(b, id) && HasKey(id, name[h])
  {
    hide Candidate, HasKey, OpenKey;
    if Meets(m, id, h) {
      var n :| IsCell(m, n) && n < |m.row| && m.row[n] == id && m.col[n] == h;
    }
    if Candidate(b, id) && HasKey(id, name[h]) {
      CandidateRange(b, id);
      assert HasNode(m, name, id, name[h]);
      var n :| IsCell(m, n) && n < |m.row| && n < |name| && m.row[n] == id && name[n] == name[h];
      assert columns[name[m.col[n]]] == m.col[n];
    }
  }

  lemma CandidateRange(b: seq<int>, id: int)
    requires Candidate(b, id)
    ensures 0 <= id < 10 * kCells
  {
  }

  lemma CellKey(id: int, c: int)
    requires 0 <= c < kCells && 0 <= id % 10
    ensures HasKey(id, c) <==> id / 10 == c
  {
    if 0 <= id / 10 < kCells {
      forall k | 0 <= k < 3 ensures Key(k, Unit(k, id / 10), id % 10) >= 100 { UnitRange(k, id / 10); }
    }
  }

  lemma UnitKey(id: int, k: int, i: int, v: int)
    requires IsUnitKey(k, i, v)
    ensures HasKey(id, Key(k, i, v)) <==> MeetsUnit(id, k, i, v)
  {
    hide Unit;
    if 0 <= id / 10 < kCells {
      forall j | 0 <= j < 3 ensures 0 <= Unit(j, id / 10) < 9 { UnitRange(j, id / 10); }
      assert HasKey(id, Key(k, i, v)) ==> exists j :: 0 <= j < 3 && Key(k, i, v) == Key(j, Unit(j, id / 10), id % 10);
      if MeetsUnit(id, k, i, v) { assert Key(k, i, v) == Key(k, Unit(k, id / 10), id % 10); }
    }
  }

  lemma CoverCell(m: Matrix, name: seq<int>, columns: map<int, int>, b: seq<int>, ids: set<int>, c: int)
    requires Represents(m, name, columns, b) && ExactlyCovers(m, Heads(m), ids) && NeedsCell(b, c)
    ensures exists id :: id in ids && id / 10 == c
    ensures forall a, d :: a in ids && d in ids && a / 10 == c && d / 10 == c ==> a == d
  {
    hide Candidate, HasKey, RowsFor, WellFormed, ExactlyCovers;
    assert OpenKey(b, c);
    var h := columns[c];
    var id := CoverHit(m, ids, h);
    MeetsIff(m, name, columns, b, id, h);
    CellKey(id, c);
    forall a, d | a in ids && d in ids && a / 10 == c && d / 10 == c ensures a == d {
      CoverCandidate(m, name, columns, b, ids, a);
      CoverCandidate(m, name, columns, b, ids, d);
      CellKey(a, c);
      CellKey(d, c);
      MeetsIff(m, name, columns, b, a, h);
      MeetsIff(m, name, columns, b, d, h);
      CoverUnique(m, ids, a, d, h);
    }
  }

  lemma CoverHit(m: Matrix, ids: set<int>, h: int) returns (id: int)
    requires ExactlyCovers(m, Heads(m), ids) && IsHead(m, h)
    ensures id in ids && Meets(m, id, h)
  {
    assert Hit(m, ids, h);
    id :| id in ids && Meets(m, id, h);
  }

  lemma CoverUnique(m: Matrix, ids: set<int>, a: int, d: int, h: int)
    requires ExactlyCovers(m, Heads(m), ids) && a in ids && d in ids && Meets(m, a, h) && Meets(m, d, h)
    ensures a == d
  {
    assert a != d ==> Apart(m, a, d);
  }

  lemma CoverCandidate(m: Matrix, name: seq<int>, columns: map<int, int>, b: seq<int>, ids: set<int>, id: int)
    requires Represents(m, name, columns, b) && ExactlyCovers(m, Heads(m), ids) && id in ids
    ensures Candidate(b, id)
  {
    hide Candidate, HasKey, OpenKey, HeadsFor, RowsFor, WellFormed;
    assert RowInside(m, Heads(m), id);
    var h :| Meets(m, id, h);
    assert h in Heads(m);
    MeetsIff(m, name, columns, b, id, h);
  }

  lemma CoverValue(m: Matrix, name: seq<int>, columns: map<int, int>, b: seq<int>, ids: set<int>, k: int, i: int, v: int)
    requires Represents(m, name, columns, b) && ExactlyCovers(m, Heads(m), ids) && NeedsValue(b, k, i, v)
    ensures exists id :: id in ids && MeetsUnit(id, k, i, v)
    ensures forall a, d :: a in ids && d in ids && MeetsUnit(a, k, i, v) && MeetsUnit(d, k, i, v) ==> a == d
  {
    hide Candidate, HasKey, RowsFor, WellFormed, ExactlyCovers, MeetsUnit;
    var key := Key(k, i, v);
    assert OpenKey(b, key);
    var h := columns[key];
    var id := CoverHit(m, ids, h);
    MeetsIff(m, name, columns, b, id, h);
    UnitKey(id, k, i, v);
    forall a, d | a in ids && d in ids && MeetsUnit(a, k, i, v) && MeetsUnit(d, k, i, v) ensures a == d {
      CoverCandidate(m, name, columns, b, ids, a);
      CoverCandidate(m, name, columns, b, ids, d);
      UnitKey(a, k, i, v);
      UnitKey(d, k, i, v);
      MeetsIff(m, name, columns, b, a, h);
      MeetsIff(m, name, columns, b, d, h);
      CoverUnique(m, ids, a, d, h);
    }
  }

  lemma CandidateNeeds(b: seq<int>, id: int, k: int, i: int, v: int)
    requires Candidate(b, id) && MeetsUnit(id, k, i, v) && IsUnitKey(k, i, v)
    ensures NeedsValue(b, k, i, v)
  {
  }

  /** An exact cover of the matrix fills the board exactly. */
  lemma CoverFills(m: Matrix, name: seq<int>, columns: map<int, int>, b: seq<int>, ids: set<int>)
    requires Represents(m, name, columns, b) && ExactlyCovers(m, Heads(m), ids)
    ensures FillsExactly(b, ids)
  {
    hide Represents, Candidate, HasKey, MeetsUnit, NeedsValue, ExactlyCovers, IsUnitKey, NeedsCell;
    forall id | id in ids ensures Candidate(b, id) { CoverCandidate(m, name, columns, b, ids, id); }
    forall c | NeedsCell(b, c) ensures exists id :: id in ids && id / 10 == c { CoverCell(m, name, columns, b, ids, c); }
    forall k, i, v | NeedsValue(b, k, i, v) ensures exists id :: id in ids && MeetsUnit(id, k, i, v) {
      CoverValue(m, name, columns, b, ids, k, i, v);
    }
    forall a, d | a in ids && d in ids && a / 10 == d / 10 ensures a == d {
      CandidateCell(b, a);
      CoverCell(m, name, columns, b, ids, a / 10);
    }
    forall a, d, k, i, v | IsUnitKey(k, i, v) && a in ids && d in ids && MeetsUnit(a, k, i, v) && MeetsUnit(d, k, i, v) ensures a == d {
      CandidateNeeds(b, a, k, i, v);
      CoverValue(m, name, columns, b, ids, k, i, v);
    }
  }

  lemma CandidateCell(b: seq<int>, id: int)
    requires Candidate(b, id)
    ensures NeedsCell(b, id / 10)
  {
  }

  // ---------- And back ----------

  lemma FillsHit(m: Matrix, name: seq<int>, columns: map<int, int>, b: seq<int>, ids: set<int>, h: int)
    requires Represents(m, name, columns, b) && FillsExactly(b, ids) && IsHead(m, h)
    ensures Hit(m, ids, h)
  {
    hide Candidate, HasKey, RowsFor, MeetsUnit;
    var key := name[h];
    assert OpenKey(b, key);
    var id: int;
    if NeedsCell(b, key) {
      id :| id in ids && id / 10 == key;
      CellKey(id, key);
    } else {
      var k, i, v :| NeedsValue(b, k, i, v) && key == Key(k, i, v);
      id :| id in ids && MeetsUnit(id, k, i, v);
      UnitKey(id, k, i, v);
    }
    MeetsIff(m, name, columns, b, id, h);
  }

  lemma FillsApart(m: Matrix, name: seq<int>, columns: map<int, int>, b: seq<int>, ids: set<int>, a: int, d: int, h: int)
    requires Represents(m, name, columns, b) && FillsExactly(b, ids) && IsHead(m, h)
    requires a in ids && d in ids && Meets(m, a, h) && Meets(m, d, h)
    ensures a == d
  {
    hide Candidate, HasKey, RowsFor, MeetsUnit, Meets;
    MeetsIff(m, name, columns, b, a, h);
    MeetsIff(m, name, columns, b, d, h);
    var key := name[h];
    assert OpenKey(b, key);
    if NeedsCell(b, key) {
      CellKey(a, key);
      CellKey(d, key);
    } else {
      var k, i, v :| NeedsValue(b, k, i, v) && key == Key(k, i, v);
      UnitKey(a, k, i, v);
      UnitKey(d, k, i, v);
    }
  }

  lemma CandidateInside(m: Matrix, name: seq<int>, columns: map<int, int>, b: seq<int>, id: int)
    requires Represents(m, name, columns, b) && Candidate(b, id)
    ensures RowInside(m, Heads(m), id)
  {
    hide HasKey;
    CandidateRange(b, id);
    var c := id / 10;
    CellKey(id, c);
    assert OpenKey(b, c);
    MeetsIff(m, name, columns, b, id, columns[c]);
  }

  /** An exact filling of the board is an exact cover of the matrix. */
  lemma FillsCover(m: Matrix, name: seq<int>, columns: map<int, int>, b: seq<int>, ids: set<int>)
    requires Represents(m, name, columns, b) && FillsExactly(b, ids)
    ensures ExactlyCovers(m, Heads(m), ids)
  {
    hide Represents, Candidate, RowColumns;
    forall id | id in ids ensures RowInside(m, Heads(m), id) { CandidateInside(m, name, columns, b, id); }
    forall h | h in Heads(m) ensures Hit(m, ids, h) { FillsHit(m, name, columns, b, ids, h); }
    forall a, d | a in ids && d in ids && a != d ensures Apart(m, a, d) {
      forall h | Meets(m, a, h) ensures !Meets(m, d, h) {
        assert RowInside(m, Heads(m), a);
        if Meets(m, d, h) { FillsApart(m, name, columns, b, ids, a, d, h); }
      }
      assert forall h :: h in RowColumns(m, a) ==> Meets(m, a, h);
      assert forall h :: h in RowColumns(m, d) ==> Meets(m, d, h);
    }
  }

  /** The matrix can be covered exactly when the clues extend to a valid grid. */
  lemma SolvableIff(m: Matrix, name: seq<int>, columns: map<int, int>, b: seq<int>)
    requires IsBoard(b) && Represents(m, name, columns, b)
    ensures Solvable(m, Heads(m)) <==> exists g :: ValidGrid(g) && Extends(g, b)
  {
    hide Represents, FillsExactly, ExactlyCovers, ValidGrid, Extends, Placed;
    if Solvable(m, Heads(m)) {
      var ids :| ExactlyCovers(m, Heads(m), ids);
      CoverFills(m, name, columns, b, ids);
      var g := Fill(b, ids);
      FillingSolves(b, ids, g);
    }
    if exists g :: ValidGrid(g) && Extends(g, b) {
      var g :| ValidGrid(g) && Extends(g, b);
      GridOf(g);
      SolutionFills(b, g);
      FillsCover(m, name, columns, b, Choice(b, g));
    }
  }

  lemma GridOf(g: seq<int>)
    requires ValidGrid(g)
    ensures IsGrid(g)
  {
  }

  ghost function FillAt(b: seq<int>, ids: set<int>, c: int): int
    requires 0 <= c < |b|
  {
    if exists id :: id in ids && id / 10 == c then var id :| id in ids && id / 10 == c; id % 10 else b[c]
  }

  lemma Fill(b: seq<int>, ids: set<int>) returns (g: seq<int>)
    requires IsBoard(b) && FillsExactly(b, ids)
    ensures Placed(b, ids, g)
  {
    g := seq(|b|, c requires 0 <= c < |b| => FillAt(b, ids, c));
    forall id | id in ids ensures 0 <= id / 10 < |g| ==> g[id / 10] == id % 10 {
      assert Candidate(b, id);
    }
    forall c | 0 <= c < |b| && b[c] != 0 ensures g[c] == b[c] {
      forall id | id in ids ensures id / 10 != c { assert Candidate(b, id); }
    }
  }
}
