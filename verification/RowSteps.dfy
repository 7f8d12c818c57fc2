/** Covering the columns of a chosen row, and the facts the search relies on. */
module RowSteps {
  import opened Rings
  import opened Torus
  import opened ExactCover
  import opened CoverSteps

  /** Links when the loop that covers the columns of a row stands on `j`. */
  ghost function RowMid(m: Matrix, l: Links, v: set<int>, row: int, j: int): Links {
    LinksAfter(m, l, v, DoneCells(m, l, row, j))
  }

  ghost function RowCells(m: Matrix, l: Links, v: set<int>, row: int, j: int): set<int> {
    CellsAfter(m, v, DoneCells(m, l, row, j))
  }

  ghost function RowOpen(m: Matrix, l: Links, x: set<int>, row: int, j: int): set<int> {
    x - ColumnsOf(m, DoneCells(m, l, row, j))
  }

  /** Links when the loop that uncovers them stands on `j`. */
  ghost function RowThrough(m: Matrix, l: Links, v: set<int>, row: int, j: int): Links {
    if j == row then l else LinksAfter(m, l, v, DoneCells(m, l, row, j) + [j])
  }

  /** A consistent state in which all the other columns of `row` are still uncovered. */
  ghost predicate Choosing(m: Matrix, l: Links, v: set<int>, x: set<int>, row: int) {
    Consistent(m, l, v, x) && IsCell(m, row) && OwnColumns(m, x, RowWalk(m, l, row))
  }

  lemma OwnPrefix(m: Matrix, x: set<int>, p: seq<int>, js: seq<int>)
    requires OwnColumns(m, x, js) && p <= js
    ensures OwnColumns(m, x, p)
  {
    assert forall j <- p :: j in js;
  }

  lemma OwnLast(m: Matrix, x: set<int>, p: seq<int>, j: int)
    requires OwnColumns(m, x, p + [j])
    ensures At(m.col, j) in x - ColumnsOf(m, p)
  {
    var q := p + [j];
    assert q[|p|] == j && j in q;
    forall i | i in p ensures At(m.col, i) != At(m.col, j) {
      var a :| 0 <= a < |p| && p[a] == i;
      assert q[a] == i;
    }
  }

  lemma ChoosingBasics(m: Matrix, l: Links, v: set<int>, x: set<int>, row: int)
    requires Choosing(m, l, v, x, row)
    ensures WellFormed(m) && IsCell(m, row) && row in Row(m, row) && Consistent(m, l, v, x) && Sized(m, l)
    ensures OwnColumns(m, x, RowWalk(m, l, row)) && RowOk(m, l, row)
  {
    hide Ring;
    assert RowOk(m, l, row);
  }

  lemma InRowIsCell(m: Matrix, row: int, j: int)
    requires j in Row(m, row)
    ensures IsCell(m, j) && 0 <= j < |m.col|
  {
  }

  /** A stretch of the row's walk: its columns can be covered one after another, and the rows stay as they are. */
  lemma Stretch(m: Matrix, l: Links, v: set<int>, x: set<int>, row: int, p: seq<int>)
    requires Choosing(m, l, v, x, row) && p <= RowWalk(m, l, row)
    ensures OwnColumns(m, x, p)
    ensures Consistent(m, LinksAfter(m, l, v, p), CellsAfter(m, v, p), x - ColumnsOf(m, p))
    ensures var l' := LinksAfter(m, l, v, p);
      Sized(m, l) && Sized(m, l') && forall n :: IsCell(m, n) ==> l'.right[n] == l.right[n] && l'.left[n] == l.left[n]
  {
    hide Consistent, RowWalk, LinksAfter, CellsAfter;
    OwnPrefix(m, x, p, RowWalk(m, l, row));
    CoverAllKeeps(m, l, v, x, p);
    AfterLeavesRows(m, l, v, x, p);
  }

  lemma RowStart(m: Matrix, l: Links, v: set<int>, x: set<int>, row: int)
    requires Choosing(m, l, v, x, row)
    ensures Sized(m, l) && l.right[row] in Row(m, row) && RowMid(m, l, v, row, l.right[row]) == l
    ensures RowMid(m, l, v, row, row) == LinksAfter(m, l, v, RowWalk(m, l, row))
  {
    hide Ring, Choosing, Consistent, Row, DoneCells, WellFormed, OwnColumns;
    ChoosingBasics(m, l, v, x, row);
    CellStep(m, l, row, row);
  }

  lemma RowForwardStep(m: Matrix, l: Links, v: set<int>, x: set<int>, row: int, j: int)
    requires Choosing(m, l, v, x, row) && j in Row(m, row) && j != row
    ensures IsCell(m, j) && 0 <= j < |m.col|
    ensures var l', v', x' := RowMid(m, l, v, row, j), RowCells(m, l, v, row, j), RowOpen(m, l, x, row, j);
      && Consistent(m, l', v', x') && m.col[j] in x'
      && var l2 := Covered(m, l', v', m.col[j]);
      && Sized(m, l2) && l2.right[j] in Row(m, row)
      && RowMid(m, l, v, row, l2.right[j]) == l2
      && 0 <= CellsAhead(m, l, row, l2.right[j]) < CellsAhead(m, l, row, j)
  {
    hide Ring, Choosing, Consistent, Row, DoneCells, WellFormed, OwnColumns, Covered, CellsAhead, CellsBehind, ColumnsOf, LinksAfter,
      CellsAfter, Remaining, RowWalk;
    ChoosingBasics(m, l, v, x, row);
    InRowIsCell(m, row, j);
    CellStep(m, l, row, j);
    var p := DoneCells(m, l, row, j);
    assert p <= p + [j] <= RowWalk(m, l, row);
    Stretch(m, l, v, x, row, p);
    Stretch(m, l, v, x, row, p + [j]);
    OwnLast(m, x, p, j);
    AfterSnoc(m, l, v, p, j);
  }

  lemma RowBackStart(m: Matrix, l: Links, v: set<int>, x: set<int>, row: int)
    requires Choosing(m, l, v, x, row)
    ensures var l' := LinksAfter(m, l, v, RowWalk(m, l, row));
      && Sized(m, l') && l'.left[row] in Row(m, row)
      && RowThrough(m, l, v, row, l'.left[row]) == l'
  {
    hide Ring, Choosing, Consistent, Row, DoneCells, WellFormed, OwnColumns, LinksAfter, CellsAfter, RowWalk;
    ChoosingBasics(m, l, v, x, row);
    Stretch(m, l, v, x, row, RowWalk(m, l, row));
    NextPrev(Row(m, row), l.right, l.left, row);
    CellStep(m, l, row, l.left[row]);
    CellStep(m, l, row, row);
    LinksAfterNone(m, l, v);
  }

  lemma LinksAfterNone(m: Matrix, l: Links, v: set<int>)
    ensures LinksAfter(m, l, v, []) == l
  {
  }

  /** Uncovering the column of `j` steps back to the node before it. */
  lemma RowBackStep(m: Matrix, l: Links, v: set<int>, x: set<int>, row: int, j: int)
    requires Choosing(m, l, v, x, row) && j in Row(m, row) && j != row
    ensures IsCell(m, j) && 0 <= j < |m.col|
    ensures var l', v', x' := RowMid(m, l, v, row, j), RowCells(m, l, v, row, j), RowOpen(m, l, x, row, j);
      && Consistent(m, l', v', x') && m.col[j] in x'
      && RowThrough(m, l, v, row, j) == Covered(m, l', v', m.col[j])
      && Sized(m, l') && l'.left[j] in Row(m, row)
      && RowThrough(m, l, v, row, l'.left[j]) == l'
      && 0 <= CellsBehind(m, l, row, l'.left[j]) < CellsBehind(m, l, row, j)
  {
    hide Ring, Choosing, Consistent, Row, DoneCells, WellFormed, OwnColumns, Covered, CellsAhead, CellsBehind, ColumnsOf, LinksAfter,
      CellsAfter, Remaining, RowWalk;
    ChoosingBasics(m, l, v, x, row);
    InRowIsCell(m, row, j);
    CellStep(m, l, row, j);
    var p := DoneCells(m, l, row, j);
    assert p <= p + [j] <= RowWalk(m, l, row);
    Stretch(m, l, v, x, row, p);
    Stretch(m, l, v, x, row, p + [j]);
    OwnLast(m, x, p, j);
    AfterSnoc(m, l, v, p, j);
    NextPrev(Row(m, row), l.right, l.left, j);
    CellStep(m, l, row, l.left[j]);
    LinksAfterNone(m, l, v);
  }

  // ---------- The search ----------

  /** After covering `c`, each row linked into it can be chosen. */
  lemma ChooseRow(m: Matrix, l: Links, v: set<int>, x: set<int>, c: int, row: int)
    requires OnRow(m, l, v, x, c, row) && row != c
    ensures Choosing(m, Covered(m, l, v, c), Remaining(m, v, c), x - {c}, row)
    ensures Fits(m, x, row) && m.col[row] == c && IsCell(m, row)
    ensures x - {c} - ColumnsOf(m, RowWalk(m, Covered(m, l, v, c), row)) == x - RowColumns(m, At(m.row, row))
    ensures RowInside(m, x, At(m.row, row))
  {
    hide Ring, Covered, Remaining, RowWalk, OwnColumns, ColumnsOf, ColumnOk;
    var l' := Covered(m, l, v, c);
    CoverKeeps(m, l, v, x, c);
    assert RowOk(m, l', row);
    RowIsOwn(m, l', v, x, c, row);
    RowColumnsOf(m, l', row);
    FitsIff(m, x, row);
    assert Meets(m, m.row[row], c);
  }

  lemma RowIsOwn(m: Matrix, l: Links, v: set<int>, x: set<int>, c: int, row: int)
    requires WellFormed(m) && Active(m, v, x) && IsCell(m, row) && row in v && m.col[row] == c && c in x && RowOk(m, l, row)
    ensures Fits(m, x, row) && OwnColumns(m, x - {c}, RowWalk(m, l, row))
  {
    hide Ring, RowWalk;
    var js := RowWalk(m, l, row);
    RowWalkMembers(m, l, row);
    forall j | j in js ensures At(m.col, j) in x - {c} && IsCell(m, j) && m.row[j] == m.row[row] {
      MatesLinked(m, v, x, row, j);
    }
    forall a, b | 0 <= a < b < |js| ensures At(m.col, js[a]) != At(m.col, js[b]) {
      assert js[a] in js && js[b] in js && js[a] != js[b];
    }
  }

  /** If there is an exact cover, some row linked into column `c` starts one. */
  lemma SomeRowStarts(m: Matrix, l: Links, v: set<int>, x: set<int>, c: int)
    requires Consistent(m, l, v, x) && c in x
    ensures Solvable(m, x) ==>
      exists r :: r in ColumnWalk(m, l, v, c) && Solvable(m, x - RowColumns(m, At(m.row, r)))
  {
    hide Ring, ColumnWalk, ColumnOk;
    ColumnWalkMembers(m, l, v, c);
    if Solvable(m, x) {
      var ids :| ExactlyCovers(m, x, ids);
      var r := CoverStarts(m, x, ids, c);
      assert r in ColumnWalk(m, l, v, c);
    }
  }

  lemma NothingOpen(m: Matrix, l: Links, v: set<int>, x: set<int>)
    requires Consistent(m, l, v, x)
    ensures Sized(m, l) && |m.col| > 0 && (l.left[0] == 0 <==> x == {})
    ensures x == {} ==> ExactlyCovers(m, x, {})
  {
    hide Ring;
    NextPrev({0} + x, l.right, l.left, 0);
    if l.left[0] == 0 {
      forall c ensures c !in x { assert c in x ==> IsHead(m, c) && c in {0} + x; }
    }
    assert x == {} ==> l.left[0] in {0} + x;
  }

  /** The column being branched on keeps its ring while it is covered. */
  lemma BranchStep(m: Matrix, l: Links, v: set<int>, x: set<int>, c: int, row: int)
    requires OnRow(m, l, v, x, c, row)
    ensures var l' := Covered(m, l, v, c);
      && Sized(m, l') && 0 <= row < |m.col| && l'.down[row] in Column(m, v, c)
      && MetRows(m, l, v, c, l'.down[row]) == (if row == c then [] else MetRows(m, l, v, c, row) + [row])
      && (row != c ==> 0 <= RowsAhead(m, l, v, c, l'.down[row]) < RowsAhead(m, l, v, c, row))
    ensures MetRows(m, l, v, c, c) == ColumnWalk(m, l, v, c) && c in Column(m, v, c)
  {
    hide Ring, OnRow, Consistent, CoverWalk, Column, MetRows, ColumnWalk, UnlinkAll, Detach;
    OnRowBasics(m, l, v, x, c, row);
    MidwayLinks(m, l, v, x, c, CoverWalk(m, l, v, c));
    ColumnStep(m, l, v, x, c, row);
  }
}
