/** Positions of the loops that cover and uncover: how far round a ring they are, and what they have done. */
module CoverSteps {
  import opened Basics
  import opened Rings
  import opened Torus
  import opened ExactCover

  /** The rows met when a loop down column `c` stands on `row`. */
  ghost function MetRows(m: Matrix, l: Links, v: set<int>, c: int, row: int): seq<int> {
    WalkTo(Column(m, v, c), l.down, l.up, c, row)
  }

  /** The nodes taken out when the outer loop of a cover stands on `row`. */
  ghost function DoneRows(m: Matrix, l: Links, v: set<int>, c: int, row: int): seq<int> {
    Strip(m, l, MetRows(m, l, v, c, row))
  }

  /** The nodes met in the row of `row` when a loop round it stands on `j`. */
  ghost function DoneCells(m: Matrix, l: Links, row: int, j: int): seq<int> {
    WalkTo(Row(m, row), l.right, l.left, row, j)
  }

  /** How far a forward walk round the row still has to go from `j`. */
  ghost function CellsAhead(m: Matrix, l: Links, row: int, j: int): int {
    |RowWalk(m, l, row)| - |DoneCells(m, l, row, j)|
  }

  /** How far a backward walk round the row still has to go from `j`. */
  ghost function CellsBehind(m: Matrix, l: Links, row: int, j: int): int {
    if j == row then 0 else |DoneCells(m, l, row, j)| + 1
  }

  /** The same for the loops over the rows of a column. */
  ghost function RowsAhead(m: Matrix, l: Links, v: set<int>, c: int, row: int): int {
    |ColumnWalk(m, l, v, c)| - |MetRows(m, l, v, c, row)|
  }

  ghost function RowsBehind(m: Matrix, l: Links, v: set<int>, c: int, row: int): int {
    if row == c then 0 else |MetRows(m, l, v, c, row)| + 1
  }

  lemma {:induction false} StripPrefix(m: Matrix, l: Links, rows: seq<int>, more: seq<int>)
    requires rows <= more
    ensures Strip(m, l, rows) <= Strip(m, l, more)
  {
    if |rows| == |more| {
      assert rows == more;
    } else {
      StripPrefix(m, l, rows, more[..|more| - 1]);
    }
  }

  /** What is given: a consistent state before the cover, and a node of the column's ring. */
  ghost predicate OnRow(m: Matrix, l: Links, v: set<int>, x: set<int>, c: int, row: int) {
    Consistent(m, l, v, x) && c in x && row in Column(m, v, c)
  }

  lemma OnRowBasics(m: Matrix, l: Links, v: set<int>, x: set<int>, c: int, row: int)
    requires OnRow(m, l, v, x, c, row)
    ensures WellFormed(m) && IsHead(m, c) && Consistent(m, l, v, x) && c in x && row in Column(m, v, c) && Sized(m, l)
    ensures row != c ==> IsCell(m, row) && row in Row(m, row) && RowOk(m, l, row)
    ensures 0 <= row < |m.col| && c in Column(m, v, c)
    ensures Ring(Column(m, v, c), l.down, l.up)
  {
    hide Ring;
    assert ColumnOk(m, l, v, c);
    assert row != c ==> RowOk(m, l, row);
  }

  /** One step down the column, read forwards or backwards. */
  lemma ColumnStep(m: Matrix, l: Links, v: set<int>, x: set<int>, c: int, row: int)
    requires OnRow(m, l, v, x, c, row)
    ensures Sized(m, l) && 0 <= row < |m.col| && l.down[row] in Column(m, v, c)
    ensures MetRows(m, l, v, c, l.down[row]) == if row == c then [] else MetRows(m, l, v, c, row) + [row]
    ensures MetRows(m, l, v, c, c) == ColumnWalk(m, l, v, c)
    ensures row != c ==> MetRows(m, l, v, c, row) + [row] <= ColumnWalk(m, l, v, c)
    ensures DoneRows(m, l, v, c, l.down[row]) == if row == c then [] else DoneRows(m, l, v, c, row) + RowWalk(m, l, row)
  {
    hide OnRow, Consistent, Ring, WalkTo, Walk, Column, Row, WellFormed;
    OnRowBasics(m, l, v, x, c, row);
    WalkNext(Column(m, v, c), l.down, l.up, c, row);
    if row != c { StripSnoc(m, l, MetRows(m, l, v, c, row), row); }
  }

  lemma DoneWithin(m: Matrix, l: Links, v: set<int>, x: set<int>, c: int, row: int)
    requires OnRow(m, l, v, x, c, row)
    ensures DoneRows(m, l, v, c, row) <= CoverWalk(m, l, v, c)
    ensures row != c ==> DoneRows(m, l, v, c, row) + RowWalk(m, l, row) <= CoverWalk(m, l, v, c)
    ensures DoneRows(m, l, v, c, c) == CoverWalk(m, l, v, c)
  {
    hide OnRow, Ring, ColumnWalk, MetRows, Strip, RowWalk;
    ColumnStep(m, l, v, x, c, row);
    var rows, walk := MetRows(m, l, v, c, row), ColumnWalk(m, l, v, c);
    if row != c {
      assert rows <= rows + [row] <= walk;
      StripPrefix(m, l, rows, walk);
      StripPrefix(m, l, rows + [row], walk);
      StripSnoc(m, l, rows, row);
    }
  }

  /** One step round a row, read forwards or backwards. */
  lemma CellStep(m: Matrix, l: Links, row: int, j: int)
    requires WellFormed(m) && IsCell(m, row) && RowOk(m, l, row) && j in Row(m, row)
    ensures 0 <= j < |l.right| && l.right[j] in Row(m, row)
    ensures DoneCells(m, l, row, l.right[j]) == if j == row then [] else DoneCells(m, l, row, j) + [j]
    ensures DoneCells(m, l, row, row) == RowWalk(m, l, row)
    ensures j != row ==> DoneCells(m, l, row, j) + [j] <= RowWalk(m, l, row)
    ensures j != row ==> 0 <= CellsAhead(m, l, row, l.right[j]) < CellsAhead(m, l, row, j)
    ensures l.right[j] != row ==> CellsBehind(m, l, row, j) < CellsBehind(m, l, row, l.right[j])
    ensures 0 <= CellsBehind(m, l, row, j)
  {
    hide Ring, WalkTo, Walk;
    WalkNext(Row(m, row), l.right, l.left, row, j);
  }

  /** Taking out the next node of the walk. */
  lemma UnlinkNext(m: Matrix, l: Links, v: set<int>, x: set<int>, c: int, p: seq<int>, j: int)
    requires Consistent(m, l, v, x) && c in x && p + [j] <= CoverWalk(m, l, v, c)
    ensures IsCell(m, j) && IsHead(m, m.col[j])
    ensures var l' := UnlinkAll(m, Detach(l, c), p);
      && Sized(m, l')
      && 0 <= l'.up[j] < |m.col| && 0 <= l'.down[j] < |m.col| && l'.up[j] != j && l'.down[j] != j
      && UnlinkAll(m, Detach(l, c), p + [j]) == Unlink(m, l', j)
  {
    hide Threaded, Headed, Active, ColumnOk, Ring, CoverWalk;
    var d := Detach(l, c);
    assert p <= p + [j] <= CoverWalk(m, l, v, c);
    Midway(m, l, v, x, c, p);
    Midway(m, l, v, x, c, p + [j]);
    NewMember(p, j);
    UnlinkSnoc(m, d, p, j);
    CellNeighbours(m, UnlinkAll(m, d, p), v - Members(p), j);
    SizedBy(m, UnlinkAll(m, d, p), v - Members(p));
  }

  lemma SizedBy(m: Matrix, l: Links, v: set<int>)
    requires Threaded(m, l, v)
    ensures Sized(m, l)
  {
  }

  lemma NewMember(p: seq<int>, j: int)
    requires NoRepeats(p + [j])
    ensures j !in Members(p) && j in p + [j]
  {
    assert (p + [j])[|p|] == j;
    forall a | 0 <= a < |p| ensures p[a] != j { assert (p + [j])[a] == p[a]; }
  }

  /** Putting the last node of the walk back. */
  lemma RelinkNext(m: Matrix, l: Links, v: set<int>, x: set<int>, c: int, p: seq<int>, j: int)
    requires Consistent(m, l, v, x) && c in x && p + [j] <= CoverWalk(m, l, v, c)
    ensures IsCell(m, j) && IsHead(m, m.col[j])
    ensures var l' := UnlinkAll(m, Detach(l, c), p + [j]);
      && Sized(m, l')
      && 0 <= l'.up[j] < |m.col| && 0 <= l'.down[j] < |m.col| && l'.up[j] != j && l'.down[j] != j
      && UnlinkAll(m, Detach(l, c), p) == Relink(m, l', j)
  {
    hide Threaded, Headed, Active, Ring, CoverWalk;
    Midway(m, l, v, x, c, p + [j]);
    UnlinkNext(m, l, v, x, c, p, j);
    RelinkLast(m, Detach(l, c), v, p, j);
  }

  // ---------- The links at each point of the loops ----------

  /** The outer loop of a cover stands on `row`. */
  ghost function MidRows(m: Matrix, l: Links, v: set<int>, c: int, row: int): Links {
    UnlinkAll(m, Detach(l, c), DoneRows(m, l, v, c, row))
  }

  /** The inner loop of a cover stands on `j`; back on `row` it has finished the row. */
  ghost function MidCells(m: Matrix, l: Links, v: set<int>, c: int, row: int, j: int): Links {
    UnlinkAll(m, Detach(l, c), DoneRows(m, l, v, c, row) + DoneCells(m, l, row, j))
  }

  /** As `MidCells` with `j` itself taken out too: the inner loop of an uncover stands on `j`. */
  ghost function MidThrough(m: Matrix, l: Links, v: set<int>, c: int, row: int, j: int): Links {
    if j == row then MidRows(m, l, v, c, row)
    else UnlinkAll(m, Detach(l, c), DoneRows(m, l, v, c, row) + DoneCells(m, l, row, j) + [j])
  }

  /** The outer loop of an uncover stands on `row`. */
  ghost function MidBack(m: Matrix, l: Links, v: set<int>, c: int, row: int): Links {
    if row == c then Detach(l, c) else MidCells(m, l, v, c, row, row)
  }

  ghost function Unlinked(m: Matrix, l: Links, j: int): Links
    requires Sized(m, l) && 0 <= j < |m.col| && 0 <= l.up[j] < |m.col| && 0 <= l.down[j] < |m.col|
    requires 0 <= m.col[j] < |m.col|
  {
    l.(up := l.up[l.down[j] := l.up[j]], down := l.down[l.up[j] := l.down[j]],
       size := l.size[m.col[j] := l.size[m.col[j]] - 1])
  }

  lemma CoverStart(m: Matrix, l: Links, v: set<int>, x: set<int>, c: int)
    requires Consistent(m, l, v, x) && c in x
    ensures Sized(m, l) && 0 <= c < |m.col| && l.down[c] in Column(m, v, c)
    ensures 0 <= l.left[c] < |m.col| && 0 <= l.right[c] < |m.col| && l.left[c] != c && l.right[c] != c
    ensures MidRows(m, l, v, c, l.down[c]) == l.(left := l.left[l.right[c] := l.left[c]], right := l.right[l.left[c] := l.right[c]])
  {
    hide Ring, DoneRows;
    HeadNeighbours(m, l, x, c);
    ColumnStep(m, l, v, x, c, c);
  }

  lemma RowEnter(m: Matrix, l: Links, v: set<int>, x: set<int>, c: int, row: int)
    requires OnRow(m, l, v, x, c, row) && row != c
    ensures IsCell(m, row)
    ensures var l' := MidRows(m, l, v, c, row);
      && Sized(m, l') && l'.right[row] in Row(m, row)
      && MidCells(m, l, v, c, row, l'.right[row]) == l'
  {
    hide Ring, Consistent, UnlinkAll, Detach, WellFormed, DoneRows, DoneCells, CoverWalk, Row, Column, OnRow;
    OnRowBasics(m, l, v, x, c, row);
    DoneWithin(m, l, v, x, c, row);
    MidwayLinks(m, l, v, x, c, DoneRows(m, l, v, c, row));
    CellStep(m, l, row, row);
    assert DoneRows(m, l, v, c, row) + [] == DoneRows(m, l, v, c, row);
  }

  lemma WithinRow(m: Matrix, l: Links, v: set<int>, x: set<int>, c: int, row: int, j: int)
    requires OnRow(m, l, v, x, c, row) && row != c && j in Row(m, row) && j != row
    ensures IsCell(m, j) && Sized(m, l) && l.right[j] in Row(m, row)
    ensures DoneRows(m, l, v, c, row) + DoneCells(m, l, row, j) + [j] <= CoverWalk(m, l, v, c)
    ensures DoneRows(m, l, v, c, row) + DoneCells(m, l, row, j) <= CoverWalk(m, l, v, c)
    ensures DoneRows(m, l, v, c, row) + DoneCells(m, l, row, j) + [j] == DoneRows(m, l, v, c, row) + DoneCells(m, l, row, l.right[j])
  {
    hide Ring, DoneRows, DoneCells, CoverWalk, RowWalk, WellFormed, OnRow, Consistent;
    OnRowBasics(m, l, v, x, c, row);
    DoneWithin(m, l, v, x, c, row);
    CellStep(m, l, row, j);
    var a, b := DoneRows(m, l, v, c, row), DoneCells(m, l, row, j);
    assert a + b + [j] == a + (b + [j]);
    assert a + (b + [j]) <= a + RowWalk(m, l, row);
  }

  lemma CellForward(m: Matrix, l: Links, v: set<int>, x: set<int>, c: int, row: int, j: int)
    requires OnRow(m, l, v, x, c, row) && row != c && j in Row(m, row) && j != row
    ensures IsCell(m, j) && IsHead(m, m.col[j])
    ensures var l' := MidCells(m, l, v, c, row, j);
      && Sized(m, l') && 0 <= l'.up[j] < |m.col| && 0 <= l'.down[j] < |m.col| && l'.up[j] != j && l'.down[j] != j
      && l'.right[j] in Row(m, row)
      && MidCells(m, l, v, c, row, l'.right[j]) == Unlinked(m, l', j)
      && 0 <= CellsAhead(m, l, row, l'.right[j]) < CellsAhead(m, l, row, j)
  {
    hide Ring, Consistent, UnlinkAll, Detach, WellFormed, DoneRows, DoneCells, CoverWalk, Row, Column, OnRow, CellsAhead, CellsBehind;
    OnRowBasics(m, l, v, x, c, row);
    var p := DoneRows(m, l, v, c, row) + DoneCells(m, l, row, j);
    WithinRow(m, l, v, x, c, row, j);
    CellStep(m, l, row, j);
    UnlinkNext(m, l, v, x, c, p, j);
    MidwayLinks(m, l, v, x, c, p);
  }

  lemma RowDone(m: Matrix, l: Links, v: set<int>, x: set<int>, c: int, row: int)
    requires OnRow(m, l, v, x, c, row) && row != c
    ensures DoneRows(m, l, v, c, row) + DoneCells(m, l, row, row) <= CoverWalk(m, l, v, c)
    ensures DoneCells(m, l, row, row) == RowWalk(m, l, row)
  {
    hide Ring, Consistent, WellFormed, DoneRows, DoneCells, CoverWalk, Row, Column, OnRow;
    OnRowBasics(m, l, v, x, c, row);
    CellStep(m, l, row, row);
    DoneWithin(m, l, v, x, c, row);
  }

  lemma RowForward(m: Matrix, l: Links, v: set<int>, x: set<int>, c: int, row: int)
    requires OnRow(m, l, v, x, c, row) && row != c
    ensures var l' := MidCells(m, l, v, c, row, row);
      && Sized(m, l') && 0 <= row < |m.col| && l'.down[row] in Column(m, v, c)
      && MidRows(m, l, v, c, l'.down[row]) == l'
      && 0 <= RowsAhead(m, l, v, c, l'.down[row]) < RowsAhead(m, l, v, c, row)
  {
    hide Ring, Consistent, UnlinkAll, Detach, WellFormed, DoneRows, DoneCells, CoverWalk, Row, Column, OnRow, MetRows, ColumnWalk;
    OnRowBasics(m, l, v, x, c, row);
    RowDone(m, l, v, x, c, row);
    MidwayLinks(m, l, v, x, c, DoneRows(m, l, v, c, row) + DoneCells(m, l, row, row));
    ColumnStep(m, l, v, x, c, row);
  }

  lemma CoverEnd(m: Matrix, l: Links, v: set<int>, x: set<int>, c: int)
    requires Consistent(m, l, v, x) && c in x
    ensures c in Column(m, v, c)
    ensures MidRows(m, l, v, c, c) == Covered(m, l, v, c)
  {
    hide Ring, DoneRows, CoverWalk;
    DoneWithin(m, l, v, x, c, c);
  }

  // ---------- Backwards ----------

  lemma RowBack(m: Matrix, l: Links, v: set<int>, x: set<int>, c: int, row: int)
    requires OnRow(m, l, v, x, c, row)
    ensures MidThrough(m, l, v, c, row, row) == MidRows(m, l, v, c, row)
    ensures var l' := MidRows(m, l, v, c, row);
      && Sized(m, l') && 0 <= row < |m.col| && l'.up[row] in Column(m, v, c)
      && MidBack(m, l, v, c, l'.up[row]) == l'
      && (row != c ==> 0 <= RowsBehind(m, l, v, c, l'.up[row]) < RowsBehind(m, l, v, c, row))
  {
    hide Ring, Consistent, UnlinkAll, Detach, WellFormed, DoneRows, DoneCells, CoverWalk, Row, Column, OnRow, MetRows, ColumnWalk;
    OnRowBasics(m, l, v, x, c, row);
    DoneWithin(m, l, v, x, c, row);
    MidwayLinks(m, l, v, x, c, DoneRows(m, l, v, c, row));
    NextPrev(Column(m, v, c), l.down, l.up, row);
    var p := l.up[row];
    OnRowOther(m, l, v, x, c, row, p);
    ColumnStep(m, l, v, x, c, p);
    if p != c { RowDone(m, l, v, x, c, p); }
    UnlinkNone(m, Detach(l, c));
  }

  lemma OnRowOther(m: Matrix, l: Links, v: set<int>, x: set<int>, c: int, row: int, p: int)
    requires OnRow(m, l, v, x, c, row) && p in Column(m, v, c)
    ensures OnRow(m, l, v, x, c, p)
  {
  }

  lemma UnlinkNone(m: Matrix, l: Links)
    ensures UnlinkAll(m, l, []) == l
  {
  }

  lemma RowEnterBack(m: Matrix, l: Links, v: set<int>, x: set<int>, c: int, row: int)
    requires OnRow(m, l, v, x, c, row) && row != c
    ensures IsCell(m, row)
    ensures var l' := MidBack(m, l, v, c, row);
      Sized(m, l') && l'.left[row] in Row(m, row) && MidThrough(m, l, v, c, row, l'.left[row]) == l'
  {
    hide Ring, Consistent, UnlinkAll, Detach, WellFormed, DoneRows, DoneCells, CoverWalk, Row, Column, OnRow;
    OnRowBasics(m, l, v, x, c, row);
    RowDone(m, l, v, x, c, row);
    MidwayLinks(m, l, v, x, c, DoneRows(m, l, v, c, row) + DoneCells(m, l, row, row));
    NextPrev(Row(m, row), l.right, l.left, row);
    ThroughPrev(m, l, v, x, c, row, l.left[row]);
  }

  lemma ThroughPrev(m: Matrix, l: Links, v: set<int>, x: set<int>, c: int, row: int, q: int)
    requires OnRow(m, l, v, x, c, row) && row != c && q in Row(m, row)
    ensures Sized(m, l) && 0 <= q < |m.col| && l.right[q] in Row(m, row)
    ensures MidThrough(m, l, v, c, row, q) == MidCells(m, l, v, c, row, l.right[q])
  {
    hide Ring, Consistent, UnlinkAll, Detach, WellFormed, DoneRows, DoneCells, CoverWalk, Column, OnRow;
    OnRowBasics(m, l, v, x, c, row);
    CellStep(m, l, row, q);
    if q == row {
      assert DoneRows(m, l, v, c, row) + [] == DoneRows(m, l, v, c, row);
    } else {
      WithinRow(m, l, v, x, c, row, q);
    }
  }

  lemma CellBack(m: Matrix, l: Links, v: set<int>, x: set<int>, c: int, row: int, j: int)
    requires OnRow(m, l, v, x, c, row) && row != c && j in Row(m, row) && j != row
    ensures IsCell(m, j) && IsHead(m, m.col[j])
    ensures var l' := MidThrough(m, l, v, c, row, j);
      && Sized(m, l') && 0 <= l'.up[j] < |m.col| && 0 <= l'.down[j] < |m.col| && l'.up[j] != j && l'.down[j] != j
      && l'.left[j] in Row(m, row)
      && MidThrough(m, l, v, c, row, l'.left[j]) ==
           l'.(up := l'.up[l'.down[j] := j], down := l'.down[l'.up[j] := j],
               size := l'.size[m.col[j] := l'.size[m.col[j]] + 1])
      && 0 <= CellsBehind(m, l, row, l'.left[j]) < CellsBehind(m, l, row, j)
  {
    hide Ring, Consistent, UnlinkAll, Detach, WellFormed, DoneRows, DoneCells, CoverWalk, Row, Column, OnRow, CellsBehind, CellsAhead;
    OnRowBasics(m, l, v, x, c, row);
    var p := DoneRows(m, l, v, c, row) + DoneCells(m, l, row, j);
    WithinRow(m, l, v, x, c, row, j);
    RelinkNext(m, l, v, x, c, p, j);
    MidwayLinks(m, l, v, x, c, p + [j]);
    NextPrev(Row(m, row), l.right, l.left, j);
    var q := l.left[j];
    ThroughPrev(m, l, v, x, c, row, q);
    CellStep(m, l, row, q);
  }

  lemma UncoverEnd(m: Matrix, l: Links, v: set<int>, x: set<int>, c: int)
    requires Consistent(m, l, v, x) && c in x
    ensures var l' := Detach(l, c);
      && Sized(m, l') && 0 <= c < |m.col|
      && 0 <= l'.left[c] < |m.col| && 0 <= l'.right[c] < |m.col| && l'.left[c] != c && l'.right[c] != c
      && l == l'.(left := l'.left[l'.right[c] := c], right := l'.right[l'.left[c] := c])
  {
    hide Ring;
    HeadNeighbours(m, l, x, c);
    AttachUndoes(m, l, x, c);
  }
}
