/** The dancing-links solver: covering and uncovering columns in place, and the search. */
module DancingLinks {
  import opened Basics
  import opened Rings
  import opened Torus
  import opened ExactCover
  import opened CoverSteps
  import opened RowSteps
  import opened SudokuGrid
  import opened SudokuMatrix
  import opened SudokuBuild
  import opened SudokuColumns

  /** Row `10 * cell + value` writes `value` into `cell`. */
  ghost function Write(m: Matrix, board: seq<int>, r: int): seq<int> {
    var id := At(m.row, r);
    Put(board, id / 10, id % 10)
  }

  ghost function WriteAll(m: Matrix, board: seq<int>, rows: seq<int>): seq<int> {
    if rows == [] then board
    else Write(m, WriteAll(m, board, rows[..|rows| - 1]), rows[|rows| - 1])
  }

  /** Names below 100 are cells, the others end in a value; every row has both kinds. */
  ghost predicate Labelled(m: Matrix, name: seq<int>, cells: nat) {
    && |name| == |m.col| == |m.row|
    && (forall k {:trigger IsCell(m, k)} :: IsCell(m, k) ==>
          && 0 <= name[k] && 0 <= m.row[k] / 10 < cells
          && (if name[k] < 100 then name[k] == m.row[k] / 10 else name[k] % 10 == m.row[k] % 10))
    && (forall r {:trigger BothKinds(m, name, r)} :: IsCell(m, r) ==> BothKinds(m, name, r))
  }

  ghost predicate BothKinds(m: Matrix, name: seq<int>, r: int) {
    && (exists k :: k in Row(m, r) && 0 <= k < |name| && name[k] < 100)
    && (exists k :: k in Row(m, r) && 0 <= k < |name| && name[k] >= 100)
  }

  ghost function Ids(m: Matrix, rows: seq<int>): set<int> { set r | r in rows :: At(m.row, r) }

  lemma ChosenIds(m: Matrix, before: seq<int>, row: int, stack: seq<int>)
    requires before + [row] <= stack
    ensures before <= stack
    ensures Ids(m, stack[|before|..]) == Ids(m, stack[|before| + 1..]) + {At(m.row, row)}
  {
    assert stack[|before|] == (before + [row])[|before|] == row;
    assert stack[|before|..] == [row] + stack[|before| + 1..];
  }

  /** None of the given rows is the first row of an exact cover. */
  ghost predicate NoneStarts(m: Matrix, x: set<int>, rows: seq<int>) {
    forall r <- rows :: !Solvable(m, x - RowColumns(m, At(m.row, r)))
  }

  lemma NoneTried(m: Matrix, x: set<int>)
    ensures NoneStarts(m, x, [])
  {
  }

  lemma NoneSnoc(m: Matrix, x: set<int>, rows: seq<int>, row: int)
    requires NoneStarts(m, x, rows) && !Solvable(m, x - RowColumns(m, At(m.row, row)))
    ensures NoneStarts(m, x, rows + [row])
  {
  }

  lemma NoneLeft(m: Matrix, l: Links, v: set<int>, x: set<int>, c: int)
    requires Consistent(m, l, v, x) && c in x && NoneStarts(m, x, ColumnWalk(m, l, v, c))
    ensures !Solvable(m, x)
  {
    hide Solvable, RowColumns, ColumnWalk, Consistent;
    SomeRowStarts(m, l, v, x, c);
  }

  lemma BranchStart(m: Matrix, l: Links, v: set<int>, x: set<int>, c: int)
    requires Consistent(m, l, v, x) && c in x
    ensures OnRow(m, l, v, x, c, c)
  {
  }

  lemma RowPositionEnd(m: Matrix, l: Links, v: set<int>, x: set<int>, row: int)
    requires Choosing(m, l, v, x, row)
    ensures var js := RowWalk(m, l, row);
      Consistent(m, LinksAfter(m, l, v, js), CellsAfter(m, v, js), x - ColumnsOf(m, js))
  {
    Stretch(m, l, v, x, row, RowWalk(m, l, row));
  }

  /** The headers met when the loop over them stands on `c`. */
  ghost function MetHeads(l: Links, x: set<int>, c: int): seq<int> { WalkTo({0} + x, l.right, l.left, 0, c) }

  ghost function AllHeads(l: Links, x: set<int>): seq<int> { Walk({0} + x, l.right, l.left, 0) }

  lemma HeadStep(m: Matrix, l: Links, v: set<int>, x: set<int>, c: int)
    requires Consistent(m, l, v, x) && c in {0} + x
    ensures Sized(m, l) && 0 <= c < |m.col|
    ensures l.right[c] in {0} + x && 0 <= l.right[c] < |m.col|
    ensures MetHeads(l, x, l.right[c]) == if c == 0 then [] else MetHeads(l, x, c) + [c]
    ensures c != 0 ==> MetHeads(l, x, c) + [c] <= AllHeads(l, x)
    ensures MetHeads(l, x, 0) == AllHeads(l, x) && forall d :: d in AllHeads(l, x) <==> d in x
    ensures forall d <- x :: 0 < d < |m.col|
    ensures c == 0 && x != {} ==> l.right[c] in x
  {
    hide Ring, Walk, WalkTo;
    var s := {0} + x;
    NextPrev(s, l.right, l.left, c);
    WalkNext(s, l.right, l.left, 0, c);
    WalkMembers(s, l.right, l.left, 0);
    forall d | d in x ensures 0 < d < |m.col| && d in s { assert IsHead(m, d); }
    if c == 0 && x != {} { Inhabited(x); }
  }

  lemma RowReady(m: Matrix, l: Links, v: set<int>, x: set<int>, r: int)
    requires Consistent(m, l, v, x) && IsCell(m, r)
    ensures WellFormed(m) && Sized(m, l) && RowOk(m, l, r) && r in Row(m, r)
  {
    hide Ring;
    assert RowOk(m, l, r);
  }

  /** A reader at `n` has looked at `r` and everything from there up to `n`. */
  ghost predicate Noted(m: Matrix, l: Links, name: seq<int>, r: int, n: int, cell: int, val: int) {
    forall k :: (k == r || k in DoneCells(m, l, r, n)) && 0 <= k < |name| ==>
      if name[k] < 100 then cell != -1 else val != -1
  }

  lemma SameRow(m: Matrix, r: int, n: int)
    requires n in Row(m, r) && |m.row| == |m.col|
    ensures 0 <= r < |m.row| && IsCell(m, n) && m.row[n] == m.row[r]
  {
  }

  lemma NotedStep(m: Matrix, l: Links, name: seq<int>, r: int, n: int, cell: int, val: int, started: bool)
    requires WellFormed(m) && IsCell(m, r) && RowOk(m, l, r) && n in Row(m, r) && |name| == |m.col|
    requires if started then n != r && Noted(m, l, name, r, n, cell, val) else n == r
    requires IsCell(m, n) && name[n] >= 0
    ensures 0 <= n < |l.right|
    ensures Noted(m, l, name, r, l.right[n], if name[n] < 100 then name[n] else cell, if name[n] < 100 then val else name[n] % 10)
  {
    hide Ring, DoneCells, RowWalk;
    CellStep(m, l, r, n);
  }

  /** Once round the row, both parts have been found. */
  lemma RoundOnce(m: Matrix, l: Links, name: seq<int>, r: int, cell: int, val: int)
    requires WellFormed(m) && IsCell(m, r) && RowOk(m, l, r) && |name| == |m.col| && BothKinds(m, name, r)
    requires Noted(m, l, name, r, r, cell, val)
    ensures cell != -1 && val != -1
  {
    hide Ring, DoneCells, RowWalk;
    RowWalkMembers(m, l, r);
    CellStep(m, l, r, r);
    forall k | k in Row(m, r) ensures k == r || k in DoneCells(m, l, r, r) { assert k == r || Mate(m, r, k); }
  }

  lemma HeadOfKey(m: Matrix, name: seq<int>, columns: map<int, int>, key: int)
    requires Indexed(m, name, columns) && key in columns
    ensures IsHead(m, columns[key]) && m.heads < |m.col| && |name| == |m.col|
  {
  }

  lemma CellFresh(m: Matrix, l: Links, c: int, id: int)
    requires Whole(m, l) && IsHead(m, c) && FreshRow(m, id)
    ensures Sized(m, l) && 0 <= l.up[c] < |m.col|
    ensures Whole(AddCell(m, c, id), PutUp(Grow(l), c, |m.col|))
    ensures Row(AddCell(m, c, id), |m.col|) == {|m.col|}
    ensures forall r {:trigger Row(m, r)} :: IsCell(m, r) ==> Row(AddCell(m, c, id), r) == Row(m, r)
  {
    CellAdded(m, l, c, id);
  }

  lemma NoRows(m: Matrix, l: Links, name: seq<int>, columns: map<int, int>, b: seq<int>)
    requires Whole(m, l) && |m.col| == m.heads + 1 && Indexed(m, name, columns)
    ensures RowsFor(m, name, b, 0)
  {
    hide HasKey;
    forall id | Candidate(b, id) ensures id >= 0 { CandidateRange(b, id); }
  }

  lemma NoCandidate(b: seq<int>, id: int)
    requires id % 10 == 0
    ensures !Candidate(b, id)
  {
  }

  lemma CandidateIff(b: seq<int>, c: int, v: int)
    requires IsBoard(b) && 0 <= c < kCells && 1 <= v <= 9
    ensures Candidate(b, 10 * c + v) <==>
      (b[c] == 0 && !(Used(b, 0, Unit(0, c), v) || Used(b, 1, Unit(1, c), v) || Used(b, 2, Unit(2, c), v)))
    ensures IsUnitKey(0, Unit(0, c), v) && IsUnitKey(1, Unit(1, c), v) && IsUnitKey(2, Unit(2, c), v)
  {
    UnitRange(0, c);
    UnitRange(1, c);
    UnitRange(2, c);
    hide Unit, Used;
    var id := 10 * c + v;
    assert id / 10 == c && id % 10 == v;
  }

  class SudokuSolver {
    var left: seq<int>
    var right: seq<int>
    var up: seq<int>
    var down: seq<int>
    var size: seq<int>
    var col: seq<int>
    var name: seq<int>
    var columns: map<int, int>
    var stack: seq<int>
    const inout: array<int>
    ghost var m: Matrix

    ghost function L(): Links
      reads this
    {
      Links(left, right, up, down, size)
    }

    ghost predicate Good(v: set<int>, x: set<int>)
      reads this
    {
      col == m.col && Consistent(m, L(), v, x)
    }

    // ---------- Building the matrix ----------

    /** The matrix so far is whole and its columns are indexed by name. */
    ghost predicate Building()
      reads this
    {
      col == m.col && Whole(m, L()) && Indexed(m, name, columns)
    }

    /** Builds the matrix of the board; the board itself is not changed. */
    constructor (board: array<int>)
      requires IsBoard(board[..])
      ensures inout == board && stack == []
      ensures col == m.col && Whole(m, L()) && Represents(m, name, columns, board[..])
      ensures |col| <= kMaxNodes
    {
      inout := board;
      left, right, up, down, size := [0], [0], [0], [0], [0];
      col, name, columns, stack := [0], [0], map[], [];
      m := Matrix(0, [0], [0]);
      new;
      EmptyWhole(m, L());
      var used := MarkUsed();
      OpenColumns(used);
      AddRows(used);
    }

    /** The values on the board, by the name of the column they close. */
    method MarkUsed() returns (used: set<int>)
      requires IsBoard(inout[..])
      ensures forall k, i, v {:trigger Key(k, i, v)} :: IsUnitKey(k, i, v) ==> (Key(k, i, v) in used <==> Used(inout[..], k, i, v))
    {
      used := {};
      ghost var b := inout[..];
      for c := 0 to kCells
        invariant forall key :: key in used <==> MarkedTo(b, key, c)
      {
        var val := inout[c];
        ghost var before := used;
        used := used + {Key(0, Unit(0, c), val), Key(1, Unit(1, c), val), Key(2, Unit(2, c), val)};
        forall key ensures key in used <==> MarkedTo(b, key, c + 1) { MarkedStep(b, key, c); }
      }
      forall k, i, v | IsUnitKey(k, i, v) ensures Key(k, i, v) in used <==> Used(b, k, i, v) { MarkedIff(b, k, i, v); }
    }

    method AppendColumn(n: int)
      requires Building() && |col| == m.heads + 1 && n !in columns && |col| < kMaxNodes
      modifies this`left, this`right, this`up, this`down, this`size, this`col, this`name, this`columns, this`m
      ensures Building() && m == AddHead(old(m))
      ensures name == old(name) + [n] && columns == old(columns)[n := |old(col)|]
    {
      hide Whole, Indexed;
      HeadAdded(m, L());
      IndexedAdd(m, name, columns, n);
      ghost var l := L();
      var c := |col|;
      left, right, up, down, size := left + [c], right + [c], up + [c], down + [c], size + [0];
      col, name := col + [c], name + [n];
      m := AddHead(m);
      assert L() == Grow(l);
      left := left[c := left[0]];
      right := right[c := 0];
      right := right[left[0] := c];
      left := left[0 := c];
      columns := columns[n := c];
    }

    /** One header for every empty cell and for every value a unit still needs. */
    method OpenColumns(used: set<int>)
      requires Building() && |col| == 1 && m.heads == 0 && columns == map[] && IsBoard(inout[..])
      requires forall k, i, v {:trigger Key(k, i, v)} :: IsUnitKey(k, i, v) ==> (Key(k, i, v) in used <==> Used(inout[..], k, i, v))
      modifies this`left, this`right, this`up, this`down, this`size, this`col, this`name, this`columns, this`m
      ensures Building() && |col| == m.heads + 1 <= 325
      ensures forall key :: key in columns <==> OpenKey(inout[..], key)
    {
      hide Whole, Indexed, OpenKey, UnitKeyBefore, Rank, Key, Used;
      ghost var b := inout[..];
      for c := 0 to kCells
        invariant Building() && |col| == m.heads + 1 <= 1 + c && CellKeysTo(b, columns, c)
      {
        if inout[c] == 0 { AppendColumn(c); }
      }
      UnitKeysStart(b, columns);
      for i := 0 to 9
        invariant Building() && |col| == m.heads + 1 <= 82 + 27 * i && UnitKeysTo(b, columns, 27 * i)
      {
        RankAt(i);
        for v := 1 to 10
          invariant Building() && |col| == m.heads + 1 <= 82 + Rank(0, i, v) && UnitKeysTo(b, columns, Rank(0, i, v))
        {
          RankIs(i, v);
          OpenUnit(0, i, v, used);
          OpenUnit(1, i, v, used);
          OpenUnit(2, i, v, used);
        }
      }
      UnitKeysEnd(b, columns);
    }

    method OpenUnit(k: int, i: int, v: int, used: set<int>)
      requires Building() && |col| == m.heads + 1 < kMaxNodes && IsUnitKey(k, i, v)
      requires Key(k, i, v) in used <==> Used(inout[..], k, i, v)
      requires UnitKeysTo(inout[..], columns, Rank(k, i, v))
      modifies this`left, this`right, this`up, this`down, this`size, this`col, this`name, this`columns, this`m
      ensures Building() && |col| == m.heads + 1 <= |old(col)| + 1
      ensures UnitKeysTo(inout[..], columns, Rank(k, i, v) + 1)
    {
      hide Whole, Indexed, UnitKeysTo, Used, Rank, Key;
      UnitKeysStep(inout[..], columns, k, i, v,
        if NeedsValue(inout[..], k, i, v) then columns[Key(k, i, v) := |col|] else columns, |col|);
      if Key(k, i, v) !in used { AppendColumn(Key(k, i, v)); }
    }

    /** A new node at the foot of column `key`, alone in its row. */
    method NewRow(key: int, ghost id: int) returns (r: int)
      requires Building() && key in columns && |col| < kMaxNodes
      requires FreshRow(m, id)
      modifies this`left, this`right, this`up, this`down, this`size, this`col, this`name, this`m
      ensures r == |old(col)| && Building() && IsCell(m, r) && Row(m, r) == {r}
      ensures m == AddCell(old(m), columns[key], id) && name == old(name) + [key]
      ensures forall i {:trigger FreshRow(m, i)} :: i != id && FreshRow(old(m), i) ==> FreshRow(m, i)
      ensures forall q {:trigger Row(old(m), q)} :: IsCell(old(m), q) ==> Row(m, q) == Row(old(m), q)
    {
      hide Whole, Row, WellFormed, FreshRow, Indexed;
      WholeFits(m, L());
      HeadOfKey(m, name, columns, key);
      ghost var l := L();
      var c := columns[key];
      CellFresh(m, l, c, id);
      IndexedGrows(m, name, columns, c, id, key);
      forall i | i != id && FreshRow(m, i) ensures FreshRow(AddCell(m, c, id), i) { FreshGrows(m, c, id, i); }
      r := |col|;
      left, right, up, down, size := left + [r], right + [r], up + [r], down + [r], size + [0];
      col, name := col + [c], name + [key];
      m := AddCell(m, c, id);
      assert L() == Grow(l);
      up := up[r := up[c]];
      down := down[r := c];
      down := down[up[c] := r];
      up := up[c := r];
      size := size[c := size[c] + 1];
    }

    /** Puts node `j`, alone so far, at the end of the row that starts at `r`. */
    method PutLeft(r: int, j: int)
      requires col == m.col && Whole(m, L()) && IsCell(m, r) && IsCell(m, j) && Row(m, j) == {j}
      requires forall n <- Row(m, r) :: r <= n < j && n < |col| && col[n] != col[j]
      modifies this`left, this`right, this`m
      ensures col == m.col && Whole(m, L()) && |old(m).row| == |col| && m == Join(old(m), r, j)
      ensures Row(m, r) == Row(old(m), r) + {j}
      ensures forall q {:trigger Row(old(m), q)} :: IsCell(m, q) && q != j && q !in Row(old(m), r) ==> Row(m, q) == Row(old(m), q)
    {
      hide Whole, Row;
      WholeFits(m, L());
      RowJoined(m, L(), r, j);
      m := Join(m, r, j);
      left := left[j := left[r]];
      right := right[j := r];
      right := right[left[r] := j];
      left := left[r := j];
    }

    /** The four nodes of the candidate that writes `v` into cell `c`. */
    method AddCandidate(c: int, v: int)
      requires Building() && IsBoard(inout[..]) && 1 <= v <= 9 && Candidate(inout[..], 10 * c + v)
      requires RowsFor(m, name, inout[..], 10 * c + v) && |col| + 4 <= kMaxNodes
      requires forall key :: key in columns <==> OpenKey(inout[..], key)
      modifies this`left, this`right, this`up, this`down, this`size, this`col, this`name, this`m
      ensures Building() && RowsFor(m, name, inout[..], 10 * c + v + 1) && |col| == |old(col)| + 4
    {
      hide Whole, OpenKey, Candidate, RowKeys, WellFormed, RowsFor, Indexed, Row, FreshRow, Unit, Key;
      ghost var id, b, m0, name0 := 10 * c + v, inout[..], m, name;
      WholeFits(m, L());
      CandidateReady(m, name, columns, b, c, v);
      ghost var keys := RowKeys(id);
      ghost var cs := [columns[keys[0]], columns[keys[1]], columns[keys[2]], columns[keys[3]]];
      RowsAdd(m0, name0, columns, b, id, cs);
      var n0 := NewRow(c, id);
      var nr := NewRow(Key(0, Unit(0, c), v), -1);
      var nc := NewRow(Key(1, Unit(1, c), v), -2);
      var nb := NewRow(Key(2, Unit(2, c), v), -3);
      PutLeft(n0, nr);
      PutLeft(n0, nc);
      PutLeft(n0, nb);
      assert m.row == m0.row + [id, id, id, id] && m.col == m0.col + cs;
      assert name == name0 + keys;
    }

    /** Four nodes for every empty cell and every value that none of its units has yet. */
    method AddRows(used: set<int>)
      requires Building() && |col| == m.heads + 1 <= 325 && IsBoard(inout[..])
      requires forall k, i, v {:trigger Key(k, i, v)} :: IsUnitKey(k, i, v) ==> (Key(k, i, v) in used <==> Used(inout[..], k, i, v))
      requires forall key :: key in columns <==> OpenKey(inout[..], key)
      modifies this`left, this`right, this`up, this`down, this`size, this`col, this`name, this`m
      ensures Building() && RowsFor(m, name, inout[..], 10 * kCells) && |col| <= kMaxNodes
    {
      hide Whole, OpenKey, Indexed, RowsFor, Unit, Key, Used, Candidate;
      ghost var b := inout[..];
      NoRows(m, L(), name, columns, b);
      for c := 0 to kCells
        invariant Building() && RowsFor(m, name, b, 10 * c) && |col| <= 325 + 36 * c
      {
        NoCandidate(b, 10 * c);
        RowsSkip(m, name, b, 10 * c);
        for v := 1 to 10
          invariant Building() && RowsFor(m, name, b, 10 * c + v) && |col| <= 325 + 36 * c + 4 * (v - 1)
        {
          CandidateIff(b, c, v);
          if inout[c] == 0 &&
             !(Key(0, Unit(0, c), v) in used || Key(1, Unit(1, c), v) in used || Key(2, Unit(2, c), v) in used)
          {
            AddCandidate(c, v);
          } else {
            RowsSkip(m, name, b, 10 * c + v);
          }
        }
      }
    }

    // ---------- Solving ----------

    /** Takes column `c` out of the header ring and its rows out of the other columns. */
    method Cover(c: int, ghost v: set<int>, ghost x: set<int>)
      requires Good(v, x) && c in x
      modifies this`left, this`right, this`up, this`down, this`size
      ensures L() == Covered(m, old(L()), v, c)
      ensures Good(Remaining(m, v, c), x - {c})
    {
      ghost var l := L();
      hide Consistent, Covered, Remaining, MidRows, MidCells, Column, Row, CellsAhead, RowsAhead, WellFormed;
      CoverKeeps(m, l, v, x, c);
      CoverStart(m, l, v, x, c);
      CoverEnd(m, l, v, x, c);
      left := left[right[c] := left[c]];
      right := right[left[c] := right[c]];
      var row := down[c];
      while row != c
        invariant row in Column(m, v, c) && L() == MidRows(m, l, v, c, row)
        decreases RowsAhead(m, l, v, c, row)
      {
        RowEnter(m, l, v, x, c, row);
        var j := right[row];
        while j != row
          invariant j in Row(m, row) && L() == MidCells(m, l, v, c, row, j)
          decreases CellsAhead(m, l, row, j)
        {
          CellForward(m, l, v, x, c, row, j);
          up := up[down[j] := up[j]];
          down := down[up[j] := down[j]];
          size := size[col[j] := size[col[j]] - 1];
          j := right[j];
        }
        RowForward(m, l, v, x, c, row);
        row := down[row];
      }
    }

    /** Undoes `Cover(c)` link for link: `l` is the state before it. */
    method Uncover(c: int, ghost l: Links, ghost v: set<int>, ghost x: set<int>)
      requires col == m.col && Consistent(m, l, v, x) && c in x
      requires L() == Covered(m, l, v, c)
      modifies this`left, this`right, this`up, this`down, this`size
      ensures L() == l
    {
      hide Consistent, Covered, Detach, MidRows, MidCells, MidThrough, Column, Row, CellsBehind, RowsBehind, WellFormed;
      CoverEnd(m, l, v, x, c);
      UncoverEnd(m, l, v, x, c);
      RowBack(m, l, v, x, c, c);
      var row := up[c];
      while row != c
        invariant row in Column(m, v, c) && L() == MidBack(m, l, v, c, row)
        decreases RowsBehind(m, l, v, c, row)
      {
        RowEnterBack(m, l, v, x, c, row);
        var j := left[row];
        while j != row
          invariant j in Row(m, row) && L() == MidThrough(m, l, v, c, row, j)
          decreases CellsBehind(m, l, row, j)
        {
          CellBack(m, l, v, x, c, row, j);
          size := size[col[j] := size[col[j]] + 1];
          up := up[down[j] := j];
          down := down[up[j] := j];
          j := left[j];
        }
        RowBack(m, l, v, x, c, row);
        row := up[row];
      }
      left := left[right[c] := c];
      right := right[left[c] := c];
    }

    /** The column branched on: one of size at most 1, or else a smallest one. */
    method GetMinColumn(ghost v: set<int>, ghost x: set<int>) returns (c: int)
      requires Good(v, x) && x != {}
      ensures c in x && 0 <= c < |size|
      ensures size[c] <= 1 || forall d <- x :: 0 <= d < |size| && size[c] <= size[d]
    {
      hide Consistent, MetHeads, AllHeads;
      HeadStep(m, L(), v, x, 0);
      c := right[0];
      var minSize := size[c];
      if minSize > 1 {
        var cc := right[c];
        HeadStep(m, L(), v, x, c);
        while cc != 0
          invariant cc in {0} + x && c in x && size[c] == minSize
          invariant forall d <- MetHeads(L(), x, cc) :: 0 <= d < |size| && minSize <= size[d]
          decreases |AllHeads(L(), x)| - |MetHeads(L(), x, cc)|
        {
          HeadStep(m, L(), v, x, cc);
          if minSize > size[cc] {
            c := cc;
            minSize := size[cc];
            if minSize <= 1 { break; }
          }
          cc := right[cc];
        }
      }
    }

    /** Covers the columns of the other nodes of a chosen row. */
    method CoverRow(row: int, ghost v: set<int>, ghost x: set<int>)
      requires col == m.col && Choosing(m, L(), v, x, row)
      modifies this`left, this`right, this`up, this`down, this`size
      ensures L() == LinksAfter(m, old(L()), v, RowWalk(m, old(L()), row))
    {
      hide Choosing, Consistent, Covered, Row, LinksAfter, RowWalk, RowMid, RowCells, RowOpen, CellsAhead, Remaining;
      ghost var l := L();
      RowStart(m, l, v, x, row);
      ChoosingBasics(m, l, v, x, row);
      var j := right[row];
      while j != row
        invariant j in Row(m, row) && L() == RowMid(m, l, v, row, j)
        decreases CellsAhead(m, l, row, j)
      {
        RowForwardStep(m, l, v, x, row, j);
        Cover(col[j], RowCells(m, l, v, row, j), RowOpen(m, l, x, row, j));
        j := right[j];
      }
    }

    /** Undoes `CoverRow(row)`, last column first: `l` is the state before it. */
    method UncoverRow(row: int, ghost l: Links, ghost v: set<int>, ghost x: set<int>)
      requires col == m.col && Choosing(m, l, v, x, row)
      requires L() == LinksAfter(m, l, v, RowWalk(m, l, row))
      modifies this`left, this`right, this`up, this`down, this`size
      ensures L() == l
    {
      hide Choosing, Consistent, Covered, Row, LinksAfter, RowWalk, RowMid, RowCells, RowOpen, CellsBehind, Remaining;
      RowBackStart(m, l, v, x, row);
      ChoosingBasics(m, l, v, x, row);
      var j := left[row];
      while j != row
        invariant j in Row(m, row) && L() == RowThrough(m, l, v, row, j)
        decreases CellsBehind(m, l, row, j)
      {
        RowBackStep(m, l, v, x, row, j);
        Uncover(col[j], RowMid(m, l, v, row, j), RowCells(m, l, v, row, j), RowOpen(m, l, x, row, j));
        j := left[j];
      }
    }

    /** Reads the cell and the value off the names in the row of `r`. */
    method ReadRow(r: int, ghost v: set<int>, ghost x: set<int>) returns (cell: int, val: int)
      requires Good(v, x) && Labelled(m, name, inout.Length) && IsCell(m, r)
      ensures cell == m.row[r] / 10 && val == m.row[r] % 10 && 0 <= cell < inout.Length
    {
      hide Ring, DoneCells, Consistent, WellFormed, CellsAhead, CellsBehind, RowWalk, RowOk, Noted, Row, BothKinds;
      cell, val := -1, -1;
      var n := r;
      ghost var started := false;
      RowReady(m, L(), v, x, r);
      while cell == -1 || val == -1
        invariant n in Row(m, r) && -1 <= cell
        invariant cell == -1 || cell == m.row[r] / 10
        invariant val == -1 || val == m.row[r] % 10
        invariant !started ==> n == r
        invariant started ==> Noted(m, L(), name, r, n, cell, val)
        decreases if started then 0 else 1, CellsAhead(m, L(), r, n)
      {
        if started && n == r { RoundOnce(m, L(), name, r, cell, val); }
        InRowIsCell(m, r, n);
        CellStep(m, L(), r, n);
        SameRow(m, r, n);
        NotedStep(m, L(), name, r, n, cell, val, started);
        if name[n] < 100 { cell := name[n]; } else { val := name[n] % 10; }
        n := right[n];
        started := true;
      }
    }

    /** Writes every chosen row into the board. */
    method WriteBoard(ghost v: set<int>, ghost x: set<int>)
      requires Good(v, x) && Labelled(m, name, inout.Length) && forall r <- stack :: IsCell(m, r)
      modifies inout
      ensures inout[..] == WriteAll(m, old(inout[..]), stack)
    {
      for i := 0 to |stack|
        invariant inout[..] == WriteAll(m, old(inout[..]), stack[..i])
      {
        assert stack[i] in stack;
        var cell, val := ReadRow(stack[i], v, x);
        inout[cell] := val;
        assert stack[..i + 1][..i] == stack[..i];
      }
      assert stack[..|stack|] == stack;
    }

    /** Chooses `row` of column `c`, which is covered already, and searches on; gives it up if that fails. */
    method TryRow(row: int, c: int, ghost l: Links, ghost v: set<int>, ghost x: set<int>) returns (ok: bool)
      requires col == m.col && OnRow(m, l, v, x, c, row) && row != c && L() == Covered(m, l, v, c)
      requires Labelled(m, name, inout.Length) && forall r <- stack :: IsCell(m, r)
      modifies this`left, this`right, this`up, this`down, this`size, this`stack, inout
      ensures !ok ==> L() == old(L()) && stack == old(stack) && inout[..] == old(inout[..])
      ensures !ok ==> !Solvable(m, x - RowColumns(m, At(m.row, row)))
      ensures ok ==> old(stack) <= stack && forall r <- stack :: IsCell(m, r)
      ensures ok ==> ExactlyCovers(m, x, Ids(m, stack[|old(stack)|..]))
      ensures ok ==> inout[..] == WriteAll(m, old(inout[..]), stack)
      decreases |x|, 0
    {
      hide Consistent, Covered, Remaining, Labelled, ExactlyCovers, Solvable, Column, Choosing, Row, RowWalk, WriteAll, RowColumns,
        Fits, RowInside, CellsAfter, LinksAfter, ColumnsOf, Ids;
      ghost var lc, vc, xc := L(), Remaining(m, v, c), x - {c};
      ChooseRow(m, l, v, x, c, row);
      stack := stack + [row];
      CoverRow(row, vc, xc);
      RowPositionEnd(m, lc, vc, xc, row);
      SubsetSize(xc - ColumnsOf(m, RowWalk(m, lc, row)), x);
      ok := Solve(CellsAfter(m, vc, RowWalk(m, lc, row)), xc - ColumnsOf(m, RowWalk(m, lc, row)));
      if ok {
        ChosenIds(m, old(stack), row, stack);
        CoverExtends(m, x, Ids(m, stack[|old(stack)| + 1..]), At(m.row, row));
      } else {
        stack := stack[..|stack| - 1];
        UncoverRow(row, lc, vc, xc);
      }
    }

    /** Searches for an exact cover of the uncovered columns. */
    method Solve(ghost v: set<int>, ghost x: set<int>) returns (ok: bool)
      requires Good(v, x) && Labelled(m, name, inout.Length) && forall r <- stack :: IsCell(m, r)
      modifies this`left, this`right, this`up, this`down, this`size, this`stack, inout
      ensures !ok ==> L() == old(L()) && stack == old(stack) && inout[..] == old(inout[..])
      ensures !ok ==> !Solvable(m, x)
      ensures ok ==> old(stack) <= stack && forall r <- stack :: IsCell(m, r)
      ensures ok ==> ExactlyCovers(m, x, Ids(m, stack[|old(stack)|..]))
      ensures ok ==> inout[..] == WriteAll(m, old(inout[..]), stack)
      decreases |x|, 1
    {
      hide Consistent, Covered, Remaining, Labelled, ExactlyCovers, Solvable, Column, MetRows, WriteAll, RowColumns, NoneStarts, ColumnWalk, RowsAhead;
      ghost var l := L();
      NothingOpen(m, l, v, x);
      if left[0] == 0 {
        WriteBoard(v, x);
        assert Ids(m, stack[|stack|..]) == {};
        return true;
      }
      var c := GetMinColumn(v, x);
      Cover(c, v, x);
      BranchStart(m, l, v, x, c);
      BranchStep(m, l, v, x, c, c);
      NoneTried(m, x);
      var row := down[c];
      while row != c
        invariant row in Column(m, v, c) && L() == Covered(m, l, v, c)
        invariant stack == old(stack) && inout[..] == old(inout[..])
        invariant NoneStarts(m, x, MetRows(m, l, v, c, row))
        decreases RowsAhead(m, l, v, c, row)
      {
        ok := TryRow(row, c, l, v, x);
        if ok { return true; }
        NoneSnoc(m, x, MetRows(m, l, v, c, row), row);
        BranchStep(m, l, v, x, c, row);
        row := down[row];
      }
      NoneLeft(m, l, v, x, c);
      Uncover(c, l, v, x);
      return false;
    }
  }

  // ---------- The whole puzzle ----------

  lemma NamesOf(b: seq<int>, id: int, name: int)
    requires Candidate(b, id) && HasKey(id, name)
    ensures 0 <= name && 0 <= id / 10 < kCells
    ensures if name < 100 then name == id / 10 else name % 10 == id % 10
  {
    hide Used;
    var c := id / 10;
    forall k | 0 <= k < 3 ensures Key(k, Unit(k, c), id % 10) >= 100 && Key(k, Unit(k, c), id % 10) % 10 == id % 10 {
      UnitRange(k, c);
      KeyAbove(k, Unit(k, c), id % 10);
    }
    hide Unit, Key;
  }

  lemma BothKindsOf(m: Matrix, name: seq<int>, columns: map<int, int>, b: seq<int>, r: int)
    requires Represents(m, name, columns, b) && IsCell(m, r)
    ensures BothKinds(m, name, r)
  {
    hide Used;
    var id := m.row[r];
    assert IsHead(m, m.col[r]);
    assert Candidate(b, id);
    CandidateRange(b, id);
    var c, key := id / 10, Key(0, Unit(0, id / 10), id % 10);
    UnitRange(0, c);
    KeyAbove(0, Unit(0, c), id % 10);
    hide Unit, Key, Candidate;
    assert HasKey(id, c) && HasKey(id, key);
    assert HasNode(m, name, id, c) && HasNode(m, name, id, key);
    var n :| IsCell(m, n) && n < |m.row| && n < |name| && m.row[n] == id && name[n] == c;
    var k :| IsCell(m, k) && k < |m.row| && k < |name| && m.row[k] == id && name[k] == key;
    assert n in Row(m, r) && k in Row(m, r);
  }

  lemma LabelledOf(m: Matrix, name: seq<int>, columns: map<int, int>, b: seq<int>)
    requires Represents(m, name, columns, b)
    ensures Labelled(m, name, kCells)
  {
    hide HasKey, Candidate, BothKinds;
    forall k | IsCell(m, k)
      ensures 0 <= name[k] && 0 <= m.row[k] / 10 < kCells
      ensures if name[k] < 100 then name[k] == m.row[k] / 10 else name[k] % 10 == m.row[k] % 10
    {
      assert IsHead(m, m.col[k]);
      NamesOf(b, m.row[k], name[k]);
    }
    forall r | IsCell(m, r) ensures BothKinds(m, name, r) { BothKindsOf(m, name, columns, b, r); }
  }

  /** What is on the board after the chosen rows are written. */
  lemma {:induction false} WrittenAt(m: Matrix, board: seq<int>, rows: seq<int>, c: int)
    requires 0 <= c < |board|
    ensures |WriteAll(m, board, rows)| == |board|
    ensures (forall r <- rows :: At(m.row, r) / 10 != c) ==> WriteAll(m, board, rows)[c] == board[c]
    ensures (exists r :: r in rows && At(m.row, r) / 10 == c) ==>
      exists r :: r in rows && At(m.row, r) / 10 == c && WriteAll(m, board, rows)[c] == At(m.row, r) % 10
  {
    if rows != [] {
      var init, last := rows[..|rows| - 1], rows[|rows| - 1];
      WrittenAt(m, board, init, c);
      assert forall r <- init :: r in rows;
      assert last in rows;
      if At(m.row, last) / 10 != c {
        assert WriteAll(m, board, rows)[c] == WriteAll(m, board, init)[c];
        if r :| r in rows && At(m.row, r) / 10 == c {
          assert r in init;
        }
      }
    }
  }

  lemma WrittenPlaced(m: Matrix, board: seq<int>, rows: seq<int>)
    requires IsBoard(board) && FillsExactly(board, Ids(m, rows))
    ensures Placed(board, Ids(m, rows), WriteAll(m, board, rows))
  {
    var ids, g := Ids(m, rows), WriteAll(m, board, rows);
    WrittenAt(m, board, rows, 0);
    forall c | 0 <= c < kCells && board[c] != 0 ensures g[c] == board[c] {
      WrittenAt(m, board, rows, c);
      forall r | r in rows ensures At(m.row, r) / 10 != c { assert Candidate(board, At(m.row, r)); }
    }
    forall id | id in ids && 0 <= id / 10 < |g| ensures g[id / 10] == id % 10 {
      WrittenAt(m, board, rows, id / 10);
      var q :| q in rows && At(m.row, q) == id;
      var r :| r in rows && At(m.row, r) / 10 == id / 10 && g[id / 10] == At(m.row, r) % 10;
      assert At(m.row, r) in ids;
    }
  }

  const kNoSolution := "NoSolution"

  /** The clues of a puzzle. */
  ghost predicate Clues(puzzle: string, b: seq<int>) {
    |b| == |puzzle| && forall c :: 0 <= c < |puzzle| ==> b[c] == puzzle[c] as int - '0' as int
  }

  ghost predicate Readable(puzzle: string) { forall c :: 0 <= c < |puzzle| ==> '0' <= puzzle[c] <= '9' }

  /** Completes the board in place, or leaves it alone if its clues have no completion. */
  method SolveBoard(board: array<int>) returns (ok: bool)
    requires IsBoard(board[..])
    modifies board
    ensures ok <==> exists g :: ValidGrid(g) && Extends(g, old(board[..]))
    ensures ok ==> ValidGrid(board[..]) && Extends(board[..], old(board[..]))
    ensures !ok ==> board[..] == old(board[..])
  {
    hide Whole, Represents, Consistent, Labelled, ValidGrid, Extends, ExactlyCovers, Solvable, WriteAll;
    ghost var b := board[..];
    var s := new SudokuSolver(board);
    ghost var m, name, columns := s.m, s.name, s.columns;
    WholeConsistent(m, s.L());
    LabelledOf(m, name, columns, b);
    SolvableIff(m, name, columns, b);
    ok := s.Solve(Cells(m), Heads(m));
    if ok {
      assert s.stack[0..] == s.stack;
      Solved(m, name, columns, b, s.stack, board[..]);
    }
  }

  /** A puzzle is answered with a completion of its clues if it has one, and with the fixed refusal otherwise. */
  method SolveSudoku(puzzle: string) returns (result: string)
    requires |puzzle| == kCells
    ensures (result != kNoSolution) <==> (Readable(puzzle) && exists b, g :: Clues(puzzle, b) && ValidGrid(g) && Extends(g, b))
    ensures result != kNoSolution ==> exists b, g :: Clues(puzzle, b) && ValidGrid(g) && Extends(g, b) && Clues(result, g)
  {
    hide ValidGrid, Extends;
    result := kNoSolution;
    var board := new int[kCells](_ => 0);
    var valid := true;
    for i := 0 to kCells
      invariant forall c :: 0 <= c < i ==> board[c] == puzzle[c] as int - '0' as int
      invariant valid <==> forall c :: 0 <= c < i ==> 0 <= board[c] <= 9
    {
      board[i] := puzzle[i] as int - '0' as int;
      valid := valid && 0 <= board[i] <= 9;
    }
    ghost var b := board[..];
    assert Clues(puzzle, b);
    assert forall other :: Clues(puzzle, other) ==> other == b;
    assert valid <==> Readable(puzzle);
    if valid {
      var ok := SolveBoard(board);
      if ok {
        GridOf(board[..]);
        result := Render(board);
        assert |result| == kCells;
      }
    }
  }

  method Render(board: array<int>) returns (result: string)
    requires IsGrid(board[..])
    ensures Clues(result, board[..])
  {
    result := "";
    for i := 0 to kCells
      invariant |result| == i && forall c :: 0 <= c < i ==> board[c] == result[c] as int - '0' as int
    {
      assert board[i] == board[..][i];
      result := result + [(board[i] + '0' as int) as char];
    }
  }

  lemma Solved(m: Matrix, name: seq<int>, columns: map<int, int>, b: seq<int>, rows: seq<int>, g: seq<int>)
    requires IsBoard(b) && Represents(m, name, columns, b) && ExactlyCovers(m, Heads(m), Ids(m, rows))
    requires g == WriteAll(m, b, rows)
    ensures ValidGrid(g) && Extends(g, b)
  {
    CoverFills(m, name, columns, b, Ids(m, rows));
    WrittenPlaced(m, b, rows);
    FillingSolves(b, Ids(m, rows), g);
  }
}
