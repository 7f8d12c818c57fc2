/** The toroidal matrix of the exact-cover solver, and what covering a column does to its links. */
module Torus {
  import opened Basics
  import opened Rings

  /**
   * What stays fixed while solving. Node 0 is the root, nodes 1..heads are the column headers and
   * later nodes are cells; `col` is the header of a node and `row` names the row a cell is in.
   */
  datatype Matrix = Matrix(heads: nat, col: seq<int>, row: seq<int>)

  /** The pointers of all nodes and the sizes of the columns. */
  datatype Links = Links(left: seq<int>, right: seq<int>, up: seq<int>, down: seq<int>, size: seq<int>)

  predicate IsHead(m: Matrix, c: int) { 1 <= c <= m.heads }
  predicate IsCell(m: Matrix, n: int) { m.heads < n < |m.col| }

  ghost predicate WellFormed(m: Matrix) {
    && |m.row| == |m.col| && m.heads < |m.col|
    && (forall c {:trigger IsHead(m, c)} :: IsHead(m, c) ==> m.col[c] == c)
    && (forall n {:trigger IsCell(m, n)} :: IsCell(m, n) ==> IsHead(m, m.col[n]))
    && (forall a, b {:trigger IsCell(m, a), IsCell(m, b)} ::
          IsCell(m, a) && IsCell(m, b) && m.row[a] == m.row[b] && m.col[a] == m.col[b] ==> a == b)
  }

  /** The ring of column `c` when the cells `v` are linked in. */
  ghost function Column(m: Matrix, v: set<int>, c: int): set<int> {
    {c} + set n | n in v && IsCell(m, n) && m.col[n] == c
  }

  /** The ring of the row of cell `r`. */
  ghost function Row(m: Matrix, r: int): set<int> {
    set n | 0 <= n < |m.col| && IsCell(m, n) && n < |m.row| && r < |m.row| && 0 <= r && m.row[n] == m.row[r]
  }

  ghost predicate Sized(m: Matrix, l: Links) {
    |l.left| == |l.right| == |l.up| == |l.down| == |l.size| == |m.col|
  }

  ghost predicate ColumnOk(m: Matrix, l: Links, v: set<int>, c: int) {
    Ring(Column(m, v, c), l.down, l.up) && 0 <= c < |l.size| && l.size[c] == |Column(m, v, c)| - 1
  }

  ghost predicate RowOk(m: Matrix, l: Links, r: int) { Ring(Row(m, r), l.right, l.left) }

  /** Columns and rows are rings; the cells `v` are those linked into their columns. */
  ghost predicate Threaded(m: Matrix, l: Links, v: set<int>) {
    && Sized(m, l)
    && (forall n :: n in v ==> IsCell(m, n))
    && (forall c {:trigger ColumnOk(m, l, v, c)} :: IsHead(m, c) ==> ColumnOk(m, l, v, c))
    && (forall r {:trigger RowOk(m, l, r)} :: IsCell(m, r) ==> RowOk(m, l, r))
  }

  /** The uncovered headers `x` form a ring with the root. */
  ghost predicate Headed(m: Matrix, l: Links, x: set<int>) {
    && (forall c :: c in x ==> IsHead(m, c))
    && Ring({0} + x, l.right, l.left)
  }

  // ---------- Taking one node out and putting it back ----------

  ghost function At(s: seq<int>, i: int): int { if 0 <= i < |s| then s[i] else 0 }
  ghost function Put(s: seq<int>, i: int, x: int): seq<int> { if 0 <= i < |s| then s[i := x] else s }

  ghost function Unlink(m: Matrix, l: Links, j: int): Links {
    var c := At(m.col, j);
    l.(up := Put(l.up, At(l.down, j), At(l.up, j)),
       down := Put(l.down, At(l.up, j), At(l.down, j)),
       size := Put(l.size, c, At(l.size, c) - 1))
  }

  ghost function Relink(m: Matrix, l: Links, j: int): Links {
    var c := At(m.col, j);
    l.(up := Put(l.up, At(l.down, j), j),
       down := Put(l.down, At(l.up, j), j),
       size := Put(l.size, c, At(l.size, c) + 1))
  }

  ghost function Detach(l: Links, c: int): Links {
    l.(left := Put(l.left, At(l.right, c), At(l.left, c)),
       right := Put(l.right, At(l.left, c), At(l.right, c)))
  }

  ghost function Attach(l: Links, c: int): Links {
    l.(left := Put(l.left, At(l.right, c), c),
       right := Put(l.right, At(l.left, c), c))
  }

  /** Neighbours of a linked cell lie in its own column, and are not the cell. */
  lemma CellNeighbours(m: Matrix, l: Links, v: set<int>, j: int)
    requires WellFormed(m) && Threaded(m, l, v) && j in v
    ensures IsCell(m, j) && IsHead(m, m.col[j])
    ensures var s := Column(m, v, m.col[j]);
      && j in s && l.up[j] in s && l.down[j] in s && l.up[j] != j && l.down[j] != j
      && l.up[l.down[j]] == j && l.down[l.up[j]] == j
      && 0 <= l.up[j] < |m.col| && 0 <= l.down[j] < |m.col|
      && Ring(s - {j}, l.down[l.up[j] := l.down[j]], l.up[l.down[j] := l.up[j]])
      && l.size[m.col[j]] == |s| - 1
  {
    var c := m.col[j];
    assert ColumnOk(m, l, v, c);
    var s := Column(m, v, c);
    hide Ring;
    RingRemove(s, l.down, l.up, j, c);
    NextPrev(s, l.down, l.up, j);
  }

  lemma RelinkUndoes(m: Matrix, l: Links, v: set<int>, j: int)
    requires WellFormed(m) && Threaded(m, l, v) && j in v
    ensures Relink(m, Unlink(m, l, j), j) == l
  {
    hide Ring;
    CellNeighbours(m, l, v, j);
  }

  lemma ColumnOwn(m: Matrix, l: Links, v: set<int>, j: int)
    requires WellFormed(m) && Threaded(m, l, v) && j in v
    ensures IsCell(m, j) && ColumnOk(m, Unlink(m, l, j), v - {j}, m.col[j])
  {
    hide Ring;
    CellNeighbours(m, l, v, j);
    assert Column(m, v - {j}, m.col[j]) == Column(m, v, m.col[j]) - {j};
  }

  lemma ColumnOther(m: Matrix, l: Links, v: set<int>, j: int, d: int)
    requires WellFormed(m) && Threaded(m, l, v) && j in v && IsHead(m, d)
    requires IsCell(m, j) && m.col[j] != d
    ensures ColumnOk(m, Unlink(m, l, j), v - {j}, d)
  {
    hide Ring;
    CellNeighbours(m, l, v, j);
    assert ColumnOk(m, l, v, d);
    hide Threaded;
    assert Column(m, v - {j}, d) == Column(m, v, d);
    var s, l' := Column(m, v, d), Unlink(m, l, j);
    assert l.up[j] !in s && l.down[j] !in s;
    RingSame(s, l.down, l.up, l'.down, l'.up);
  }

  lemma UnlinkThreads(m: Matrix, l: Links, v: set<int>, j: int)
    requires WellFormed(m) && Threaded(m, l, v) && j in v
    ensures Threaded(m, Unlink(m, l, j), v - {j})
  {
    hide Ring, ColumnOk;
    var l' := Unlink(m, l, j);
    forall d | IsHead(m, d) ensures ColumnOk(m, l', v - {j}, d) {
      if d == m.col[j] { ColumnOwn(m, l, v, j); } else { ColumnOther(m, l, v, j, d); }
    }
    forall r | IsCell(m, r) ensures RowOk(m, l', r) { assert RowOk(m, l, r); }
  }

  lemma HeadNeighbours(m: Matrix, l: Links, x: set<int>, c: int)
    requires WellFormed(m) && Sized(m, l) && Headed(m, l, x) && c in x
    ensures IsHead(m, c) && c < |m.col|
    ensures var s := {0} + x;
      && l.left[c] in s && l.right[c] in s && l.left[c] != c && l.right[c] != c
      && l.left[l.right[c]] == c && l.right[l.left[c]] == c
      && 0 <= l.left[c] < |m.col| && 0 <= l.right[c] < |m.col|
      && Ring(s - {c}, l.right[l.left[c] := l.right[c]], l.left[l.right[c] := l.left[c]])
  {
    hide Ring;
    RingRemove({0} + x, l.right, l.left, c, 0);
    NextPrev({0} + x, l.right, l.left, c);
  }

  lemma AttachUndoes(m: Matrix, l: Links, x: set<int>, c: int)
    requires WellFormed(m) && Sized(m, l) && Headed(m, l, x) && c in x
    ensures Attach(Detach(l, c), c) == l
  {
    hide Ring;
    HeadNeighbours(m, l, x, c);
  }

  lemma DetachThreads(m: Matrix, l: Links, v: set<int>, x: set<int>, c: int)
    requires WellFormed(m) && Threaded(m, l, v) && Headed(m, l, x) && c in x
    ensures Threaded(m, Detach(l, c), v) && Headed(m, Detach(l, c), x - {c})
  {
    hide Ring;
    HeadNeighbours(m, l, x, c);
    var l' := Detach(l, c);
    assert {0} + x - {c} == {0} + (x - {c});
    forall d | IsHead(m, d) ensures ColumnOk(m, l', v, d) { assert ColumnOk(m, l, v, d); }
    forall r | IsCell(m, r) ensures RowOk(m, l', r) {
      assert RowOk(m, l, r);
      RingSame(Row(m, r), l.right, l.left, l'.right, l'.left);
    }
  }

  // ---------- Taking out a list of nodes ----------

  ghost function UnlinkAll(m: Matrix, l: Links, js: seq<int>): Links {
    if js == [] then l else Unlink(m, UnlinkAll(m, l, js[..|js| - 1]), js[|js| - 1])
  }

  lemma UnlinkSnoc(m: Matrix, l: Links, js: seq<int>, j: int)
    ensures UnlinkAll(m, l, js + [j]) == Unlink(m, UnlinkAll(m, l, js), j)
  {
    assert (js + [j])[..|js|] == js;
  }

  lemma {:induction false} UnlinkAllThreads(m: Matrix, l: Links, v: set<int>, js: seq<int>)
    requires WellFormed(m) && Threaded(m, l, v) && NoRepeats(js) && forall j <- js :: j in v
    ensures Threaded(m, UnlinkAll(m, l, js), v - Members(js))
    ensures UnlinkAll(m, l, js).left == l.left && UnlinkAll(m, l, js).right == l.right
  {
    if js == [] {
      assert v - Members(js) == v;
    } else {
      hide Threaded;
      var init, j := js[..|js| - 1], js[|js| - 1];
      UnlinkAllThreads(m, l, v, init);
      assert j !in init;
      UnlinkThreads(m, UnlinkAll(m, l, init), v - Members(init), j);
      assert v - Members(init) - {j} == v - Members(js);
    }
  }

  /** Taking out cells of other columns leaves the links of a column alone. */
  lemma {:induction false} UnlinkAllLeaves(m: Matrix, l: Links, v: set<int>, js: seq<int>, c: int)
    requires WellFormed(m) && Threaded(m, l, v) && NoRepeats(js) && IsHead(m, c)
    requires forall j <- js :: j in v && IsCell(m, j) && m.col[j] != c
    ensures var l' := UnlinkAll(m, l, js);
            Sized(m, l') && forall x <- Column(m, v, c) :: 0 <= x < |m.col| ==> l'.up[x] == l.up[x] && l'.down[x] == l.down[x]
  {
    hide Ring, ColumnOk;
    if js != [] {
      var init, j := js[..|js| - 1], js[|js| - 1];
      UnlinkAllLeaves(m, l, v, init, c);
      UnlinkAllThreads(m, l, v, init);
      assert j !in init;
      CellNeighbours(m, UnlinkAll(m, l, init), v - Members(init), j);
    }
  }

  /** Undoing the last of a list of removals. */
  lemma RelinkLast(m: Matrix, l: Links, v: set<int>, js: seq<int>, j: int)
    requires WellFormed(m) && Threaded(m, l, v) && NoRepeats(js + [j]) && forall i <- js + [j] :: i in v
    ensures Relink(m, UnlinkAll(m, l, js + [j]), j) == UnlinkAll(m, l, js)
  {
    hide Threaded;
    assert j in js + [j] && forall i <- js :: i in js + [j];
    assert NoRepeats(js) by {
      forall a, b | 0 <= a < b < |js| ensures js[a] != js[b] { assert (js + [j])[a] != (js + [j])[b]; }
    }
    assert j !in js by {
      forall a | 0 <= a < |js| ensures js[a] != j { assert (js + [j])[a] != (js + [j])[|js|]; }
    }
    UnlinkAllThreads(m, l, v, js);
    UnlinkSnoc(m, l, js, j);
    RelinkUndoes(m, UnlinkAll(m, l, js), v - Members(js), j);
  }

  // ---------- The nodes that covering a column takes out ----------

  /** The other nodes of the given rows, row by row, as the links run. */
  ghost function Strip(m: Matrix, l: Links, rows: seq<int>): seq<int> {
    if rows == [] then []
    else Strip(m, l, rows[..|rows| - 1]) + RowWalk(m, l, rows[|rows| - 1])
  }

  ghost function RowWalk(m: Matrix, l: Links, r: int): seq<int> { Walk(Row(m, r), l.right, l.left, r) }

  ghost function ColumnWalk(m: Matrix, l: Links, v: set<int>, c: int): seq<int> {
    Walk(Column(m, v, c), l.down, l.up, c)
  }

  ghost function CoverWalk(m: Matrix, l: Links, v: set<int>, c: int): seq<int> {
    Strip(m, l, ColumnWalk(m, l, v, c))
  }

  /** The links after covering column `c`. */
  ghost function Covered(m: Matrix, l: Links, v: set<int>, c: int): Links {
    UnlinkAll(m, Detach(l, c), CoverWalk(m, l, v, c))
  }

  /** `j` is another cell in the row of `r`. */
  ghost predicate Mate(m: Matrix, r: int, j: int) { j in Row(m, r) && j != r }

  /** `j` shares a row with a linked cell of column `c`. */
  ghost predicate Touches(m: Matrix, v: set<int>, c: int, j: int) {
    exists r :: r in v && 0 <= r < |m.col| && m.col[r] == c && Mate(m, r, j)
  }

  /** The cells still linked in after covering column `c`. */
  ghost function Remaining(m: Matrix, v: set<int>, c: int): set<int> { set j | j in v && !Touches(m, v, c, j) }

  lemma StripSnoc(m: Matrix, l: Links, rows: seq<int>, r: int)
    ensures Strip(m, l, rows + [r]) == Strip(m, l, rows) + RowWalk(m, l, r)
  {
    assert (rows + [r])[..|rows|] == rows;
  }

  lemma RowWalkMembers(m: Matrix, l: Links, r: int)
    requires WellFormed(m) && IsCell(m, r) && RowOk(m, l, r)
    ensures NoRepeats(RowWalk(m, l, r))
    ensures forall j :: j in RowWalk(m, l, r) <==> Mate(m, r, j)
  {
    hide Ring, Walk;
    WalkMembers(Row(m, r), l.right, l.left, r);
  }

  ghost predicate OneColumn(m: Matrix, l: Links, c: int, rows: seq<int>) {
    && NoRepeats(rows)
    && forall r <- rows :: IsCell(m, r) && r < |m.col| && m.col[r] == c && RowOk(m, l, r)
  }

  lemma OneColumnInit(m: Matrix, l: Links, c: int, rows: seq<int>)
    requires OneColumn(m, l, c, rows) && rows != []
    ensures OneColumn(m, l, c, rows[..|rows| - 1])
    ensures var r := rows[|rows| - 1];
            IsCell(m, r) && m.col[r] == c && RowOk(m, l, r) && r !in rows[..|rows| - 1]
  {
    assert rows[|rows| - 1] in rows;
  }

  lemma {:induction false} StripMembers(m: Matrix, l: Links, c: int, rows: seq<int>, j: int)
    requires WellFormed(m) && OneColumn(m, l, c, rows)
    ensures j in Strip(m, l, rows) <==> exists r :: r in rows && Mate(m, r, j)
  {
    hide Ring, RowWalk;
    if rows != [] {
      OneColumnInit(m, l, c, rows);
      StripMembers(m, l, c, rows[..|rows| - 1], j);
      RowWalkMembers(m, l, rows[|rows| - 1]);
    }
  }

  lemma {:induction false} StripDistinct(m: Matrix, l: Links, c: int, rows: seq<int>)
    requires WellFormed(m) && OneColumn(m, l, c, rows)
    ensures NoRepeats(Strip(m, l, rows))
  {
    hide Ring, RowWalk;
    if rows != [] {
      OneColumnInit(m, l, c, rows);
      var init, r := rows[..|rows| - 1], rows[|rows| - 1];
      StripDistinct(m, l, c, init);
      RowWalkMembers(m, l, r);
      var a, b := Strip(m, l, init), RowWalk(m, l, r);
      forall j | j in b ensures j !in a {
        StripMembers(m, l, c, init, j);
        forall q | q in init ensures !Mate(m, q, j) { assert m.row[q] != m.row[r]; }
      }
      Disjoint(a, b);
    }
  }

  lemma Disjoint(a: seq<int>, b: seq<int>)
    requires NoRepeats(a) && NoRepeats(b) && forall j :: j in a ==> j !in b
    ensures NoRepeats(a + b)
  {
    var s := a + b;
    forall i, j | 0 <= i < j < |s| ensures s[i] != s[j] {
      assert i < |a| <= j ==> s[i] in a && s[j] in b;
    }
  }

  lemma ColumnWalkMembers(m: Matrix, l: Links, v: set<int>, c: int)
    requires WellFormed(m) && IsHead(m, c) && Threaded(m, l, v)
    ensures OneColumn(m, l, c, ColumnWalk(m, l, v, c))
    ensures forall r :: r in ColumnWalk(m, l, v, c) <==> r in v && m.col[r] == c
  {
    hide Ring, Walk;
    assert ColumnOk(m, l, v, c);
    var s, rows := Column(m, v, c), ColumnWalk(m, l, v, c);
    WalkMembers(s, l.down, l.up, c);
    forall r | r in rows ensures RowOk(m, l, r) { assert r in v; }
  }

  /** The walk of a cover meets exactly the row mates of the column's linked cells, each once. */
  lemma CoverWalkMembers(m: Matrix, l: Links, v: set<int>, c: int)
    requires WellFormed(m) && IsHead(m, c) && Threaded(m, l, v)
    ensures NoRepeats(CoverWalk(m, l, v, c))
    ensures forall j :: j in CoverWalk(m, l, v, c) <==> Touches(m, v, c, j)
  {
    hide Ring, Strip, ColumnWalk;
    ColumnWalkMembers(m, l, v, c);
    var rows := ColumnWalk(m, l, v, c);
    StripDistinct(m, l, c, rows);
    forall j ensures j in CoverWalk(m, l, v, c) <==> Touches(m, v, c, j) {
      StripMembers(m, l, c, rows, j);
    }
  }
}
