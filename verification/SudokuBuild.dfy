/** Growing the matrix node by node: each step keeps all rings whole. */
module SudokuBuild {
  import opened Rings
  import opened Torus
  import opened ExactCover
  import opened SudokuMatrix

  ghost function Cells(m: Matrix): set<int> { set n | 0 <= n < |m.col| && IsCell(m, n) }

  /** All headers are uncovered and all cells linked in. */
  ghost predicate Whole(m: Matrix, l: Links) {
    WellFormed(m) && Threaded(m, l, Cells(m)) && Headed(m, l, Heads(m))
  }

  /** The links with a new node that is alone in its rings. */
  ghost function Grow(l: Links): Links {
    Links(l.left + [|l.left|], l.right + [|l.right|], l.up + [|l.up|], l.down + [|l.down|], l.size + [0])
  }

  ghost function PutLeft(l: Links, old_: int, new_: int): Links
    requires 0 <= old_ < |l.left| == |l.right| && 0 <= new_ < |l.left| && 0 <= l.left[old_] < |l.left|
  {
    l.(left := l.left[new_ := l.left[old_]][old_ := new_], right := l.right[new_ := old_][l.left[old_] := new_])
  }

  ghost function PutUp(l: Links, c: int, j: int): Links
    requires 0 <= c < |l.up| == |l.down| == |l.size| && 0 <= j < |l.up| && 0 <= l.up[c] < |l.up|
  {
    l.(up := l.up[j := l.up[c]][c := j], down := l.down[j := c][l.up[c] := j], size := l.size[c := l.size[c] + 1])
  }

  ghost function AddHead(m: Matrix): Matrix { Matrix(m.heads + 1, m.col + [|m.col|], m.row + [0]) }
  ghost function AddCell(m: Matrix, c: int, id: int): Matrix { Matrix(m.heads, m.col + [c], m.row + [id]) }

  lemma EmptyWhole(m: Matrix, l: Links)
    requires m.heads == 0 && |m.col| == |m.row| == 1
    requires l == Links([0], [0], [0], [0], [0])
    ensures Whole(m, l) && |m.col| == m.heads + 1
  {
    Alone(0, l.right, l.left);
    assert {0} + Heads(m) == {0};
  }

  /** Appending a column header. */
  lemma HeadAdded(m: Matrix, l: Links)
    requires Whole(m, l) && |m.col| == m.heads + 1
    ensures var j, g := |m.col|, Grow(l);
      && Sized(m, l) && 0 <= l.left[0] < j
      && Whole(AddHead(m), PutLeft(g, 0, j)) && |AddHead(m).col| == AddHead(m).heads + 1
  {
    hide Ring, ColumnOk;
    HeadRing(m, l);
    var m' := AddHead(m);
    var l' := PutLeft(Grow(l), 0, |m.col|);
    assert Cells(m') == {};
    forall c | IsHead(m', c) ensures ColumnOk(m', l', Cells(m'), c) { HeadColumn(m, l, c); }
    forall h | IsHead(m', h) && h != |m.col| ensures IsHead(m, h) { }
  }

  lemma HeadRing(m: Matrix, l: Links)
    requires Whole(m, l) && |m.col| == m.heads + 1
    ensures Sized(m, l) && 0 <= l.left[0] < |m.col|
    ensures Headed(AddHead(m), PutLeft(Grow(l), 0, |m.col|), Heads(AddHead(m)))
  {
    hide Ring, Threaded;
    SizedOf(m, l);
    var j, g, s := |m.col|, Grow(l), {0} + Heads(m);
    NextPrev(s, l.right, l.left, 0);
    InRange(s, l.right, l.left);
    RingSame(s, l.right, l.left, g.right, g.left);
    RingAppend(s, g.right, g.left, j, 0);
    assert {0} + Heads(AddHead(m)) == s + {j};
  }

  lemma SizedOf(m: Matrix, l: Links)
    requires Whole(m, l)
    ensures Sized(m, l)
  {
  }

  lemma HeadColumn(m: Matrix, l: Links, c: int)
    requires Whole(m, l) && |m.col| == m.heads + 1 && IsHead(AddHead(m), c) && 0 <= l.left[0] < |m.col|
    ensures ColumnOk(AddHead(m), PutLeft(Grow(l), 0, |m.col|), {}, c)
  {
    hide Ring, Headed;
    var m', l' := AddHead(m), PutLeft(Grow(l), 0, |m.col|);
    assert Column(m', {}, c) == {c};
    if c == |m.col| { Alone(c, l'.down, l'.up); }
    else {
      assert Cells(m) == {};
      assert ColumnOk(m, l, {}, c) && Column(m, {}, c) == {c};
      RingSame({c}, l.down, l.up, l'.down, l'.up);
    }
  }

  lemma GrowRange(m: Matrix, l: Links, c: int)
    requires Whole(m, l) && IsHead(m, c)
    ensures Sized(m, l) && ColumnOk(m, l, Cells(m), c)
    ensures 0 <= l.up[c] < |m.col| && l.up[c] in Column(m, Cells(m), c)
  {
    hide Ring;
    assert ColumnOk(m, l, Cells(m), c);
    NextPrev(Column(m, Cells(m), c), l.down, l.up, c);
  }

  lemma GrowOwn(m: Matrix, l: Links, c: int, id: int)
    requires Whole(m, l) && IsHead(m, c)
    ensures Sized(m, l) && 0 <= l.up[c] < |m.col|
    ensures ColumnOk(AddCell(m, c, id), PutUp(Grow(l), c, |m.col|), Cells(AddCell(m, c, id)), c)
  {
    hide Ring, Threaded, Headed;
    GrowRange(m, l, c);
    ColumnGrows(m, c, id, c);
    var j, g, s := |m.col|, Grow(l), Column(m, Cells(m), c);
    InRange(s, l.down, l.up);
    RingSame(s, l.down, l.up, g.down, g.up);
    RingAppend(s, g.down, g.up, j, c);
  }

  lemma GrowOther(m: Matrix, l: Links, c: int, id: int, d: int)
    requires Whole(m, l) && IsHead(m, c) && IsHead(m, d) && c != d
    ensures Sized(m, l) && 0 <= l.up[c] < |m.col|
    ensures ColumnOk(AddCell(m, c, id), PutUp(Grow(l), c, |m.col|), Cells(AddCell(m, c, id)), d)
  {
    hide Ring, Whole, Column, Cells, WellFormed;
    GrowRange(m, l, c);
    GrowRange(m, l, d);
    WholeFits(m, l);
    ColumnGrows(m, c, id, d);
    var t, l' := Column(m, Cells(m), d), PutUp(Grow(l), c, |m.col|);
    InRange(t, l.down, l.up);
    ColumnsApart(m, c, d);
    RingSame(t, l.down, l.up, l'.down, l'.up);
  }

  lemma ColumnsApart(m: Matrix, c: int, d: int)
    requires WellFormed(m) && IsHead(m, c) && IsHead(m, d) && c != d
    ensures c in Column(m, Cells(m), c) && Column(m, Cells(m), c) !! Column(m, Cells(m), d)
  {
  }

  lemma ColumnGrows(m: Matrix, c: int, id: int, d: int)
    requires WellFormed(m) && IsHead(m, c)
    ensures Column(AddCell(m, c, id), Cells(AddCell(m, c, id)), d) ==
            Column(m, Cells(m), d) + (if c == d then {|m.col|} else {})
  {
  }

  /** Appending a cell to column `c`, alone in a new row. */
  lemma CellAdded(m: Matrix, l: Links, c: int, id: int)
    requires Whole(m, l) && IsHead(m, c) && forall n {:trigger IsCell(m, n)} :: IsCell(m, n) ==> m.row[n] != id
    ensures Sized(m, l) && 0 <= l.up[c] < |m.col|
    ensures Whole(AddCell(m, c, id), PutUp(Grow(l), c, |m.col|))
    ensures Row(AddCell(m, c, id), |m.col|) == {|m.col|}
    ensures forall r {:trigger Row(m, r)} :: IsCell(m, r) ==> Row(AddCell(m, c, id), r) == Row(m, r)
  {
    hide Ring, ColumnOk;
    GrowOwn(m, l, c, id);
    var m', j := AddCell(m, c, id), |m.col|;
    var l' := PutUp(Grow(l), c, j);
    forall d | IsHead(m', d) ensures ColumnOk(m', l', Cells(m'), d) {
      if d != c { GrowOther(m, l, c, id, d); }
    }
    forall n | IsCell(m', n) && n != j ensures IsCell(m, n) && m'.row[n] != id { }
    assert Row(m', j) == {j};
    forall r | IsCell(m, r) ensures Row(m', r) == Row(m, r) { }
    forall r | IsCell(m', r) ensures RowOk(m', l', r) {
      if r == j { Alone(j, l'.right, l'.left); }
      else {
        assert RowOk(m, l, r) && Row(m', r) == Row(m, r);
        RingSame(Row(m, r), l.right, l.left, l'.right, l'.left);
      }
    }
    assert Heads(m') == Heads(m);
    RingSame({0} + Heads(m), l.right, l.left, l'.right, l'.left);
    WellFormedGrows(m, c, id);
  }

  lemma WellFormedGrows(m: Matrix, c: int, id: int)
    requires WellFormed(m) && IsHead(m, c) && forall n {:trigger IsCell(m, n)} :: IsCell(m, n) ==> m.row[n] != id
    ensures WellFormed(AddCell(m, c, id))
  {
    var m' := AddCell(m, c, id);
    forall n | IsCell(m', n) ensures n == |m.col| || IsCell(m, n) { }
    forall h | IsHead(m', h) ensures IsHead(m, h) { }
  }

  ghost function Join(m: Matrix, r: int, j: int): Matrix
    requires 0 <= r < |m.row| && 0 <= j < |m.row|
  {
    m.(row := m.row[j := m.row[r]])
  }

  lemma JoinRows(m: Matrix, r: int, j: int, q: int)
    requires WellFormed(m) && IsCell(m, r) && IsCell(m, j) && r != j && Row(m, j) == {j} && IsCell(m, q)
    ensures Row(Join(m, r, j), q) == if q == j || q in Row(m, r) then Row(m, r) + {j} else Row(m, q)
    ensures q !in Row(m, r) && q != j ==> Row(m, q) !! Row(m, r) && j !in Row(m, q)
  {
    assert j !in Row(m, r) by { assert j in Row(m, r) ==> r in Row(m, j); }
    assert q != j ==> j !in Row(m, q) by { assert j in Row(m, q) ==> q in Row(m, j); }
  }

  /** Linking cell `j`, alone so far, into the row that starts at `r`. */
  lemma RowJoined(m: Matrix, l: Links, r: int, j: int)
    requires Whole(m, l) && IsCell(m, r) && IsCell(m, j) && Row(m, j) == {j}
    requires forall n <- Row(m, r) :: r <= n < j && m.col[n] != m.col[j]
    ensures Sized(m, l) && 0 <= l.left[r] < |m.col|
    ensures Whole(Join(m, r, j), PutLeft(l, r, j))
    ensures Row(Join(m, r, j), r) == Row(m, r) + {j}
    ensures forall q {:trigger Row(m, q)} :: IsCell(m, q) && q != j && q !in Row(m, r) ==> Row(Join(m, r, j), q) == Row(m, q)
  {
    hide Ring, ColumnOk;
    assert r in Row(m, r) && r < j;
    assert RowOk(m, l, r);
    NextPrev(Row(m, r), l.right, l.left, r);
    RingAppend(Row(m, r), l.right, l.left, j, r);
    var m', l' := Join(m, r, j), PutLeft(l, r, j);
    JoinRows(m, r, j, r);
    forall q | IsCell(m, q) ensures IsCell(m', q) && RowOk(m', l', q)
      ensures q != j && q !in Row(m, r) ==> Row(m', q) == Row(m, q)
    {
      JoinRows(m, r, j, q);
      if q != j && q !in Row(m, r) {
        assert RowOk(m, l, q);
        RingSame(Row(m, q), l.right, l.left, l'.right, l'.left);
      }
    }
    forall c | IsHead(m', c) ensures ColumnOk(m', l', Cells(m'), c) { JoinColumn(m, l, r, j, c); }
    assert Heads(m') == Heads(m);
    RingSame({0} + Heads(m), l.right, l.left, l'.right, l'.left);
    JoinWellFormed(m, r, j);
  }

  lemma JoinColumn(m: Matrix, l: Links, r: int, j: int, c: int)
    requires Whole(m, l) && IsCell(m, r) && IsCell(m, j) && IsHead(m, c)
    requires 0 <= l.left[r] < |m.col|
    ensures ColumnOk(Join(m, r, j), PutLeft(l, r, j), Cells(Join(m, r, j)), c)
  {
    hide Ring;
    var m' := Join(m, r, j);
    assert ColumnOk(m, l, Cells(m), c);
    assert Cells(m') == Cells(m);
    assert Column(m', Cells(m'), c) == Column(m, Cells(m), c);
  }

  lemma JoinWellFormed(m: Matrix, r: int, j: int)
    requires WellFormed(m) && IsCell(m, r) && IsCell(m, j)
    requires forall n <- Row(m, r) :: m.col[n] != m.col[j]
    ensures WellFormed(Join(m, r, j))
  {
    var m' := Join(m, r, j);
    forall n | IsCell(m', n) ensures IsCell(m, n) && (m.row[n] == m.row[r] ==> m.col[n] != m.col[j]) {
      assert m.row[n] == m.row[r] ==> n in Row(m, r);
    }
    forall h | IsHead(m', h) ensures m'.col[h] == h { assert IsHead(m, h); }
    forall a, b | IsCell(m', a) && IsCell(m', b) && m'.row[a] == m'.row[b] && m'.col[a] == m'.col[b] ensures a == b {
      assert IsCell(m, a) && IsCell(m, b);
    }
  }

  /** With everything linked in, the state is one the search can start from. */
  lemma WholeConsistent(m: Matrix, l: Links)
    requires Whole(m, l)
    ensures Consistent(m, l, Cells(m), Heads(m))
  {
    forall n | IsCell(m, n) ensures Fits(m, Heads(m), n) {
      forall k | k in Row(m, n) ensures m.col[k] in Heads(m) { assert IsCell(m, k) && IsHead(m, m.col[k]); }
    }
  }

  lemma WholeFits(m: Matrix, l: Links)
    requires Whole(m, l)
    ensures WellFormed(m) && Sized(m, l) && |m.row| == |m.col|
  {
  }
}
