/** What the linked cells mean while columns are being covered, and exact covers. */
module ExactCover {
  import opened Basics
  import opened Rings
  import opened Torus

  /** Every column that the row of `n` meets is among `x`. */
  ghost predicate Fits(m: Matrix, x: set<int>, n: int) {
    forall k :: k in Row(m, n) ==> m.col[k] in x
  }

  /** In an uncovered column exactly the rows that meet only uncovered columns are linked in. */
  ghost predicate Active(m: Matrix, v: set<int>, x: set<int>) {
    forall n {:trigger Fits(m, x, n)} {:trigger n in v} ::
      IsCell(m, n) && m.col[n] in x ==> (n in v <==> Fits(m, x, n))
  }

  /** The columns `x` are uncovered and the cells `v` linked in. */
  ghost predicate Consistent(m: Matrix, l: Links, v: set<int>, x: set<int>) {
    WellFormed(m) && Threaded(m, l, v) && Headed(m, l, x) && Active(m, v, x)
  }

  lemma MatesLinked(m: Matrix, v: set<int>, x: set<int>, r: int, j: int)
    requires WellFormed(m) && Active(m, v, x) && r in v && IsCell(m, r) && m.col[r] in x && Mate(m, r, j)
    ensures j in v && m.col[j] in x && m.col[j] != m.col[r]
  {
    assert Row(m, j) == Row(m, r);
    assert Fits(m, x, r);
    assert Fits(m, x, j);
  }

  /** Everything a cover takes out was linked in, outside the covered column. */
  lemma CoverWalkLinked(m: Matrix, l: Links, v: set<int>, x: set<int>, c: int)
    requires Consistent(m, l, v, x) && c in x
    ensures NoRepeats(CoverWalk(m, l, v, c))
    ensures forall j <- CoverWalk(m, l, v, c) :: j in v && IsCell(m, j) && m.col[j] in x && m.col[j] != c
    ensures v - Members(CoverWalk(m, l, v, c)) == Remaining(m, v, c)
  {
    hide Ring, CoverWalk, ColumnOk;
    CoverWalkMembers(m, l, v, c);
    forall j | j in CoverWalk(m, l, v, c) ensures j in v && IsCell(m, j) && m.col[j] in x && m.col[j] != c {
      var r :| r in v && 0 <= r < |m.col| && m.col[r] == c && Mate(m, r, j);
      MatesLinked(m, v, x, r, j);
    }
  }

  /** The state partway through a cover: the nodes `p` of the walk are out, the column itself and
      all rows are as they were. */
  lemma Midway(m: Matrix, l: Links, v: set<int>, x: set<int>, c: int, p: seq<int>)
    requires Consistent(m, l, v, x) && c in x && p <= CoverWalk(m, l, v, c)
    ensures var l' := UnlinkAll(m, Detach(l, c), p);
      && Threaded(m, l', v - Members(p))
      && Column(m, v - Members(p), c) == Column(m, v, c)
      && l'.left == Detach(l, c).left && l'.right == Detach(l, c).right
    ensures Threaded(m, Detach(l, c), v) && NoRepeats(p) && forall j <- p :: j in v
  {
    hide Threaded, Headed, Active, Ring, CoverWalk;
    CoverWalkLinked(m, l, v, x, c);
    DetachThreads(m, l, v, x, c);
    assert forall j <- p :: j in CoverWalk(m, l, v, c);
    UnlinkAllThreads(m, Detach(l, c), v, p);
  }

  /** The links that the loops of a cover read are those from before it. */
  lemma MidwayLinks(m: Matrix, l: Links, v: set<int>, x: set<int>, c: int, p: seq<int>)
    requires Consistent(m, l, v, x) && c in x && p <= CoverWalk(m, l, v, c)
    ensures var l' := UnlinkAll(m, Detach(l, c), p);
      && Sized(m, l) && Sized(m, l') && IsHead(m, c)
      && (forall n <- Column(m, v, c) :: 0 <= n < |m.col| ==> l'.up[n] == l.up[n] && l'.down[n] == l.down[n])
      && (forall n :: IsCell(m, n) ==> l'.right[n] == l.right[n] && l'.left[n] == l.left[n])
  {
    hide Ring, CoverWalk, ColumnOk;
    CoverWalkLinked(m, l, v, x, c);
    DetachThreads(m, l, v, x, c);
    assert forall j <- p :: j in CoverWalk(m, l, v, c);
    UnlinkAllLeaves(m, Detach(l, c), v, p, c);
    UnlinkAllThreads(m, Detach(l, c), v, p);
    HeadNeighbours(m, l, x, c);
  }

  lemma RemainingActive(m: Matrix, v: set<int>, x: set<int>, c: int, n: int)
    requires WellFormed(m) && Active(m, v, x) && c in x && IsHead(m, c) && (forall k :: k in v ==> IsCell(m, k))
    requires IsCell(m, n) && m.col[n] in x - {c}
    ensures n in Remaining(m, v, c) <==> Fits(m, x - {c}, n)
  {
    assert n in v <==> Fits(m, x, n);
    if n in v {
      if Touches(m, v, c, n) {
        var r :| r in v && 0 <= r < |m.col| && m.col[r] == c && Mate(m, r, n);
        assert r in Row(m, n);
        assert !Fits(m, x - {c}, n);
      } else {
        forall r | r in Row(m, n) ensures m.col[r] in x - {c} {
          assert Row(m, r) == Row(m, n) && Fits(m, x, r);
          assert m.col[r] in x && (r == n || Mate(m, r, n));
        }
      }
    } else {
      assert Fits(m, x - {c}, n) ==> Fits(m, x, n);
    }
  }

  /** Covering a column keeps the state consistent, with that column gone. */
  lemma CoverKeeps(m: Matrix, l: Links, v: set<int>, x: set<int>, c: int)
    requires Consistent(m, l, v, x) && c in x
    ensures Consistent(m, Covered(m, l, v, c), Remaining(m, v, c), x - {c})
  {
    hide Ring, CoverWalk, ColumnOk, Remaining;
    Midway(m, l, v, x, c, CoverWalk(m, l, v, c));
    CoverWalkLinked(m, l, v, x, c);
    DetachThreads(m, l, v, x, c);
    var v', x' := Remaining(m, v, c), x - {c};
    forall n | IsCell(m, n) && m.col[n] in x' ensures n in v' <==> Fits(m, x', n) {
      RemainingActive(m, v, x, c, n);
    }
  }

  /** ... and does not touch the rows. */
  lemma CoverLeavesRows(m: Matrix, l: Links, v: set<int>, x: set<int>, c: int)
    requires Consistent(m, l, v, x) && c in x
    ensures var l' := Covered(m, l, v, c);
      Sized(m, l) && Sized(m, l') && forall n :: IsCell(m, n) ==> l'.right[n] == l.right[n] && l'.left[n] == l.left[n]
  {
    hide Consistent, CoverWalk;
    MidwayLinks(m, l, v, x, c, CoverWalk(m, l, v, c));
  }

  // ---------- Covering the columns of a list of cells ----------

  ghost function LinksAfter(m: Matrix, l: Links, v: set<int>, js: seq<int>): Links {
    if js == [] then l
    else
      var init, j := js[..|js| - 1], js[|js| - 1];
      Covered(m, LinksAfter(m, l, v, init), CellsAfter(m, v, init), At(m.col, j))
  }

  ghost function CellsAfter(m: Matrix, v: set<int>, js: seq<int>): set<int> {
    if js == [] then v
    else
      var init, j := js[..|js| - 1], js[|js| - 1];
      Remaining(m, CellsAfter(m, v, init), At(m.col, j))
  }

  ghost function ColumnsOf(m: Matrix, js: seq<int>): set<int> { set j | j in js :: At(m.col, j) }

  ghost predicate OwnColumns(m: Matrix, x: set<int>, js: seq<int>) {
    && (forall j <- js :: At(m.col, j) in x)
    && forall a, b :: 0 <= a < b < |js| ==> At(m.col, js[a]) != At(m.col, js[b])
  }

  lemma {:induction false} CoverAllKeeps(m: Matrix, l: Links, v: set<int>, x: set<int>, js: seq<int>)
    requires Consistent(m, l, v, x) && OwnColumns(m, x, js)
    ensures Consistent(m, LinksAfter(m, l, v, js), CellsAfter(m, v, js), x - ColumnsOf(m, js))
  {
    hide Consistent;
    if js == [] {
      assert x - ColumnsOf(m, js) == x;
    } else {
      var init, j := js[..|js| - 1], js[|js| - 1];
      CoverAllKeeps(m, l, v, x, init);
      CoverKeeps(m, LinksAfter(m, l, v, init), CellsAfter(m, v, init), x - ColumnsOf(m, init), At(m.col, j));
      assert x - ColumnsOf(m, init) - {At(m.col, j)} == x - ColumnsOf(m, js);
    }
  }

  lemma {:induction false} AfterLeavesRows(m: Matrix, l: Links, v: set<int>, x: set<int>, js: seq<int>)
    requires Consistent(m, l, v, x) && OwnColumns(m, x, js)
    ensures var l' := LinksAfter(m, l, v, js);
      Sized(m, l) && Sized(m, l') && forall n :: IsCell(m, n) ==> l'.right[n] == l.right[n] && l'.left[n] == l.left[n]
  {
    if js == [] {
    } else {
      hide Threaded, Headed, Active, WellFormed;
      var init, j := js[..|js| - 1], js[|js| - 1];
      AfterLeavesRows(m, l, v, x, init);
      CoverAllKeeps(m, l, v, x, init);
      CoverLeavesRows(m, LinksAfter(m, l, v, init), CellsAfter(m, v, init), x - ColumnsOf(m, init), At(m.col, j));
    }
  }

  lemma AfterSnoc(m: Matrix, l: Links, v: set<int>, js: seq<int>, j: int)
    ensures LinksAfter(m, l, v, js + [j]) == Covered(m, LinksAfter(m, l, v, js), CellsAfter(m, v, js), At(m.col, j))
    ensures CellsAfter(m, v, js + [j]) == Remaining(m, CellsAfter(m, v, js), At(m.col, j))
  {
    assert (js + [j])[..|js|] == js;
  }

  // ---------- Exact covers ----------

  /** The columns that row `id` meets. */
  ghost function RowColumns(m: Matrix, id: int): set<int> {
    set n | 0 <= n < |m.col| && IsCell(m, n) && n < |m.row| && m.row[n] == id :: m.col[n]
  }

  ghost predicate Meets(m: Matrix, id: int, c: int) { c in RowColumns(m, id) }

  /** Row `id` is not empty and meets only columns of `x`. */
  ghost predicate RowInside(m: Matrix, x: set<int>, id: int) {
    (exists c :: Meets(m, id, c)) && RowColumns(m, id) <= x
  }

  ghost predicate Hit(m: Matrix, ids: set<int>, c: int) { exists id :: id in ids && Meets(m, id, c) }

  ghost predicate Apart(m: Matrix, a: int, b: int) { RowColumns(m, a) !! RowColumns(m, b) }

  /** The rows `ids` meet every column of `x` exactly once, and no other column. */
  ghost predicate ExactlyCovers(m: Matrix, x: set<int>, ids: set<int>) {
    && (forall id {:trigger RowInside(m, x, id)} :: id in ids ==> RowInside(m, x, id))
    && (forall c {:trigger Hit(m, ids, c)} :: c in x ==> Hit(m, ids, c))
    && (forall a, b {:trigger Apart(m, a, b)} :: a in ids && b in ids && a != b ==> Apart(m, a, b))
  }

  ghost predicate Solvable(m: Matrix, x: set<int>) {
    exists ids :: ExactlyCovers(m, x, ids)
  }

  lemma RowColumnsOf(m: Matrix, l: Links, r: int)
    requires WellFormed(m) && IsCell(m, r) && RowOk(m, l, r)
    ensures m.col[r] in RowColumns(m, m.row[r])
    ensures RowColumns(m, m.row[r]) == {m.col[r]} + ColumnsOf(m, RowWalk(m, l, r))
  {
    hide Ring, RowWalk;
    RowWalkMembers(m, l, r);
    var cols := RowColumns(m, m.row[r]);
    forall c | c in cols ensures c in {m.col[r]} + ColumnsOf(m, RowWalk(m, l, r)) {
      var k :| IsCell(m, k) && m.row[k] == m.row[r] && m.col[k] == c;
      assert k == r || Mate(m, r, k);
    }
  }

  lemma FitsIff(m: Matrix, x: set<int>, r: int)
    requires WellFormed(m) && IsCell(m, r)
    ensures Fits(m, x, r) <==> RowColumns(m, m.row[r]) <= x
  {
    var cols := RowColumns(m, m.row[r]);
    if cols <= x { forall k | k in Row(m, r) ensures m.col[k] in x { assert m.col[k] in cols; } }
  }

  /** The rows to try in column `c`: if there is an exact cover, one of them starts one. */
  lemma CoverStarts(m: Matrix, x: set<int>, ids: set<int>, c: int) returns (r: int)
    requires WellFormed(m) && ExactlyCovers(m, x, ids) && c in x
    ensures IsCell(m, r) && m.col[r] == c && Fits(m, x, r) && m.row[r] in ids
    ensures ExactlyCovers(m, x - RowColumns(m, m.row[r]), ids - {m.row[r]})
  {
    assert Hit(m, ids, c);
    var id :| id in ids && Meets(m, id, c);
    r :| IsCell(m, r) && r < |m.row| && m.row[r] == id && m.col[r] == c;
    assert RowInside(m, x, id);
    FitsIff(m, x, r);
    hide RowColumns;
    WithoutRow(m, x, ids, id);
  }

  lemma WithoutRow(m: Matrix, x: set<int>, ids: set<int>, id: int)
    requires ExactlyCovers(m, x, ids) && id in ids
    ensures ExactlyCovers(m, x - RowColumns(m, id), ids - {id})
  {
    hide RowColumns;
    var x', ids' := x - RowColumns(m, id), ids - {id};
    forall d | d in x' ensures Hit(m, ids', d) {
      assert Hit(m, ids, d);
      var i :| i in ids && Meets(m, i, d);
      assert i in ids';
    }
    forall i | i in ids' ensures RowInside(m, x', i) {
      assert RowInside(m, x, i) && Apart(m, i, id);
    }
    forall a, b | a in ids' && b in ids' && a != b ensures Apart(m, a, b) { }
  }

  lemma CoverExtends(m: Matrix, x: set<int>, ids: set<int>, id: int)
    requires RowInside(m, x, id) && ExactlyCovers(m, x - RowColumns(m, id), ids)
    ensures ExactlyCovers(m, x, ids + {id}) && id !in ids
  {
    hide RowColumns;
    var x', ids' := x - RowColumns(m, id), ids + {id};
    forall i | i in ids ensures RowInside(m, x, i) && Apart(m, i, id) && Apart(m, id, i) && i != id {
      assert RowInside(m, x', i);
      var d :| Meets(m, i, d);
    }
    forall d | d in x ensures Hit(m, ids', d) {
      if d in x' {
        assert Hit(m, ids, d);
        var i :| i in ids && Meets(m, i, d);
        assert i in ids';
      } else {
        assert Meets(m, id, d) && id in ids';
      }
    }
    forall a, b | a in ids' && b in ids' && a != b ensures Apart(m, a, b) { }
  }
}
