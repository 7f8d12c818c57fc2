/** The order in which the constructor opens columns and adds candidate rows. */
module SudokuColumns {
  import opened Torus
  import opened ExactCover
  import opened SudokuGrid
  import opened SudokuMatrix

  const kMaxNodes := 1 + 81 * 4 + 9 * 9 * 9 * 4

  /** The table of columns and the headers agree. */
  ghost predicate Indexed(m: Matrix, name: seq<int>, columns: map<int, int>) {
    && |name| == |m.col| && m.heads < |m.col|
    && (forall key <- columns :: IsHead(m, columns[key]) && columns[key] < |name| && name[columns[key]] == key)
    && (forall h {:trigger IsHead(m, h)} :: IsHead(m, h) && h < |name| ==> name[h] in columns && columns[name[h]] == h)
  }

  /** When column `Key(k, i, v)` comes up. */
  function Rank(k: int, i: int, v: int): int { (9 * i + v - 1) * 3 + k }

  ghost predicate UnitKeyBefore(b: seq<int>, key: int, p: int) {
    exists k, i, v :: NeedsValue(b, k, i, v) && key == Key(k, i, v) && Rank(k, i, v) < p
  }

  ghost predicate CellKeysTo(b: seq<int>, columns: map<int, int>, p: int) {
    forall key :: key in columns <==> NeedsCell(b, key) && key < p
  }

  ghost predicate UnitKeysTo(b: seq<int>, columns: map<int, int>, p: int) {
    forall key :: key in columns <==> NeedsCell(b, key) || UnitKeyBefore(b, key, p)
  }

  lemma UnitKeysStart(b: seq<int>, columns: map<int, int>)
    requires CellKeysTo(b, columns, kCells)
    ensures UnitKeysTo(b, columns, 0)
  {
    forall key ensures !UnitKeyBefore(b, key, 0) { }
  }

  lemma RankUnique(k: int, i: int, v: int, k': int, i': int, v': int)
    requires IsUnitKey(k, i, v) && IsUnitKey(k', i', v')
    ensures Rank(k, i, v) == Rank(k', i', v') ==> k == k' && i == i' && v == v'
    ensures Key(k, i, v) == Key(k', i', v') ==> k == k' && i == i' && v == v'
  {
  }

  lemma BeforeStep(b: seq<int>, k: int, i: int, v: int, key: int)
    requires IsUnitKey(k, i, v)
    ensures UnitKeyBefore(b, key, Rank(k, i, v) + 1) <==>
            UnitKeyBefore(b, key, Rank(k, i, v)) || (NeedsValue(b, k, i, v) && key == Key(k, i, v))
    ensures !UnitKeyBefore(b, Key(k, i, v), Rank(k, i, v)) && !NeedsCell(b, Key(k, i, v))
  {
    hide Rank, Key, Used;
    var p := Rank(k, i, v);
    KeyAbove(k, i, v);
    if UnitKeyBefore(b, key, p + 1) {
      var k', i', v' :| NeedsValue(b, k', i', v') && key == Key(k', i', v') && Rank(k', i', v') < p + 1;
      RankUnique(k, i, v, k', i', v');
    }
    forall k', i', v' | NeedsValue(b, k', i', v') && Key(k, i, v) == Key(k', i', v') ensures Rank(k', i', v') >= p {
      RankUnique(k, i, v, k', i', v');
    }
  }

  lemma KeyAbove(k: int, i: int, v: int)
    requires IsUnitKey(k, i, v)
    ensures Key(k, i, v) >= 100 && Key(k, i, v) % 10 == v % 10
  {
  }

  lemma UnitKeysStep(b: seq<int>, columns: map<int, int>, k: int, i: int, v: int, columns': map<int, int>, j: int)
    requires IsUnitKey(k, i, v) && UnitKeysTo(b, columns, Rank(k, i, v))
    requires columns' == if NeedsValue(b, k, i, v) then columns[Key(k, i, v) := j] else columns
    ensures UnitKeysTo(b, columns', Rank(k, i, v) + 1)
    ensures Key(k, i, v) !in columns
  {
    hide Rank, Key, UnitKeyBefore;
    BeforeStep(b, k, i, v, Key(k, i, v));
    forall key
      ensures key in columns' <==> NeedsCell(b, key) || UnitKeyBefore(b, key, Rank(k, i, v) + 1)
    {
      BeforeStep(b, k, i, v, key);
    }
  }

  lemma UnitKeysEnd(b: seq<int>, columns: map<int, int>)
    requires UnitKeysTo(b, columns, 243)
    ensures forall key :: key in columns <==> OpenKey(b, key)
  {
    forall key ensures UnitKeyBefore(b, key, 243) <==> exists k, i, v :: NeedsValue(b, k, i, v) && key == Key(k, i, v) {
      if k, i, v :| NeedsValue(b, k, i, v) && key == Key(k, i, v) {
        assert Rank(k, i, v) < 243;
      }
    }
  }

  lemma IndexedAdd(m: Matrix, name: seq<int>, columns: map<int, int>, key: int)
    requires Indexed(m, name, columns) && |m.col| == m.heads + 1 && key !in columns
    ensures Indexed(Matrix(m.heads + 1, m.col + [|m.col|], m.row + [0]), name + [key], columns[key := |m.col|])
  {
    var m', name', columns' := Matrix(m.heads + 1, m.col + [|m.col|], m.row + [0]), name + [key], columns[key := |m.col|];
    forall h | IsHead(m', h) ensures name'[h] in columns' && columns'[name'[h]] == h {
      if h < |m.col| { assert IsHead(m, h); }
    }
    forall x | x in columns' ensures IsHead(m', columns'[x]) && columns'[x] < |name'| && name'[columns'[x]] == x {
      if x != key { assert IsHead(m, columns[x]); }
    }
  }

  // ---------- Rows ----------

  /** The matrix with the four nodes of row `id` appended. */
  ghost function WithRow(m: Matrix, cs: seq<int>, id: int): Matrix
    requires |cs| == 4
  {
    Matrix(m.heads, m.col + cs, m.row + [id, id, id, id])
  }

  ghost function RowKeys(id: int): (ks: seq<int>)
    requires 0 <= id / 10 < kCells
    ensures |ks| == 4 && forall key :: key in ks <==> HasKey(id, key)
  {
    var c, v := id / 10, id % 10;
    var ks := [c, Key(0, Unit(0, c), v), Key(1, Unit(1, c), v), Key(2, Unit(2, c), v)];
    assert forall key :: HasKey(id, key) ==> key in ks;
    assert forall k :: 0 <= k < 3 ==> ks[k + 1] == Key(k, Unit(k, c), v);
    ks
  }

  lemma RowKeysOpen(b: seq<int>, id: int, t: int)
    requires Candidate(b, id) && 0 <= t < 4
    ensures 0 <= id / 10 < kCells && OpenKey(b, RowKeys(id)[t])
    ensures forall u :: 0 <= u < t ==> RowKeys(id)[u] != RowKeys(id)[t]
  {
    var c, v := id / 10, id % 10;
    UnitRange(0, c);
    UnitRange(1, c);
    UnitRange(2, c);
    if t > 0 { assert NeedsValue(b, t - 1, Unit(t - 1, c), v); }
  }

  lemma RowsSkip(m: Matrix, name: seq<int>, b: seq<int>, done: int)
    requires RowsFor(m, name, b, done) && !Candidate(b, done)
    ensures RowsFor(m, name, b, done + 1)
  {
    hide Candidate, HasKey;
  }

  /** A finished row: its four nodes name its four columns. */
  lemma RowsAdd(m: Matrix, name: seq<int>, columns: map<int, int>, b: seq<int>, id: int, cs: seq<int>)
    requires WellFormed(m) && Indexed(m, name, columns) && RowsFor(m, name, b, id) && Candidate(b, id)
    requires 0 <= id / 10 < kCells && |cs| == 4
    requires forall t :: 0 <= t < 4 ==> RowKeys(id)[t] in columns && cs[t] == columns[RowKeys(id)[t]]
    ensures RowsFor(WithRow(m, cs, id), name + RowKeys(id), b, id + 1)
    ensures Indexed(WithRow(m, cs, id), name + RowKeys(id), columns)
  {
    hide Candidate, HasKey, RowKeys;
    var m', keys := WithRow(m, cs, id), RowKeys(id);
    var name' := name + keys;
    RowNodes(m, name, columns, b, id, cs);
    forall i, key | i < id + 1 && Candidate(b, i) && HasKey(i, key) ensures HasNode(m', name', i, key) {
      if i < id {
        assert HasNode(m, name, i, key);
        var n :| IsCell(m, n) && n < |m.row| && n < |name| && m.row[n] == i && name[n] == key;
        assert IsCell(m', n) && m'.row[n] == i && name'[n] == key;
      } else {
        assert key in keys;
        var t :| 0 <= t < 4 && keys[t] == key;
        var n := |m.col| + t;
        assert IsCell(m', n) && m'.row[n] == id && name'[n] == key;
      }
    }
    forall h | IsHead(m', h) ensures h < |name| && name'[h] == name[h] && name[h] in columns && columns[name[h]] == h { assert IsHead(m, h); }
    forall key | key in columns ensures IsHead(m', columns[key]) { assert IsHead(m, columns[key]); }
  }

  lemma RowNodes(m: Matrix, name: seq<int>, columns: map<int, int>, b: seq<int>, id: int, cs: seq<int>)
    requires WellFormed(m) && Indexed(m, name, columns) && RowsFor(m, name, b, id) && Candidate(b, id)
    requires 0 <= id / 10 < kCells && |cs| == 4
    requires forall t :: 0 <= t < 4 ==> RowKeys(id)[t] in columns && cs[t] == columns[RowKeys(id)[t]]
    ensures var m', name' := WithRow(m, cs, id), name + RowKeys(id);
      forall n {:trigger IsCell(m', n)} :: IsCell(m', n) && 0 <= m'.col[n] < |name'| ==>
          && m'.row[n] < id + 1 && Candidate(b, m'.row[n]) && HasKey(m'.row[n], name'[n]) && name'[n] == name'[m'.col[n]]
  {
    hide Candidate, HasKey, RowKeys;
    var m', keys := WithRow(m, cs, id), RowKeys(id);
    var name' := name + keys;
    forall n | IsCell(m', n) && 0 <= m'.col[n] < |name'|
      ensures m'.row[n] < id + 1 && Candidate(b, m'.row[n]) && HasKey(m'.row[n], name'[n]) && name'[n] == name'[m'.col[n]]
    {
      if n < |m.col| {
        assert IsCell(m, n);
      } else {
        var t := n - |m.col|;
        assert m'.col[n] == cs[t] && name'[n] == keys[t] && keys[t] in keys;
        assert m'.row[n] == [id, id, id, id][t] == id;
        assert IsHead(m, columns[keys[t]]);
      }
    }
  }

  // ---------- Values on the board ----------

  ghost predicate MarkedTo(b: seq<int>, key: int, p: int) {
    exists k, c {:trigger Unit(k, c)} :: 0 <= k < 3 && 0 <= c < p && c < kCells && c < |b| && key == Key(k, Unit(k, c), b[c])
  }

  lemma MarkedStep(b: seq<int>, key: int, c: int)
    requires 0 <= c < kCells && |b| == kCells
    ensures MarkedTo(b, key, c + 1) <==>
      (MarkedTo(b, key, c) || key in {Key(0, Unit(0, c), b[c]), Key(1, Unit(1, c), b[c]), Key(2, Unit(2, c), b[c])})
  {
    hide Unit, Key;
    if MarkedTo(b, key, c + 1) {
      var k, d :| 0 <= k < 3 && 0 <= d < c + 1 && key == Key(k, Unit(k, d), b[d]);
    }
    assert Key(0, Unit(0, c), b[c]) == key ==> MarkedTo(b, key, c + 1);
    assert Key(1, Unit(1, c), b[c]) == key ==> MarkedTo(b, key, c + 1);
    assert Key(2, Unit(2, c), b[c]) == key ==> MarkedTo(b, key, c + 1);
  }

  lemma MarkedIff(b: seq<int>, k: int, i: int, v: int)
    requires IsBoard(b) && IsUnitKey(k, i, v)
    ensures MarkedTo(b, Key(k, i, v), kCells) <==> Used(b, k, i, v)
  {
    hide Unit;
    if MarkedTo(b, Key(k, i, v), kCells) {
      var k', c :| 0 <= k' < 3 && 0 <= c < kCells && Key(k, i, v) == Key(k', Unit(k', c), b[c]);
      UnitRange(k', c);
      assert InUnit(k, i, c) && b[c] == v;
    }
    if Used(b, k, i, v) {
      var c :| InUnit(k, i, c) && c < |b| && b[c] == v;
      assert Key(k, i, v) == Key(k, Unit(k, c), b[c]);
    }
  }

  lemma RankAt(i: int)
    ensures Rank(0, i, 1) == 27 * i && Rank(0, i, 10) == 27 * (i + 1)
  {
  }

  lemma RankIs(i: int, v: int)
    ensures Rank(1, i, v) == Rank(0, i, v) + 1 && Rank(2, i, v) == Rank(0, i, v) + 2
    ensures Rank(0, i, v + 1) == Rank(0, i, v) + 3
    ensures 0 <= i < 9 && 1 <= v <= 9 ==> 0 <= Rank(0, i, v) < 241
  {
  }

  // ---------- Before a row is added ----------

  ghost predicate FreshRow(m: Matrix, id: int) {
    forall n {:trigger IsCell(m, n)} :: IsCell(m, n) && n < |m.row| ==> m.row[n] != id
  }

  lemma FreshGrows(m: Matrix, c: int, id: int, other: int)
    requires |m.row| == |m.col| && FreshRow(m, other) && id != other
    ensures FreshRow(Matrix(m.heads, m.col + [c], m.row + [id]), other)
  {
    var m' := Matrix(m.heads, m.col + [c], m.row + [id]);
    forall n | IsCell(m', n) && n < |m'.row| ensures m'.row[n] != other {
      if n < |m.row| { assert IsCell(m, n); }
    }
  }

  lemma IndexedGrows(m: Matrix, name: seq<int>, columns: map<int, int>, c: int, id: int, key: int)
    requires Indexed(m, name, columns)
    ensures Indexed(Matrix(m.heads, m.col + [c], m.row + [id]), name + [key], columns)
  {
    var m' := Matrix(m.heads, m.col + [c], m.row + [id]);
    forall h | IsHead(m', h) ensures name[h] in columns && columns[name[h]] == h { assert IsHead(m, h); }
    forall x | x in columns ensures IsHead(m', columns[x]) { assert IsHead(m, columns[x]); }
  }

  /** All four columns exist and are different. */
  ghost predicate AllOpen(columns: map<int, int>, ks: seq<int>) {
    && (forall t :: 0 <= t < |ks| ==> ks[t] in columns)
    && forall t, u :: 0 <= u < t < |ks| ==> columns[ks[u]] != columns[ks[t]]
  }

  /** What a candidate finds: its four columns exist and differ, and its row is new. */
  lemma CandidateReady(m: Matrix, name: seq<int>, columns: map<int, int>, b: seq<int>, c: int, v: int)
    requires WellFormed(m) && Indexed(m, name, columns) && 1 <= v <= 9 && Candidate(b, 10 * c + v)
    requires RowsFor(m, name, b, 10 * c + v) && forall key :: key in columns <==> OpenKey(b, key)
    ensures 0 <= c < kCells && (10 * c + v) / 10 == c
    ensures RowKeys(10 * c + v) == [c, Key(0, Unit(0, c), v), Key(1, Unit(1, c), v), Key(2, Unit(2, c), v)]
    ensures AllOpen(columns, RowKeys(10 * c + v))
    ensures FreshRow(m, 10 * c + v) && FreshRow(m, -1) && FreshRow(m, -2) && FreshRow(m, -3)
  {
    var id := 10 * c + v;
    assert id / 10 == c && id % 10 == v;
    hide Unit, OpenKey, HasKey, Key, Used;
    forall t | 0 <= t < 4 ensures RowKeys(id)[t] in columns && forall u :: 0 <= u < t ==> RowKeys(id)[u] != RowKeys(id)[t] {
      RowKeysOpen(b, id, t);
    }
    forall n | IsCell(m, n) && n < |m.row| ensures 0 <= m.row[n] < id {
      assert IsHead(m, m.col[n]);
      assert Candidate(b, m.row[n]);
      CandidateRange(b, m.row[n]);
    }
  }
}
