/** The snapshot text of a shard server and its recovery into a fresh one. */
module SnapshotCodec {
  import opened Basics
  import opened Codec
  import opened ShardConfig
  import opened ShardGroup
  import opened ShardCodec

  /** shard -> data, and configuration number -> shards, in iteration order */
  type ShardList = seq<(int, Pairs)>
  type OutList = seq<(int, ShardList)>
  type GarbageList = seq<(int, seq<int>)>

  /** A server's containers, each in the order it is iterated. */
  datatype Layout = Layout(
    db: Pairs, seqs: seq<(int, int)>, comeIn: seq<(int, int)>, toOut: OutList,
    available: seq<int>, garbages: GarbageList, num: int, shards: seq<int>, groups: Groups)

  // ---------- Writing ----------

  function ShardToken(s: (int, Pairs)): string {
    ToString(s.0) + [','] + EncodePairs(s.1, ' ', '.')
  }

  function ShardTokens(shards: ShardList): seq<string> {
    seq(|shards|, i requires 0 <= i < |shards| => ShardToken(shards[i]))
  }

  function OutToken(o: (int, ShardList)): string {
    ToString(o.0) + [':'] + Close(ShardTokens(o.1), '/')
  }

  function OutTokens(out: OutList): seq<string> {
    seq(|out|, i requires 0 <= i < |out| => OutToken(out[i]))
  }

  function GarbageToken(g: (int, seq<int>)): string {
    ToString(g.0) + [':'] + Close(NumberTokens(g.1), '.')
  }

  function GarbageTokens(garbages: GarbageList): seq<string> {
    seq(|garbages|, i requires 0 <= i < |garbages| => GarbageToken(garbages[i]))
  }

  function Sections(l: Layout): seq<string> {
    [Section(EncodePairs(l.db, ' ', '.')),
     Section(EncodePairs(Named(l.seqs), ' ', '.')),
     Section(EncodePairs(Named(l.comeIn), ' ', '.')),
     Section(Close(OutTokens(l.toOut), '|')),
     Section(Close(NumberTokens(l.available), '.')),
     Section(Close(GarbageTokens(l.garbages), '|')),
     EncodeConfig(l.num, l.shards, l.groups)]
  }

  function GetSnapshot(l: Layout): string {
    Close(Sections(l), ';')
  }

  /** The shards that one configuration sends out. */
  method WriteShards(shards: ShardList) returns (str: string)
    ensures str == Close(ShardTokens(shards), '/')
  {
    hide Close, ToString, ShardToken;
    str := "";
    ghost var tokens := ShardTokens(shards);
    assert "" + Close(tokens, '/') == Close(tokens, '/') && tokens[0..] == tokens;
    for i := 0 to |shards|
      invariant str + Close(tokens[i..], '/') == Close(tokens, '/')
    {
      var data := WritePairs(shards[i].1, ' ', '.');
      var token := ToString(shards[i].0) + "," + data;
      ShardTokenIs(shards[i]);
      CloseNext(tokens, i, '/');
      CloseStep(str, tokens[i], '/', Close(tokens[i + 1..], '/'));
      str := str + token + "/";
    }
    CloseNone('/');
    assert tokens[|shards|..] == [] && str + [] == str;
  }

  lemma ShardTokenIs(s: (int, Pairs))
    ensures ShardToken(s) == ToString(s.0) + "," + EncodePairs(s.1, ' ', '.')
  {
  }

  method WriteOuts(out: OutList) returns (str: string)
    ensures str == Close(OutTokens(out), '|')
  {
    hide Close, ToString, ShardTokens;
    str := "";
    ghost var tokens := OutTokens(out);
    assert "" + Close(tokens, '|') == Close(tokens, '|') && tokens[0..] == tokens;
    for i := 0 to |out|
      invariant str + Close(tokens[i..], '|') == Close(tokens, '|')
    {
      var shards := WriteShards(out[i].1);
      var token := ToString(out[i].0) + ":" + shards;
      CloseNext(tokens, i, '|');
      CloseStep(str, tokens[i], '|', Close(tokens[i + 1..], '|'));
      str := str + token + "|";
    }
    CloseNone('|');
    assert tokens[|out|..] == [] && str + [] == str;
  }

  method WriteGarbages(garbages: GarbageList) returns (str: string)
    ensures str == Close(GarbageTokens(garbages), '|')
  {
    hide Close, ToString, NumberTokens;
    str := "";
    ghost var tokens := GarbageTokens(garbages);
    assert "" + Close(tokens, '|') == Close(tokens, '|') && tokens[0..] == tokens;
    for i := 0 to |garbages|
      invariant str + Close(tokens[i..], '|') == Close(tokens, '|')
    {
      var shards := WriteNumbers(garbages[i].1, '.');
      var token := ToString(garbages[i].0) + ":" + shards;
      CloseNext(tokens, i, '|');
      CloseStep(str, tokens[i], '|', Close(tokens[i + 1..], '|'));
      str := str + token + "|";
    }
    CloseNone('|');
    assert tokens[|garbages|..] == [] && str + [] == str;
  }

  /** A container's text, or the marker for an empty one. */
  function Marked(none: bool, text: string): string { if none then EMPTY else text }

  lemma MarkedIs(tokens: seq<string>, d: char)
    ensures Section(Close(tokens, d)) == Marked(tokens == [], Close(tokens, d))
  {
    if tokens != [] { CloseNonEmpty(tokens, d); }
  }

  /** getSnapShot */
  method WriteSnapshot(l: Layout) returns (str: string)
    ensures str == GetSnapshot(l)
  {
    hide Close, EncodeConfig, Section, PairTokens, OutTokens, NumberTokens, GarbageTokens;
    var db := WritePairs(l.db, ' ', '.');
    var seqs := WritePairs(Named(l.seqs), ' ', '.');
    var comeIn := WritePairs(Named(l.comeIn), ' ', '.');
    var out := WriteOuts(l.toOut);
    var available := WriteNumbers(l.available, '.');
    var garbages := WriteGarbages(l.garbages);
    var config := WriteConfig(l.num, l.shards, l.groups);
    SectionsMarked(l);
    str := Marked(l.db == [], db) + ";" + Marked(l.seqs == [], seqs) + ";" + Marked(l.comeIn == [], comeIn) + ";"
           + Marked(l.toOut == [], out) + ";" + Marked(l.available == [], available) + ";"
           + Marked(l.garbages == [], garbages) + ";" + config + ";";
    CloseSeven(Sections(l), ';');
  }

  lemma SectionsMarked(l: Layout)
    ensures Sections(l) == [
      Marked(l.db == [], EncodePairs(l.db, ' ', '.')),
      Marked(l.seqs == [], EncodePairs(Named(l.seqs), ' ', '.')),
      Marked(l.comeIn == [], EncodePairs(Named(l.comeIn), ' ', '.')),
      Marked(l.toOut == [], Close(OutTokens(l.toOut), '|')),
      Marked(l.available == [], Close(NumberTokens(l.available), '.')),
      Marked(l.garbages == [], Close(GarbageTokens(l.garbages), '|')),
      EncodeConfig(l.num, l.shards, l.groups)]
  {
    hide Close, EncodeConfig, ToString, OutToken, GarbageToken;
    MarkedIs(PairTokens(l.db, ' '), '.');
    MarkedIs(PairTokens(Named(l.seqs), ' '), '.');
    MarkedIs(PairTokens(Named(l.comeIn), ' '), '.');
    MarkedIs(OutTokens(l.toOut), '|');
    MarkedIs(NumberTokens(l.available), '.');
    MarkedIs(GarbageTokens(l.garbages), '|');
  }

  lemma CloseSeven(t: seq<string>, d: char)
    requires |t| == 7
    ensures Close(t, d) == t[0] + [d] + t[1] + [d] + t[2] + [d] + t[3] + [d] + t[4] + [d] + t[5] + [d] + t[6] + [d]
  {
    CloseNext(t, 0, d);
    CloseNext(t, 1, d);
    assert t[0..] == t && t[2..] == [t[2], t[3], t[4], t[5], t[6]];
    CloseFive(t[2], t[3], t[4], t[5], t[6], d);
  }

  // ---------- Reading ----------

  function ReadShard(token: string): Option<(int, Pairs)> {
    var data := Split(token, ',');
    if |data| < 2 then None
    else
      match (ToInt(data[0]), DecodeTokens(Split(data[1], '.'), ' '))
      case (Some(s), Some(pairs)) => Some((s, pairs))
      case _ => None
  }

  function ReadShards(tokens: seq<string>): Option<ShardList> {
    if tokens == [] then Some([])
    else
      match (ReadShards(tokens[..|tokens| - 1]), ReadShard(tokens[|tokens| - 1]))
      case (Some(ss), Some(s)) => Some(ss + [s])
      case _ => None
  }

  /** The shard pieces of everything after the configuration number. */
  function ShardPieces(parts: seq<string>): seq<string> {
    if parts == [] then [] else Split(parts[0], '/') + ShardPieces(parts[1..])
  }

  function ReadOut(token: string): Option<(int, ShardList)> {
    var parts := Split(token, ':');
    if parts == [] then None
    else
      match (ToInt(parts[0]), ReadShards(ShardPieces(parts[1..])))
      case (Some(num), Some(shards)) => Some((num, shards))
      case _ => None
  }

  function ReadOuts(tokens: seq<string>): Option<OutList> {
    if tokens == [] then Some([])
    else
      match (ReadOuts(tokens[..|tokens| - 1]), ReadOut(tokens[|tokens| - 1]))
      case (Some(os), Some(o)) => Some(os + [o])
      case _ => None
  }

  function ReadGarbage(token: string): Option<(int, seq<int>)> {
    match Cut(token, ':')
    case None => None
    case Some((a, b)) =>
      match (ToInt(a), ReadNumbers(Split(b, '.')))
      case (Some(num), Some(shards)) => Some((num, shards))
      case _ => None
  }

  function ReadGarbages(tokens: seq<string>): Option<GarbageList> {
    if tokens == [] then Some([])
    else
      match (ReadGarbages(tokens[..|tokens| - 1]), ReadGarbage(tokens[|tokens| - 1]))
      case (Some(gs), Some(g)) => Some(gs + [g])
      case _ => None
  }

  // ---------- Putting entries into nested containers one by one ----------

  type Out = map<int, map<int, Data>>

  function InnerData(shards: map<int, Data>, s: int): Data {
    if s in shards then shards[s] else map[]
  }

  function PutOut(m: Out, c: int, s: int, k: string, v: string): Out {
    m[c := OutOf(m, c)[s := InnerData(OutOf(m, c), s)[k := v]]]
  }

  function AddPairs(m: Out, c: int, s: int, pairs: Pairs): Out {
    if pairs == [] then m
    else
      var last := pairs[|pairs| - 1];
      PutOut(AddPairs(m, c, s, pairs[..|pairs| - 1]), c, s, last.0, last.1)
  }

  function AddShards(m: Out, c: int, shards: ShardList): Out {
    if shards == [] then m
    else
      var last := shards[|shards| - 1];
      AddPairs(AddShards(m, c, shards[..|shards| - 1]), c, last.0, last.1)
  }

  function BuildOut(out: OutList): Out {
    if out == [] then map[]
    else AddShards(BuildOut(out[..|out| - 1]), out[|out| - 1].0, out[|out| - 1].1)
  }

  function AddGarbage(m: map<int, set<int>>, c: int, shards: seq<int>): map<int, set<int>> {
    if shards == [] then m
    else
      var m' := AddGarbage(m, c, shards[..|shards| - 1]);
      m'[c := Garbage(m', c) + {shards[|shards| - 1]}]
  }

  function BuildGarbage(garbages: GarbageList): map<int, set<int>> {
    if garbages == [] then map[]
    else AddGarbage(BuildGarbage(garbages[..|garbages| - 1]), garbages[|garbages| - 1].0, garbages[|garbages| - 1].1)
  }

  function ToSet(s: seq<int>): set<int> {
    set x | x in s
  }

  /** recoverySnapShot into a fresh server; None where the original reads past a vector. */
  function Recover(gid: int, text: string): Option<Group> {
    var str := Split(text, ';');
    if |str| < 7 then None
    else
      var out := if str[3] == EMPTY then Some([]) else ReadOuts(Split(str[3], '|'));
      var available := if str[4] == EMPTY then Some([]) else ReadNumbers(Split(str[4], '.'));
      var garbages := if str[5] == EMPTY then Some([]) else ReadGarbages(Split(str[5], '|'));
      match (ReadPairSection(str[0], ' ', '.'), ReadNumberPairs(str[1], ' ', '.'), ReadNumberPairs(str[2], ' ', '.'),
             out, available, garbages, DecodeConfig(str[6]))
      case (Some(db), Some(seqs), Some(comeIn), Some(os), Some(av), Some(gs), Some(config)) =>
        Some(Group(gid, config, FromPairs(db), FromPairs(seqs), FromPairs(comeIn),
                   BuildOut(os), ToSet(av), BuildGarbage(gs)))
      case _ => None
  }

  // ---------- What the layout holds ----------

  function ShardsOf(shards: ShardList): seq<(int, Data)> {
    seq(|shards|, i requires 0 <= i < |shards| => (shards[i].0, FromPairs(shards[i].1)))
  }

  function OutsOf(out: OutList): seq<(int, map<int, Data>)> {
    seq(|out|, i requires 0 <= i < |out| => (out[i].0, FromPairs(ShardsOf(out[i].1))))
  }

  function GarbagesOf(garbages: GarbageList): seq<(int, set<int>)> {
    seq(|garbages|, i requires 0 <= i < |garbages| => (garbages[i].0, ToSet(garbages[i].1)))
  }

  function Content(gid: int, l: Layout): Group {
    Group(gid, Config(l.num, l.shards, FromPairs(l.groups)), FromPairs(l.db), FromPairs(l.seqs), FromPairs(l.comeIn),
          FromPairs(OutsOf(l.toOut)), ToSet(l.available), FromPairs(GarbagesOf(l.garbages)))
  }

  predicate Distinct<V>(pairs: seq<(int, V)>) {
    forall i, j :: 0 <= i < j < |pairs| ==> pairs[i].0 != pairs[j].0
  }

  /** Keys, values and server names hold no delimiter, and no container repeats a key. */
  predicate Clean(l: Layout) {
    && PlainPairs(l.db)
    && (forall o <- l.toOut :: Distinct(o.1) && forall s <- o.1 :: PlainPairs(s.1))
    && Distinct(l.toOut) && Distinct(l.garbages)
    && l.shards != [] && CleanGroups(l.groups)
  }

  /** No configuration without outgoing shards, no outgoing shard without data, no
      configuration without garbage. */
  predicate Solid(l: Layout) {
    && (forall o <- l.toOut :: o.1 != [] && forall s <- o.1 :: s.1 != [])
    && (forall g <- l.garbages :: g.1 != [])
  }

  // ---------- Pieces read back ----------

  lemma ShardTokenOk(s: (int, Pairs), d: char)
    requires PlainPairs(s.1) && Marks(d) && d != ',' && d != ' ' && d != '.'
    ensures ShardToken(s) != [] && Free(ShardToken(s), d)
    ensures ReadShard(ShardToken(s)) == if s.1 == [] then None else Some(s)
  {
    var a, b := ToString(s.0), EncodePairs(s.1, ' ', '.');
    NumberFree(s.0, d);
    NumberFree(s.0, ',');
    PairsFree(s.1, ' ', '.', d);
    PairsFree(s.1, ' ', '.', ',');
    if s.1 == [] {
      assert b == [] && ShardToken(s) == a + [','];
      SplitOne(a, ',');
    } else {
      CloseNonEmpty(PairTokens(s.1, ' '), '.');
      SplitTwo(a, b, ',');
      PairsRoundTrip(s.1, ' ', '.');
      NumberRoundTrip(s.0);
    }
  }

  lemma {:induction false} ShardsRead(shards: ShardList)
    requires forall s <- shards :: PlainPairs(s.1)
    ensures ReadShards(ShardTokens(shards)) ==
            if forall s <- shards :: s.1 != [] then Some(shards) else None
  {
    hide ReadShard, ShardToken;
    if shards != [] {
      var k := |shards| - 1;
      assert shards[k] in shards;
      assert ShardTokens(shards)[..k] == ShardTokens(shards[..k]);
      ShardsRead(shards[..k]);
      ShardTokenOk(shards[k], '/');
      assert shards[..k] + [shards[k]] == shards;
      assert forall s :: s in shards <==> s in shards[..k] || s == shards[k];
    }
  }

  lemma ShardTokensOk(shards: ShardList, d: char)
    requires (forall s <- shards :: PlainPairs(s.1)) && Marks(d) && d != ',' && d != ' ' && d != '.'
    ensures Pieces(ShardTokens(shards), d)
  {
    forall t | t in ShardTokens(shards)
      ensures t != [] && Free(t, d)
    {
      var i :| 0 <= i < |shards| && ShardTokens(shards)[i] == t;
      assert shards[i] in shards;
      ShardTokenOk(shards[i], d);
    }
  }

  predicate PlainOut(o: (int, ShardList)) {
    forall s <- o.1 :: PlainPairs(s.1)
  }

  lemma OutTokenFree(o: (int, ShardList), d: char)
    requires PlainOut(o) && (d == ';' || d == '|')
    ensures OutToken(o) != [] && Free(OutToken(o), d)
  {
    NumberFree(o.0, d);
    ShardTokensOk(o.1, d);
    CloseFree(ShardTokens(o.1), '/', d);
  }

  lemma OutTokenRead(o: (int, ShardList))
    requires PlainOut(o)
    ensures ReadOut(OutToken(o)) == if forall s <- o.1 :: s.1 != [] then Some(o) else None
  {
    hide SplitFrom, ToInt, ToString, ReadShards, ShardToken;
    var a, b := ToString(o.0), Close(ShardTokens(o.1), '/');
    NumberFree(o.0, ':');
    NumberRoundTrip(o.0);
    ShardsRead(o.1);
    if o.1 == [] {
      assert b == [] && OutToken(o) == a + [':'];
      SplitOne(a, ':');
      assert [a][1..] == [] && ShardTokens(o.1) == [];
    } else {
      hide Close;
      ShardTokensOk(o.1, '/');
      ShardTokensOk(o.1, ':');
      CloseNonEmpty(ShardTokens(o.1), '/');
      CloseFree(ShardTokens(o.1), '/', ':');
      SplitTwo(a, b, ':');
      SplitClose(ShardTokens(o.1), '/', true);
      assert [a, b][1..] == [b] && [b][1..] == [];
      assert ShardPieces([b]) == Split(b, '/') + [] == ShardTokens(o.1);
    }
  }

  predicate Full(out: OutList) {
    forall o <- out :: forall s <- o.1 :: s.1 != []
  }

  lemma FullSnoc(out: OutList)
    requires out != []
    ensures out[|out| - 1] in out && forall o :: o in out <==> o in out[..|out| - 1] || o == out[|out| - 1]
    ensures Full(out) <==> Full(out[..|out| - 1]) && forall s <- out[|out| - 1].1 :: s.1 != []
  {
    assert out == out[..|out| - 1] + [out[|out| - 1]];
  }

  lemma {:induction false} OutsRead(out: OutList)
    requires forall o <- out :: PlainOut(o)
    ensures ReadOuts(OutTokens(out)) == if Full(out) then Some(out) else None
  {
    hide ReadOut, OutToken, PlainOut;
    if out != [] {
      var k := |out| - 1;
      FullSnoc(out);
      assert OutTokens(out)[..k] == OutTokens(out[..k]);
      OutsRead(out[..k]);
      OutTokenRead(out[k]);
      assert out[..k] + [out[k]] == out;
    }
  }

  lemma GarbageTokenOk(g: (int, seq<int>), d: char)
    requires d == ';' || d == '|'
    ensures GarbageToken(g) != [] && Free(GarbageToken(g), d) && ReadGarbage(GarbageToken(g)) == Some(g)
  {
    NumberFree(g.0, ':');
    NumberFree(g.0, d);
    NumbersFree(g.1, '.', d);
    CutJoin(ToString(g.0), Close(NumberTokens(g.1), '.'), ':');
    NumberRoundTrip(g.0);
    NumbersRoundTrip(g.1, '.', true);
  }

  lemma {:induction false} GarbagesRead(garbages: GarbageList)
    ensures ReadGarbages(GarbageTokens(garbages)) == Some(garbages)
  {
    hide ReadGarbage, GarbageToken;
    if garbages != [] {
      var k := |garbages| - 1;
      assert GarbageTokens(garbages)[..k] == GarbageTokens(garbages[..k]);
      GarbagesRead(garbages[..k]);
      GarbageTokenOk(garbages[k], ';');
      assert garbages[..k] + [garbages[k]] == garbages;
    }
  }

  // ---------- Building nested maps ----------

  lemma {:induction false} FromPairsKeys<V>(pairs: seq<(int, V)>, k: int)
    ensures k in FromPairs(pairs) <==> exists i :: 0 <= i < |pairs| && pairs[i].0 == k
  {
    if pairs != [] {
      var last := |pairs| - 1;
      FromPairsKeys(pairs[..last], k);
      if k in FromPairs(pairs[..last]) {
        var i :| 0 <= i < last && pairs[..last][i].0 == k;
        assert pairs[i].0 == k;
      }
      if i :| 0 <= i < |pairs| && pairs[i].0 == k {
        if i < last { assert pairs[..last][i].0 == k; }
      }
    }
  }

  lemma UpdateTwice(m: Out, c: int, s: int, out: map<int, Data>, a: Data, b: Data)
    ensures m[c := out[s := a]][c := out[s := a][s := b]] == m[c := out[s := b]]
  {
    assert out[s := a][s := b] == out[s := b];
  }

  lemma {:induction false} AddPairsIs(m: Out, c: int, s: int, pairs: Pairs)
    requires pairs != [] && s !in OutOf(m, c)
    ensures AddPairs(m, c, s, pairs) == m[c := OutOf(m, c)[s := FromPairs(pairs)]]
  {
    var k := |pairs| - 1;
    var last := pairs[k];
    if k > 0 {
      AddPairsIs(m, c, s, pairs[..k]);
      UpdateTwice(m, c, s, OutOf(m, c), FromPairs(pairs[..k]), FromPairs(pairs));
    } else {
      assert pairs[..k] == [];
      assert AddPairs(m, c, s, pairs[..k]) == m;
      assert FromPairs(pairs) == map[][last.0 := last.1];
    }
  }

  lemma {:induction false} AddShardsIs(m: Out, c: int, shards: ShardList)
    requires shards != [] && Distinct(shards) && c !in m && forall s <- shards :: s.1 != []
    ensures AddShards(m, c, shards) == m[c := FromPairs(ShardsOf(shards))]
  {
    hide AddPairs, FromPairs, OutOf;
    var k := |shards| - 1;
    var init := shards[..k];
    var before := AddShards(m, c, init);
    assert ShardsOf(shards)[..k] == ShardsOf(init);
    assert shards[k] in shards;
    if k > 0 { AddShardsIs(m, c, init); }
    OutAfter(m, c, ShardsOf(init), before);
    FromPairsKeys(ShardsOf(init), shards[k].0);
    AddPairsIs(before, c, shards[k].0, shards[k].1);
    FromPairsSnoc(ShardsOf(shards));
  }

  lemma OutAfter(m: Out, c: int, pairs: seq<(int, Data)>, before: Out)
    requires c !in m && before == if pairs == [] then m else m[c := FromPairs(pairs)]
    ensures OutOf(before, c) == FromPairs(pairs)
    ensures forall inner {:trigger before[c := inner]} :: before[c := inner] == m[c := inner]
  {
  }

  lemma FromPairsSnoc<V>(pairs: seq<(int, V)>)
    requires pairs != []
    ensures var k := |pairs| - 1; FromPairs(pairs) == FromPairs(pairs[..k])[pairs[k].0 := pairs[k].1]
  {
  }

  predicate SolidOut(out: OutList) {
    forall o <- out :: o.1 != [] && forall s <- o.1 :: s.1 != []
  }

  lemma {:induction false} BuildOutIs(out: OutList)
    requires Distinct(out) && SolidOut(out) && forall o <- out :: Distinct(o.1)
    ensures BuildOut(out) == FromPairs(OutsOf(out))
  {
    if out != [] {
      var k := |out| - 1;
      assert OutsOf(out)[..k] == OutsOf(out[..k]);
      assert out[k] in out;
      BuildOutIs(out[..k]);
      FromPairsKeys(OutsOf(out[..k]), out[k].0);
      AddShardsIs(BuildOut(out[..k]), out[k].0, out[k].1);
    }
  }

  lemma {:induction false} AddPairsKeys(m: Out, c: int, s: int, pairs: Pairs)
    ensures AddPairs(m, c, s, pairs).Keys <= m.Keys + {c}
  {
    if pairs != [] { AddPairsKeys(m, c, s, pairs[..|pairs| - 1]); }
  }

  lemma {:induction false} AddShardsKeys(m: Out, c: int, shards: ShardList)
    ensures AddShards(m, c, shards).Keys <= m.Keys + {c}
  {
    if shards != [] {
      var k := |shards| - 1;
      AddShardsKeys(m, c, shards[..k]);
      AddPairsKeys(AddShards(m, c, shards[..k]), c, shards[k].0, shards[k].1);
    }
  }

  /** A configuration without outgoing shards is not rebuilt. */
  lemma {:induction false} BuildOutMisses(out: OutList, i: nat)
    requires Distinct(out) && i < |out| && out[i].1 == []
    ensures out[i].0 !in BuildOut(out)
  {
    var k := |out| - 1;
    if i < k {
      BuildOutMisses(out[..k], i);
      AddShardsKeys(BuildOut(out[..k]), out[k].0, out[k].1);
    } else {
      BuildOutOnly(out[..k], out[k].0);
    }
  }

  lemma {:induction false} BuildOutOnly(out: OutList, c: int)
    requires forall i :: 0 <= i < |out| ==> out[i].0 != c
    ensures c !in BuildOut(out)
  {
    if out != [] {
      var k := |out| - 1;
      BuildOutOnly(out[..k], c);
      AddShardsKeys(BuildOut(out[..k]), out[k].0, out[k].1);
    }
  }

  lemma {:induction false} AddGarbageIs(m: map<int, set<int>>, c: int, shards: seq<int>)
    requires c !in m
    ensures AddGarbage(m, c, shards) == if shards == [] then m else m[c := ToSet(shards)]
  {
    if shards != [] {
      var k := |shards| - 1;
      AddGarbageIs(m, c, shards[..k]);
      var m' := AddGarbage(m, c, shards[..k]);
      assert ToSet(shards) == ToSet(shards[..k]) + {shards[k]};
      assert Garbage(m', c) == ToSet(shards[..k]);
      assert m'[c := ToSet(shards)] == m[c := ToSet(shards)];
    }
  }

  /** Garbage is rebuilt exactly if no configuration's set is empty. */
  lemma {:induction false} BuildGarbageIs(garbages: GarbageList)
    requires Distinct(garbages)
    ensures forall c :: c in BuildGarbage(garbages) ==> exists i :: 0 <= i < |garbages| && garbages[i].0 == c && garbages[i].1 != []
    ensures (forall g <- garbages :: g.1 != []) ==> BuildGarbage(garbages) == FromPairs(GarbagesOf(garbages))
  {
    if garbages != [] {
      var k := |garbages| - 1;
      var init := garbages[..k];
      assert GarbagesOf(garbages)[..k] == GarbagesOf(init);
      assert garbages[k] in garbages;
      BuildGarbageIs(init);
      assert forall i :: 0 <= i < k ==> init[i].0 != garbages[k].0;
      AddGarbageIs(BuildGarbage(init), garbages[k].0, garbages[k].1);
      forall c | c in BuildGarbage(garbages)
        ensures exists i :: 0 <= i < |garbages| && garbages[i].0 == c && garbages[i].1 != []
      {
        if c in BuildGarbage(init) {
          var i :| 0 <= i < k && init[i].0 == c && init[i].1 != [];
          assert garbages[i].0 == c;
        }
      }
    }
  }

  // ---------- The whole snapshot ----------

  lemma OutSection(out: OutList)
    requires forall o <- out :: PlainOut(o)
    ensures var text := Section(Close(OutTokens(out), '|'));
            && text != [] && Free(text, ';')
            && (if text == EMPTY then Some([]) else ReadOuts(Split(text, '|'))) == if Full(out) then Some(out) else None
  {
    var tokens := OutTokens(out);
    forall i | 0 <= i < |out|
      ensures tokens[i] != [] && Free(tokens[i], '|') && Free(tokens[i], ';')
    {
      assert out[i] in out;
      OutTokenFree(out[i], '|');
      OutTokenFree(out[i], ';');
    }
    CloseFree(tokens, '|', ';');
    SplitClose(tokens, '|', true);
    OutsRead(out);
    if out != [] { CloseNonEmpty(tokens, '|'); }
  }

  lemma GarbageSection(garbages: GarbageList)
    ensures var text := Section(Close(GarbageTokens(garbages), '|'));
            && text != [] && Free(text, ';')
            && (if text == EMPTY then Some([]) else ReadGarbages(Split(text, '|'))) == Some(garbages)
  {
    var tokens := GarbageTokens(garbages);
    forall i | 0 <= i < |garbages|
      ensures tokens[i] != [] && Free(tokens[i], '|') && Free(tokens[i], ';')
    {
      GarbageTokenOk(garbages[i], '|');
      GarbageTokenOk(garbages[i], ';');
    }
    CloseFree(tokens, '|', ';');
    SplitClose(tokens, '|', true);
    GarbagesRead(garbages);
    if garbages != [] { CloseNonEmpty(tokens, '|'); }
  }

  lemma AvailableSection(ns: seq<int>)
    ensures var text := Section(Close(NumberTokens(ns), '.'));
            && text != [] && Free(text, ';')
            && (if text == EMPTY then Some([]) else ReadNumbers(Split(text, '.'))) == Some(ns)
  {
    NumbersFree(ns, '.', ';');
    NumbersRoundTrip(ns, '.', true);
    if ns != [] { CloseNonEmpty(NumberTokens(ns), '.'); }
  }

  lemma ConfigSection(l: Layout)
    requires l.shards != [] && CleanGroups(l.groups)
    ensures var text := EncodeConfig(l.num, l.shards, l.groups);
            && text != [] && Free(text, ';')
            && DecodeConfig(text) == Some(Config(l.num, l.shards, FromPairs(l.groups)))
  {
    var tokens := [ToString(l.num), Close(NumberTokens(l.shards), ':'), Close(GroupTokens(l.groups), '|')];
    ConfigRoundTrip(Config(l.num, l.shards, FromPairs(l.groups)), l.groups);
    NumberFree(l.num, ';');
    NumbersFree(l.shards, ':', ';');
    GroupsFree(l.groups, ';');
    CloseFree(tokens, '/', ';');
    CloseNonEmpty(tokens, '/');
  }

  lemma PairSections(l: Layout)
    requires PlainPairs(l.db)
    ensures forall i :: 0 <= i < 3 ==> Sections(l)[i] != [] && Free(Sections(l)[i], ';')
    ensures ReadPairSection(Sections(l)[0], ' ', '.') == Some(l.db)
    ensures ReadNumberPairs(Sections(l)[1], ' ', '.') == Some(l.seqs)
    ensures ReadNumberPairs(Sections(l)[2], ' ', '.') == Some(l.comeIn)
  {
    hide ReadPairSection, ReadNumberPairs, EncodePairs, Section, Named, Close, OutTokens, NumberTokens, GarbageTokens, EncodeConfig;
    assert PairsClean(l.db, ' ', '.');
    PairSectionRoundTrip(l.db, ' ', '.');
    NumberPairsRoundTrip(l.seqs, ' ', '.');
    NumberPairsRoundTrip(l.comeIn, ' ', '.');
    NamedFree(l.seqs, ';');
    NamedFree(l.comeIn, ';');
    SectionFree(l.db, ' ', '.', ';');
    SectionFree(Named(l.seqs), ' ', '.', ';');
    SectionFree(Named(l.comeIn), ' ', '.', ';');
  }

  /** What recovery makes of a clean snapshot: nothing if an outgoing shard is empty, else the
      rebuilt containers. */
  lemma Recovered(gid: int, l: Layout)
    requires Clean(l)
    ensures Recover(gid, GetSnapshot(l)) ==
            if Full(l.toOut) then Some(Content(gid, l).(toOut := BuildOut(l.toOut), garbages := BuildGarbage(l.garbages)))
            else None
  {
    hide Section, EncodePairs, EncodeConfig, Close, ReadPairSection, ReadNumberPairs, DecodeConfig, ReadOuts, Plain,
         ReadNumbers, ReadGarbages, SplitFrom, OutTokens, NumberTokens, GarbageTokens, Named, Free, BuildOut, BuildGarbage,
         FromPairs, Distinct, OutsOf, GarbagesOf, ToSet, CleanGroups, PlainPairs;
    var str := Sections(l);
    PairSections(l);
    OutSection(l.toOut);
    AvailableSection(l.available);
    GarbageSection(l.garbages);
    ConfigSection(l);
    assert Pieces(str, ';');
    SplitClose(str, ';', true);
  }

  lemma OutRebuilt(out: OutList)
    requires Distinct(out) && Full(out) && forall o <- out :: Distinct(o.1)
    ensures BuildOut(out) == FromPairs(OutsOf(out)) <==> forall o <- out :: o.1 != []
  {
    if forall o <- out :: o.1 != [] {
      BuildOutIs(out);
    } else {
      var i :| 0 <= i < |out| && out[i].1 == [];
      BuildOutMisses(out, i);
      FromPairsKeys(OutsOf(out), out[i].0);
      assert OutsOf(out)[i].0 == out[i].0;
    }
  }

  lemma GarbageRebuilt(garbages: GarbageList)
    requires Distinct(garbages)
    ensures BuildGarbage(garbages) == FromPairs(GarbagesOf(garbages)) <==> forall g <- garbages :: g.1 != []
  {
    BuildGarbageIs(garbages);
    if !(forall g <- garbages :: g.1 != []) {
      var i :| 0 <= i < |garbages| && garbages[i].1 == [];
      FromPairsKeys(GarbagesOf(garbages), garbages[i].0);
      assert GarbagesOf(garbages)[i].0 == garbages[i].0;
      assert garbages[i].0 in FromPairs(GarbagesOf(garbages));
      assert forall j :: 0 <= j < |garbages| && garbages[j].0 == garbages[i].0 ==> j == i;
    }
  }

  /** Recovering a snapshot into a fresh server gives back the server, exactly if no inner
      container was empty when the snapshot was taken. */
  lemma SnapshotRoundTripIff(gid: int, l: Layout)
    requires Clean(l)
    ensures Recover(gid, GetSnapshot(l)) == Some(Content(gid, l)) <==> Solid(l)
  {
    hide Recover, GetSnapshot, BuildOut, BuildGarbage, Plain, CleanGroups, FromPairs, PlainPairs, Distinct, OutsOf, GarbagesOf;
    Recovered(gid, l);
    GarbageRebuilt(l.garbages);
    if Full(l.toOut) { OutRebuilt(l.toOut); }
  }

  /** Moving a shard that holds no data makes such a snapshot: the server it is restored into
      reads past the end of a field. */
  lemma EmptyShardBreaksRecovery(gid: int, l: Layout, o: (int, ShardList), s: (int, Pairs))
    requires Clean(l) && o in l.toOut && s in o.1 && s.1 == []
    ensures Recover(gid, GetSnapshot(l)) == None
  {
    Recovered(gid, l);
  }

  // ---------- How an outgoing shard without data comes about ----------

  /** A shard that a new configuration takes away is set aside; its copy is empty exactly if no
      key of the shard had been written. */
  lemma LeavingShardEmptyIff(g: Group, config: Config, s: int)
    requires config.num > g.config.num && s in g.available && s !in Kept(g, config)
    ensures var out := OutOf(UpdateConfig(g, config).toOut, g.config.num);
            s in out && (out[s] == map[] <==> forall k <- g.db :: Key2Shard(k) != s)
  {
    var leaving := g.available - Kept(g, config);
    assert s in leaving;
    assert s in Leaving(g.db, leaving) && Leaving(g.db, leaving)[s] == ShardData(g.db, s);
    var out := OutOf(UpdateConfig(g, config).toOut, g.config.num);
    assert out == OutOf(g.toOut, g.config.num) + Leaving(g.db, leaving);
    assert forall k :: k in ShardData(g.db, s) <==> k in g.db && Key2Shard(k) == s;
  }

  lemma {:induction false} FromPairsEntry<V>(pairs: seq<(int, V)>, k: int) returns (i: nat)
    requires k in FromPairs(pairs)
    ensures i < |pairs| && pairs[i] == (k, FromPairs(pairs)[k])
  {
    var last := |pairs| - 1;
    if pairs[last].0 == k {
      i := last;
    } else {
      i := FromPairsEntry(pairs[..last], k);
    }
  }

  lemma LastIn(pairs: Pairs)
    requires pairs != []
    ensures pairs[|pairs| - 1].0 in FromPairs(pairs)
  {
  }

  lemma FromPairsEmpty(pairs: Pairs)
    requires FromPairs(pairs) == map[]
    ensures pairs == []
  {
    assert pairs != [] ==> FromPairs(pairs) != map[] by {
      if pairs != [] { LastIn(pairs); }
    }
  }

  /** So a group that gives up a shard nobody has written to cannot be recovered from its next
      snapshot, whatever the order of its containers. */
  lemma UnwrittenShardBreaksRecovery(g: Group, config: Config, s: int, l: Layout)
    requires config.num > g.config.num && s in g.available && s !in Kept(g, config)
    requires forall k <- g.db :: Key2Shard(k) != s
    requires Clean(l) && Content(g.gid, l) == UpdateConfig(g, config)
    ensures Recover(g.gid, GetSnapshot(l)) == None
  {
    hide Recover, GetSnapshot, UpdateConfig, ToSet;
    var num := g.config.num;
    LeavingShardEmptyIff(g, config, s);
    var i := FromPairsEntry(OutsOf(l.toOut), num);
    var o := l.toOut[i];
    var j := FromPairsEntry(ShardsOf(o.1), s);
    FromPairsEmpty(o.1[j].1);
    assert o in l.toOut && o.1[j] in o.1;
    EmptyShardBreaksRecovery(g.gid, l, o, o.1[j]);
  }
}
