/** The text forms of configurations, migration replies and snapshots. A map is given in
    whatever order it is iterated. */
module ShardCodec {
  import opened Basics
  import opened Codec
  import opened ShardConfig
  import opened ShardGroup

  // ---------- Configurations ----------

  /** gid -> servers, in iteration order */
  type Groups = seq<(int, seq<string>)>

  function GroupToken(g: (int, seq<string>)): string {
    Close([ToString(g.0)] + g.1, ':')
  }

  function GroupTokens(groups: Groups): seq<string> {
    seq(|groups|, i requires 0 <= i < |groups| => GroupToken(groups[i]))
  }

  function EncodeConfig(num: int, shards: seq<int>, groups: Groups): string {
    Close([ToString(num), Close(NumberTokens(shards), ':'), Close(GroupTokens(groups), '|')], '/')
  }

  function DecodeGroup(token: string): Option<(int, seq<string>)> {
    var info := SplitClosed(token, ':');
    if info == [] then None
    else match ToInt(info[0]) case None => None case Some(gid) => Some((gid, info[1..]))
  }

  function DecodeGroups(tokens: seq<string>): Option<Groups> {
    if tokens == [] then Some([])
    else
      match (DecodeGroups(tokens[..|tokens| - 1]), DecodeGroup(tokens[|tokens| - 1]))
      case (Some(gs), Some(g)) => Some(gs + [g])
      case _ => None
  }

  function DecodeConfig(s: string): Option<Config> {
    var str := SplitClosed(s, '/');
    if |str| < 2 then None
    else
      var groups := if |str| == 2 then Some([]) else DecodeGroups(SplitClosed(str[2], '|'));
      match (ToInt(str[0]), ReadNumbers(SplitClosed(str[1], ':')), groups)
      case (Some(num), Some(shards), Some(gs)) => Some(Config(num, shards, FromPairs(gs)))
      case _ => None
  }

  /** A string that contains none of the delimiters in use. */
  predicate Plain(s: string) {
    Free(s, ' ') && Free(s, '.') && Free(s, ';') && Free(s, ':') && Free(s, ',') && Free(s, '/') && Free(s, '|')
  }

  predicate Marks(d: char) {
    d == ' ' || d == '.' || d == ';' || d == ':' || d == ',' || d == '/' || d == '|'
  }

  predicate CleanGroups(groups: Groups) {
    forall g <- groups :: forall server <- g.1 :: server != [] && Plain(server)
  }

  lemma GroupTokenOk(g: (int, seq<string>), d: char)
    requires (forall server <- g.1 :: server != [] && Plain(server)) && Marks(d) && d != ':'
    ensures GroupToken(g) != [] && Free(GroupToken(g), d) && DecodeGroup(GroupToken(g)) == Some(g)
  {
    var info := [ToString(g.0)] + g.1;
    NumberFree(g.0, ':');
    NumberFree(g.0, d);
    CloseNonEmpty(info, ':');
    CloseFree(info, ':', d);
    SplitClose(info, ':', false);
    NumberRoundTrip(g.0);
    assert info[1..] == g.1;
  }

  lemma {:induction false} GroupsDecode(groups: Groups)
    requires CleanGroups(groups)
    ensures Pieces(GroupTokens(groups), '|') && DecodeGroups(GroupTokens(groups)) == Some(groups)
  {
    var tokens := GroupTokens(groups);
    forall i | 0 <= i < |groups|
      ensures tokens[i] != [] && Free(tokens[i], '|')
    {
      assert groups[i] in groups;
      GroupTokenOk(groups[i], '|');
    }
    if groups != [] {
      var k := |groups| - 1;
      assert groups[k] in groups;
      assert tokens[..k] == GroupTokens(groups[..k]);
      GroupsDecode(groups[..k]);
      GroupTokenOk(groups[k], '|');
      assert groups[..k] + [groups[k]] == groups;
    }
  }

  lemma GroupsFree(groups: Groups, d: char)
    requires CleanGroups(groups) && Marks(d) && d != ':' && d != '|'
    ensures Free(Close(GroupTokens(groups), '|'), d)
  {
    var tokens := GroupTokens(groups);
    forall t | t in tokens
      ensures Free(t, d)
    {
      var i :| 0 <= i < |groups| && tokens[i] == t;
      assert groups[i] in groups;
      GroupTokenOk(groups[i], d);
    }
    CloseFree(tokens, '|', d);
  }

  lemma NumbersFree(ns: seq<int>, end: char, d: char)
    requires Marks(d) && d != end
    ensures Free(Close(NumberTokens(ns), end), d)
  {
    NumberPieces(ns, d);
    CloseFree(NumberTokens(ns), end, d);
  }

  /** One group: its id and its servers. */
  method WriteGroup(gid: int, servers: seq<string>) returns (str: string)
    ensures str == GroupToken((gid, servers))
  {
    hide Close, ToString;
    ghost var tokens := [ToString(gid)] + servers;
    CloseNext(tokens, 0, ':');
    assert tokens[0..] == tokens && tokens[1..] == servers;
    str := ToString(gid) + ":";
    for i := 0 to |servers|
      invariant str + Close(servers[i..], ':') == Close(tokens, ':')
    {
      CloseNext(servers, i, ':');
      CloseStep(str, servers[i], ':', Close(servers[i + 1..], ':'));
      str := str + servers[i] + ":";
    }
    CloseNone(':');
    assert servers[|servers|..] == [] && str + [] == str;
  }

  /** getStringFromConfig */
  method WriteConfig(num: int, shards: seq<int>, groups: Groups) returns (str: string)
    ensures str == EncodeConfig(num, shards, groups)
  {
    hide Close, ToString, GroupToken;
    var owners := WriteNumbers(shards, ':');
    var text := "";
    ghost var tokens := GroupTokens(groups);
    assert "" + Close(tokens, '|') == Close(tokens, '|') && tokens[0..] == tokens;
    for i := 0 to |groups|
      invariant text + Close(tokens[i..], '|') == Close(tokens, '|')
    {
      var group := WriteGroup(groups[i].0, groups[i].1);
      CloseNext(tokens, i, '|');
      CloseStep(text, tokens[i], '|', Close(tokens[i + 1..], '|'));
      text := text + group + "|";
    }
    CloseNone('|');
    assert tokens[|groups|..] == [] && text + [] == text;
    str := ToString(num) + "/" + owners + "/" + text + "/";
    CloseThree(ToString(num), owners, text, '/');
  }

  lemma CloseThree(a: string, b: string, c: string, d: char)
    ensures Close([a, b, c], d) == a + [d] + b + [d] + c + [d]
  {
    assert [a, b, c][1..] == [b, c] && [b, c][1..] == [c] && [c][1..] == [];
    assert Close([c], d) == c + [d] + [];
  }

  /** Configurations survive the trip, in whatever order the groups are written. */
  lemma ConfigRoundTrip(config: Config, groups: Groups)
    requires config.shards != [] && FromPairs(groups) == config.groups && CleanGroups(groups)
    ensures DecodeConfig(EncodeConfig(config.num, config.shards, groups)) == Some(config)
  {
    hide Close, ToString, ToInt, ReadNumbers, SplitFrom, DecodeGroups, GroupToken;
    var a, b, c := ToString(config.num), Close(NumberTokens(config.shards), ':'), Close(GroupTokens(groups), '|');
    NumberFree(config.num, '/');
    NumbersFree(config.shards, ':', '/');
    assert NumberTokens(config.shards) != [] && (groups != [] ==> GroupTokens(groups) != []);
    CloseNonEmpty(NumberTokens(config.shards), ':');
    GroupsFree(groups, '/');
    SplitCloseAny([a, b, c], '/', false);
    assert NonEmpty([a, b, c]) == [a, b] + Token(c) by {
      assert [a, b, c][1..] == [b, c] && [b, c][1..] == [c] && [c][1..] == [];
      assert NonEmpty([c]) == Token(c);
      assert NonEmpty([b, c]) == [b] + Token(c);
    }
    NumberRoundTrip(config.num);
    NumbersRoundTrip(config.shards, ':', false);
    GroupsDecode(groups);
    SplitClose(GroupTokens(groups), '|', false);
    if groups != [] { CloseNonEmpty(GroupTokens(groups), '|'); }
  }

  // ---------- Migration replies ----------

  datatype ReplyText = ReplyText(num: int, shard: int, err: string, requests: seq<(int, int)>, data: Pairs)

  datatype Reply = Reply(num: int, shard: int, err: string, requests: map<int, int>, data: Data)

  function Contents(r: ReplyText): Reply {
    Reply(r.num, r.shard, r.err, FromPairs(r.requests), FromPairs(r.data))
  }

  function EncodeReply(r: ReplyText): string {
    Close([ToString(r.num), ToString(r.shard), r.err,
           Section(EncodePairs(Named(r.requests), ':', '/')), Section(EncodePairs(r.data, ':', '/'))], '|')
  }

  function DecodeReply(s: string): Option<Reply> {
    var content := SplitClosed(s, '|');
    if |content| < 5 then None
    else
      match (ToInt(content[0]), ToInt(content[1]),
             ReadNumberPairs(content[3], ':', '/'), ReadPairSection(content[4], ':', '/'))
      case (Some(num), Some(shard), Some(requests), Some(data)) =>
        Some(Reply(num, shard, content[2], FromPairs(requests), FromPairs(data)))
      case _ => None
  }

  predicate PlainPairs(pairs: Pairs) {
    forall p <- pairs :: Plain(p.0) && Plain(p.1)
  }

  lemma SectionFree(pairs: Pairs, sep: char, end: char, d: char)
    requires (forall p <- pairs :: Free(p.0, d) && Free(p.1, d)) && Marks(d) && d != sep && d != end
    ensures Free(Section(EncodePairs(pairs, sep, end)), d)
  {
    PairsFree(pairs, sep, end, d);
  }

  /** MigrateReply2Str */
  method WriteReply(r: ReplyText) returns (str: string)
    ensures str == EncodeReply(r)
  {
    hide Close, ToString, SplitFrom;
    ghost var requests, data := Section(EncodePairs(Named(r.requests), ':', '/')), Section(EncodePairs(r.data, ':', '/'));
    str := ToString(r.num) + "|" + ToString(r.shard) + "|" + r.err + "|";
    if r.requests == [] {
      str := str + EMPTY;
      EncodeNone(':', '/');
    } else {
      var text := WritePairs(Named(r.requests), ':', '/');
      CloseNonEmpty(PairTokens(Named(r.requests), ':'), '/');
      str := str + text;
    }
    str := str + "|";
    if r.data == [] {
      str := str + EMPTY;
      EncodeNone(':', '/');
    } else {
      var text := WritePairs(r.data, ':', '/');
      CloseNonEmpty(PairTokens(r.data, ':'), '/');
      str := str + text;
    }
    str := str + "|";
    CloseFive(ToString(r.num), ToString(r.shard), r.err, requests, data, '|');
  }

  lemma EncodeNone(sep: char, end: char)
    ensures EncodePairs([], sep, end) == []
  {
  }

  lemma CloseFive(a: string, b: string, c: string, e: string, f: string, d: char)
    ensures Close([a, b, c, e, f], d) == a + [d] + b + [d] + c + [d] + e + [d] + f + [d]
  {
    assert [a, b, c, e, f][1..] == [b, c, e, f] && [b, c, e, f][1..] == [c, e, f];
    CloseThree(c, e, f, d);
  }

  /** Migration replies survive the trip. */
  lemma ReplyRoundTrip(r: ReplyText)
    requires PlainPairs(r.data) && r.err != [] && Free(r.err, '|')
    ensures DecodeReply(EncodeReply(r)) == Some(Contents(r))
  {
    var requests, data := Section(EncodePairs(Named(r.requests), ':', '/')), Section(EncodePairs(r.data, ':', '/'));
    var tokens := [ToString(r.num), ToString(r.shard), r.err, requests, data];
    NumberFree(r.num, '|');
    NumberFree(r.shard, '|');
    NamedFree(r.requests, '|');
    SectionFree(Named(r.requests), ':', '/', '|');
    SectionFree(r.data, ':', '/', '|');
    NumberPairsRoundTrip(r.requests, ':', '/');
    PairSectionRoundTrip(r.data, ':', '/');
    SplitClose(tokens, '|', false);
    NumberRoundTrip(r.num);
    NumberRoundTrip(r.shard);
  }
}
