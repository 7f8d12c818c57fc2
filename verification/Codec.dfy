/** Text encodings the servers put their containers into: fields closed by delimiter
    characters, split again on the other side. */
module Codec {
  import opened Basics

  // ---------- Numbers ----------

  function Digit(d: nat): char
    requires d < 10
  {
    ('0' as int + d) as char
  }

  function Digits(n: nat): (s: string)
    ensures s != [] && forall c <- s :: '0' <= c <= '9'
  {
    if n < 10 then [Digit(n)] else Digits(n / 10) + [Digit(n % 10)]
  }

  /** to_string */
  function ToString(n: int): (s: string)
    ensures s != [] && forall c <- s :: c == '-' || '0' <= c <= '9'
  {
    if n < 0 then "-" + Digits(-n) else Digits(n)
  }

  function ParseDigits(s: string): Option<int> {
    if s == [] then Some(0)
    else
      var c := s[|s| - 1];
      match ParseDigits(s[..|s| - 1])
      case None => None
      case Some(n) => if '0' <= c <= '9' then Some(10 * n + (c as int - '0' as int)) else None
  }

  /** stoi, on whole decimal numbers */
  function ToInt(s: string): Option<int> {
    if s == [] then None
    else if s[0] == '-' then
      if |s| == 1 then None
      else match ParseDigits(s[1..]) case None => None case Some(n) => Some(-n)
    else match ParseDigits(s) case None => None case Some(n) => Some(n)
  }

  lemma {:induction false} DigitsParse(n: nat)
    ensures ParseDigits(Digits(n)) == Some(n)
  {
    var s := Digits(n);
    if n < 10 {
      assert s[..0] == [];
    } else {
      DigitsParse(n / 10);
      assert s[..|s| - 1] == Digits(n / 10);
      assert s[|s| - 1] == Digit(n % 10);
    }
  }

  lemma NumberRoundTrip(n: int)
    ensures ToInt(ToString(n)) == Some(n)
  {
    if n < 0 {
      DigitsParse(-n);
      assert ToString(n)[1..] == Digits(-n);
    } else {
      DigitsParse(n);
      assert Digits(n)[0] in Digits(n);
    }
  }

  // ---------- Splitting at a delimiter ----------

  predicate Free(s: string, d: char) {
    d !in s
  }

  function Token(tmp: string): seq<string> {
    if tmp == [] then [] else [tmp]
  }

  /** The pieces of `s` between delimiters, empty ones dropped; `tmp` is the piece begun. An
      unclosed last piece counts only if `open` says so. */
  function SplitFrom(s: string, d: char, tmp: string, open: bool): seq<string>
    decreases |s|
  {
    if s == [] then (if open then Token(tmp) else [])
    else if s[0] != d then SplitFrom(s[1..], d, tmp + [s[0]], open)
    else Token(tmp) + SplitFrom(s[1..], d, [], open)
  }

  function Split(s: string, d: char): seq<string> {
    SplitFrom(s, d, [], true)
  }

  function SplitClosed(s: string, d: char): seq<string> {
    SplitFrom(s, d, [], false)
  }

  /** The pieces, each followed by the delimiter. */
  function Close(tokens: seq<string>, d: char): string {
    if tokens == [] then [] else tokens[0] + [d] + Close(tokens[1..], d)
  }

  lemma {:induction false} SplitSkips(t: string, rest: string, d: char, tmp: string, open: bool)
    requires Free(t, d)
    ensures SplitFrom(t + rest, d, tmp, open) == SplitFrom(rest, d, tmp + t, open)
    decreases |t|
  {
    if t == [] {
      assert t + rest == rest && tmp + t == tmp;
    } else {
      assert (t + rest)[0] == t[0] && (t + rest)[1..] == t[1..] + rest;
      assert t[0] in t;
      SplitSkips(t[1..], rest, d, tmp + [t[0]], open);
      assert tmp + [t[0]] + t[1..] == tmp + t;
    }
  }

  predicate Pieces(tokens: seq<string>, d: char) {
    forall t <- tokens :: t != [] && Free(t, d)
  }

  function NonEmpty(tokens: seq<string>): seq<string> {
    if tokens == [] then [] else Token(tokens[0]) + NonEmpty(tokens[1..])
  }

  lemma {:induction false} PiecesNonEmpty(tokens: seq<string>, d: char)
    requires Pieces(tokens, d)
    ensures NonEmpty(tokens) == tokens
  {
    if tokens != [] {
      assert tokens[0] in tokens;
      PiecesNonEmpty(tokens[1..], d);
    }
  }

  /** Splitting undoes closing, for pieces without the delimiter; empty pieces are lost. */
  lemma {:induction false} SplitCloseAny(tokens: seq<string>, d: char, open: bool)
    requires forall t <- tokens :: Free(t, d)
    ensures SplitFrom(Close(tokens, d), d, [], open) == NonEmpty(tokens)
    decreases |tokens|
  {
    if tokens != [] {
      var t, rest := tokens[0], Close(tokens[1..], d);
      assert t in tokens;
      assert Close(tokens, d) == t + ([d] + rest);
      SplitSkips(t, [d] + rest, d, [], open);
      assert [] + t == t;
      assert ([d] + rest)[1..] == rest;
      SplitCloseAny(tokens[1..], d, open);
    }
  }

  lemma SplitClose(tokens: seq<string>, d: char, open: bool)
    requires Pieces(tokens, d)
    ensures SplitFrom(Close(tokens, d), d, [], open) == tokens
  {
    SplitCloseAny(tokens, d, open);
    PiecesNonEmpty(tokens, d);
  }

  /** A piece that is the rest of the string. */
  lemma SplitWhole(t: string, d: char)
    requires t != [] && Free(t, d)
    ensures Split(t, d) == [t]
  {
    assert t + [] == t && [] + t == t;
    SplitSkips(t, [], d, [], true);
  }

  /** A piece, a delimiter, and a last piece that is not closed. */
  lemma SplitTwo(a: string, b: string, d: char)
    requires a != [] && Free(a, d) && b != [] && Free(b, d)
    ensures Split(a + [d] + b, d) == [a, b]
  {
    assert a + [d] + b == a + ([d] + b);
    SplitSkips(a, [d] + b, d, [], true);
    assert [] + a == a && ([d] + b)[1..] == b;
    SplitWhole(b, d);
  }

  lemma SplitOne(a: string, d: char)
    requires a != [] && Free(a, d)
    ensures Split(a + [d], d) == [a]
  {
    SplitSkips(a, [d], d, [], true);
    assert [] + a == a && [d][1..] == [];
  }

  lemma {:induction false} CloseFree(tokens: seq<string>, d: char, e: char)
    requires e != d && forall t <- tokens :: Free(t, e)
    ensures Free(Close(tokens, d), e)
    decreases |tokens|
  {
    if tokens != [] {
      assert tokens[0] in tokens;
      CloseFree(tokens[1..], d, e);
    }
  }

  lemma CloseNonEmpty(tokens: seq<string>, d: char)
    requires tokens != []
    ensures Close(tokens, d) != [] && Close(tokens, d)[|Close(tokens, d)| - 1] == d
    decreases |tokens|
  {
    if |tokens| > 1 { CloseNonEmpty(tokens[1..], d); }
  }

  /** splitStr: the accumulator loop. */
  method SplitStr(str: string, op: char) returns (ret: seq<string>)
    ensures ret == Split(str, op)
  {
    ret := [];
    var tmp := "";
    for i := 0 to |str|
      invariant ret + SplitFrom(str[i..], op, tmp, true) == Split(str, op)
    {
      assert str[i..][0] == str[i] && str[i..][1..] == str[i + 1..];
      if str[i] != op {
        tmp := tmp + [str[i]];
      } else if |tmp| != 0 {
        ret := ret + [tmp];
        tmp := "";
      }
    }
    if |tmp| != 0 { ret := ret + [tmp]; }
  }

  // ---------- Cutting a field in two ----------

  /** The text before the first `d` and the text after it. */
  function Cut(s: string, d: char): Option<(string, string)> {
    if s == [] then None
    else if s[0] == d then Some(([], s[1..]))
    else
      match Cut(s[1..], d)
      case None => None
      case Some((a, b)) => Some(([s[0]] + a, b))
  }

  lemma {:induction false} CutJoin(a: string, b: string, d: char)
    requires Free(a, d)
    ensures Cut(a + [d] + b, d) == Some((a, b))
    decreases |a|
  {
    var s := a + [d] + b;
    if a == [] {
      assert s[1..] == b;
    } else {
      assert a[0] in a && s[1..] == a[1..] + [d] + b;
      CutJoin(a[1..], b, d);
      assert [a[0]] + a[1..] == a;
    }
  }

  // ---------- Maps as closed pairs ----------

  /** A map in one of its iteration orders. */
  type Pairs = seq<(string, string)>

  function FromPairs<K, V>(pairs: seq<(K, V)>): map<K, V> {
    if pairs == [] then map[] else FromPairs(pairs[..|pairs| - 1])[pairs[|pairs| - 1].0 := pairs[|pairs| - 1].1]
  }

  function PairTokens(pairs: Pairs, sep: char): seq<string> {
    seq(|pairs|, i requires 0 <= i < |pairs| => pairs[i].0 + [sep] + pairs[i].1)
  }

  function EncodePairs(pairs: Pairs, sep: char, end: char): string {
    Close(PairTokens(pairs, sep), end)
  }

  function DecodeTokens(tokens: seq<string>, sep: char): Option<Pairs> {
    if tokens == [] then Some([])
    else
      match (DecodeTokens(tokens[..|tokens| - 1], sep), Cut(tokens[|tokens| - 1], sep))
      case (Some(pairs), Some(pair)) => Some(pairs + [pair])
      case _ => None
  }

  /** Keys without either delimiter, values without the closing one. */
  predicate PairsClean(pairs: Pairs, sep: char, end: char) {
    forall p <- pairs :: Free(p.0, sep) && Free(p.0, end) && Free(p.1, end)
  }

  lemma {:induction false} TokensDecode(pairs: Pairs, sep: char)
    requires forall p <- pairs :: Free(p.0, sep)
    ensures DecodeTokens(PairTokens(pairs, sep), sep) == Some(pairs)
  {
    if pairs != [] {
      var k := |pairs| - 1;
      var tokens := PairTokens(pairs, sep);
      assert tokens[..k] == PairTokens(pairs[..k], sep);
      assert pairs[k] in pairs;
      TokensDecode(pairs[..k], sep);
      CutJoin(pairs[k].0, pairs[k].1, sep);
      assert pairs[..k] + [pairs[k]] == pairs;
    }
  }

  lemma PairTokensClean(pairs: Pairs, sep: char, end: char)
    requires PairsClean(pairs, sep, end) && sep != end
    ensures Pieces(PairTokens(pairs, sep), end)
  {
    var tokens := PairTokens(pairs, sep);
    forall t | t in tokens
      ensures t != [] && Free(t, end)
    {
      var i :| 0 <= i < |tokens| && tokens[i] == t;
      assert pairs[i] in pairs;
    }
  }

  /** Splitting and cutting undoes closing and joining. */
  lemma PairsRoundTrip(pairs: Pairs, sep: char, end: char)
    requires PairsClean(pairs, sep, end) && sep != end
    ensures DecodeTokens(Split(EncodePairs(pairs, sep, end), end), sep) == Some(pairs)
  {
    PairTokensClean(pairs, sep, end);
    SplitClose(PairTokens(pairs, sep), end, true);
    TokensDecode(pairs, sep);
  }

  lemma PairsFree(pairs: Pairs, sep: char, end: char, e: char)
    requires e != sep && e != end && forall p <- pairs :: Free(p.0, e) && Free(p.1, e)
    ensures Free(EncodePairs(pairs, sep, end), e)
  {
    var tokens := PairTokens(pairs, sep);
    forall t | t in tokens
      ensures Free(t, e)
    {
      var i :| 0 <= i < |tokens| && tokens[i] == t;
      assert pairs[i] in pairs;
    }
    CloseFree(tokens, end, e);
  }

  lemma CloseNext(tokens: seq<string>, i: nat, d: char)
    requires i < |tokens|
    ensures Close(tokens[i..], d) == tokens[i] + [d] + Close(tokens[i + 1..], d)
  {
    assert tokens[i..][1..] == tokens[i + 1..];
  }

  /** The encoding loop over a map. */
  method WritePairs(pairs: Pairs, sep: char, end: char) returns (str: string)
    ensures str == EncodePairs(pairs, sep, end)
  {
    str := "";
    ghost var tokens := PairTokens(pairs, sep);
    for i := 0 to |pairs|
      invariant str + Close(tokens[i..], end) == Close(tokens, end)
    {
      CloseNext(tokens, i, end);
      ghost var before := str;
      str := str + pairs[i].0 + [sep] + pairs[i].1 + [end];
      assert str == before + (tokens[i] + [end]);
      hide Close, PairTokens;
    }
  }

  /** The encoding loop over a list of numbers. */
  method WriteNumbers(ns: seq<int>, end: char) returns (str: string)
    ensures str == Close(NumberTokens(ns), end)
  {
    hide Close, ToString;
    str := "";
    ghost var tokens := NumberTokens(ns);
    assert "" + Close(tokens, end) == Close(tokens, end) && tokens[0..] == tokens;
    for i := 0 to |ns|
      invariant str + Close(tokens[i..], end) == Close(tokens, end)
    {
      CloseNext(tokens, i, end);
      CloseStep(str, tokens[i], end, Close(tokens[i + 1..], end));
      str := str + ToString(ns[i]) + [end];
    }
    CloseNone(end);
    assert tokens[|ns|..] == [] && str + [] == str;
  }

  lemma CloseStep(str: string, t: string, d: char, rest: string)
    ensures str + (t + [d] + rest) == str + t + [d] + rest
  {
  }

  lemma CloseNone(d: char)
    ensures Close([], d) == []
  {
  }

  // ---------- Lists of numbers, and numbers as keys and values ----------

  function NumberTokens(ns: seq<int>): seq<string> {
    seq(|ns|, i requires 0 <= i < |ns| => ToString(ns[i]))
  }

  function ReadNumbers(tokens: seq<string>): Option<seq<int>> {
    if tokens == [] then Some([])
    else
      match (ReadNumbers(tokens[..|tokens| - 1]), ToInt(tokens[|tokens| - 1]))
      case (Some(ns), Some(n)) => Some(ns + [n])
      case _ => None
  }

  lemma {:induction false} NumbersRead(ns: seq<int>)
    ensures ReadNumbers(NumberTokens(ns)) == Some(ns)
  {
    hide ToInt, ToString;
    if ns != [] {
      var k := |ns| - 1;
      assert NumberTokens(ns)[..k] == NumberTokens(ns[..k]);
      NumbersRead(ns[..k]);
      NumberRoundTrip(ns[k]);
      assert ns[..k] + [ns[k]] == ns;
    }
  }

  predicate Delimiter(d: char) {
    d != '-' && !('0' <= d <= '9')
  }

  lemma NumberFree(n: int, d: char)
    requires Delimiter(d)
    ensures ToString(n) != [] && Free(ToString(n), d)
  {
  }

  lemma NumberPieces(ns: seq<int>, d: char)
    requires Delimiter(d)
    ensures Pieces(NumberTokens(ns), d)
  {
    forall t | t in NumberTokens(ns)
      ensures t != [] && Free(t, d)
    {
      var i :| 0 <= i < |ns| && NumberTokens(ns)[i] == t;
      NumberFree(ns[i], d);
    }
  }

  lemma NumbersRoundTrip(ns: seq<int>, d: char, open: bool)
    requires Delimiter(d)
    ensures ReadNumbers(SplitFrom(Close(NumberTokens(ns), d), d, [], open)) == Some(ns)
  {
    NumberPieces(ns, d);
    SplitClose(NumberTokens(ns), d, open);
    NumbersRead(ns);
  }

  function Named(pairs: seq<(int, int)>): Pairs {
    seq(|pairs|, i requires 0 <= i < |pairs| => (ToString(pairs[i].0), ToString(pairs[i].1)))
  }

  function ReadPairs(pairs: Pairs): Option<seq<(int, int)>> {
    if pairs == [] then Some([])
    else
      var last := pairs[|pairs| - 1];
      match (ReadPairs(pairs[..|pairs| - 1]), ToInt(last.0), ToInt(last.1))
      case (Some(ps), Some(a), Some(b)) => Some(ps + [(a, b)])
      case _ => None
  }

  lemma {:induction false} PairsRead(pairs: seq<(int, int)>)
    ensures ReadPairs(Named(pairs)) == Some(pairs)
  {
    hide ToInt, ToString;
    if pairs != [] {
      var k := |pairs| - 1;
      assert Named(pairs)[..k] == Named(pairs[..k]);
      PairsRead(pairs[..k]);
      NumberRoundTrip(pairs[k].0);
      NumberRoundTrip(pairs[k].1);
      assert pairs[..k] + [pairs[k]] == pairs;
    }
  }

  lemma NamedFree(pairs: seq<(int, int)>, d: char)
    requires Delimiter(d)
    ensures forall p <- Named(pairs) :: Free(p.0, d) && Free(p.1, d)
  {
    forall p | p in Named(pairs)
      ensures Free(p.0, d) && Free(p.1, d)
    {
      var i :| 0 <= i < |pairs| && Named(pairs)[i] == p;
      NumberFree(pairs[i].0, d);
      NumberFree(pairs[i].1, d);
    }
  }

  // ---------- Sections that may be empty ----------

  const EMPTY := "empty"

  function Section(s: string): string {
    if s == [] then EMPTY else s
  }

  /** A pair section read back, "empty" standing for no entries. */
  function ReadPairSection(s: string, sep: char, end: char): Option<Pairs> {
    if s == EMPTY then Some([]) else DecodeTokens(Split(s, end), sep)
  }

  lemma PairSectionRoundTrip(pairs: Pairs, sep: char, end: char)
    requires PairsClean(pairs, sep, end) && sep != end && end != 'y'
    ensures Section(EncodePairs(pairs, sep, end)) != []
    ensures ReadPairSection(Section(EncodePairs(pairs, sep, end)), sep, end) == Some(pairs)
  {
    PairsRoundTrip(pairs, sep, end);
    if pairs != [] { CloseNonEmpty(PairTokens(pairs, sep), end); }
  }

  function ReadNumberPairs(s: string, sep: char, end: char): Option<seq<(int, int)>> {
    match ReadPairSection(s, sep, end)
    case None => None
    case Some(pairs) => ReadPairs(pairs)
  }

  lemma NumberPairsRoundTrip(pairs: seq<(int, int)>, sep: char, end: char)
    requires Delimiter(sep) && Delimiter(end) && sep != end && end != 'y'
    ensures Section(EncodePairs(Named(pairs), sep, end)) != []
    ensures ReadNumberPairs(Section(EncodePairs(Named(pairs), sep, end)), sep, end) == Some(pairs)
  {
    NamedFree(pairs, sep);
    NamedFree(pairs, end);
    PairSectionRoundTrip(Named(pairs), sep, end);
    PairsRead(pairs);
  }
}
