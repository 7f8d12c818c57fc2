/** How log entries travel inside AppendEntries. */
module RaftCodec {
  import opened Basics
  import opened Codec
  import opened RaftNode

  function LogPairs(entries: seq<Entry>): Pairs {
    seq(|entries|, i requires 0 <= i < |entries| => (entries[i].command, ToString(entries[i].term)))
  }

  function EncodeLog(entries: seq<Entry>): string {
    EncodePairs(LogPairs(entries), ',', ';')
  }

  function ReadEntries(pairs: Pairs): Option<seq<Entry>> {
    if pairs == [] then Some([])
    else
      var last := pairs[|pairs| - 1];
      match (ReadEntries(pairs[..|pairs| - 1]), ToInt(last.1))
      case (Some(es), Some(t)) => Some(es + [Entry(last.0, t)])
      case _ => None
  }

  /** getCmdAndTerm */
  function DecodeLog(text: string): Option<seq<Entry>> {
    match DecodeTokens(SplitClosed(text, ';'), ',')
    case None => None
    case Some(pairs) => ReadEntries(pairs)
  }

  lemma {:induction false} EntriesRead(entries: seq<Entry>)
    ensures ReadEntries(LogPairs(entries)) == Some(entries)
  {
    hide ToInt, ToString;
    if entries != [] {
      var k := |entries| - 1;
      assert LogPairs(entries)[..k] == LogPairs(entries[..k]);
      EntriesRead(entries[..k]);
      NumberRoundTrip(entries[k].term);
      assert entries[..k] + [entries[k]] == entries;
    }
  }

  /** Entries arrive as they were sent if no command contains ',' or ';'. */
  lemma LogRoundTrip(entries: seq<Entry>)
    requires forall e <- entries :: Free(e.command, ',') && Free(e.command, ';')
    ensures DecodeLog(EncodeLog(entries)) == Some(entries)
  {
    var pairs := LogPairs(entries);
    forall p | p in pairs
      ensures Free(p.0, ',') && Free(p.0, ';') && Free(p.1, ';')
    {
      var i :| 0 <= i < |entries| && pairs[i] == p;
      assert entries[i] in entries;
      NumberFree(entries[i].term, ';');
    }
    PairTokensClean(pairs, ',', ';');
    SplitClose(PairTokens(pairs, ','), ';', false);
    TokensDecode(pairs, ',');
    EntriesRead(entries);
  }
}
