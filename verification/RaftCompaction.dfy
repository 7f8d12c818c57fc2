/** Log compaction is invisible: a server that drops applied entries by snapshot behaves like
    one that keeps its whole log. */
module RaftCompaction {
  import opened RaftNode

  /** `c` is `full` with the first `c.base` entries dropped, all of them applied and committed. */
  predicate Sim(full: Node, c: Node) {
    && full.base == 0 && full.baseTerm == 0
    && 0 <= c.base <= |full.log| && c.base <= full.lastApplied && c.base <= full.commitIndex
    && c == full.(base := c.base,
                  baseTerm := if c.base == 0 then 0 else full.log[c.base - 1].term,
                  log := full.log[c.base..])
  }

  datatype Event =
    | Vote(voteArgs: VoteArgs)
    | Elect
    | CountVote(voteReply: VoteReply)
    | Finish
    | Submit(command: string)
    | Send(peer: int)
    | Append(args: AppendArgs)
    | Reply(from: int, sent: AppendArgs, reply: AppendReply)
    | Apply
    | Snapshot(index: int)

  /** What others see of an event. A refusal's conflict hint is left out: it may point below
      the snapshot. */
  datatype Output =
    | Nothing
    | Voted(reply: VoteReply)
    | Asks(voteArgs: VoteArgs)
    | Sends(args: AppendArgs)
    | Answers(term: int, success: bool)
    | Applies(entries: seq<Entry>)

  /** A refusal of the current term that names a conflicting term. */
  predicate NamesTerm(c: Node, sent: AppendArgs, reply: AppendReply) {
    && c.term == sent.term && reply.term <= c.term && !reply.success
    && reply.conflictTerm != NO_CONFLICT && reply.conflictTerm != PEER_DEAD
  }

  /** Snapshots are taken at applied indices above the last one, and messages reach back to the
      snapshot at most. */
  predicate Allowed(c: Node, e: Event) {
    match e
    case Send(peer) => 0 <= peer < |c.nextIndex| && c.base < c.nextIndex[peer]
    case Append(args) => args.prevLogIndex >= c.base
    case Reply(from, sent, reply) =>
      && 0 <= c.id < |c.matchIndex| == |c.nextIndex| && 0 <= from < |c.nextIndex|
    case Snapshot(i) => c.base < i <= c.lastApplied && i <= c.commitIndex && i <= LastIndex(c)
    case _ => true
  }

  /** The two servers back off alike: the term a refusal names is found above the snapshot, or
      does not occur below it either, or the search below it would stop where the refusal points. */
  predicate InStep(full: Node, c: Node, e: Event) {
    e.Reply? && NamesTerm(c, e.sent, e.reply) ==>
      var below := LastOfTerm(full, Min(e.sent.prevLogIndex, c.base), e.reply.conflictTerm);
      || LastOfTerm(c, e.sent.prevLogIndex, e.reply.conflictTerm) != -1
      || below == -1 || below + 1 == e.reply.conflictIndex
  }

  function Do(n: Node, e: Event): (Node, Output)
    requires Allowed(n, e)
  {
    match e
    case Vote(args) => (RequestVote(n, args).0, Voted(RequestVote(n, args).1))
    case Elect => (StartElection(n), Asks(MakeVoteArgs(StartElection(n))))
    case CountVote(reply) => (OnVoteReply(n, reply), Nothing)
    case Finish => (FinishElection(n), Nothing)
    case Submit(command) => (Start(n, command), Nothing)
    case Send(peer) => (n, Sends(MakeAppendArgs(n, peer)))
    case Append(args) =>
      var (m, reply) := AppendEntries(n, args);
      (m, Answers(reply.term, reply.success))
    case Reply(from, sent, reply) => (OnAppendReply(n, from, sent, reply), Nothing)
    case Apply => (ApplyLog(n), Applies(ToApply(n)))
    case Snapshot(i) => (RecvSnapshot(n, i), Nothing)
  }

  /** The uncompacted twin goes through the same events, snapshots aside. */
  predicate AllowedFull(n: Node, e: Event) {
    e.Snapshot? || Allowed(n, e)
  }

  function DoFull(n: Node, e: Event): (Node, Output)
    requires AllowedFull(n, e)
  {
    if e.Snapshot? then (n, Nothing) else Do(n, e)
  }

  lemma SameTerm(full: Node, c: Node, i: int)
    requires Sim(full, c) && c.base <= i <= |full.log|
    ensures TermAt(full, i) == TermAt(c, i)
  {
  }

  lemma SameEnds(full: Node, c: Node)
    requires Sim(full, c)
    ensures LastIndex(full) == LastIndex(c) && LastTerm(full) == LastTerm(c)
  {
  }

  lemma AppendSim(full: Node, c: Node, args: AppendArgs)
    requires Sim(full, c) && args.prevLogIndex >= c.base
    ensures var (f', r) := AppendEntries(full, args);
            var (c', s) := AppendEntries(c, args);
            Sim(f', c') && r.term == s.term && r.success == s.success
  {
    var prev := args.prevLogIndex;
    if args.term >= full.term && !full.dead && prev <= |full.log| {
      SameTerm(full, c, prev);
      var (f', r) := AppendEntries(full, args);
      var (c', s) := AppendEntries(c, args);
      if r.success {
        assert full.log[c.base..][..prev - c.base] == full.log[..prev][c.base..];
        assert c'.log == f'.log[c.base..];
        assert c.base > 0 ==> f'.log[c.base - 1] == full.log[c.base - 1];
      }
    }
  }

  lemma ReplySim(full: Node, c: Node, from: int, sent: AppendArgs, reply: AppendReply)
    requires Sim(full, c) && Allowed(c, Reply(from, sent, reply)) && !NamesTerm(c, sent, reply)
    ensures Sim(OnAppendReply(full, from, sent, reply), OnAppendReply(c, from, sent, reply))
  {
    hide Median;
    if c.term == sent.term && reply.term <= c.term && reply.success {
      var next := sent.prevLogIndex + |sent.entries| + 1;
      var matches := c.matchIndex[from := next - 1][c.id := LastIndex(c)];
      var m := Median(matches);
      if c.commitIndex < m <= |full.log| { SameTerm(full, c, m); }
    }
  }

  /** Searching the whole log for a term finds what the search of the remaining log finds, and
      otherwise goes on below the snapshot. */
  lemma {:induction false} SearchSplits(full: Node, c: Node, i: int, t: int)
    requires Sim(full, c)
    ensures LastOfTerm(full, i, t) ==
            if LastOfTerm(c, i, t) != -1 then LastOfTerm(c, i, t)
            else LastOfTerm(full, Min(i, c.base), t)
    decreases i - c.base
  {
    if i > c.base { SearchSplits(full, c, i - 1, t); }
  }

  /** A refusal that names a term keeps the twins in step if and only if they back off alike. */
  lemma BackOffSimIff(full: Node, c: Node, from: int, sent: AppendArgs, reply: AppendReply)
    requires Sim(full, c) && NamesTerm(c, sent, reply) && Allowed(c, Reply(from, sent, reply))
    ensures Sim(OnAppendReply(full, from, sent, reply), OnAppendReply(c, from, sent, reply)) <==>
            InStep(full, c, Reply(from, sent, reply))
  {
    SearchSplits(full, c, sent.prevLogIndex, reply.conflictTerm);
    var x, y := BackOff(full, sent, reply, full.nextIndex[from]), BackOff(c, sent, reply, c.nextIndex[from]);
    assert full.nextIndex[from := x][from] == x && c.nextIndex[from := y][from] == y;
  }

  /** With rising terms, a term above that of the snapshot is never found below it. */
  lemma {:induction false} NewTermNotBelow(full: Node, i: int, t: int)
    requires full.base == 0 && 0 <= i <= |full.log|
    requires forall j, k :: 0 <= j <= k < |full.log| ==> full.log[j].term <= full.log[k].term
    requires i > 0 ==> full.log[i - 1].term < t
    ensures LastOfTerm(full, i, t) == -1
  {
    if i > 0 { NewTermNotBelow(full, i - 1, t); }
  }

  lemma SnapshotSim(full: Node, c: Node, i: int)
    requires Sim(full, c) && Allowed(c, Snapshot(i))
    ensures Sim(full, RecvSnapshot(c, i))
    ensures RecvSnapshot(c, i).base == i && |RecvSnapshot(c, i).log| == LastIndex(c) - i
    ensures forall k :: i <= k <= LastIndex(c) ==> TermAt(RecvSnapshot(c, i), k) == TermAt(c, k)
  {
    SameTerm(full, c, i);
    assert full.log[c.base..][i - c.base..] == full.log[i..];
  }

  lemma SendSim(full: Node, c: Node, peer: int)
    requires Sim(full, c) && Allowed(c, Send(peer))
    ensures MakeAppendArgs(full, peer) == MakeAppendArgs(c, peer)
  {
    var prev := c.nextIndex[peer] - 1;
    if prev <= |full.log| {
      SameTerm(full, c, prev);
      assert full.log[c.base..][prev - c.base..] == full.log[prev..];
    }
  }

  lemma ApplySim(full: Node, c: Node)
    requires Sim(full, c)
    ensures ToApply(full) == ToApply(c) && Sim(ApplyLog(full), ApplyLog(c))
  {
    var from, to := full.lastApplied, full.commitIndex;
    if from < to <= |full.log| {
      assert full.log[c.base..][from - c.base..to - c.base] == full.log[from..to];
    }
  }

  lemma SubmitSim(full: Node, c: Node, command: string)
    requires Sim(full, c)
    ensures Sim(Start(full, command), Start(c, command))
  {
    var e := Entry(command, full.term);
    assert (full.log + [e])[c.base..] == full.log[c.base..] + [e];
  }

  lemma ElectionSim(full: Node, c: Node, args: VoteArgs, reply: VoteReply)
    requires Sim(full, c)
    ensures Sim(StartElection(full), StartElection(c)) && MakeVoteArgs(full) == MakeVoteArgs(c)
    ensures Sim(RequestVote(full, args).0, RequestVote(c, args).0) && RequestVote(full, args).1 == RequestVote(c, args).1
    ensures Sim(OnVoteReply(full, reply), OnVoteReply(c, reply))
    ensures Sim(FinishElection(full), FinishElection(c))
  {
    SameEnds(full, c);
  }

  /** One event: the compacted server answers, sends and applies what its twin does, and they
      stay in step if and only if they back off alike. */
  lemma EventSim(full: Node, c: Node, e: Event)
    requires Sim(full, c) && Allowed(c, e)
    ensures AllowedFull(full, e)
    ensures DoFull(full, e).1 == Do(c, e).1
    ensures Sim(DoFull(full, e).0, Do(c, e).0) <==> InStep(full, c, e)
  {
    assert AllowedFull(full, e);
    hide Sim, AppendEntries, OnAppendReply, Start, MakeAppendArgs, StartElection, MakeVoteArgs,
         OnVoteReply, FinishElection, RequestVote, ApplyLog, ToApply, RecvSnapshot;
    match e
    case Append(args) => AppendSim(full, c, args);
    case Reply(from, sent, reply) =>
      if NamesTerm(c, sent, reply) { BackOffSimIff(full, c, from, sent, reply); }
      else { ReplySim(full, c, from, sent, reply); }
    case Snapshot(i) => SnapshotSim(full, c, i);
    case Submit(command) => SubmitSim(full, c, command);
    case Send(peer) => SendSim(full, c, peer);
    case Apply => ApplySim(full, c);
    case Vote(args) => ElectionSim(full, c, args, VoteReply(0, false));
    case CountVote(reply) => ElectionSim(full, c, VoteArgs(0, 0, 0, 0), reply);
    case Elect =>
      ElectionSim(full, c, VoteArgs(0, 0, 0, 0), VoteReply(0, false));
      ElectionSim(StartElection(full), StartElection(c), VoteArgs(0, 0, 0, 0), VoteReply(0, false));
    case Finish => ElectionSim(full, c, VoteArgs(0, 0, 0, 0), VoteReply(0, false));
  }

  predicate AllAllowed(c: Node, events: seq<Event>)
    decreases |events|
  {
    events == [] || (Allowed(c, events[0]) && AllAllowed(Do(c, events[0]).0, events[1..]))
  }

  function Outputs(c: Node, events: seq<Event>): seq<Output>
    requires AllAllowed(c, events)
    decreases |events|
  {
    if events == [] then [] else [Do(c, events[0]).1] + Outputs(Do(c, events[0]).0, events[1..])
  }

  function Final(c: Node, events: seq<Event>): Node
    requires AllAllowed(c, events)
    decreases |events|
  {
    if events == [] then c else Final(Do(c, events[0]).0, events[1..])
  }

  predicate AllAllowedFull(n: Node, events: seq<Event>)
    decreases |events|
  {
    events == [] || (AllowedFull(n, events[0]) && AllAllowedFull(DoFull(n, events[0]).0, events[1..]))
  }

  function OutputsFull(n: Node, events: seq<Event>): seq<Output>
    requires AllAllowedFull(n, events)
    decreases |events|
  {
    if events == [] then [] else [DoFull(n, events[0]).1] + OutputsFull(DoFull(n, events[0]).0, events[1..])
  }

  function FinalFull(n: Node, events: seq<Event>): Node
    requires AllAllowedFull(n, events)
    decreases |events|
  {
    if events == [] then n else FinalFull(DoFull(n, events[0]).0, events[1..])
  }

  /** The twins back off alike at every refusal among the events. */
  predicate AllInStep(full: Node, c: Node, events: seq<Event>)
    requires AllAllowed(c, events)
    decreases |events|
  {
    events == [] || !AllowedFull(full, events[0]) ||
      (InStep(full, c, events[0]) && AllInStep(DoFull(full, events[0]).0, Do(c, events[0]).0, events[1..]))
  }

  /** However snapshots are interleaved with a server's events, what the server shows the
      outside is what it would show had it never compacted its log, and its term, vote, role,
      logical log, commit index and all other fields end up the same. */
  lemma {:induction false} CompactionInvisible(full: Node, c: Node, events: seq<Event>)
    requires Sim(full, c) && AllAllowed(c, events) && AllInStep(full, c, events)
    ensures AllAllowedFull(full, events) && OutputsFull(full, events) == Outputs(c, events)
    ensures Sim(FinalFull(full, events), Final(c, events))
    decreases |events|
  {
    if events != [] {
      EventSim(full, c, events[0]);
      CompactionInvisible(DoFull(full, events[0]).0, Do(c, events[0]).0, events[1..]);
    }
  }

  /** A fresh server is its own twin. */
  lemma FreshSim(id: int, peers: nat)
    ensures Sim(Make(id, peers), Make(id, peers))
  {
    assert Make(id, peers).log[0..] == [];
  }
}
