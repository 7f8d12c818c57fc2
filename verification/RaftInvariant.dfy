/** The inductive invariant of the cluster, and how the history grows with each step. */
module RaftInvariant {
  import opened Basics
  import opened RaftNode
  import opened RaftCluster
  import opened RaftHistory

  // ---------- How a step is recorded ----------

  predicate Fits(n: nat, c: Cluster, h: History) {
    |c.nodes| == |c.applied| == |h.src| == |h.tally| == n
  }

  function Record(n: nat, c: Cluster, h: History, s: Step): History
    requires Fits(n, c, h) && Enabled(c, s)
  {
    match s
    case Timeout(p) => RecordTimeout(h, p, c.nodes[p])
    case HandleVote(p, v) =>
      var args := c.calls[(p, v)].args;
      if RequestVote(c.nodes[v], args).1.granted && (v, args.term) !in h.ballots
      then RecordVote(h, p, v, args.term, c.nodes[v].log) else h
    case CountVote(p, v) =>
      var reply := c.calls[(p, v)].reply;
      if reply.granted && reply.term <= c.nodes[p].term
      then h.(tally := h.tally[p := h.tally[p] + {v}]) else h
    case WinElection(p) => RecordWin(h, p, c.nodes[p])
    case Propose(p, command) =>
      if c.nodes[p].role == Leader && c.nodes[p].term in h.reigns
      then RecordPropose(h, p, c.nodes[p].term, Start(c.nodes[p], command).log) else h
    case Deliver(p, f) =>
      var args := Chan(c, p, f)[0];
      if AppendEntries(c.nodes[f], args).1.success && args.prevLogIndex >= 0
      then RecordAccept(h, f, args.term, args.prevLogIndex + |args.entries|) else h
    case _ => h
  }

  function RecordTimeout(h: History, p: nat, node: Node): History
    requires p < |h.src| == |h.tally|
  {
    h.(ballots := h.ballots[(p, node.term + 1) := Ballot(p, node.log, h.src[p])],
       tally := h.tally[p := {p}])
  }

  function RecordVote(h: History, p: nat, v: nat, t: int, log: seq<Entry>): History
    requires v < |h.src|
  {
    h.(ballots := h.ballots[(v, t) := Ballot(p, log, h.src[v])])
  }

  function RecordWin(h: History, p: nat, node: Node): History
    requires p < |h.src| == |h.tally|
  {
    h.(reigns := h.reigns[node.term := Reign(p, h.tally[p], node.log, node.log)],
       src := h.src[p := node.term],
       acks := h.acks[(p, node.term) := |node.log|])
  }

  function RecordPropose(h: History, p: nat, t: int, log: seq<Entry>): History
    requires t in h.reigns
  {
    h.(reigns := h.reigns[t := h.reigns[t].(log := log)],
       acks := h.acks[(p, t) := |log|])
  }

  function RecordAccept(h: History, f: nat, t: int, total: nat): History
    requires f < |h.src|
  {
    h.(src := h.src[f := t], acks := h.acks[(f, t) := total])
  }

  // ---------- The invariant ----------

  predicate Shape(n: nat, p: nat, node: Node) {
    && node.id == p && node.peers == n
    && node.term >= 0 && node.base == 0 && node.baseTerm == 0
    && |node.nextIndex| == |node.matchIndex| == n
    && 0 <= node.lastApplied <= node.commitIndex <= |node.log|
  }

  /** The log comes from one leader, and is as long as what that leader may count on. */
  ghost predicate LogOk(h: History, p: nat, node: Node)
    requires p < |h.src|
  {
    var t := h.src[p];
    && 0 <= t <= node.term
    && LogIn(h, node.log, t)
    && (forall T :: (p, T) in h.acks ==> T <= t)
    && (t >= 1 ==> (p, t) in h.acks && h.acks[(p, t)] == |node.log|)
  }

  ghost predicate VotesOk(h: History, p: nat, node: Node) {
    && (forall t :: (p, t) in h.ballots ==>
          t <= node.term && (t == node.term ==> node.votedFor == h.ballots[(p, t)].candidate))
    && (forall t :: t in h.reigns && t >= 1 && h.reigns[t].leader == p ==>
          t <= node.term && (t == node.term ==> node.role == Leader))
  }

  predicate CandidateOk(h: History, p: nat, node: Node)
    requires p < |h.src|
  {
    node.role == Candidate ==>
      && node.term >= 1
      && SelfVote(h, p, node.term)
      && h.ballots[(p, node.term)].log == node.log
      && h.ballots[(p, node.term)].src == h.src[p]
  }

  ghost predicate LeaderOk(n: nat, h: History, p: nat, node: Node)
    requires p < |h.src| && Shape(n, p, node)
  {
    node.role == Leader ==>
      && node.term >= 1 && node.term in h.reigns
      && h.reigns[node.term].leader == p
      && h.reigns[node.term].log == node.log
      && h.src[p] == node.term
      && (forall q :: 0 <= q < n ==> 1 <= node.nextIndex[q] <= |node.log| + 1)
      && (forall q :: 0 <= q < n ==> MatchOk(h, node.term, q, node.matchIndex[q]))
  }

  /** A positive match index is backed by what that server has held of this term's log. */
  predicate MatchOk(h: History, t: int, q: nat, m: int) {
    m >= 0 && (m > 0 ==> (q, t) in h.acks && m <= h.acks[(q, t)])
  }

  ghost predicate NodeOk(n: nat, h: History, p: nat, node: Node)
    requires p < |h.src|
  {
    && Shape(n, p, node)
    && LogOk(h, p, node)
    && VotesOk(h, p, node)
    && CandidateOk(h, p, node)
    && LeaderOk(n, h, p, node)
    && CommitOk(n, h, node.log, node.commitIndex, h.src[p])
  }

  /** The votes a candidate has counted, each from a different voter whose call has returned. */
  predicate TallyOk(n: nat, h: History, calls: map<(nat, nat), VoteCall>, p: nat, node: Node)
    requires p < |h.tally|
  {
    node.role == Candidate ==>
      && |h.tally[p]| == node.recvVotes
      && forall v <- h.tally[p] ::
           v < n && (p, v) !in calls
           && (v, node.term) in h.ballots && h.ballots[(v, node.term)].candidate == p
  }

  predicate CallOk(n: nat, h: History, p: nat, v: nat, call: VoteCall, node: Node) {
    var t := if call.Asked? then call.args.term else call.election;
    && v < n && p != v
    && 1 <= t <= node.term && (node.role == Candidate ==> t == node.term)
    && SelfVote(h, p, t)
    && (call.Asked? ==>
          && call.args.candidateId == p
          && call.args.lastLogIndex == |h.ballots[(p, t)].log|
          && call.args.lastLogTerm == LastTermOf(h.ballots[(p, t)].log, 0))
    && (call.Answered? && call.reply.granted ==>
          (v, t) in h.ballots && h.ballots[(v, t)].candidate == p)
  }

  function Total(m: AppendArgs): int {
    m.prevLogIndex + |m.entries|
  }

  /** A message in flight carries the end of its leader's log as it was when sent. */
  ghost predicate SentOk(n: nat, h: History, l: nat, m: AppendArgs) {
    && m.term >= 1 && m.term in h.reigns && h.reigns[m.term].leader == l
    && var log := h.reigns[m.term].log;
    && 0 <= m.prevLogIndex
    && |h.reigns[m.term].init| <= Total(m) <= |log|
    && m.entries == log[m.prevLogIndex..Total(m)]
    && m.prevLogTerm == (if m.prevLogIndex == 0 then 0 else log[m.prevLogIndex - 1].term)
    && 0 <= m.leaderCommit
    && CommitOk(n, h, log[..Total(m)], m.leaderCommit, m.term)
  }

  ghost predicate QueueOk(n: nat, h: History, l: nat, f: nat, queue: seq<AppendArgs>) {
    && (queue != [] ==> l != f)
    && (forall i {:trigger SentOk(n, h, l, queue[i])} :: 0 <= i < |queue| ==>
          SentOk(n, h, l, queue[i])
          && ((f, queue[i].term) in h.acks ==> h.acks[(f, queue[i].term)] <= Total(queue[i])))
    && (forall i, j :: 0 <= i < j < |queue| && queue[i].term == queue[j].term ==>
          Total(queue[i]) <= Total(queue[j]))
  }

  predicate ReplyOk(n: nat, h: History, d: AppendDone) {
    var t := d.args.term;
    && d.leader < n && d.follower < n && d.leader != d.follower
    && t >= 1 && t in h.reigns && h.reigns[t].leader == d.leader
    && 0 <= d.args.prevLogIndex
    && Total(d.args) <= |h.reigns[t].log|
    && (d.reply.success ==> (d.follower, t) in h.acks && Total(d.args) <= h.acks[(d.follower, t)])
    && (!d.reply.success ==>
          d.reply.term > t || d.reply.conflictTerm == PEER_DEAD
          || 1 <= d.reply.conflictIndex <= d.args.prevLogIndex)
  }

  ghost predicate NodesOk(n: nat, c: Cluster, h: History)
    requires Fits(n, c, h)
  {
    forall p {:trigger NodeOk(n, h, p, c.nodes[p])} :: 0 <= p < n ==>
      NodeOk(n, h, p, c.nodes[p]) && c.applied[p] == c.nodes[p].log[..c.nodes[p].lastApplied]
  }

  ghost predicate CallsOk(n: nat, c: Cluster, h: History)
    requires Fits(n, c, h)
  {
    && (forall p {:trigger TallyOk(n, h, c.calls, p, c.nodes[p])} ::
          0 <= p < n ==> TallyOk(n, h, c.calls, p, c.nodes[p]))
    && forall p, v :: (p, v) in c.calls ==> p < n && CallOk(n, h, p, v, c.calls[(p, v)], c.nodes[p])
  }

  ghost predicate QueuesOk(n: nat, c: Cluster, h: History) {
    forall l: nat, f: nat {:trigger QueueOk(n, h, l, f, Chan(c, l, f))} :: l < n && f < n ==> QueueOk(n, h, l, f, Chan(c, l, f))
  }

  ghost predicate RepliesOk(n: nat, c: Cluster, h: History) {
    forall d <- c.replies :: ReplyOk(n, h, d)
  }

  ghost predicate Inv(n: nat, c: Cluster, h: History) {
    && Fits(n, c, h)
    && HistoryOk(n, h)
    && NodesOk(n, c, h)
    && CallsOk(n, c, h)
    && QueuesOk(n, c, h)
    && RepliesOk(n, c, h)
  }

  // ---------- Histories only grow ----------

  ghost predicate Grows(h: History, h': History) {
    && |h.src| == |h'.src| && |h.tally| == |h'.tally|
    && (forall v, t :: (v, t) in h.ballots ==> (v, t) in h'.ballots && h'.ballots[(v, t)] == h.ballots[(v, t)])
    && (forall t :: t in h.reigns ==> t in h'.reigns && ReignGrows(h.reigns[t], h'.reigns[t]))
    && (forall v, t :: (v, t) in h.acks ==> (v, t) in h'.acks && h.acks[(v, t)] <= h'.acks[(v, t)])
  }

  predicate ReignGrows(r: Reign, r': Reign) {
    r'.leader == r.leader && r'.electors == r.electors && r'.init == r.init && r.log <= r'.log
  }

  lemma ChosenGrows(n: nat, h: History, h': History, t: int, k: int)
    requires Grows(h, h') && Chosen(n, h, t, k)
    ensures Chosen(n, h', t, k)
  {
    SubsetSize(Backers(n, h, t, k), Backers(n, h', t, k));
  }

  lemma CommitGrows(n: nat, h: History, h': History, log: seq<Entry>, c: int, t: int)
    requires Grows(h, h') && CommitOk(n, h, log, c, t)
    ensures CommitOk(n, h', log, c, t)
  {
    if c != 0 {
      var T, k :| CommittedBy(n, h, log, c, t, T, k);
      ChosenGrows(n, h, h', T, k);
      assert CommittedBy(n, h', log, c, t, T, k);
    }
  }

  /** Extending the log, or reading it under a later term, keeps its commitment. */
  lemma CommitExtends(n: nat, h: History, log: seq<Entry>, log': seq<Entry>, c: int, t: int, t': int)
    requires CommitOk(n, h, log, c, t) && log <= log' && t <= t'
    ensures CommitOk(n, h, log', c, t')
  {
    if c != 0 {
      var T, k :| CommittedBy(n, h, log, c, t, T, k);
      assert log'[..c] == log[..c];
      assert CommittedBy(n, h, log', c, t', T, k);
    }
  }

  lemma SentGrows(n: nat, h: History, h': History, l: nat, m: AppendArgs)
    requires Grows(h, h') && SentOk(n, h, l, m)
    ensures SentOk(n, h', l, m)
  {
    var log, log' := h.reigns[m.term].log, h'.reigns[m.term].log;
    assert log'[..Total(m)] == log[..Total(m)];
    assert log'[m.prevLogIndex..Total(m)] == log[m.prevLogIndex..Total(m)];
    CommitGrows(n, h, h', log[..Total(m)], m.leaderCommit, m.term);
  }

  /** What a step must leave alone of server `q`'s history for `q` not to notice it. */
  ghost predicate SameFor(h: History, h': History, q: nat) {
    && q < |h.src| && q < |h'.src| && h'.src[q] == h.src[q]
    && (forall t :: (q, t) in h'.ballots ==> (q, t) in h.ballots)
    && (forall t :: (q, t) in h'.acks ==> (q, t) in h.acks && h'.acks[(q, t)] == h.acks[(q, t)])
    && (forall t :: t in h'.reigns && h'.reigns[t].leader == q ==> t in h.reigns && h'.reigns[t].log == h.reigns[t].log)
  }

  lemma NodeFrame(n: nat, h: History, h': History, q: nat, node: Node)
    requires Grows(h, h') && SameFor(h, h', q) && NodeOk(n, h, q, node)
    ensures NodeOk(n, h', q, node)
  {
    CommitGrows(n, h, h', node.log, node.commitIndex, h.src[q]);
  }

  lemma NodesFrame(n: nat, c: Cluster, h: History, c': Cluster, h': History, p: nat)
    requires Fits(n, c, h) && Fits(n, c', h') && NodesOk(n, c, h) && p < n
    requires Grows(h, h')
    requires forall q: nat :: q < n && q != p ==>
               SameFor(h, h', q) && c'.nodes[q] == c.nodes[q] && c'.applied[q] == c.applied[q]
    requires NodeOk(n, h', p, c'.nodes[p]) && c'.applied[p] == c'.nodes[p].log[..c'.nodes[p].lastApplied]
    ensures NodesOk(n, c', h')
  {
    forall q | 0 <= q < n
      ensures NodeOk(n, h', q, c'.nodes[q]) && c'.applied[q] == c'.nodes[q].log[..c'.nodes[q].lastApplied]
    {
      if q != p {
        assert NodeOk(n, h, q, c.nodes[q]);
        NodeFrame(n, h, h', q, c.nodes[q]);
      }
    }
  }

  lemma QueuesFrame(n: nat, c: Cluster, h: History, c': Cluster, h': History)
    requires QueuesOk(n, c, h) && Grows(h, h') && c'.channel == c.channel
    requires forall v, t :: (v, t) in h'.acks && t in h.reigns && h.reigns[t].leader != v ==>
               (v, t) in h.acks && h'.acks[(v, t)] == h.acks[(v, t)]
    ensures QueuesOk(n, c', h')
  {
    forall l: nat, f: nat | l < n && f < n
      ensures QueueOk(n, h', l, f, Chan(c', l, f))
    {
      var queue := Chan(c, l, f);
      assert QueueOk(n, h, l, f, queue);
      forall i | 0 <= i < |queue|
        ensures SentOk(n, h', l, queue[i])
        ensures (f, queue[i].term) in h'.acks ==> h'.acks[(f, queue[i].term)] <= Total(queue[i])
      {
        SentGrows(n, h, h', l, queue[i]);
      }
    }
  }

  lemma RepliesFrame(n: nat, c: Cluster, h: History, c': Cluster, h': History)
    requires RepliesOk(n, c, h) && Grows(h, h') && c'.replies == c.replies
    ensures RepliesOk(n, c', h')
  {
    forall d <- c'.replies
      ensures ReplyOk(n, h', d)
    {
      assert ReplyOk(n, h, d);
    }
  }

  /** A reign is well formed as long as its log and its electors' votes stay what they were. */
  lemma ReignGrowsOk(n: nat, h: History, h': History, t: int)
    requires Grows(h, h') && t in h.reigns && ReignOk(n, h, t) && h'.reigns[t] == h.reigns[t]
    ensures ReignOk(n, h', t)
  {
    MatchingGrows(h, h', h.reigns[t].log);
  }

  lemma MatchingGrows(h: History, h': History, log: seq<Entry>)
    requires Grows(h, h') && Matching(h, log)
    ensures Matching(h', log)
  {
    forall i | 0 <= i < |log|
      ensures EntryFrom(h', log, i)
    {
      assert EntryFrom(h, log, i);
      var u := log[i].term;
      assert h'.reigns[u].log[..i + 1] == h.reigns[u].log[..i + 1];
    }
  }

  /** A ballot is well formed as long as nothing is added to what its voter held before it. */
  lemma BallotGrowsOk(n: nat, h: History, h': History, v: nat, t: int)
    requires Grows(h, h') && (v, t) in h.ballots && BallotOk(n, h, v, t)
    requires forall T :: (v, T) in h'.acks && T < t ==> (v, T) in h.acks && h'.acks[(v, T)] == h.acks[(v, T)]
    ensures BallotOk(n, h', v, t)
  {
  }
}
