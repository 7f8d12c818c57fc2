/** The replication steps keep the invariant. */
module RaftReplication {
  import opened Basics
  import opened RaftNode
  import opened RaftCluster
  import opened RaftHistory
  import opened RaftInvariant
  import opened RaftSteps
  import opened RaftMedian

  // ---------- Taking a command ----------

  lemma ProposeLocal(h: History, p: nat, t: int, log: seq<Entry>)
    requires t in h.reigns && h.reigns[t].leader == p && h.reigns[t].log <= log
    requires (p, t) in h.acks && h.acks[(p, t)] <= |log|
    ensures OnlyFor(h, RecordPropose(h, p, t, log), p)
    ensures AcksOfLeaders(h, RecordPropose(h, p, t, log))
  {
  }

  lemma ProposeReign(n: nat, h: History, p: nat, t: int, e: Entry)
    requires HistoryOk(n, h) && t in h.reigns && t >= 1 && e.term == t
    requires Grows(h, RecordPropose(h, p, t, h.reigns[t].log + [e]))
    ensures ReignOk(n, RecordPropose(h, p, t, h.reigns[t].log + [e]), t)
  {
    var old_, log := h.reigns[t].log, h.reigns[t].log + [e];
    var h' := RecordPropose(h, p, t, log);
    assert ReignOk(n, h, t);
    MatchingGrows(h, h', old_);
    forall i | 0 <= i < |log|
      ensures EntryFrom(h', log, i) && log[i].term <= t
    {
      if i < |old_| {
        assert EntryFrom(h', old_, i);
        assert log[..i + 1] == old_[..i + 1];
        TermsBelow(n, h, t, i);
      }
    }
  }

  lemma ProposeHistory(n: nat, h: History, p: nat, node: Node, e: Entry)
    requires HistoryOk(n, h) && VotesOk(h, p, node) && node.term == e.term >= 1 && e.term in h.reigns
    requires h.reigns[e.term].leader == p && h.reigns[e.term].log == node.log
    requires (p, e.term) in h.acks && h.acks[(p, e.term)] <= |node.log|
    ensures var h' := RecordPropose(h, p, e.term, node.log + [e]);
            OnlyFor(h, h', p) && AcksOfLeaders(h, h') && HistoryOk(n, h')
  {
    hide ReignOk, BallotOk, SameFor, AcksOfLeaders, Grows;
    var t := e.term;
    var h' := RecordPropose(h, p, t, node.log + [e]);
    ProposeLocal(h, p, t, node.log + [e]);
    ProposeReign(n, h, p, t, e);
    forall u | u in h'.reigns
      ensures ReignOk(n, h', u)
    {
      if u != t { ReignGrowsOk(n, h, h', u); }
    }
    forall v, u | (v, u) in h'.ballots
      ensures BallotOk(n, h', v, u)
    {
      BallotGrowsOk(n, h, h', v, u);
    }
  }

  lemma ProposeNode(n: nat, h: History, p: nat, node: Node, e: Entry)
    requires p < n == |h.src| && NodeOk(n, h, p, node) && node.role == Leader && e.term == node.term
    requires Grows(h, RecordPropose(h, p, node.term, node.log + [e]))
    ensures NodeOk(n, RecordPropose(h, p, node.term, node.log + [e]), p, node.(log := node.log + [e]))
  {
    var h' := RecordPropose(h, p, node.term, node.log + [e]);
    CommitGrows(n, h, h', node.log, node.commitIndex, node.term);
    CommitExtends(n, h', node.log, node.log + [e], node.commitIndex, node.term, node.term);
  }

  lemma ProposeKeeps(n: nat, c: Cluster, h: History, p: nat, command: string)
    requires Inv(n, c, h) && p < n && c.nodes[p].role == Leader
    ensures c.nodes[p].term in h.reigns
    ensures var h' := RecordPropose(h, p, c.nodes[p].term, Start(c.nodes[p], command).log);
            Inv(n, Execute(c, Propose(p, command)), h') && Grows(h, h')
  {
    var node := c.nodes[p];
    var e := Entry(command, node.term);
    assert NodeOk(n, h, p, node);
    var c', h' := Execute(c, Propose(p, command)), RecordPropose(h, p, node.term, node.log + [e]);
    assert (p, node.term) in h.acks && h.acks[(p, node.term)] == |node.log|;
    hide HistoryOk, QueueOk, ReplyOk, SameFor, CommitOk, LogOk, VotesOk, LeaderOk, CandidateOk, Grows, TallyOk, CallOk, AcksOfLeaders;
    ProposeHistory(n, h, p, node, e);
    ProposeNode(n, h, p, node, e);
    CallsFrame(n, c, h, c', h', p);
    assert c'.nodes[p].log[..node.lastApplied] == node.log[..node.lastApplied];
    Assemble(n, c, h, c', h', p);
  }

  // ---------- Sending ----------

  lemma Sent(n: nat, h: History, p: nat, node: Node, f: nat)
    requires p < n && f < n && HistoryOk(n, h) && NodeOk(n, h, p, node) && node.role == Leader
    ensures var m := MakeAppendArgs(node, f);
            && SentOk(n, h, p, m) && m.term == node.term
            && Total(m) == |node.log| == |h.reigns[m.term].log|
  {
    assert ReignOk(n, h, node.term);
    var m := MakeAppendArgs(node, f);
    assert node.log[..Total(m)] == node.log;
  }

  lemma HeartbeatQueue(n: nat, h: History, p: nat, node: Node, f: nat, queue: seq<AppendArgs>)
    requires p < n && f < n && f != p && HistoryOk(n, h) && NodeOk(n, h, p, node) && node.role == Leader
    requires QueueOk(n, h, p, f, queue)
    ensures QueueOk(n, h, p, f, queue + [MakeAppendArgs(node, f)])
  {
    var m := MakeAppendArgs(node, f);
    Sent(n, h, p, node, f);
    hide CommitOk, LogOk, VotesOk, CandidateOk, LeaderOk, MakeAppendArgs;
    assert forall i :: 0 <= i < |queue| ==> SentOk(n, h, p, queue[i]);
  }

  lemma HeartbeatChannels(c: Cluster, p: nat, l: nat, f: nat)
    requires Enabled(c, Heartbeat(p)) && l < |c.nodes| && f < |c.nodes|
    ensures var c' := Execute(c, Heartbeat(p));
            && c' == c.(channel := c'.channel)
            && Chan(c', l, f) ==
               if l == p && f != p then Chan(c, l, f) + [MakeAppendArgs(c.nodes[p], f)] else Chan(c, l, f)
  {
    hide MakeAppendArgs;
  }

  lemma HeartbeatKeeps(n: nat, c: Cluster, h: History, p: nat)
    requires Inv(n, c, h) && Enabled(c, Heartbeat(p))
    ensures Inv(n, Execute(c, Heartbeat(p)), h)
  {
    var c' := Execute(c, Heartbeat(p));
    HeartbeatChannels(c, p, p, p);
    OnlyChannels(n, c, h, c');
    hide HistoryOk, NodeOk, QueueOk, ReplyOk, TallyOk, CallOk, MakeAppendArgs, Execute, Chan;
    assert NodeOk(n, h, p, c.nodes[p]);
    forall l: nat, f: nat | l < n && f < n
      ensures QueueOk(n, h, l, f, Chan(c', l, f))
    {
      assert QueueOk(n, h, l, f, Chan(c, l, f));
      HeartbeatChannels(c, p, l, f);
      if l == p && f != p { HeartbeatQueue(n, h, p, c.nodes[p], f, Chan(c, p, f)); }
    }
  }

  // ---------- Losing a message ----------

  lemma LoseKeeps(n: nat, c: Cluster, h: History, p: nat, f: nat, i: nat)
    requires Inv(n, c, h) && Enabled(c, Lose(p, f, i))
    ensures Inv(n, Execute(c, Lose(p, f, i)), h)
  {
    var c' := Execute(c, Lose(p, f, i));
    hide HistoryOk, NodeOk, ReplyOk, TallyOk, CallOk, SentOk;
    OnlyChannels(n, c, h, c');
    forall l: nat, g: nat | l < n && g < n
      ensures QueueOk(n, h, l, g, Chan(c', l, g))
    {
      assert QueueOk(n, h, l, g, Chan(c, l, g));
      if l == p && g == f { Subqueue(n, h, p, f, Chan(c, p, f), i); }
    }
  }

  lemma Subqueue(n: nat, h: History, p: nat, f: nat, queue: seq<AppendArgs>, k: nat)
    requires QueueOk(n, h, p, f, queue) && k < |queue|
    ensures QueueOk(n, h, p, f, queue[..k] + queue[k + 1..])
  {
    hide SentOk;
    var rest := queue[..k] + queue[k + 1..];
    forall i | 0 <= i < |rest|
      ensures SentOk(n, h, p, rest[i])
      ensures (f, rest[i].term) in h.acks ==> h.acks[(f, rest[i].term)] <= Total(rest[i])
    {
      var j := if i < k then i else i + 1;
      assert rest[i] == queue[j] && SentOk(n, h, p, queue[j]);
    }
  }

  lemma OnlyChannels(n: nat, c: Cluster, h: History, c': Cluster)
    requires Inv(n, c, h) && c' == c.(channel := c'.channel)
    ensures Fits(n, c', h) && NodesOk(n, c', h) && CallsOk(n, c', h) && RepliesOk(n, c', h)
  {
    hide HistoryOk, LogOk, VotesOk, CandidateOk, LeaderOk, CommitOk, QueueOk, ReplyOk, TallyOk, CallOk;
    forall p | 0 <= p < n
      ensures NodeOk(n, h, p, c'.nodes[p]) && c'.applied[p] == c'.nodes[p].log[..c'.nodes[p].lastApplied]
      ensures TallyOk(n, h, c'.calls, p, c'.nodes[p])
    {
      assert NodeOk(n, h, p, c.nodes[p]) && TallyOk(n, h, c.calls, p, c.nodes[p]);
    }
  }

  // ---------- Receiving ----------

  /** Agreement on the term at one index is agreement on everything up to it. */
  lemma PrefixesAgree(n: nat, h: History, a: seq<Entry>, s: int, b: seq<Entry>, t: int, k: nat)
    requires HistoryOk(n, h) && s in h.reigns && t in h.reigns
    requires a <= h.reigns[s].log && b <= h.reigns[t].log
    requires k < |a| && k < |b| && a[k].term == b[k].term
    ensures a[..k + 1] == b[..k + 1]
  {
    assert ReignOk(n, h, s) && ReignOk(n, h, t);
    assert EntryFrom(h, h.reigns[s].log, k) && EntryFrom(h, h.reigns[t].log, k);
    assert a[..k + 1] == h.reigns[s].log[..k + 1];
    assert b[..k + 1] == h.reigns[t].log[..k + 1];
  }

  /** An accepted message leaves its receiver with the leader's log as it was when sent. */
  lemma AcceptedLog(n: nat, h: History, f: nat, node: Node, l: nat, m: AppendArgs)
    requires f < n && HistoryOk(n, h) && NodeOk(n, h, f, node) && SentOk(n, h, l, m)
    requires AppendEntries(node, m).1.success
    ensures AppendEntries(node, m).0.log == h.reigns[m.term].log[..Total(m)]
  {
    var prev, log := m.prevLogIndex, h.reigns[m.term].log;
    if prev > 0 {
      PrefixesAgree(n, h, node.log, h.src[f], log, m.term, prev - 1);
    }
    assert node.log[..prev] == log[..prev];
    assert log[..prev] + log[prev..Total(m)] == log[..Total(m)];
  }

  lemma AcceptLocal(h: History, f: nat, t: int, total: nat)
    requires f < |h.src| && ((f, t) in h.acks ==> h.acks[(f, t)] <= total)
    ensures OnlyFor(h, RecordAccept(h, f, t, total), f)
  {
  }

  lemma AcceptHistory(n: nat, h: History, f: nat, node: Node, l: nat, m: AppendArgs)
    requires f < n && HistoryOk(n, h) && VotesOk(h, f, node) && SentOk(n, h, l, m)
    requires node.term <= m.term && ((f, m.term) in h.acks ==> h.acks[(f, m.term)] <= Total(m))
    ensures var h' := RecordAccept(h, f, m.term, Total(m));
            OnlyFor(h, h', f) && HistoryOk(n, h')
  {
    var h' := RecordAccept(h, f, m.term, Total(m));
    AcceptLocal(h, f, m.term, Total(m));
    hide CommitOk, ReignOk, BallotOk, SameFor;
    forall u | u in h'.reigns
      ensures ReignOk(n, h', u)
    {
      ReignGrowsOk(n, h, h', u);
    }
    forall v, u | (v, u) in h'.ballots
      ensures BallotOk(n, h', v, u)
    {
      BallotGrowsOk(n, h, h', v, u);
    }
  }

  /** What a server had committed it still holds in the log it takes over. */
  lemma AcceptKeepsCommit(n: nat, h: History, f: nat, node: Node, l: nat, m: AppendArgs)
    requires f < n && HistoryOk(n, h) && NodeOk(n, h, f, node) && SentOk(n, h, l, m)
    requires node.term <= m.term && ((f, m.term) in h.acks ==> h.acks[(f, m.term)] <= Total(m))
    ensures node.commitIndex <= Total(m)
    ensures CommitOk(n, h, h.reigns[m.term].log[..Total(m)], node.commitIndex, m.term)
    ensures h.reigns[m.term].log[..node.commitIndex] == node.log[..node.commitIndex]
  {
    var log := h.reigns[m.term].log[..Total(m)];
    var k := node.commitIndex;
    if h.src[f] == m.term {
      assert node.log <= h.reigns[m.term].log;
      CommitExtends(n, h, node.log, log, k, m.term, m.term);
    } else if k > 0 {
      var T, j :| CommittedBy(n, h, node.log, k, h.src[f], T, j);
      LeaderCompleteness(n, h, T, j, m.term);
      assert ReignOk(n, h, m.term);
      var init := h.reigns[m.term].init;
      assert log[..k] == init[..k] == h.reigns[T].log[..j][..k] == h.reigns[T].log[..k];
      assert CommittedBy(n, h, log, k, m.term, T, j);
    }
  }

  /** The receiver of an accepted message, field by field. */
  lemma AcceptedNode(n: nat, f: nat, node: Node, m: AppendArgs)
    requires Shape(n, f, node) && AppendEntries(node, m).1.success
    ensures var node' := AppendEntries(node, m).0;
            node.term <= m.term &&
            node' == node.(term := m.term, role := Follower,
                           votedFor := if m.term > node.term then NO_VOTE else node.votedFor,
                           log := node'.log,
                           commitIndex := if node.commitIndex < m.leaderCommit
                                          then Min(m.leaderCommit, |node'.log|) else node.commitIndex)
  {
  }

  lemma AcceptNode(n: nat, h: History, f: nat, node: Node, l: nat, m: AppendArgs)
    requires f < n && l != f && HistoryOk(n, h) && NodeOk(n, h, f, node) && SentOk(n, h, l, m)
    requires ((f, m.term) in h.acks ==> h.acks[(f, m.term)] <= Total(m))
    requires AppendEntries(node, m).1.success && node.term <= m.term
    requires Grows(h, RecordAccept(h, f, m.term, Total(m)))
    ensures NodeOk(n, RecordAccept(h, f, m.term, Total(m)), f, AppendEntries(node, m).0)
    ensures node.commitIndex <= |AppendEntries(node, m).0.log|
    ensures AppendEntries(node, m).0.log[..node.commitIndex] == node.log[..node.commitIndex]
  {
    hide AppendEntries;
    var h' := RecordAccept(h, f, m.term, Total(m));
    var node' := AppendEntries(node, m).0;
    AcceptedNode(n, f, node, m);
    AcceptedLog(n, h, f, node, l, m);
    AcceptKeepsCommit(n, h, f, node, l, m);
    assert h.reigns[m.term].leader == l && |node'.log| == Total(m);
    assert LogIn(h, node'.log, m.term) by { assert ReignOk(n, h, m.term); }
    hide SentOk, HistoryOk, CandidateOk, LeaderOk, VotesOk, LogOk, LogIn;
    CommitGrows(n, h, h', node'.log, node.commitIndex, m.term);
    CommitGrows(n, h, h', node'.log, m.leaderCommit, m.term);
    CommitWithin(n, h, node'.log, m.leaderCommit, m.term);
    hide CommitOk, Grows;
    AcceptVotes(h, f, node, node', m.term, Total(m));
    AcceptHolds(h, f, node, node', m.term, Total(m));
    FollowerOk(n, h', f, node');
  }

  lemma FollowerOk(n: nat, h: History, f: nat, node: Node)
    requires f < |h.src| && Shape(n, f, node) && node.role == Follower
    ensures LeaderOk(n, h, f, node) && CandidateOk(h, f, node)
  {
  }

  lemma AcceptVotes(h: History, f: nat, node: Node, node': Node, t: int, total: nat)
    requires f < |h.src| && VotesOk(h, f, node)
    requires node.term <= t && node'.term == t && t in h.reigns && h.reigns[t].leader != f
    requires node'.votedFor == if t > node.term then NO_VOTE else node.votedFor
    ensures VotesOk(RecordAccept(h, f, t, total), f, node')
  {
  }

  lemma AcceptHolds(h: History, f: nat, node: Node, node': Node, t: int, total: nat)
    requires f < |h.src| && LogOk(h, f, node) && LogIn(h, node'.log, t) && |node'.log| == total
    requires node.term <= t && node'.term == t
    ensures LogOk(RecordAccept(h, f, t, total), f, node')
  {
  }

  lemma CommitWithin(n: nat, h: History, log: seq<Entry>, c: int, t: int)
    requires CommitOk(n, h, log, c, t)
    ensures c <= |log|
  {
  }

  /** A refusal changes at most the term, the role and the vote. */
  lemma RefuseNode(n: nat, h: History, f: nat, node: Node, l: nat, m: AppendArgs)
    requires f < n == |h.src| && l != f && NodeOk(n, h, f, node) && SentOk(n, h, l, m)
    requires !AppendEntries(node, m).1.success
    ensures NodeOk(n, h, f, AppendEntries(node, m).0)
    ensures AppendEntries(node, m).0.log == node.log
  {
    hide CommitOk;
  }

  lemma {:induction false} FirstOfTermBound(log: seq<Entry>, t: int, k: nat)
    requires k < |log| && log[k].term == t
    ensures FirstOfTerm(log, t) <= k && log[FirstOfTerm(log, t)].term == t
  {
    if log[0].term != t { FirstOfTermBound(log[1..], t, k - 1); }
  }

  /** A refusal names a higher term, a dead peer, or an index the leader can go back to. */
  lemma RefusalHint(n: nat, h: History, f: nat, node: Node, l: nat, m: AppendArgs)
    requires f < n == |h.src| && NodeOk(n, h, f, node) && SentOk(n, h, l, m)
    ensures var reply := AppendEntries(node, m).1;
            !reply.success ==>
              reply.term > m.term || reply.conflictTerm == PEER_DEAD || 1 <= reply.conflictIndex <= m.prevLogIndex
  {
    hide CommitOk, LogOk, VotesOk, CandidateOk, LeaderOk;
    var prev := m.prevLogIndex;
    if 0 < prev <= |node.log| {
      FirstOfTermBound(node.log, node.log[prev - 1].term, prev - 1);
    }
  }

  lemma DeliverQueues(n: nat, c: Cluster, h: History, c': Cluster, h': History, p: nat, f: nat)
    requires p < n && f < n && QueuesOk(n, c, h) && Grows(h, h')
    requires Chan(c, p, f) != [] && c'.channel == c.channel[(p, f) := Chan(c, p, f)[1..]]
    requires var m := Chan(c, p, f)[0];
             h'.acks == h.acks || (Total(m) >= 0 && h'.acks == h.acks[(f, m.term) := Total(m)])
    ensures QueuesOk(n, c', h')
  {
    var m := Chan(c, p, f)[0];
    assert QueueOk(n, h, p, f, Chan(c, p, f));
    assert SentOk(n, h, p, m);
    hide CommitOk;
    forall l: nat, g: nat | l < n && g < n
      ensures QueueOk(n, h', l, g, Chan(c', l, g))
    {
      var queue, queue' := Chan(c, l, g), Chan(c', l, g);
      assert QueueOk(n, h, l, g, queue);
      var k := if l == p && g == f then 1 else 0;
      forall i | 0 <= i < |queue'|
        ensures SentOk(n, h', l, queue'[i])
        ensures (g, queue'[i].term) in h'.acks ==> h'.acks[(g, queue'[i].term)] <= Total(queue'[i])
      {
        assert queue'[i] == queue[i + k] && SentOk(n, h, l, queue[i + k]);
        SentGrows(n, h, h', l, queue'[i]);
      }
    }
  }

  lemma DeliverReplies(n: nat, c: Cluster, h: History, c': Cluster, h': History, d: AppendDone)
    requires RepliesOk(n, c, h) && Grows(h, h')
    requires c'.replies == c.replies + {d} && ReplyOk(n, h', d)
    ensures RepliesOk(n, c', h')
  {
    hide ReplyOk;
    forall e <- c.replies
      ensures ReplyOk(n, h', e)
    {
      ReplyGrows(n, h, h', e);
    }
  }

  lemma ReplyGrows(n: nat, h: History, h': History, d: AppendDone)
    requires ReplyOk(n, h, d) && Grows(h, h')
    ensures ReplyOk(n, h', d)
  {
  }

  function AfterDeliver(h: History, f: nat, node: Node, m: AppendArgs): History
    requires f < |h.src|
  {
    if AppendEntries(node, m).1.success && m.prevLogIndex >= 0
    then RecordAccept(h, f, m.term, m.prevLogIndex + |m.entries|) else h
  }

  /** The receiver, the history and the reply after one delivery. */
  lemma DeliverParts(n: nat, h: History, p: nat, f: nat, node: Node, m: AppendArgs)
    requires p < n && f < n && p != f && HistoryOk(n, h) && NodeOk(n, h, f, node) && SentOk(n, h, p, m)
    requires ((f, m.term) in h.acks ==> h.acks[(f, m.term)] <= Total(m))
    ensures var h' := AfterDeliver(h, f, node, m);
            var (node', reply) := AppendEntries(node, m);
            && OnlyFor(h, h', f) && HistoryOk(n, h')
            && NodeOk(n, h', f, node')
            && node'.log[..node.lastApplied] == node.log[..node.lastApplied]
            && ReplyOk(n, h', AppendDone(p, f, m, reply))
            && (h'.acks == h.acks || h'.acks == h.acks[(f, m.term) := Total(m)])
  {
    hide AppendEntries, CommitOk, HistoryOk, LogOk, VotesOk, CandidateOk, LeaderOk, SameFor, Grows;
    SourcesOf(n, h);
    RefusalHint(n, h, f, node, p, m);
    Unchanged(h, f);
    if AppendEntries(node, m).1.success {
      AcceptedNode(n, f, node, m);
      AcceptHistory(n, h, f, node, p, m);
      AcceptNode(n, h, f, node, p, m);
      var node' := AppendEntries(node, m).0;
      assert node'.log[..node.commitIndex][..node.lastApplied] == node'.log[..node.lastApplied];
      assert node.log[..node.commitIndex][..node.lastApplied] == node.log[..node.lastApplied];
    } else {
      RefuseNode(n, h, f, node, p, m);
    }
  }

  lemma DeliverLeaves(node: Node, m: AppendArgs)
    ensures var node' := AppendEntries(node, m).0;
            && node'.lastApplied == node.lastApplied && node'.recvVotes == node.recvVotes
            && node'.term >= node.term
            && (node'.role == Candidate ==> node.role == Candidate && node'.term == node.term)
  {
  }

  lemma DeliverKeeps(n: nat, c: Cluster, h: History, p: nat, f: nat)
    requires Inv(n, c, h) && Enabled(c, Deliver(p, f))
    ensures var h' := AfterDeliver(h, f, c.nodes[f], Chan(c, p, f)[0]);
            Inv(n, Execute(c, Deliver(p, f)), h') && Grows(h, h')
  {
    var c', m, node := Execute(c, Deliver(p, f)), Chan(c, p, f)[0], c.nodes[f];
    var h' := AfterDeliver(h, f, node, m);
    assert QueueOk(n, h, p, f, Chan(c, p, f));
    assert NodeOk(n, h, f, node);
    assert SentOk(n, h, p, m);
    DeliverLeaves(node, m);
    hide HistoryOk, ReplyOk, SameFor, CommitOk, LogOk, VotesOk, LeaderOk, CandidateOk, Grows, TallyOk, CallOk, AppendEntries, SentOk;
    DeliverParts(n, h, p, f, node, m);
    DeliverQueues(n, c, h, c', h', p, f);
    DeliverReplies(n, c, h, c', h', AppendDone(p, f, m, AppendEntries(node, m).1));
    CallsFrame(n, c, h, c', h', f);
    NodesFrame(n, c, h, c', h', f);
  }

  // ---------- Handling a reply ----------

  /** The median rule commits only what is chosen. */
  lemma MedianChosen(n: nat, h: History, p: nat, node: Node)
    requires p < n && n % 2 == 1 && HistoryOk(n, h) && Shape(n, p, node) && LeaderOk(n, h, p, node) && node.role == Leader
    requires var m := Median(node.matchIndex); m > node.commitIndex && TermAt(node, m) == node.term
    ensures Chosen(n, h, node.term, Median(node.matchIndex)) && Median(node.matchIndex) <= |node.log|
  {
    var m, t := Median(node.matchIndex), node.term;
    MedianMajority(node.matchIndex);
    var i :| 0 <= i < n && node.matchIndex[i] == m;
    assert MatchOk(h, t, i, m);
    forall q | q in Holders(node.matchIndex, m)
      ensures q in Backers(n, h, t, m)
    {
      assert MatchOk(h, t, q, node.matchIndex[q]);
    }
    SubsetSize(Holders(node.matchIndex, m), Backers(n, h, t, m));
  }

  lemma AdvanceNode(n: nat, h: History, p: nat, node: Node)
    requires p < n && n % 2 == 1 && HistoryOk(n, h) && NodeOk(n, h, p, node) && node.role == Leader
    ensures NodeOk(n, h, p, AdvanceCommit(node))
  {
    var m := Median(node.matchIndex);
    if m > node.commitIndex && TermAt(node, m) == node.term {
      MedianChosen(n, h, p, node);
      assert CommittedBy(n, h, node.log, m, node.term, node.term, m);
      hide HistoryOk, LogIn, Median, Chosen;
    }
  }

  lemma {:induction false} LastOfTermBound(n: Node, i: int, t: int)
    ensures var k := LastOfTerm(n, i, t); k == -1 || (n.base < k <= i && TermAt(n, k) == t)
    decreases i - n.base
  {
    if i > n.base && TermAt(n, i) != t { LastOfTermBound(n, i - 1, t); }
  }

  lemma BackOffBound(n: nat, h: History, d: AppendDone, node: Node)
    requires d.leader < n && Shape(n, d.leader, node) && ReplyOk(n, h, d)
    requires node.term == d.args.term && d.reply.term <= node.term && !d.reply.success
    requires d.args.prevLogIndex <= |node.log|
    requires 1 <= node.nextIndex[d.follower] <= |node.log| + 1
    ensures 1 <= BackOff(node, d.args, d.reply, node.nextIndex[d.follower]) <= |node.log| + 1
  {
    LastOfTermBound(node, d.args.prevLogIndex, d.reply.conflictTerm);
  }

  lemma SourcesOf(n: nat, h: History)
    requires HistoryOk(n, h)
    ensures |h.src| == n
  {
  }

  lemma ReplySuccess(n: nat, h: History, d: AppendDone, node: Node)
    requires n % 2 == 1 && HistoryOk(n, h) && ReplyOk(n, h, d) && NodeOk(n, h, d.leader, node)
    requires node.role == Leader && d.reply.success && node.term == d.args.term && d.reply.term <= node.term
    ensures NodeOk(n, h, d.leader, OnAppendReply(node, d.follower, d.args, d.reply))
  {
    hide HistoryOk, LogIn, CommitOk, AdvanceCommit;
    SourcesOf(n, h);
    var p, next := d.leader, Total(d.args) + 1;
    var mid := node.(nextIndex := node.nextIndex[d.follower := next],
                     matchIndex := node.matchIndex[d.follower := next - 1][p := LastIndex(node)]);
    forall q | 0 <= q < n
      ensures 1 <= mid.nextIndex[q] <= |mid.log| + 1 && MatchOk(h, mid.term, q, mid.matchIndex[q])
    {
      assert MatchOk(h, node.term, q, node.matchIndex[q]);
    }
    hide MatchOk;
    assert LeaderOk(n, h, p, mid);
    AdvanceNode(n, h, p, mid);
  }

  lemma ReplyNode(n: nat, h: History, d: AppendDone, node: Node)
    requires n % 2 == 1 && HistoryOk(n, h) && ReplyOk(n, h, d) && NodeOk(n, h, d.leader, node)
    ensures NodeOk(n, h, d.leader, OnAppendReply(node, d.follower, d.args, d.reply))
  {
    if node.term == d.args.term {
      assert node.role == Leader;
      if d.reply.term <= node.term {
        if d.reply.success {
          ReplySuccess(n, h, d, node);
        } else {
          BackOffBound(n, h, d, node);
          hide HistoryOk, LogIn, CommitOk, BackOff;
        }
      } else {
        hide HistoryOk, LogIn, CommitOk;
      }
    }
  }

  lemma HandleReplyKeeps(n: nat, c: Cluster, h: History, d: AppendDone)
    requires Inv(n, c, h) && Enabled(c, HandleReply(d)) && n % 2 == 1
    ensures Inv(n, Execute(c, HandleReply(d)), h)
  {
    var c', p := Execute(c, HandleReply(d)), d.leader;
    hide HistoryOk, QueueOk, ReplyOk, TallyOk, CallOk, LogOk, VotesOk, CandidateOk, LeaderOk, CommitOk, SameFor, Grows;
    assert NodeOk(n, h, p, c.nodes[p]);
    ReplyNode(n, h, d, c.nodes[p]);
    ReplyLeaves(c.nodes[p], d);
    hide OnAppendReply;
    Unchanged(h, p);
    CallsFrame(n, c, h, c', h, p);
    Assemble(n, c, h, c', h, p);
  }

  lemma ReplyLeaves(node: Node, d: AppendDone)
    requires 0 <= node.id < |node.matchIndex| == |node.nextIndex| && d.follower < |node.nextIndex|
    ensures var node' := OnAppendReply(node, d.follower, d.args, d.reply);
            && node'.log == node.log && node'.lastApplied == node.lastApplied && node'.recvVotes == node.recvVotes
            && node'.term >= node.term
            && (node'.role == Candidate ==> node.role == Candidate && node'.term == node.term)
  {
    hide Median, BackOff;
  }

  // ---------- Applying, and the dead switch ----------

  lemma ApplyKeeps(n: nat, c: Cluster, h: History, p: nat)
    requires Inv(n, c, h) && Enabled(c, Apply(p))
    ensures Inv(n, Execute(c, Apply(p)), h)
  {
    var c', node := Execute(c, Apply(p)), c.nodes[p];
    assert NodeOk(n, h, p, node);
    hide HistoryOk, QueueOk, ReplyOk, TallyOk, CallOk, CommitOk, SameFor, Grows, LogIn;
    assert node.log[..node.lastApplied] + node.log[node.lastApplied..node.commitIndex] == node.log[..node.commitIndex];
    assert NodeOk(n, h, p, c'.nodes[p]);
    Unchanged(h, p);
    CallsFrame(n, c, h, c', h, p);
    Assemble(n, c, h, c', h, p);
  }

  lemma SetDeadKeeps(n: nat, c: Cluster, h: History, p: nat, dead: bool)
    requires Inv(n, c, h) && Enabled(c, SetDead(p, dead))
    ensures Inv(n, Execute(c, SetDead(p, dead)), h)
  {
    var c' := Execute(c, SetDead(p, dead));
    assert NodeOk(n, h, p, c.nodes[p]);
    hide HistoryOk, QueueOk, ReplyOk, TallyOk, CallOk, CommitOk, SameFor, Grows, LogIn;
    assert NodeOk(n, h, p, c'.nodes[p]);
    Unchanged(h, p);
    CallsFrame(n, c, h, c', h, p);
    Assemble(n, c, h, c', h, p);
  }
}
