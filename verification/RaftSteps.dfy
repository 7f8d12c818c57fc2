/** Every step of the cluster keeps the invariant. */
module RaftSteps {
  import opened RaftNode
  import opened RaftCluster
  import opened RaftHistory
  import opened RaftInvariant

  // ---------- Putting the parts together ----------

  /** A step that changes server `p` alone and leaves the channels and replies as they are. */
  lemma Assemble(n: nat, c: Cluster, h: History, c': Cluster, h': History, p: nat)
    requires Inv(n, c, h) && Fits(n, c', h') && p < n
    requires HistoryOk(n, h') && Grows(h, h') && CallsOk(n, c', h')
    requires c'.channel == c.channel && c'.replies == c.replies
    requires NodeOk(n, h', p, c'.nodes[p]) && c'.applied[p] == c'.nodes[p].log[..c'.nodes[p].lastApplied]
    requires forall q: nat :: q < n && q != p ==>
               SameFor(h, h', q) && c'.nodes[q] == c.nodes[q] && c'.applied[q] == c.applied[q]
    requires AcksOfLeaders(h, h')
    ensures Inv(n, c', h')
  {
    NodesFrame(n, c, h, c', h', p);
    QueuesFrame(n, c, h, c', h');
    RepliesFrame(n, c, h, c', h');
  }

  /** Only a leader's own holding of its own log changes. */
  ghost predicate AcksOfLeaders(h: History, h': History) {
    forall v, t :: (v, t) in h'.acks && t in h.reigns && h.reigns[t].leader != v ==>
      (v, t) in h.acks && h'.acks[(v, t)] == h.acks[(v, t)]
  }

  ghost predicate OnlyFor(h: History, h': History, p: nat) {
    Grows(h, h') && forall q: nat :: q < |h.src| && q != p ==> SameFor(h, h', q)
  }

  lemma Unchanged(h: History, p: nat)
    requires p < |h.src|
    ensures OnlyFor(h, h, p)
  {
  }

  lemma CallGrows(n: nat, h: History, h': History, p: nat, v: nat, call: VoteCall, node: Node, node': Node)
    requires CallOk(n, h, p, v, call, node) && Grows(h, h')
    requires node'.term >= node.term && (node'.role == Candidate ==> node.role == Candidate && node'.term == node.term)
    ensures CallOk(n, h', p, v, call, node')
  {
  }

  lemma TallyGrows(n: nat, h: History, h': History, calls: map<(nat, nat), VoteCall>,
                   calls': map<(nat, nat), VoteCall>, p: nat, node: Node, node': Node)
    requires p < |h.tally| == |h'.tally| && TallyOk(n, h, calls, p, node) && Grows(h, h')
    requires h'.tally[p] == h.tally[p] && node'.recvVotes == node.recvVotes
    requires node'.role == Candidate ==> node.role == Candidate && node'.term == node.term
    requires forall v: nat :: (p, v) in calls' ==> (p, v) in calls
    ensures TallyOk(n, h', calls', p, node')
  {
  }

  // ---------- Starting an election ----------

  /** The ballot a candidate casts for itself is new and as it should be. */
  lemma TimeoutBallot(n: nat, h: History, p: nat, node: Node)
    requires HistoryOk(n, h) && p < n && NodeOk(n, h, p, node)
    ensures (p, node.term + 1) !in h.ballots && BallotOk(n, RecordTimeout(h, p, node), p, node.term + 1)
  {
  }

  lemma TimeoutHistory(n: nat, h: History, p: nat, node: Node)
    requires HistoryOk(n, h) && p < n && NodeOk(n, h, p, node)
    ensures var h' := RecordTimeout(h, p, node);
            OnlyFor(h, h', p) && HistoryOk(n, h')
  {
    hide ReignOk, BallotOk;
    var h' := RecordTimeout(h, p, node);
    TimeoutBallot(n, h, p, node);
    forall t | t in h'.reigns
      ensures ReignOk(n, h', t)
    {
      ReignGrowsOk(n, h, h', t);
    }
    forall v, u | (v, u) in h'.ballots
      ensures BallotOk(n, h', v, u)
    {
      if (v, u) in h.ballots { BallotGrowsOk(n, h, h', v, u); }
    }
  }

  lemma TimeoutNode(n: nat, h: History, p: nat, node: Node)
    requires p < n && |h.src| == |h.tally| == n && NodeOk(n, h, p, node)
    requires Grows(h, RecordTimeout(h, p, node))
    ensures NodeOk(n, RecordTimeout(h, p, node), p, StartElection(node))
  {
    CommitGrows(n, h, RecordTimeout(h, p, node), node.log, node.commitIndex, h.src[p]);
  }

  /** Starting an election puts one call to every other server on the way. */
  lemma TimeoutAsks(c: Cluster, p: nat, q: nat, v: nat)
    requires Enabled(c, Timeout(p))
    ensures var c' := Execute(c, Timeout(p));
            && ((q, v) in c'.calls <==> (q, v) in c.calls || (q == p && v < Size(c) && v != p))
            && ((q, v) in c'.calls ==>
                  c'.calls[(q, v)] == if q == p then Asked(MakeVoteArgs(StartElection(c.nodes[p]))) else c.calls[(q, v)])
  {
    if Size(c) >= 2 { VoteThreadsReachEveryPeer(p, Size(c)); }
  }

  lemma TimeoutCall(n: nat, c: Cluster, h: History, p: nat, q: nat, v: nat)
    requires Fits(n, c, h) && CallsOk(n, c, h) && Enabled(c, Timeout(p))
    requires Shape(n, p, c.nodes[p]) && Grows(h, RecordTimeout(h, p, c.nodes[p]))
    requires (q, v) in Execute(c, Timeout(p)).calls
    ensures var c' := Execute(c, Timeout(p));
            q < n && CallOk(n, RecordTimeout(h, p, c.nodes[p]), q, v, c'.calls[(q, v)], c'.nodes[q])
  {
    hide Grows, VoteTargets, Pairs;
    TimeoutAsks(c, p, q, v);
    if q != p { CallGrows(n, h, RecordTimeout(h, p, c.nodes[p]), q, v, c.calls[(q, v)], c.nodes[q], c.nodes[q]); }
  }

  lemma TimeoutTally(n: nat, c: Cluster, h: History, p: nat, q: nat)
    requires Fits(n, c, h) && CallsOk(n, c, h) && Enabled(c, Timeout(p)) && q < n
    requires Shape(n, p, c.nodes[p]) && Grows(h, RecordTimeout(h, p, c.nodes[p]))
    ensures var c' := Execute(c, Timeout(p)); TallyOk(n, RecordTimeout(h, p, c.nodes[p]), c'.calls, q, c'.nodes[q])
  {
    hide Grows, VoteTargets, Pairs, CallOk;
    var c', h' := Execute(c, Timeout(p)), RecordTimeout(h, p, c.nodes[p]);
    if q == p {
      TimeoutAsks(c, p, p, p);
    } else {
      forall v: nat ensures (q, v) in c'.calls ==> (q, v) in c.calls { TimeoutAsks(c, p, q, v); }
      assert TallyOk(n, h, c.calls, q, c.nodes[q]);
      TallyGrows(n, h, h', c.calls, c'.calls, q, c.nodes[q], c.nodes[q]);
    }
  }

  lemma TimeoutCalls(n: nat, c: Cluster, h: History, p: nat)
    requires Fits(n, c, h) && CallsOk(n, c, h) && Enabled(c, Timeout(p))
    requires Shape(n, p, c.nodes[p]) && Grows(h, RecordTimeout(h, p, c.nodes[p]))
    ensures CallsOk(n, Execute(c, Timeout(p)), RecordTimeout(h, p, c.nodes[p]))
  {
    hide Grows, VoteTargets, Pairs, CallOk, TallyOk;
    var c', h' := Execute(c, Timeout(p)), RecordTimeout(h, p, c.nodes[p]);
    forall q, v | (q, v) in c'.calls ensures q < n && CallOk(n, h', q, v, c'.calls[(q, v)], c'.nodes[q]) {
      TimeoutCall(n, c, h, p, q, v);
    }
    forall q | 0 <= q < n ensures TallyOk(n, h', c'.calls, q, c'.nodes[q]) { TimeoutTally(n, c, h, p, q); }
  }

  lemma TimeoutKeeps(n: nat, c: Cluster, h: History, p: nat)
    requires Inv(n, c, h) && Enabled(c, Timeout(p))
    ensures Inv(n, Execute(c, Timeout(p)), RecordTimeout(h, p, c.nodes[p]))
    ensures Grows(h, RecordTimeout(h, p, c.nodes[p]))
  {
    TimeoutHistory(n, h, p, c.nodes[p]);
    TimeoutNode(n, h, p, c.nodes[p]);
    TimeoutCalls(n, c, h, p);
    Assemble(n, c, h, Execute(c, Timeout(p)), RecordTimeout(h, p, c.nodes[p]), p);
  }

  // ---------- Voting ----------

  function AfterVote(h: History, p: nat, v: nat, node: Node, args: VoteArgs): History
    requires v < |h.src|
  {
    if RequestVote(node, args).1.granted && (v, args.term) !in h.ballots
    then RecordVote(h, p, v, args.term, node.log) else h
  }

  predicate VoteCallOk(h: History, p: nat, args: VoteArgs) {
    && args.term >= 1 && SelfVote(h, p, args.term)
    && args.candidateId == p
    && args.lastLogIndex == |h.ballots[(p, args.term)].log|
    && args.lastLogTerm == LastTermOf(h.ballots[(p, args.term)].log, 0)
  }

  lemma VoteBallot(n: nat, h: History, p: nat, v: nat, node: Node, args: VoteArgs)
    requires v < n == |h.src| && p < n && VoteCallOk(h, p, args) && NodeOk(n, h, v, node)
    requires RequestVote(node, args).1.granted && (v, args.term) !in h.ballots
    requires forall v, t :: (v, t) in h.acks ==> t >= 1
    ensures BallotOk(n, RecordVote(h, p, v, args.term, node.log), v, args.term)
  {
    assert v != p;
  }

  lemma VoteLocal(h: History, p: nat, v: nat, t: int, log: seq<Entry>)
    requires v < |h.src| && (v, t) !in h.ballots
    ensures OnlyFor(h, RecordVote(h, p, v, t, log), v)
  {
  }

  lemma VoteHistory(n: nat, h: History, p: nat, v: nat, node: Node, args: VoteArgs)
    requires HistoryOk(n, h) && v < n && p < n && NodeOk(n, h, v, node) && VoteCallOk(h, p, args)
    ensures var h' := AfterVote(h, p, v, node, args);
            OnlyFor(h, h', v) && HistoryOk(n, h')
  {
    hide NodeOk, RequestVote, ReignOk, BallotOk, SameFor, Grows;
    var h' := AfterVote(h, p, v, node, args);
    Unchanged(h, v);
    if h' != h {
      VoteBallot(n, h, p, v, node, args);
      VoteLocal(h, p, v, args.term, node.log);
      forall t | t in h'.reigns
        ensures ReignOk(n, h', t)
      {
        ReignGrowsOk(n, h, h', t);
      }
      forall w, u | (w, u) in h'.ballots
        ensures BallotOk(n, h', w, u)
      {
        if (w, u) in h.ballots { BallotGrowsOk(n, h, h', w, u); }
      }
    }
  }

  lemma VoteNode(n: nat, h: History, p: nat, v: nat, node: Node, args: VoteArgs)
    requires v < n == |h.src| && NodeOk(n, h, v, node) && VoteCallOk(h, p, args)
    requires Grows(h, AfterVote(h, p, v, node, args))
    ensures var h' := AfterVote(h, p, v, node, args);
            var (node', reply) := RequestVote(node, args);
            && NodeOk(n, h', v, node')
            && (reply.granted ==> (v, args.term) in h'.ballots && h'.ballots[(v, args.term)].candidate == p)
  {
    CommitGrows(n, h, AfterVote(h, p, v, node, args), node.log, node.commitIndex, h.src[v]);
    hide CommitOk, Grows;
  }

  lemma VoteCalls(n: nat, c: Cluster, h: History, h': History, p: nat, v: nat)
    requires Fits(n, c, h) && Fits(n, c, h') && CallsOk(n, c, h) && Enabled(c, HandleVote(p, v))
    requires Grows(h, h') && h'.tally == h.tally
    requires RequestVote(c.nodes[v], c.calls[(p, v)].args).1.granted ==>
               var t := c.calls[(p, v)].args.term;
               (v, t) in h'.ballots && h'.ballots[(v, t)].candidate == p
    ensures CallsOk(n, Execute(c, HandleVote(p, v)), h')
  {
    var c' := Execute(c, HandleVote(p, v));
    forall q, w | (q, w) in c'.calls
      ensures q < n && CallOk(n, h', q, w, c'.calls[(q, w)], c'.nodes[q])
    {
      CallGrows(n, h, h', q, w, c.calls[(q, w)], c.nodes[q], c'.nodes[q]);
    }
    forall q | 0 <= q < n
      ensures TallyOk(n, h', c'.calls, q, c'.nodes[q])
    {
      TallyGrows(n, h, h', c.calls, c'.calls, q, c.nodes[q], c'.nodes[q]);
    }
  }

  lemma VoteKeeps(n: nat, c: Cluster, h: History, p: nat, v: nat)
    requires Inv(n, c, h) && Enabled(c, HandleVote(p, v))
    ensures var h' := AfterVote(h, p, v, c.nodes[v], c.calls[(p, v)].args);
            Inv(n, Execute(c, HandleVote(p, v)), h') && Grows(h, h')
  {
    hide HistoryOk, TallyOk, QueueOk, ReplyOk, SameFor, CommitOk, LogOk, VotesOk, LeaderOk, CandidateOk, Grows;
    var args := c.calls[(p, v)].args;
    var h' := AfterVote(h, p, v, c.nodes[v], args);
    assert CallOk(n, h, p, v, c.calls[(p, v)], c.nodes[p]);
    VoteHistory(n, h, p, v, c.nodes[v], args);
    VoteNode(n, h, p, v, c.nodes[v], args);
    VoteCalls(n, c, h, h', p, v);
    Assemble(n, c, h, Execute(c, HandleVote(p, v)), h', v);
  }

  // ---------- Counting votes ----------

  function AfterCount(h: History, p: nat, v: nat, node: Node, reply: VoteReply): History
    requires p < |h.tally|
  {
    if reply.granted && reply.term <= node.term then h.(tally := h.tally[p := h.tally[p] + {v}]) else h
  }

  lemma CountHistory(n: nat, h: History, p: nat, v: nat, node: Node, reply: VoteReply)
    requires HistoryOk(n, h) && p < n
    ensures var h' := AfterCount(h, p, v, node, reply);
            OnlyFor(h, h', p) && HistoryOk(n, h')
  {
    var h' := AfterCount(h, p, v, node, reply);
    forall t | t in h'.reigns
      ensures ReignOk(n, h', t)
    {
      ReignGrowsOk(n, h, h', t);
    }
    forall v, t | (v, t) in h'.ballots
      ensures BallotOk(n, h', v, t)
    {
      BallotGrowsOk(n, h, h', v, t);
    }
  }

  lemma CountNode(n: nat, h: History, p: nat, v: nat, node: Node, reply: VoteReply)
    requires p < n == |h.src| == |h.tally| && NodeOk(n, h, p, node)
    requires Grows(h, AfterCount(h, p, v, node, reply))
    ensures NodeOk(n, AfterCount(h, p, v, node, reply), p, OnVoteReply(node, reply))
  {
    CommitGrows(n, h, AfterCount(h, p, v, node, reply), node.log, node.commitIndex, h.src[p]);
    hide CommitOk, Grows;
  }

  lemma CountCalls(n: nat, c: Cluster, h: History, h': History, p: nat, v: nat)
    requires Fits(n, c, h) && CallsOk(n, c, h) && Enabled(c, CountVote(p, v)) && Grows(h, h')
    requires h' == AfterCount(h, p, v, c.nodes[p], c.calls[(p, v)].reply)
    ensures CallsOk(n, Execute(c, CountVote(p, v)), h')
  {
    var c' := Execute(c, CountVote(p, v));
    assert CallOk(n, h, p, v, c.calls[(p, v)], c.nodes[p]);
    forall q, w | (q, w) in c'.calls
      ensures q < n && CallOk(n, h', q, w, c'.calls[(q, w)], c'.nodes[q])
    {
      CallGrows(n, h, h', q, w, c.calls[(q, w)], c.nodes[q], c'.nodes[q]);
    }
    forall q | 0 <= q < n
      ensures TallyOk(n, h', c'.calls, q, c'.nodes[q])
    {
      assert TallyOk(n, h, c.calls, q, c.nodes[q]);
      if q != p { TallyGrows(n, h, h', c.calls, c'.calls, q, c.nodes[q], c'.nodes[q]); }
    }
  }

  lemma CountKeeps(n: nat, c: Cluster, h: History, p: nat, v: nat)
    requires Inv(n, c, h) && Enabled(c, CountVote(p, v))
    ensures var h' := AfterCount(h, p, v, c.nodes[p], c.calls[(p, v)].reply);
            Inv(n, Execute(c, CountVote(p, v)), h') && Grows(h, h')
  {
    hide HistoryOk, TallyOk, QueueOk, ReplyOk, SameFor, CommitOk, LogOk, VotesOk, LeaderOk, CandidateOk, Grows;
    var reply := c.calls[(p, v)].reply;
    var h' := AfterCount(h, p, v, c.nodes[p], reply);
    CountHistory(n, h, p, v, c.nodes[p], reply);
    CountNode(n, h, p, v, c.nodes[p], reply);
    CountCalls(n, c, h, h', p, v);
    Assemble(n, c, h, Execute(c, CountVote(p, v)), h', p);
  }

  lemma LoseVoteCalls(n: nat, c: Cluster, h: History, p: nat, v: nat)
    requires Fits(n, c, h) && CallsOk(n, c, h) && Enabled(c, LoseVote(p, v))
    ensures CallsOk(n, Execute(c, LoseVote(p, v)), h)
  {
    var c' := Execute(c, LoseVote(p, v));
    forall q, w | (q, w) in c'.calls
      ensures q < n && CallOk(n, h, q, w, c'.calls[(q, w)], c'.nodes[q])
    {
      assert CallOk(n, h, q, w, c.calls[(q, w)], c.nodes[q]);
    }
    forall q | 0 <= q < n
      ensures TallyOk(n, h, c'.calls, q, c'.nodes[q])
    {
      assert TallyOk(n, h, c.calls, q, c.nodes[q]);
    }
  }

  lemma LoseVoteKeeps(n: nat, c: Cluster, h: History, p: nat, v: nat)
    requires Inv(n, c, h) && Enabled(c, LoseVote(p, v))
    ensures Inv(n, Execute(c, LoseVote(p, v)), h)
  {
    hide HistoryOk, TallyOk, QueueOk, ReplyOk, CallOk, SameFor, CommitOk, Grows;
    var c' := Execute(c, LoseVote(p, v));
    assert NodeOk(n, h, p, c.nodes[p]);
    assert NodeOk(n, h, p, c'.nodes[p]);
    LoseVoteCalls(n, c, h, p, v);
    Unchanged(h, p);
    Assemble(n, c, h, c', h, p);
  }

  // ---------- Winning ----------

  /** A candidate's tally is a majority that voted for it in its term. */
  predicate Majority(n: nat, h: History, p: nat, t: int)
    requires p < |h.tally|
  {
    && 2 * |h.tally[p]| > n
    && forall v <- h.tally[p] :: v < n && (v, t) in h.ballots && h.ballots[(v, t)].candidate == p
  }

  /** No term has a second leader: the two majorities share a voter, who voted once. */
  lemma NoSecondLeader(n: nat, h: History, p: nat, node: Node)
    requires HistoryOk(n, h) && p < n && NodeOk(n, h, p, node)
    requires node.role == Candidate && Majority(n, h, p, node.term)
    ensures node.term !in h.reigns
  {
    var t := node.term;
    if t in h.reigns {
      assert ReignOk(n, h, t);
      var v := QuorumsMeet(n, h.tally[p], h.reigns[t].electors);
      assert false;
    }
  }

  lemma WinReign(n: nat, h: History, p: nat, node: Node)
    requires HistoryOk(n, h) && p < n && NodeOk(n, h, p, node)
    requires node.role == Candidate && Majority(n, h, p, node.term) && node.term !in h.reigns
    requires OnlyFor(h, RecordWin(h, p, node), p)
    ensures ReignOk(n, RecordWin(h, p, node), node.term)
  {
    var t, h', s := node.term, RecordWin(h, p, node), h.src[p];
    assert ReignOk(n, h, s);
    assert node.log <= h.reigns[s].log;
    forall i | 0 <= i < |node.log|
      ensures node.log[i].term < t && EntryFrom(h', node.log, i)
    {
      TermsBelow(n, h, s, i);
      assert EntryFrom(h, h.reigns[s].log, i);
      assert node.log[..i + 1] == h.reigns[s].log[..i + 1];
    }
    forall v <- h.tally[p]
      ensures VotedIn(h', v, t, p, node.log) && h.ballots[(v, t)].src < t
    {
      assert BallotOk(n, h, v, t);
    }
    assert TermsSorted(node.log) by {
      assert forall i :: 0 <= i < |node.log| ==> node.log[i] == h.reigns[s].log[i];
    }
  }

  lemma WinLocal(n: nat, h: History, p: nat, node: Node)
    requires HistoryOk(n, h) && p < n && LogOk(h, p, node) && node.term !in h.reigns
    ensures OnlyFor(h, RecordWin(h, p, node), p) && AcksOfLeaders(h, RecordWin(h, p, node))
  {
  }

  lemma WinHistory(n: nat, h: History, p: nat, node: Node)
    requires HistoryOk(n, h) && p < n && NodeOk(n, h, p, node)
    requires OnlyFor(h, RecordWin(h, p, node), p) && node.term !in h.reigns && node.term >= 1
    requires ReignOk(n, RecordWin(h, p, node), node.term)
    ensures HistoryOk(n, RecordWin(h, p, node))
  {
    hide CommitOk, LogIn, LeaderOk, CandidateOk, ReignOk, BallotOk, SameFor;
    var h' := RecordWin(h, p, node);
    forall u | u in h'.reigns
      ensures ReignOk(n, h', u)
    {
      if u != node.term { ReignGrowsOk(n, h, h', u); }
    }
    forall v, u | (v, u) in h'.ballots
      ensures BallotOk(n, h', v, u)
    {
      BallotGrowsOk(n, h, h', v, u);
    }
  }

  lemma WinNode(n: nat, h: History, p: nat, node: Node)
    requires HistoryOk(n, h) && p < n && NodeOk(n, h, p, node)
    requires node.role == Candidate && node.recvVotes > n / 2 && node.term !in h.reigns
    requires OnlyFor(h, RecordWin(h, p, node), p)
    ensures NodeOk(n, RecordWin(h, p, node), p, FinishElection(node))
  {
    var h' := RecordWin(h, p, node);
    CommitGrows(n, h, h', node.log, node.commitIndex, h.src[p]);
    CommitExtends(n, h', node.log, node.log, node.commitIndex, h.src[p], node.term);
  }

  lemma WinKeeps(n: nat, c: Cluster, h: History, p: nat)
    requires Inv(n, c, h) && Enabled(c, WinElection(p))
    ensures Inv(n, Execute(c, WinElection(p)), RecordWin(h, p, c.nodes[p]))
    ensures Grows(h, RecordWin(h, p, c.nodes[p]))
  {
    var node, h' := c.nodes[p], RecordWin(h, p, c.nodes[p]);
    assert TallyOk(n, h, c.calls, p, node);
    assert Majority(n, h, p, node.term);
    hide HistoryOk, TallyOk, QueueOk, ReplyOk, SameFor, CommitOk, LeaderOk, Majority, ReignOk, Grows;
    NoSecondLeader(n, h, p, node);
    WinLocal(n, h, p, node);
    WinReign(n, h, p, node);
    WinHistory(n, h, p, node);
    WinNode(n, h, p, node);
    CallsFrame(n, c, h, Execute(c, WinElection(p)), h', p);
    Assemble(n, c, h, Execute(c, WinElection(p)), h', p);
  }

  /** Steps that leave roles, terms, votes and ballots alone do not disturb elections. */
  lemma CallsFrame(n: nat, c: Cluster, h: History, c': Cluster, h': History, p: nat)
    requires Fits(n, c, h) && Fits(n, c', h') && CallsOk(n, c, h) && p < n
    requires c'.calls == c.calls && Grows(h, h') && h'.tally == h.tally
    requires forall q: nat :: q < n && q != p ==> c'.nodes[q] == c.nodes[q]
    requires c'.nodes[p].recvVotes == c.nodes[p].recvVotes && c'.nodes[p].term >= c.nodes[p].term
    requires c'.nodes[p].role == Candidate ==> c.nodes[p].role == Candidate && c'.nodes[p].term == c.nodes[p].term
    ensures CallsOk(n, c', h')
  {
    forall q, w | (q, w) in c'.calls
      ensures q < n && CallOk(n, h', q, w, c'.calls[(q, w)], c'.nodes[q])
    {
      CallGrows(n, h, h', q, w, c.calls[(q, w)], c.nodes[q], c'.nodes[q]);
    }
    forall q | 0 <= q < n
      ensures TallyOk(n, h', c'.calls, q, c'.nodes[q])
    {
      TallyGrows(n, h, h', c.calls, c'.calls, q, c.nodes[q], c'.nodes[q]);
    }
  }
}
