/** Who can be elected: what a voter grants, and that some server can always win. */
module RaftVotes {
  import opened RaftNode
  import opened RaftCluster

  /** The candidate's log ends in a later term, or in the same one and not earlier. */
  predicate AsGood(candidate: Node, voter: Node) {
    || LastTerm(candidate) > LastTerm(voter)
    || (LastTerm(candidate) == LastTerm(voter) && LastIndex(candidate) >= LastIndex(voter))
  }

  /** A voter has no vote to give in this term. */
  predicate Spoken(voter: Node, term: int, candidate: int) {
    voter.term == term && voter.votedFor != NO_VOTE && voter.votedFor != candidate
  }

  /** A candidate gets a vote exactly if the voter is not in a later term, has not voted for another in this one, and
      has no better log; the voter then is in the candidate's term, has voted for it, and keeps its log. */
  lemma VoteGrantedIff(voter: Node, candidate: Node)
    ensures var (v, reply) := RequestVote(voter, MakeVoteArgs(candidate));
            && (reply.granted <==>
                  voter.term <= candidate.term && !Spoken(voter, candidate.term, candidate.id) && AsGood(candidate, voter))
            && (reply.granted ==> v.term == candidate.term && v.votedFor == candidate.id)
            && v.log == voter.log && v.base == voter.base && v.term >= voter.term
  {
  }

  /** Being as good is a total order: of any two servers one is as good as the other, and it carries over. */
  lemma AsGoodOrder(a: Node, b: Node, c: Node)
    ensures AsGood(a, a) && (AsGood(a, b) || AsGood(b, a))
    ensures AsGood(a, b) && AsGood(b, c) ==> AsGood(a, c)
  {
  }

  /** A server whose log continues another's, in terms that do not fall, is as good. */
  lemma LongerIsAsGood(a: Node, b: Node)
    requires a.base == b.base && a.baseTerm == b.baseTerm && b.log <= a.log
    requires forall i :: 0 <= i < |a.log| ==> a.log[i].term >= LastTerm(b) || i < |b.log|
    ensures AsGood(a, b)
  {
    if |a.log| > |b.log| { assert a.log[|a.log| - 1].term >= LastTerm(b); } else { assert a.log == b.log; }
  }

  lemma {:induction false} BestOf(nodes: seq<Node>) returns (p: nat)
    requires nodes != []
    ensures p < |nodes| && forall q :: 0 <= q < |nodes| ==> AsGood(nodes[p], nodes[q])
  {
    var k := |nodes| - 1;
    if k == 0 {
      p := 0;
    } else {
      var best := BestOf(nodes[..k]);
      assert forall q :: 0 <= q < k ==> nodes[..k][q] == nodes[q];
      AsGoodOrder(nodes[best], nodes[k], nodes[k]);
      p := if AsGood(nodes[best], nodes[k]) then best else k;
      forall q | 0 <= q < |nodes| ensures AsGood(nodes[p], nodes[q]) { AsGoodOrder(nodes[p], nodes[best], nodes[q]); }
    }
  }

  /** In any state of a cluster there is a server that, once it is in no earlier term than the others, every server
      votes for when it stands for election. */
  lemma SomeoneCanWin(c: Cluster) returns (p: nat)
    requires c.nodes != []
    ensures p < |c.nodes|
    ensures forall v :: 0 <= v < |c.nodes| && c.nodes[v].term <= c.nodes[p].term ==>
              RequestVote(c.nodes[v], MakeVoteArgs(StartElection(c.nodes[p]))).1.granted
  {
    p := BestOf(c.nodes);
    forall v | 0 <= v < |c.nodes| && c.nodes[v].term <= c.nodes[p].term
      ensures RequestVote(c.nodes[v], MakeVoteArgs(StartElection(c.nodes[p]))).1.granted
    {
      VoteGrantedIff(c.nodes[v], StartElection(c.nodes[p]));
    }
  }

  /** A new leader starts by asking every peer about the end of its own log, without sending anything. */
  lemma FirstMessageIsEmpty(n: Node, peer: int)
    requires n.role == Candidate && n.recvVotes > n.peers / 2 && 0 <= peer < n.peers
    ensures var l := FinishElection(n);
            && l.role == Leader && l.log == n.log && l.term == n.term
            && MakeAppendArgs(l, peer) == AppendArgs(n.term, n.id, LastIndex(n), LastTerm(n), n.commitIndex, [])
  {
    assert n.log[|n.log|..] == [];
  }

  // ---------- Terms ----------

  /** Whoever hears of a later term, by request, message or answer, is a follower in it. */
  lemma LaterTermFollows(n: Node, votes: VoteArgs, args: AppendArgs)
    ensures votes.term > n.term ==> RequestVote(n, votes).0.role == Follower && RequestVote(n, votes).0.term == votes.term
    ensures args.term >= n.term ==> AppendEntries(n, args).0.role == Follower && AppendEntries(n, args).0.term == args.term
    ensures args.term < n.term ==> AppendEntries(n, args).0 == n && !AppendEntries(n, args).1.success
  {
  }

  /** A candidate of an earlier term is refused, learns the voter's term and gives up. */
  lemma StaleCandidateGivesUp(voter: Node, candidate: Node)
    requires voter.term > candidate.term
    ensures var (v, reply) := RequestVote(voter, MakeVoteArgs(candidate));
            && v == voter && !reply.granted
            && OnVoteReply(candidate, reply).role == Follower && OnVoteReply(candidate, reply).term == voter.term
            && OnVoteReply(candidate, reply).votedFor == NO_VOTE
  {
  }

  /** So does a leader of an earlier term. */
  lemma StaleLeaderGivesUp(f: Node, l: Node, peer: int)
    requires f.term > l.term && 0 <= l.id < |l.matchIndex| == |l.nextIndex| && 0 <= peer < |l.nextIndex|
    ensures var args := MakeAppendArgs(l, peer);
            var l' := OnAppendReply(l, peer, args, AppendEntries(f, args).1);
            l'.role == Follower && l'.term == f.term && l'.votedFor == NO_VOTE && l'.log == l.log
  {
  }
}
