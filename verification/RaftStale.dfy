/** Why an election must wait for the answers of the candidate's earlier one: answers are counted
    without a look at the election they belong to. */
module RaftStale {
  import opened RaftNode
  import opened RaftCluster

  // ---------- Which counted grants make a leader ----------

  /** An answer to a vote request, with the term of the election it answers. */
  datatype Answer = Answer(election: int, reply: VoteReply)

  function CountAll(n: Node, answers: seq<Answer>): Node {
    if answers == [] then n else OnVoteReply(CountAll(n, answers[..|answers| - 1]), answers[|answers| - 1].reply)
  }

  function Grants(answers: seq<Answer>): nat {
    if answers == [] then 0
    else Grants(answers[..|answers| - 1]) + (if answers[|answers| - 1].reply.granted then 1 else 0)
  }

  function GrantsIn(answers: seq<Answer>, term: int): nat {
    if answers == [] then 0
    else
      var last := answers[|answers| - 1];
      GrantsIn(answers[..|answers| - 1], term) + (if last.reply.granted && last.election == term then 1 else 0)
  }

  lemma {:induction false} CountedGrants(n: Node, answers: seq<Answer>)
    requires forall a <- answers :: a.reply.term <= n.term
    ensures var m := CountAll(n, answers);
            m == n.(recvVotes := n.recvVotes + Grants(answers), finishedVotes := m.finishedVotes)
    ensures forall t :: GrantsIn(answers, t) <= Grants(answers)
  {
    if answers != [] {
      var k := |answers| - 1;
      assert answers[k] in answers;
      CountedGrants(n, answers[..k]);
    }
  }

  /** A server that starts an election and then counts these answers becomes leader exactly if
      all grants together, of whatever election, are a majority; if all are of its own election,
      exactly if that election gave it one. */
  lemma StaleGrantsElectIff(n: Node, answers: seq<Answer>)
    requires forall a <- answers :: a.reply.term <= n.term + 1
    ensures var leads := FinishElection(CountAll(StartElection(n), answers)).role == Leader;
            var own := 1 + GrantsIn(answers, n.term + 1);
            && (leads <==> 1 + Grants(answers) > n.peers / 2)
            && ((forall a <- answers :: a.election == n.term + 1) ==> (leads <==> own > n.peers / 2))
  {
    CountedGrants(StartElection(n), answers);
    if forall a <- answers :: a.election == n.term + 1 { AllOwn(answers, n.term + 1); }
  }

  lemma {:induction false} AllOwn(answers: seq<Answer>, t: int)
    requires forall a <- answers :: a.election == t
    ensures GrantsIn(answers, t) == Grants(answers)
  {
    if answers != [] {
      assert answers[|answers| - 1] in answers;
      AllOwn(answers[..|answers| - 1], t);
    }
  }

  // ---------- A run with two leaders ----------

  /** The cluster with the guard dropped: answers of an abandoned election stay around. */
  datatype Loose = Loose(c: Cluster, stray: set<(nat, nat, VoteReply)>)

  datatype LooseStep =
    | Ordinary(step: Step)
    | EarlyTimeout(p: nat)
    | CountStray(p: nat, v: nat, reply: VoteReply)

  predicate LooseEnabled(s: Loose, e: LooseStep) {
    match e
    case Ordinary(step) => Enabled(s.c, step)
    case EarlyTimeout(p) => p < |s.c.nodes| && s.c.nodes[p].role != Leader
    case CountStray(p, v, reply) => p < |s.c.nodes| && (p, v, reply) in s.stray
  }

  /** The cluster with the vote calls of `p` abandoned. */
  function Abandon(c: Cluster, p: nat): Cluster {
    c.(calls := map k | k in c.calls && k.0 != p :: c.calls[k])
  }

  function LooseNext(s: Loose, e: LooseStep): Loose
    requires LooseEnabled(s, e)
  {
    match e
    case Ordinary(step) => s.(c := Execute(s.c, step))
    case EarlyTimeout(p) =>
      Loose(Execute(Abandon(s.c, p), Timeout(p)),
            s.stray + set k | k in s.c.calls && k.0 == p && s.c.calls[k].Answered? :: (p, k.1, s.c.calls[k].reply))
    case CountStray(p, v, reply) =>
      Loose(s.c.(nodes := s.c.nodes[p := OnVoteReply(s.c.nodes[p], reply)]), s.stray - {(p, v, reply)})
  }

  predicate LooseRun(n: nat, states: seq<Loose>, steps: seq<LooseStep>) {
    && |states| == |steps| + 1 && states[0] == Loose(Init(n), {})
    && forall i :: 0 <= i < |steps| ==> LooseEnabled(states[i], steps[i]) && states[i + 1] == LooseNext(states[i], steps[i])
  }

  /** A server with nothing in its log. */
  predicate Blank(n: Node) { n.log == [] && n.base == 0 && n.baseTerm == 0 && n.peers == 3 }

  /** Server `v` after it has voted for `p` in a term above its own. */
  function Voted(n: Node, p: nat, term: int): Node { StepDown(n, term).(votedFor := p) }

  lemma TimeoutCallsAll(c: Cluster, p: nat, v: nat)
    requires Enabled(c, Timeout(p)) && |c.nodes| >= 2 && v < |c.nodes| && v != p
    ensures var c' := Execute(c, Timeout(p));
            && (p, v) in c'.calls && c'.calls[(p, v)] == Asked(MakeVoteArgs(StartElection(c.nodes[p])))
            && c'.nodes == c.nodes[p := StartElection(c.nodes[p])]
            && forall k <- c'.calls :: k in c.calls || k.0 == p
  {
    VoteThreadsReachEveryPeer(p, |c.nodes|);
  }

  lemma VoteGranted(c: Cluster, p: nat, v: nat, args: VoteArgs)
    requires Enabled(c, HandleVote(p, v)) && c.calls[(p, v)] == Asked(args) && args.candidateId == p
    requires Blank(c.nodes[v]) && c.nodes[v].term < args.term && args.lastLogTerm == 0 && args.lastLogIndex == 0
    ensures var c' := Execute(c, HandleVote(p, v));
            && c'.nodes == c.nodes[v := Voted(c.nodes[v], p, args.term)]
            && c'.calls == c.calls[(p, v) := Answered(args.term, VoteReply(c.nodes[v].term, true))]
  {
  }

  /** `p` times out and `v` grants it its vote. */
  lemma AskAndGrant(c: Cluster, p: nat, v: nat) returns (c1: Cluster, c2: Cluster)
    requires |c.nodes| == 3 && p < 3 && v < 3 && p != v && Enabled(c, Timeout(p))
    requires c.nodes[p].id == p && Blank(c.nodes[p]) && Blank(c.nodes[v]) && c.nodes[v].term <= c.nodes[p].term
    ensures c1 == Execute(c, Timeout(p)) && Enabled(c1, HandleVote(p, v)) && c2 == Execute(c1, HandleVote(p, v))
    ensures c2.nodes == c.nodes[p := StartElection(c.nodes[p])][v := Voted(c.nodes[v], p, c.nodes[p].term + 1)]
    ensures (p, v) in c2.calls && c2.calls[(p, v)] == Answered(c.nodes[p].term + 1, VoteReply(c.nodes[v].term, true))
    ensures forall k <- c2.calls :: k in c.calls || k.0 == p
  {
    hide Execute;
    TimeoutCallsAll(c, p, v);
    c1 := Execute(c, Timeout(p));
    VoteGranted(c1, p, v, MakeVoteArgs(StartElection(c.nodes[p])));
    c2 := Execute(c1, HandleVote(p, v));
  }

  lemma CountedVote(c: Cluster, p: nat, v: nat)
    requires Enabled(c, CountVote(p, v))
    ensures Execute(c, CountVote(p, v)).nodes == c.nodes[p := OnVoteReply(c.nodes[p], c.calls[(p, v)].reply)]
  {
  }

  lemma Wins(c: Cluster, p: nat)
    requires Enabled(c, WinElection(p))
    ensures Execute(c, WinElection(p)) == c.(nodes := c.nodes[p := FinishElection(c.nodes[p])])
  {
  }

  /** Server 0 leads term 2 by a grant that it was given for term 1. */
  lemma StaleWin() returns (s: seq<Loose>, steps: seq<LooseStep>)
    ensures LooseRun(3, s, steps) && |steps| == 5
    ensures var c := s[5].c;
            && |c.nodes| == 3 && c.nodes[0].role == Leader && c.nodes[0].term == 2
            && c.nodes[1] == Voted(Make(1, 3), 0, 1) && c.nodes[2] == Make(2, 3)
            && forall k <- c.calls :: k.0 == 0
  {
    hide Execute;
    var s0 := Loose(Init(3), {});
    var c1, c2 := AskAndGrant(s0.c, 0, 1);
    var s1, s2 := Loose(c1, {}), Loose(c2, {});
    var grant := VoteReply(0, true);
    var s3 := LooseNext(s2, EarlyTimeout(0));
    EarlyAsks(s2, 0, 1);
    var s4 := LooseNext(s3, CountStray(0, 1, grant));
    Wins(s4.c, 0);
    var s5 := LooseNext(s4, Ordinary(WinElection(0)));
    steps := [Ordinary(Timeout(0)), Ordinary(HandleVote(0, 1)), EarlyTimeout(0), CountStray(0, 1, grant), Ordinary(WinElection(0))];
    s := [s0, s1, s2, s3, s4, s5];
  }

  lemma EarlyAsks(s: Loose, p: nat, v: nat)
    requires LooseEnabled(s, EarlyTimeout(p)) && |s.c.nodes| == 3 && v < 3 && v != p
    requires (p, v) in s.c.calls && s.c.calls[(p, v)].Answered?
    ensures var s' := LooseNext(s, EarlyTimeout(p));
            && (p, v, s.c.calls[(p, v)].reply) in s'.stray
            && s'.c.nodes == s.c.nodes[p := StartElection(s.c.nodes[p])]
            && forall k <- s'.c.calls :: k in s.c.calls || k.0 == p
  {
    hide Execute;
    TimeoutCallsAll(Abandon(s.c, p), p, v);
  }

  /** Without the wait, term 2 gets two leaders: server 0 by the stale grant of server 1, and
      server 1 by the votes of a true majority. */
  lemma StaleGrantTwoLeaders() returns (s: seq<Loose>, steps: seq<LooseStep>)
    ensures LooseRun(3, s, steps)
    ensures var nodes := s[|steps|].c.nodes;
            |nodes| == 3 && nodes[0].role == Leader && nodes[1].role == Leader && nodes[0].term == nodes[1].term == 2
  {
    hide Execute;
    var before, first := StaleWin();
    var c := before[5].c;
    var c1, c2 := AskAndGrant(c, 1, 2);
    CountedVote(c2, 1, 2);
    var c3 := Execute(c2, CountVote(1, 2));
    Wins(c3, 1);
    var c4 := Execute(c3, WinElection(1));
    var stray := before[5].stray;
    steps := first + [Ordinary(Timeout(1)), Ordinary(HandleVote(1, 2)), Ordinary(CountVote(1, 2)), Ordinary(WinElection(1))];
    s := before + [Loose(c1, stray), Loose(c2, stray), Loose(c3, stray), Loose(c4, stray)];
  }
}
