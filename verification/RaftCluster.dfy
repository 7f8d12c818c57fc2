/** A cluster of Raft servers as a state machine over its locked regions.

    Environment facts the original relies on and does not enforce are step guards:
    a locked region is one step, a heartbeat round is one step, an election starts only when
    the candidate's earlier vote calls have all returned, and AppendEntries from one server
    to another arrive in sending order (any of them may be lost, and so may any vote call). Append replies are
    delivered in any order and any number of times. */
module RaftCluster {
  import opened RaftNode

  /** A vote thread of candidate `c` calling voter `v`: still asking, or holding the answer. */
  datatype VoteCall = Asked(args: VoteArgs) | Answered(election: int, reply: VoteReply)

  datatype AppendDone = AppendDone(leader: nat, follower: nat, args: AppendArgs, reply: AppendReply)

  datatype Cluster = Cluster(
    nodes: seq<Node>,
    calls: map<(nat, nat), VoteCall>,
    channel: map<(nat, nat), seq<AppendArgs>>,
    replies: set<AppendDone>,
    applied: seq<seq<Entry>>)

  datatype Step =
    | Timeout(p: nat)
    | HandleVote(p: nat, v: nat)
    | CountVote(p: nat, v: nat)
    | LoseVote(p: nat, v: nat)
    | WinElection(p: nat)
    | Propose(p: nat, command: string)
    | Heartbeat(p: nat)
    | Deliver(p: nat, f: nat)
    | Lose(p: nat, f: nat, i: nat)
    | HandleReply(done: AppendDone)
    | Apply(p: nat)
    | SetDead(p: nat, dead: bool)

  function Init(n: nat): Cluster {
    Cluster(seq(n, i => Make(i, n)), map[], map[], {}, seq(n, _ => []))
  }

  function Chan(c: Cluster, p: nat, f: nat): seq<AppendArgs> {
    if (p, f) in c.channel then c.channel[(p, f)] else []
  }

  function Range(n: nat): (r: set<nat>)
    ensures forall i: nat :: i in r <==> i < n
  {
    if n == 0 then {} else Range(n - 1) + {n - 1}
  }

  function Pairs(n: nat): (r: set<(nat, nat)>)
    ensures forall k: (nat, nat) :: k in r <==> k.0 < n && k.1 < n
  {
    set p, f | p in Range(n) && f in Range(n) :: (p, f)
  }

  function Size(c: Cluster): nat {
    |c.nodes|
  }

  // ---------- The vote threads' shared cursor ----------

  /** The peers that `k` vote threads call one after the other, starting from `cursor`. */
  function VoteTargets(cursor: int, id: int, peers: int, k: nat): seq<int>
    decreases k
  {
    if k == 0 then []
    else [VoteTarget(cursor, id)] + VoteTargets(NextCursor(cursor, id, peers), id, peers, k - 1)
  }

  /** The cursor after `k` vote threads. */
  function CursorAfter(cursor: int, id: int, peers: int, k: nat): int
    decreases k
  {
    if k == 0 then cursor else CursorAfter(NextCursor(cursor, id, peers), id, peers, k - 1)
  }

  // ---------- Steps ----------

  predicate Enabled(c: Cluster, s: Step) {
    var n := |c.nodes|;
    match s
    case Timeout(p) =>
      p < n && c.nodes[p].role != Leader && forall k <- c.calls :: k.0 != p
    case HandleVote(p, v) =>
      p < n && v < n && (p, v) in c.calls && c.calls[(p, v)].Asked?
    case CountVote(p, v) =>
      p < n && (p, v) in c.calls && c.calls[(p, v)].Answered?
    case LoseVote(p, v) =>
      p < n && (p, v) in c.calls
    case WinElection(p) =>
      p < n && c.nodes[p].role == Candidate && c.nodes[p].recvVotes > n / 2
    case Propose(p, _) => p < n
    case Heartbeat(p) => p < n && c.nodes[p].role == Leader
    case Deliver(p, f) => p < n && f < n && Chan(c, p, f) != []
    case Lose(p, f, i) => p < n && f < n && i < |Chan(c, p, f)|
    case HandleReply(done) =>
      done in c.replies && done.leader < n && done.follower < n
      && 0 <= c.nodes[done.leader].id < |c.nodes[done.leader].matchIndex| == |c.nodes[done.leader].nextIndex|
      && done.follower < |c.nodes[done.leader].nextIndex|
    case Apply(p) => p < n && p < |c.applied|
    case SetDead(p, _) => p < n
  }

  function Execute(c: Cluster, s: Step): Cluster
    requires Enabled(c, s)
  {
    match s
    case Timeout(p) =>
      var node := StartElection(c.nodes[p]);
      c.(nodes := c.nodes[p := node],
         calls := c.calls + map k | k in Pairs(Size(c)) && k.0 == p
                                    && k.1 in VoteTargets(node.cursor, p, Size(c), Size(c) - 1)
                             :: Asked(MakeVoteArgs(node)))
    case HandleVote(p, v) =>
      var args := c.calls[(p, v)].args;
      var (node, reply) := RequestVote(c.nodes[v], args);
      c.(nodes := c.nodes[v := node], calls := c.calls[(p, v) := Answered(args.term, reply)])
    case CountVote(p, v) =>
      c.(nodes := c.nodes[p := OnVoteReply(c.nodes[p], c.calls[(p, v)].reply)],
         calls := c.calls - {(p, v)})
    case LoseVote(p, v) =>
      // the request or its answer is lost: the vote thread ends with nothing granted
      c.(nodes := c.nodes[p := c.nodes[p].(finishedVotes := c.nodes[p].finishedVotes + 1)],
         calls := c.calls - {(p, v)})
    case WinElection(p) =>
      c.(nodes := c.nodes[p := FinishElection(c.nodes[p])])
    case Propose(p, command) =>
      c.(nodes := c.nodes[p := Start(c.nodes[p], command)])
    case Heartbeat(p) =>
      c.(channel := map k | k in Pairs(Size(c)) ::
           if k.0 == p && k.1 != p then Chan(c, p, k.1) + [MakeAppendArgs(c.nodes[p], k.1)]
           else Chan(c, k.0, k.1))
    case Deliver(p, f) =>
      var queue := Chan(c, p, f);
      var (node, reply) := AppendEntries(c.nodes[f], queue[0]);
      c.(nodes := c.nodes[f := node],
         channel := c.channel[(p, f) := queue[1..]],
         replies := c.replies + {AppendDone(p, f, queue[0], reply)})
    case Lose(p, f, i) =>
      var queue := Chan(c, p, f);
      c.(channel := c.channel[(p, f) := queue[..i] + queue[i + 1..]])
    case HandleReply(done) =>
      c.(nodes := c.nodes[done.leader :=
           OnAppendReply(c.nodes[done.leader], done.follower, done.args, done.reply)])
    case Apply(p) =>
      c.(nodes := c.nodes[p := ApplyLog(c.nodes[p])],
         applied := c.applied[p := c.applied[p] + ToApply(c.nodes[p])])
    case SetDead(p, dead) =>
      c.(nodes := c.nodes[p := c.nodes[p].(dead := dead)])
  }

  /** A run of a cluster of `n` servers: the states it goes through and the steps between. */
  datatype Behaviour = Behaviour(states: seq<Cluster>, steps: seq<Step>)

  predicate IsRun(n: nat, b: Behaviour) {
    && |b.states| == |b.steps| + 1
    && b.states[0] == Init(n)
    && forall i :: 0 <= i < |b.steps| ==> Follows(b.states[i], b.steps[i], b.states[i + 1])
  }

  predicate Follows(c: Cluster, s: Step, c': Cluster) {
    Enabled(c, s) && c' == Execute(c, s)
  }

  // ---------- The cursor reaches every other peer once ----------

  /** The j-th peer other than `id`, in increasing order. */
  function Other(id: int, j: int): int {
    if j < id then j else j + 1
  }

  lemma {:induction false} CursorFrom(j: nat, id: int, peers: int)
    requires 0 <= id < peers && peers >= 2 && j < peers - 1
    ensures var cur := if j == 0 then 0 else Other(id, j - 1) + 1;
            var targets := VoteTargets(cur, id, peers, peers - 1 - j);
            && |targets| == peers - 1 - j
            && (forall i :: 0 <= i < |targets| ==> targets[i] == Other(id, j + i))
            && CursorAfter(cur, id, peers, peers - 1 - j) == 0
    decreases peers - j
  {
    var cur := if j == 0 then 0 else Other(id, j - 1) + 1;
    assert VoteTarget(cur, id) == Other(id, j);
    var next := NextCursor(cur, id, peers);
    if j == peers - 2 {
      assert next == 0;
      assert VoteTargets(next, id, peers, 0) == [];
    } else {
      CursorFrom(j + 1, id, peers);
      assert next == Other(id, j) + 1;
    }
  }

  /** The n-1 vote threads of one election call each other peer exactly once, in order, and
      leave the cursor at 0. */
  lemma VoteThreadsReachEveryPeer(id: int, peers: int)
    requires 0 <= id < peers && peers >= 2
    ensures var targets := VoteTargets(0, id, peers, peers - 1);
            && |targets| == peers - 1
            && (forall i, j :: 0 <= i < j < |targets| ==> targets[i] != targets[j])
            && (forall v :: v in targets <==> 0 <= v < peers && v != id)
            && CursorAfter(0, id, peers, peers - 1) == 0
  {
    CursorFrom(0, id, peers);
    var targets := VoteTargets(0, id, peers, peers - 1);
    assert forall i :: 0 <= i < |targets| ==> targets[i] == Other(id, i);
    forall v | 0 <= v < peers && v != id
      ensures v in targets
    {
      var i := if v < id then v else v - 1;
      assert targets[i] == v;
    }
  }
}
