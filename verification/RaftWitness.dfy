/** The protocol gets something done: a run in which a command is committed and applied. */
module RaftWitness {
  import opened RaftNode
  import opened RaftMedian
  import opened RaftCluster
  import opened RaftCommit
  import opened RaftStale

  lemma ProposeStep(c: Cluster, p: nat, command: string)
    requires p < |c.nodes| && c.nodes[p].role == Leader
    ensures var n := c.nodes[p];
            Execute(c, Propose(p, command)) == c.(nodes := c.nodes[p := n.(log := n.log + [Entry(command, n.term)])])
  {
  }

  lemma HeartbeatStep(c: Cluster, p: nat, f: nat)
    requires p < |c.nodes| && f < |c.nodes| && p != f && c.nodes[p].role == Leader
    ensures var c' := Execute(c, Heartbeat(p));
            && c' == c.(channel := c'.channel)
            && Chan(c', p, f) == Chan(c, p, f) + [MakeAppendArgs(c.nodes[p], f)]
  {
  }

  lemma DeliverStep(c: Cluster, p: nat, f: nat, args: AppendArgs)
    requires p < |c.nodes| && f < |c.nodes| && Chan(c, p, f) == [args]
    ensures var c' := Execute(c, Deliver(p, f));
            && c'.nodes == c.nodes[f := AppendEntries(c.nodes[f], args).0] && c'.applied == c.applied && Chan(c', p, f) == []
            && AppendDone(p, f, args, AppendEntries(c.nodes[f], args).1) in c'.replies
  {
    assert [args][1..] == [];
  }

  lemma ApplyStep(c: Cluster, p: nat)
    requires p < |c.nodes| == |c.applied|
    ensures var c' := Execute(c, Apply(p));
            && c'.nodes == c.nodes[p := ApplyLog(c.nodes[p])] && c'.channel == c.channel && c'.replies == c.replies
            && c'.applied == c.applied[p := c.applied[p] + ToApply(c.nodes[p])]
  {
  }

  /** The first message and its acknowledgement commit the entry. */
  lemma FirstEntryCommits(n: Node, e: Entry)
    requires n.id == 0 && n.term == 1 == e.term && n.log == [e] && n.base == 0 && n.baseTerm == 0 && n.commitIndex == 0
    requires n.nextIndex == [1, 1, 1] && n.matchIndex == [0, 0, 0]
    ensures MakeAppendArgs(n, 1) == AppendArgs(1, 0, 0, 0, 0, [e])
    ensures var n' := OnAppendReply(n, 1, AppendArgs(1, 0, 0, 0, 0, [e]), AppendReply(1, true, NO_CONFLICT, NO_CONFLICT));
            && n' == n.(matchIndex := [1, 1, 0], nextIndex := [1, 2, 1], commitIndex := 1)
            && MakeAppendArgs(n', 1) == AppendArgs(1, 0, 1, 1, 1, [])
  {
    hide Median;
    assert [e][0..] == [e] && [e][1..] == [];
    var args, reply := AppendArgs(1, 0, 0, 0, 0, [e]), AppendReply(1, true, NO_CONFLICT, NO_CONFLICT);
    LeaderCommits(n, 1, args, reply);
    var matches := [1, 1, 0];
    assert n.matchIndex[1 := 1][0 := 1] == matches && n.nextIndex[1 := 2] == [1, 2, 1];
    assert {0, 1} <= Holders(matches, 1);
    HoldersCount(matches, 1);
    assert AtLeast(matches, 1) == 2 by { assert matches[1..] == [1, 0] && [1, 0][1..] == [0] && [0][1..] == []; }
    assert Reached(matches, 1);
    var k := OnAppendReply(n, 1, args, reply).commitIndex;
    HoldersCount(matches, k);
    assert k > 1 ==> AtLeast(matches, k) == 0 by { assert matches[1..] == [1, 0] && [1, 0][1..] == [0] && [0][1..] == []; }
  }

  /** A follower takes the entry, and learns from the next message that it is committed. */
  lemma FollowerTakes(f: Node, e: Entry)
    requires f.term == 1 == e.term && f.log == [] && f.base == 0 && f.baseTerm == 0 && !f.dead && f.commitIndex == 0 && f.lastApplied == 0
    ensures var (f1, r1) := AppendEntries(f, AppendArgs(1, 0, 0, 0, 0, [e]));
            var (f2, r2) := AppendEntries(f1, AppendArgs(1, 0, 1, 1, 1, []));
            && r1 == AppendReply(1, true, NO_CONFLICT, NO_CONFLICT) && f1.log == [e] && f1.commitIndex == 0 && f1.term == 1
            && f2.log == [e] && f2.commitIndex == 1 && f2.lastApplied == 0 && f2.base == 0
  {
    assert [] + [e] == [e] && [e][..1] + [] == [e];
  }

  /** Server 0 of three leads term 1 with an empty log, and server 1 has voted for it. */
  lemma FirstLeader() returns (s: seq<Cluster>, steps: seq<Step>)
    ensures IsRun(3, Behaviour(s, steps)) && |steps| == 4
    ensures Ready(s[4])
  {
    hide Execute;
    var c0 := Init(3);
    var c1, c2 := AskAndGrant(c0, 0, 1);
    AskFrame(c0, c1, c2);
    CountedVote(c2, 0, 1);
    CountFrame(c2);
    var c3 := Execute(c2, CountVote(0, 1));
    Wins(c3, 0);
    var c4 := Execute(c3, WinElection(0));
    s, steps := [c0, c1, c2, c3, c4], [Timeout(0), HandleVote(0, 1), CountVote(0, 1), WinElection(0)];
  }

  lemma AskFrame(c0: Cluster, c1: Cluster, c2: Cluster)
    requires Enabled(c0, Timeout(0)) && c1 == Execute(c0, Timeout(0)) && Enabled(c1, HandleVote(0, 1)) && c2 == Execute(c1, HandleVote(0, 1))
    ensures c2.channel == c0.channel && c2.applied == c0.applied
  {
  }

  lemma CountFrame(c: Cluster)
    requires Enabled(c, CountVote(0, 1))
    ensures var c' := Execute(c, CountVote(0, 1)); c'.channel == c.channel && c'.applied == c.applied
  {
  }

  /** A leader of term 1 with an empty log, and a follower that has voted for it. */
  predicate Ready(c: Cluster) {
    && |c.nodes| == 3 && c.channel == map[] && c.applied == [[], [], []]
    && c.nodes[1] == Voted(Make(1, 3), 0, 1)
    && var l := c.nodes[0];
       && l.role == Leader && l.id == 0 && l.term == 1 && l.log == [] && l.base == 0 && l.baseTerm == 0
       && l.commitIndex == 0 && l.lastApplied == 0 && l.nextIndex == [1, 1, 1] && l.matchIndex == [0, 0, 0]
  }

  /** The command is proposed and sent. */
  lemma FirstSend(c: Cluster, command: string) returns (c1: Cluster, c2: Cluster)
    requires Ready(c)
    ensures Follows(c, Propose(0, command), c1) && Follows(c1, Heartbeat(0), c2)
    ensures var e := Entry(command, 1);
            && |c2.nodes| == 3 && c2.applied == [[], [], []] && c2.nodes[1] == c.nodes[1]
            && c2.nodes[0] == c.nodes[0].(log := [e]) && Chan(c2, 0, 1) == [AppendArgs(1, 0, 0, 0, 0, [e])]
  {
    hide Execute, MakeAppendArgs;
    var e := Entry(command, 1);
    ProposeStep(c, 0, command);
    c1 := Execute(c, Propose(0, command));
    assert [] + [e] == [e];
    FirstEntryCommits(c1.nodes[0], e);
    HeartbeatStep(c1, 0, 1);
    c2 := Execute(c1, Heartbeat(0));
  }

  /** It is accepted, acknowledged and applied by the leader. */
  lemma FirstAck(c: Cluster, e: Entry) returns (more: seq<Cluster>, steps: seq<Step>)
    requires |c.nodes| == 3 && c.applied == [[], [], []] && c.nodes[1] == Voted(Make(1, 3), 0, 1)
    requires e.term == 1 && Chan(c, 0, 1) == [AppendArgs(1, 0, 0, 0, 0, [e])]
    requires var l := c.nodes[0];
             && l.role == Leader && l.id == 0 && l.term == 1 && l.log == [e] && l.base == 0 && l.baseTerm == 0
             && l.commitIndex == 0 && l.lastApplied == 0 && l.nextIndex == [1, 1, 1] && l.matchIndex == [0, 0, 0]
    ensures |more| == |steps| == 3 && Follows(c, steps[0], more[0]) && Follows(more[0], steps[1], more[1]) && Follows(more[1], steps[2], more[2])
    ensures Halfway(more[2], e)
  {
    hide Execute, AppendEntries, OnAppendReply, MakeAppendArgs, ToApply, ApplyLog;
    var first := AppendArgs(1, 0, 0, 0, 0, [e]);
    FirstEntryCommits(c.nodes[0], e);
    FollowerTakes(c.nodes[1], e);
    DeliverStep(c, 0, 1, first);
    var c1 := Execute(c, Deliver(0, 1));
    var d := AppendDone(0, 1, first, AppendReply(1, true, NO_CONFLICT, NO_CONFLICT));
    ReplyStep(c1, d);
    var c2 := Execute(c1, HandleReply(d));
    ApplyStep(c2, 0);
    TakesOne(c2.nodes[0], e);
    more, steps := [c1, c2, Execute(c2, Apply(0))], [Deliver(0, 1), HandleReply(d), Apply(0)];
  }

  lemma TakesOne(n: Node, e: Entry)
    requires n.log == [e] && n.base == 0 && n.lastApplied == 0 && n.commitIndex == 1
    ensures [] + ToApply(n) == [e] && ApplyLog(n).role == n.role
    ensures MakeAppendArgs(ApplyLog(n), 1) == MakeAppendArgs(n, 1)
  {
  }

  /** The leader has applied the entry; the follower holds it and will hear that it is committed. */
  ghost predicate Halfway(c: Cluster, e: Entry) {
    && |c.nodes| == |c.applied| == 3 && Chan(c, 0, 1) == [] && c.applied[0] == [e] && c.applied[1] == []
    && c.nodes[0].role == Leader && MakeAppendArgs(c.nodes[0], 1) == AppendArgs(1, 0, 1, 1, 1, [])
    && var f := AppendEntries(c.nodes[1], AppendArgs(1, 0, 1, 1, 1, [])).0;
       f.log == [e] && f.commitIndex == 1 && f.lastApplied == 0 && f.base == 0
  }

  /** The second round: the follower applies it too. */
  lemma SecondRound(c: Cluster, e: Entry) returns (more: seq<Cluster>, steps: seq<Step>)
    requires Halfway(c, e)
    ensures |more| == |steps| == 3 && Follows(c, steps[0], more[0]) && Follows(more[0], steps[1], more[1]) && Follows(more[1], steps[2], more[2])
    ensures |more[2].applied| == 3 && more[2].applied[0] == [e] == more[2].applied[1]
  {
    hide Execute, AppendEntries, MakeAppendArgs, ToApply, ApplyLog;
    HeartbeatStep(c, 0, 1);
    var c1 := Execute(c, Heartbeat(0));
    DeliverStep(c1, 0, 1, AppendArgs(1, 0, 1, 1, 1, []));
    var c2 := Execute(c1, Deliver(0, 1));
    ApplyStep(c2, 1);
    TakesOne(c2.nodes[1], e);
    more, steps := [c1, c2, Execute(c2, Apply(1))], [Heartbeat(0), Deliver(0, 1), Apply(1)];
  }

  /** For any command there is a run in which it is proposed, replicated, committed and applied by two servers. */
  lemma CommandGetsApplied(command: string) returns (b: Behaviour)
    ensures IsRun(3, b)
    ensures var c := b.states[|b.steps|];
            |c.applied| == 3 && c.applied[0] == [Entry(command, 1)] == c.applied[1]
  {
    hide Follows, Halfway;
    var s, steps := FirstLeader();
    var c1, c2 := FirstSend(s[4], command);
    var more, then_ := FirstAck(c2, Entry(command, 1));
    var last, end := SecondRound(more[2], Entry(command, 1));
    b := Behaviour(s + [c1, c2] + more + last, steps + [Propose(0, command), Heartbeat(0)] + then_ + end);
    forall i | 0 <= i < |b.steps| ensures Follows(b.states[i], b.steps[i], b.states[i + 1]) {
      if i < 4 { assert Follows(s[i], steps[i], s[i + 1]); }
    }
  }

  lemma ReplyStep(c: Cluster, d: AppendDone)
    requires Enabled(c, HandleReply(d))
    ensures var c' := Execute(c, HandleReply(d));
            c' == c.(nodes := c.nodes[d.leader := OnAppendReply(c.nodes[d.leader], d.follower, d.args, d.reply)])
  {
  }
}
