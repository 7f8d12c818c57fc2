/** Nothing is made up: every entry in any log, and everything applied, was proposed to the leader of its term. */
module RaftValidity {
  import opened RaftNode
  import opened RaftCluster
  import opened RaftSafety

  ghost predicate InLog(c: Cluster, e: Entry, p: nat) {
    p < |c.nodes| && e in c.nodes[p].log
  }

  ghost predicate InMessage(c: Cluster, e: Entry, p: nat, f: nat, k: nat) {
    k < |Chan(c, p, f)| && e in Chan(c, p, f)[k].entries
  }

  /** The entry is in some server's log or on its way to one. */
  ghost predicate Present(c: Cluster, e: Entry) {
    (exists p :: InLog(c, e, p)) || (exists p, f, k :: InMessage(c, e, p, f, k))
  }

  /** This step is the proposal of the entry's command to the leader of its term. */
  predicate Proposes(c: Cluster, s: Step, e: Entry) {
    && s.Propose? && s.p < |c.nodes| && s.command == e.command
    && c.nodes[s.p].role == Leader && c.nodes[s.p].term == e.term
  }

  /** Of the handlers, only a proposal at a leader brings in a new entry. */
  lemma DeliverBrings(n: Node, args: AppendArgs, e: Entry)
    requires e in AppendEntries(n, args).0.log
    ensures e in n.log || e in args.entries
  {
  }

  lemma OthersBring(n: Node, e: Entry, args: VoteArgs, reply: VoteReply, peer: int)
    ensures RequestVote(n, args).0.log == n.log && StartElection(n).log == n.log && OnVoteReply(n, reply).log == n.log
    ensures FinishElection(n).log == n.log && ApplyLog(n).log == n.log
    ensures e in MakeAppendArgs(n, peer).entries ==> e in n.log
  {
  }

  lemma ReplyBrings(n: Node, peer: int, args: AppendArgs, reply: AppendReply)
    requires 0 <= n.id < |n.matchIndex| == |n.nextIndex| && 0 <= peer < |n.nextIndex|
    ensures OnAppendReply(n, peer, args, reply).log == n.log
  {
  }

  lemma StartBrings(n: Node, command: string, e: Entry)
    requires e in Start(n, command).log
    ensures e in n.log || (n.role == Leader && e == Entry(command, n.term))
  {
  }

  lemma LogStep(c: Cluster, s: Step, e: Entry, p: nat)
    requires Enabled(c, s) && InLog(Execute(c, s), e, p)
    ensures Present(c, e) || Proposes(c, s, e)
  {
    hide RequestVote, StartElection, OnVoteReply, FinishElection, ApplyLog, OnAppendReply, AppendEntries, Start, MakeAppendArgs;
    match s
    case Timeout(q) => OthersBring(c.nodes[q], e, VoteArgs(0, 0, 0, 0), VoteReply(0, false), 0); assert InLog(c, e, p);
    case HandleVote(q, v) => OthersBring(c.nodes[v], e, c.calls[(q, v)].args, VoteReply(0, false), 0); assert InLog(c, e, p);
    case CountVote(q, v) => OthersBring(c.nodes[q], e, VoteArgs(0, 0, 0, 0), c.calls[(q, v)].reply, 0); assert InLog(c, e, p);
    case WinElection(q) => OthersBring(c.nodes[q], e, VoteArgs(0, 0, 0, 0), VoteReply(0, false), 0); assert InLog(c, e, p);
    case Apply(q) => OthersBring(c.nodes[q], e, VoteArgs(0, 0, 0, 0), VoteReply(0, false), 0); assert InLog(c, e, p);
    case HandleReply(d) => ReplyBrings(c.nodes[d.leader], d.follower, d.args, d.reply); assert InLog(c, e, p);
    case Propose(q, command) =>
      if p == q { StartBrings(c.nodes[q], command, e); }
      assert InLog(c, e, p) || Proposes(c, s, e);
    case Deliver(q, f) =>
      if p == f { DeliverBrings(c.nodes[f], Chan(c, q, f)[0], e); }
      assert InLog(c, e, p) || InMessage(c, e, q, f, 0);
    case _ => assert InLog(c, e, p);
  }

  /** A message on its way was on its way before the step, or the step sent it. */
  ghost predicate Comes(c: Cluster, s: Step, m: AppendArgs, p: nat, f: nat) {
    || m in Chan(c, p, f)
    || (s.Heartbeat? && p < |c.nodes| && m == MakeAppendArgs(c.nodes[p], f))
  }

  lemma LoseComes(c: Cluster, s: Step, m: AppendArgs, p: nat, f: nat)
    requires s.Lose? && Enabled(c, s) && m in Chan(Execute(c, s), p, f)
    ensures m in Chan(c, p, f)
  {
    var queue := Chan(c, s.p, s.f);
    if p == s.p && f == s.f {
      assert m in queue[..s.i] || m in queue[s.i + 1..];
    }
  }

  lemma MessageComes(c: Cluster, s: Step, m: AppendArgs, p: nat, f: nat)
    requires Enabled(c, s) && m in Chan(Execute(c, s), p, f)
    ensures Comes(c, s, m, p, f)
  {
    hide RequestVote, StartElection, OnVoteReply, FinishElection, ApplyLog, OnAppendReply, AppendEntries, Start, MakeAppendArgs,
         VoteTargets;
    if s.Lose? { LoseComes(c, s, m, p, f); }
  }

  lemma MessageStep(c: Cluster, s: Step, e: Entry, p: nat, f: nat, k: nat)
    requires Enabled(c, s) && InMessage(Execute(c, s), e, p, f, k)
    ensures Present(c, e)
  {
    hide Execute, Enabled, MakeAppendArgs;
    var m := Chan(Execute(c, s), p, f)[k];
    MessageComes(c, s, m, p, f);
    if j :| 0 <= j < |Chan(c, p, f)| && Chan(c, p, f)[j] == m {
      assert InMessage(c, e, p, f, j);
    } else {
      OthersBring(c.nodes[p], e, VoteArgs(0, 0, 0, 0), VoteReply(0, false), f);
      assert InLog(c, e, p);
    }
  }

  /** The command was proposed to the leader of the entry's term, before state `i`. */
  ghost predicate Proposed(b: Behaviour, i: nat, e: Entry) {
    exists j :: 0 <= j < i && j < |b.steps| && j < |b.states| && Proposes(b.states[j], b.steps[j], e)
  }

  lemma {:induction false} PresentIsProposed(n: nat, b: Behaviour, i: nat, e: Entry)
    requires IsRun(n, b) && i < |b.states| && Present(b.states[i], e)
    ensures Proposed(b, i, e)
  {
    hide Execute, Enabled, Proposes;
    if i == 0 {
      NothingAtFirst(n, e);
    } else {
      var c, s := b.states[i - 1], b.steps[i - 1];
      assert Follows(c, s, b.states[i]);
      PresentStep(c, s, e);
      if !Proposes(c, s, e) { PresentIsProposed(n, b, i - 1, e); }
    }
  }

  lemma PresentStep(c: Cluster, s: Step, e: Entry)
    requires Enabled(c, s) && Present(Execute(c, s), e)
    ensures Present(c, e) || Proposes(c, s, e)
  {
    hide Execute, Enabled, InLog, InMessage, Proposes;
    if p :| InLog(Execute(c, s), e, p) {
      LogStep(c, s, e, p);
    } else {
      var p, f, k :| InMessage(Execute(c, s), e, p, f, k);
      MessageStep(c, s, e, p, f, k);
    }
  }

  lemma NothingAtFirst(n: nat, e: Entry)
    ensures !Present(Init(n), e)
  {
  }

  /** Validity: over every run, each entry of every log carries the command of an earlier proposal, made while the
      proposing server led the entry's term. */
  lemma LogsHoldProposals(n: nat, b: Behaviour, i: nat, p: nat, k: nat)
    requires IsRun(n, b) && At(b, i, n, p) && k < |b.states[i].nodes[p].log|
    ensures Proposed(b, i, b.states[i].nodes[p].log[k])
  {
    hide Execute, Enabled, Proposed;
    var e := b.states[i].nodes[p].log[k];
    assert InLog(b.states[i], e, p);
    PresentIsProposed(n, b, i, e);
  }

  /** ... and so does everything that is ever applied. */
  lemma AppliedWasProposed(n: nat, b: Behaviour, i: nat, p: nat, k: nat)
    requires IsRun(n, b) && n % 2 == 1 && i < |b.states| && p < n
    requires p < |b.states[i].applied| && k < |b.states[i].applied[p]|
    ensures Proposed(b, i, b.states[i].applied[p][k])
  {
    hide Execute, Enabled, Proposed;
    AppliedOnlyGrows(n, b, i, i, p);
    LogsHoldProposals(n, b, i, p, k);
  }

  /** A proposal at a leader is kept: it becomes the last entry, with the leader's term, behind all earlier ones. */
  lemma ProposalIsLogged(b: Behaviour, n: nat, i: nat, p: nat, command: string)
    requires IsRun(n, b) && i < |b.steps| && b.steps[i] == Propose(p, command)
    requires p < |b.states[i].nodes| && b.states[i].nodes[p].role == Leader
    ensures var node := b.states[i].nodes[p];
            p < |b.states[i + 1].nodes| && b.states[i + 1].nodes[p].log == node.log + [Entry(command, node.term)]
  {
    assert Follows(b.states[i], b.steps[i], b.states[i + 1]);
  }
}
