/** What gets committed and applied, and that it is what clients proposed. */
module RaftCommit {
  import opened RaftNode
  import opened RaftMedian
  import opened RaftCluster
  import opened RaftHistory
  import opened RaftInvariant
  import opened RaftReplication
  import opened RaftSafety

  // ---------- The leader's commit index ----------

  /** More than half of the servers are known to hold everything up to index `k`. */
  ghost predicate Reached(matches: seq<int>, k: int) {
    2 * |Holders(matches, k)| > |matches|
  }

  /** Terms never fall along the log, and none is above the server's own. */
  predicate Rising(n: Node) {
    forall i, j :: n.base <= i <= j <= LastIndex(n) ==> TermAt(n, i) <= TermAt(n, j) <= n.term
  }

  /** After a success the leader has committed every entry of its term that a majority is known to hold, and
      nothing else: the commit index stays, or rises to an entry of its term that a majority holds. */
  lemma LeaderCommits(n: Node, peer: int, args: AppendArgs, reply: AppendReply)
    requires 0 <= n.id < |n.matchIndex| == |n.nextIndex| && 0 <= peer < |n.nextIndex| && |n.matchIndex| % 2 == 1
    requires n.term == args.term && reply.term <= n.term && reply.success && Rising(n)
    requires args.prevLogIndex + |args.entries| <= LastIndex(n) && forall q :: 0 <= q < |n.matchIndex| ==> n.matchIndex[q] <= LastIndex(n)
    ensures var n' := OnAppendReply(n, peer, args, reply);
            var end := args.prevLogIndex + |args.entries|;
            var matches := n.matchIndex[peer := end][n.id := LastIndex(n)];
            && n' == n.(matchIndex := matches, nextIndex := n.nextIndex[peer := end + 1], commitIndex := n'.commitIndex)
            && (forall k :: n.base <= k <= LastIndex(n) && TermAt(n, k) == n.term && Reached(matches, k) ==> k <= n'.commitIndex)
            && (n'.commitIndex != n.commitIndex ==>
                  && n'.commitIndex > n.commitIndex && Reached(matches, n'.commitIndex)
                  && (n'.commitIndex <= n.base || TermAt(n, n'.commitIndex) == n.term))
  {
    hide Median, Holders;
    var end := args.prevLogIndex + |args.entries|;
    var matches := n.matchIndex[peer := end][n.id := LastIndex(n)];
    var m := Median(matches);
    MedianIsLargest(matches, m);
    MedianMajority(matches);
    assert m <= LastIndex(n) by { var q :| 0 <= q < |matches| && matches[q] == m; }
    forall k | n.base <= k <= LastIndex(n) && TermAt(n, k) == n.term && Reached(matches, k)
      ensures k <= OnAppendReply(n, peer, args, reply).commitIndex
    {
      MedianIsLargest(matches, k);
      assert m > n.base ==> TermAt(n, k) <= TermAt(n, m) <= n.term;
    }
  }

  /** In every run a leader's log is one of rising terms, so every success it handles commits what `LeaderCommits` says. */
  lemma LeadersRise(n: nat, b: Behaviour, i: nat, p: nat)
    requires IsRun(n, b) && n % 2 == 1 && At(b, i, n, p) && b.states[i].nodes[p].role == Leader
    ensures Rising(b.states[i].nodes[p])
  {
    var hs := RecordRun(n, b);
    var c, h := b.states[i], hs[i];
    assert Inv(n, c, h);
    LeaderRises(n, c, h, p);
  }

  lemma LeaderRises(n: nat, c: Cluster, h: History, p: nat)
    requires Inv(n, c, h) && p < n && |c.nodes| == n && c.nodes[p].role == Leader
    ensures Rising(c.nodes[p])
  {
    var node := c.nodes[p];
    assert NodeOk(n, h, p, node);
    assert ReignOk(n, h, node.term);
    forall k | 0 <= k < |node.log| ensures 1 <= node.log[k].term <= node.term { TermsBelow(n, h, node.term, k); }
  }

  /** Over every run: a success reply that a leader handles commits every entry of its term that a majority of the
      match indices reaches. */
  lemma RunCommits(n: nat, b: Behaviour, i: nat, d: AppendDone, k: int)
    requires IsRun(n, b) && n % 2 == 1 && i < |b.steps| && b.steps[i] == HandleReply(d)
    requires At(b, i, n, d.leader) && At(b, i + 1, n, d.leader)
    requires var node := b.states[i].nodes[d.leader];
             node.role == Leader && node.term == d.args.term && d.reply.term <= node.term && d.reply.success
    requires var node' := b.states[i + 1].nodes[d.leader];
             0 < k <= |node'.log| && node'.log[k - 1].term == node'.term && Reached(node'.matchIndex, k)
    ensures k <= b.states[i + 1].nodes[d.leader].commitIndex
  {
    hide Inv, Median, OnAppendReply, Holders;
    var hs := RecordRun(n, b);
    var c, h, node := b.states[i], hs[i], b.states[i].nodes[d.leader];
    assert Inv(n, c, h);
    assert Follows(c, b.steps[i], b.states[i + 1]);
    LeaderRises(n, c, h, d.leader);
    MatchesInLog(n, c, h, d);
    LeaderCommits(node, d.follower, d.args, d.reply);
  }

  /** What a leader of the message's term knows, and what the message covers, is inside its log. */
  lemma MatchesInLog(n: nat, c: Cluster, h: History, d: AppendDone)
    requires Inv(n, c, h) && d in c.replies && d.leader < n && |c.nodes| == n
    requires c.nodes[d.leader].role == Leader && c.nodes[d.leader].term == d.args.term && d.reply.success
    ensures var node := c.nodes[d.leader];
            && d.args.prevLogIndex + |d.args.entries| <= LastIndex(node) && |node.matchIndex| == n && node.base == 0
            && 0 <= node.id < |node.matchIndex| == |node.nextIndex|
            && forall q :: 0 <= q < n ==> node.matchIndex[q] <= LastIndex(node)
  {
    var node := c.nodes[d.leader];
    assert NodeOk(n, h, d.leader, node);
    assert ReplyOk(n, h, d);
    forall q | 0 <= q < n ensures node.matchIndex[q] <= |node.log| { assert MatchOk(h, node.term, q, node.matchIndex[q]); }
  }

  // ---------- Followers and application ----------

  /** An accepted message leaves the follower's commit index at least at the leader's, as far as its log goes. */
  lemma FollowerCommits(f: Node, args: AppendArgs)
    requires AppendEntries(f, args).1.success
    ensures var f' := AppendEntries(f, args).0;
            && Min(args.leaderCommit, LastIndex(f')) <= f'.commitIndex
            && (f'.commitIndex == f.commitIndex || f'.commitIndex == Min(args.leaderCommit, LastIndex(f')))
  {
  }

  /** Over every run: a follower that accepts a message has committed whatever its sender had committed when sending. */
  lemma AcceptingLearnsCommit(n: nat, b: Behaviour, i: nat, p: nat, j: nat, f: nat)
    requires IsRun(n, b) && n % 2 == 1 && At(b, i, n, p) && At(b, j, n, f) && i <= j
    requires b.states[i].nodes[p].role == Leader
    requires AppendEntries(b.states[j].nodes[f], MakeAppendArgs(b.states[i].nodes[p], f)).1.success
    ensures AppendEntries(b.states[j].nodes[f], MakeAppendArgs(b.states[i].nodes[p], f)).0.commitIndex >= b.states[i].nodes[p].commitIndex
  {
    hide AppendEntries;
    AcceptingCopiesLeader(n, b, i, p, j, f);
    FollowerCommits(b.states[j].nodes[f], MakeAppendArgs(b.states[i].nodes[p], f));
    AccessInRange(n, b, i, p);
    BaseStays(n, b, j, f, MakeAppendArgs(b.states[i].nodes[p], f));
    BaseStays(n, b, i, p, MakeAppendArgs(b.states[i].nodes[p], f));
  }

  lemma BaseStays(n: nat, b: Behaviour, j: nat, f: nat, args: AppendArgs)
    requires IsRun(n, b) && n % 2 == 1 && At(b, j, n, f)
    ensures b.states[j].nodes[f].base == 0 == AppendEntries(b.states[j].nodes[f], args).0.base
  {
    var hs := RecordRun(n, b);
    assert Inv(n, b.states[j], hs[j]);
    assert NodeOk(n, hs[j], f, b.states[j].nodes[f]);
  }

  /** Over every run: one pass of the apply loop hands over everything committed. */
  lemma ApplyCatchesUp(n: nat, b: Behaviour, i: nat, p: nat)
    requires IsRun(n, b) && n % 2 == 1 && i < |b.steps| && b.steps[i] == Apply(p) && p < n
    ensures |b.states[i + 1].applied| == n && At(b, i, n, p)
    ensures var node := b.states[i].nodes[p];
            0 <= node.commitIndex <= |node.log| && b.states[i + 1].applied[p] == node.log[..node.commitIndex]
  {
    AccessInRange(n, b, i, p);
    AppliedOnlyGrows(n, b, i, i + 1, p);
    AppliedOnlyGrows(n, b, i, i, p);
    assert Follows(b.states[i], b.steps[i], b.states[i + 1]);
    var node := b.states[i].nodes[p];
    BaseStays(n, b, i, p, AppendArgs(0, 0, 0, 0, 0, []));
    assert node.log[..node.lastApplied] + node.log[node.lastApplied..node.commitIndex] == node.log[..node.commitIndex];
  }
}
