/** The safety theorems of the Raft paper, over every run of a cluster of odd size. */
module RaftSafety {
  import opened RaftNode
  import opened RaftCluster
  import opened RaftHistory
  import opened RaftInvariant
  import opened RaftSteps
  import opened RaftReplication

  lemma InitHolds(n: nat)
    ensures Inv(n, Init(n), InitHistory(n))
  {
    var c, h := Init(n), InitHistory(n);
    forall p | 0 <= p < n
      ensures NodeOk(n, h, p, c.nodes[p])
    {
    }
  }

  lemma StepKeeps(n: nat, c: Cluster, h: History, s: Step)
    requires n % 2 == 1 && Inv(n, c, h) && Enabled(c, s)
    ensures Inv(n, Execute(c, s), Record(n, c, h, s)) && Grows(h, Record(n, c, h, s))
  {
    hide HistoryOk, NodesOk, CallsOk, QueuesOk, RepliesOk, Execute, Grows, RecordWin, RecordTimeout, RecordPropose;
    GrowsReflexive(h);
    match s
    case Timeout(p) => TimeoutKeeps(n, c, h, p);
    case HandleVote(p, v) => VoteKeeps(n, c, h, p, v);
    case CountVote(p, v) => CountKeeps(n, c, h, p, v);
    case LoseVote(p, v) => LoseVoteKeeps(n, c, h, p, v);
    case WinElection(p) => WinKeeps(n, c, h, p);
    case Propose(p, command) =>
      if c.nodes[p].role == Leader { ProposeKeeps(n, c, h, p, command); } else { IdlePropose(c, p, command); }
    case Heartbeat(p) => HeartbeatKeeps(n, c, h, p);
    case Deliver(p, f) => DeliverKeeps(n, c, h, p, f);
    case Lose(p, f, i) => LoseKeeps(n, c, h, p, f, i);
    case HandleReply(d) => HandleReplyKeeps(n, c, h, d);
    case Apply(p) => ApplyKeeps(n, c, h, p);
    case SetDead(p, dead) => SetDeadKeeps(n, c, h, p, dead);
  }

  lemma IdlePropose(c: Cluster, p: nat, command: string)
    requires p < |c.nodes| && c.nodes[p].role != Leader
    ensures Execute(c, Propose(p, command)) == c
  {
    assert c.nodes[p := c.nodes[p]] == c.nodes;
  }

  lemma GrowsReflexive(h: History)
    ensures Grows(h, h)
  {
  }

  lemma GrowsTransitive(a: History, b: History, c: History)
    requires Grows(a, b) && Grows(b, c)
    ensures Grows(a, c)
  {
  }

  // ---------- Along a run ----------

  /** A history for every state of a run, each growing out of the one before. */
  ghost predicate Recorded(n: nat, b: Behaviour, hs: seq<History>) {
    && |hs| == |b.states|
    && (forall i {:trigger Inv(n, b.states[i], hs[i])} :: 0 <= i < |hs| ==> Inv(n, b.states[i], hs[i]))
    && (forall i, j {:trigger Grows(hs[i], hs[j])} :: 0 <= i <= j < |hs| ==> Grows(hs[i], hs[j]))
  }

  lemma {:induction false} RecordRun(n: nat, b: Behaviour) returns (hs: seq<History>)
    requires IsRun(n, b) && n % 2 == 1
    ensures Recorded(n, b, hs)
    decreases |b.steps|
  {
    hide Inv, Grows, Enabled, Execute;
    var k := |b.steps|;
    if k == 0 {
      InitHolds(n);
      GrowsReflexive(InitHistory(n));
      hs := [InitHistory(n)];
    } else {
      var before := Behaviour(b.states[..k], b.steps[..k - 1]);
      assert forall i :: 0 <= i < k - 1 ==> before.steps[i] == b.steps[i] && before.states[i + 1] == b.states[i + 1];
      hs := RecordRun(n, before);
      assert Follows(b.states[k - 1], b.steps[k - 1], b.states[k]);
      assert Inv(n, before.states[k - 1], hs[k - 1]);
      var h := Extend(n, b.states[k - 1], hs[k - 1], b.steps[k - 1], b.states[k]);
      forall i | 0 <= i < k
        ensures Grows(hs[i], h)
      {
        assert Grows(hs[i], hs[k - 1]);
        GrowsTransitive(hs[i], hs[k - 1], h);
      }
      GrowsReflexive(h);
      var hs' := hs + [h];
      forall i | 0 <= i < |hs'|
        ensures Inv(n, b.states[i], hs'[i])
      {
        if i < k { assert Inv(n, before.states[i], hs[i]); }
      }
      forall i, j | 0 <= i <= j < |hs'|
        ensures Grows(hs'[i], hs'[j])
      {
        if j < k { assert Grows(hs[i], hs[j]); }
      }
      hs := hs';
    }
  }

  lemma Extend(n: nat, c: Cluster, h: History, s: Step, c': Cluster) returns (h': History)
    requires n % 2 == 1 && Inv(n, c, h) && Follows(c, s, c')
    ensures Inv(n, c', h') && Grows(h, h')
  {
    StepKeeps(n, c, h, s);
    h' := Record(n, c, h, s);
  }

  // ---------- Theorems ----------

  predicate At(b: Behaviour, i: nat, n: nat, p: nat) {
    i < |b.states| && p < n && |b.states[i].nodes| == n
  }

  /** Election safety: over a whole run, no term has two leaders. */
  lemma ElectionSafety(n: nat, b: Behaviour, i: nat, p: nat, j: nat, q: nat)
    requires IsRun(n, b) && n % 2 == 1 && At(b, i, n, p) && At(b, j, n, q) && i <= j
    requires b.states[i].nodes[p].role == Leader && b.states[j].nodes[q].role == Leader
    requires b.states[i].nodes[p].term == b.states[j].nodes[q].term
    ensures p == q
  {
    var hs := RecordRun(n, b);
    assert Inv(n, b.states[i], hs[i]) && Inv(n, b.states[j], hs[j]) && Grows(hs[i], hs[j]);
    assert NodeOk(n, hs[i], p, b.states[i].nodes[p]);
    assert NodeOk(n, hs[j], q, b.states[j].nodes[q]);
  }

  /** Log matching: over a whole run, logs with the same term at an index agree up to it. */
  lemma LogMatching(n: nat, b: Behaviour, i: nat, p: nat, j: nat, q: nat, k: nat)
    requires IsRun(n, b) && n % 2 == 1 && At(b, i, n, p) && At(b, j, n, q) && i <= j
    requires var x, y := b.states[i].nodes[p].log, b.states[j].nodes[q].log;
             k < |x| && k < |y| && x[k].term == y[k].term
    ensures b.states[i].nodes[p].log[..k + 1] == b.states[j].nodes[q].log[..k + 1]
  {
    var hs := RecordRun(n, b);
    var h, h' := hs[i], hs[j];
    assert Inv(n, b.states[i], h) && Inv(n, b.states[j], h') && Grows(h, h');
    assert NodeOk(n, h, p, b.states[i].nodes[p]);
    assert NodeOk(n, h', q, b.states[j].nodes[q]);
    var x, y := b.states[i].nodes[p].log, b.states[j].nodes[q].log;
    assert x <= h'.reigns[h.src[p]].log;
    PrefixesAgree(n, h', x, h.src[p], y, h'.src[q], k);
  }

  /** A message accepted at any later time makes the receiver's log the sender's log as it was
      at sending time. */
  lemma AcceptingCopiesLeader(n: nat, b: Behaviour, i: nat, p: nat, j: nat, f: nat)
    requires IsRun(n, b) && n % 2 == 1 && At(b, i, n, p) && At(b, j, n, f) && i <= j
    requires b.states[i].nodes[p].role == Leader
    requires AppendEntries(b.states[j].nodes[f], MakeAppendArgs(b.states[i].nodes[p], f)).1.success
    ensures AppendEntries(b.states[j].nodes[f], MakeAppendArgs(b.states[i].nodes[p], f)).0.log == b.states[i].nodes[p].log
  {
    var hs := RecordRun(n, b);
    var h, h' := hs[i], hs[j];
    var leader, node := b.states[i].nodes[p], b.states[j].nodes[f];
    var m := MakeAppendArgs(leader, f);
    assert Inv(n, b.states[i], h) && Inv(n, b.states[j], h') && Grows(h, h');
    assert NodeOk(n, h, p, leader);
    assert NodeOk(n, h', f, node);
    Sent(n, h, p, leader, f);
    assert leader.log == h.reigns[m.term].log == h'.reigns[m.term].log[..Total(m)];
    hide Inv, NodeOk, MakeAppendArgs, AppendEntries, CommitOk;
    SentGrows(n, h, h', p, m);
    HistoryOf(n, b.states[j], h');
    AcceptedLog(n, h', f, node, p, m);
  }

  lemma HistoryOf(n: nat, c: Cluster, h: History)
    requires Inv(n, c, h)
    ensures HistoryOk(n, h)
  {
  }

  /** Leader completeness: what a server ever commits, every leader of a later term holds, at
      any time of its reign, before the commit as well as after it. */
  lemma CommittedInLaterLeaders(n: nat, b: Behaviour, i: nat, p: nat, j: nat, q: nat)
    requires IsRun(n, b) && n % 2 == 1 && At(b, i, n, p) && At(b, j, n, q)
    requires b.states[j].nodes[q].role == Leader && b.states[j].nodes[q].term > b.states[i].nodes[p].term
    ensures var node := b.states[i].nodes[p];
            && 0 <= node.commitIndex <= |node.log| && node.commitIndex <= |b.states[j].nodes[q].log|
            && node.log[..node.commitIndex] == b.states[j].nodes[q].log[..node.commitIndex]
  {
    hide Inv, Grows;
    var hs := RecordRun(n, b);
    var h := hs[if i <= j then j else i];
    assert Inv(n, b.states[i], hs[i]) && Inv(n, b.states[j], hs[j]) && Grows(hs[i], h) && Grows(hs[j], h);
    var x, y := b.states[i].nodes[p], b.states[j].nodes[q];
    HistoryOf(n, b.states[if i <= j then j else i], h);
    var s := CommittedLater(n, b.states[i], hs[i], h, p);
    LeadingLater(n, b.states[j], hs[j], h, q);
    CommittedHeld(n, h, x.log, x.commitIndex, s, y.term);
    assert x.log[..x.commitIndex] == h.reigns[y.term].init[..x.commitIndex] == y.log[..x.commitIndex];
  }

  /** A commit stays backed by any later history. */
  lemma CommittedLater(n: nat, c: Cluster, h: History, h': History, p: nat) returns (s: int)
    requires Inv(n, c, h) && Grows(h, h') && p < n
    ensures |c.nodes| == n && s <= c.nodes[p].term && 0 <= c.nodes[p].commitIndex <= |c.nodes[p].log|
    ensures CommitOk(n, h', c.nodes[p].log, c.nodes[p].commitIndex, s)
  {
    var node := c.nodes[p];
    assert NodeOk(n, h, p, node);
    s := h.src[p];
    CommitGrows(n, h, h', node.log, node.commitIndex, s);
  }

  /** A leader's log begins with the one it was elected with, by any later history. */
  lemma LeadingLater(n: nat, c: Cluster, h: History, h': History, q: nat)
    requires Inv(n, c, h) && Grows(h, h') && q < n && |c.nodes| == n && c.nodes[q].role == Leader
    ensures c.nodes[q].term in h'.reigns && h'.reigns[c.nodes[q].term].init <= c.nodes[q].log
  {
    var node := c.nodes[q];
    assert NodeOk(n, h, q, node);
    assert ReignOk(n, h, node.term);
  }

  /** A committed prefix is a prefix of every later leader's log. */
  lemma CommittedHeld(n: nat, h: History, log: seq<Entry>, c: int, s: int, t: int)
    requires HistoryOk(n, h) && 0 <= c <= |log| && CommitOk(n, h, log, c, s) && s < t && t in h.reigns
    ensures c <= |h.reigns[t].log| && log[..c] == h.reigns[t].log[..c]
    ensures log[..c] <= h.reigns[t].init
  {
    if c > 0 {
      var T, k :| CommittedBy(n, h, log, c, s, T, k);
      LeaderCompleteness(n, h, T, k, t);
      assert ReignOk(n, h, t);
      assert h.reigns[T].log[..k][..c] == h.reigns[T].log[..c];
    }
  }

  /** Two committed prefixes agree as far as both reach. */
  lemma CommitsAgree(n: nat, h: History, x: seq<Entry>, c: int, s: int, y: seq<Entry>, d: int, t: int)
    requires HistoryOk(n, h) && CommitOk(n, h, x, c, s) && CommitOk(n, h, y, d, t)
    requires 0 <= c <= |x| && 0 <= d <= |y|
    ensures forall k :: 0 <= k < c && k < d ==> x[k] == y[k]
  {
    if c > 0 && d > 0 {
      var T, i :| CommittedBy(n, h, x, c, s, T, i);
      var U, j :| CommittedBy(n, h, y, d, t, U, j);
      if T < U {
        CommitsAgreeOrdered(n, h, x, c, T, i, y, d, U, j);
      } else if U < T {
        CommitsAgreeOrdered(n, h, y, d, U, j, x, c, T, i);
      } else {
        assert forall k :: 0 <= k < c ==> x[k] == x[..c][k];
        assert forall k :: 0 <= k < d ==> y[k] == y[..d][k];
      }
    }
  }

  lemma CommitsAgreeOrdered(n: nat, h: History, x: seq<Entry>, c: int, T: int, i: int, y: seq<Entry>, d: int, U: int, j: int)
    requires HistoryOk(n, h) && T < U
    requires CommittedBy(n, h, x, c, T, T, i) && CommittedBy(n, h, y, d, U, U, j)
    ensures forall k :: 0 <= k < c && k < d ==> x[k] == y[k]
  {
    CommittedHeld(n, h, x, c, T, U);
    assert forall k :: 0 <= k < c ==> x[k] == x[..c][k];
    assert forall k :: 0 <= k < d ==> y[k] == y[..d][k];
  }

  /** State-machine safety: over a whole run, no two servers hand different entries to their
      application at the same index. */
  lemma StateMachineSafety(n: nat, b: Behaviour, i: nat, p: nat, j: nat, q: nat, k: nat)
    requires IsRun(n, b) && n % 2 == 1 && At(b, i, n, p) && At(b, j, n, q) && i <= j
    requires |b.states[i].applied| == |b.states[j].applied| == n
    requires k < |b.states[i].applied[p]| && k < |b.states[j].applied[q]|
    ensures b.states[i].applied[p][k] == b.states[j].applied[q][k]
  {
    var hs := RecordRun(n, b);
    var h, h' := hs[i], hs[j];
    var x, y := b.states[i].nodes[p], b.states[j].nodes[q];
    assert Inv(n, b.states[i], h) && Inv(n, b.states[j], h') && Grows(h, h');
    assert NodeOk(n, h, p, x);
    assert NodeOk(n, h', q, y);
    CommitGrows(n, h, h', x.log, x.commitIndex, h.src[p]);
    CommitsAgree(n, h', x.log, x.commitIndex, h.src[p], y.log, y.commitIndex, h'.src[q]);
  }

  /** What has been applied is never taken back: over a whole run the applied sequences only
      grow, and they are always the committed beginning of the server's own log. */
  lemma {:induction false} AppliedOnlyGrows(n: nat, b: Behaviour, i: nat, j: nat, p: nat)
    requires IsRun(n, b) && n % 2 == 1 && i <= j < |b.states| && p < n
    ensures |b.states[i].applied| == |b.states[j].applied| == n && At(b, j, n, p)
    ensures b.states[i].applied[p] <= b.states[j].applied[p]
    ensures var node := b.states[j].nodes[p];
            0 <= node.lastApplied <= |node.log| && b.states[j].applied[p] == node.log[..node.lastApplied]
    decreases j - i
  {
    hide Inv, Execute, Enabled;
    var hs := RecordRun(n, b);
    AppliedIs(n, b.states[i], hs[i], p);
    AppliedIs(n, b.states[j], hs[j], p);
    if i < j {
      AppliedOnlyGrows(n, b, i, j - 1, p);
      assert Follows(b.states[j - 1], b.steps[j - 1], b.states[j]);
      AppliedStep(b.states[j - 1], b.steps[j - 1], p);
    }
  }

  lemma AppliedStep(c: Cluster, s: Step, p: nat)
    requires Enabled(c, s) && p < |c.applied|
    ensures |Execute(c, s).applied| == |c.applied| && c.applied[p] <= Execute(c, s).applied[p]
  {
  }

  lemma AppliedIs(n: nat, c: Cluster, h: History, p: nat)
    requires Inv(n, c, h) && p < n
    ensures |c.nodes| == |c.applied| == n
    ensures 0 <= c.nodes[p].lastApplied <= |c.nodes[p].log|
    ensures c.applied[p] == c.nodes[p].log[..c.nodes[p].lastApplied]
  {
    assert NodeOk(n, h, p, c.nodes[p]);
  }

  /** Every log access the original makes by absolute index stays inside its vector. */
  lemma AccessInRange(n: nat, b: Behaviour, i: nat, p: nat)
    requires IsRun(n, b) && n % 2 == 1 && i < |b.states| && p < n
    ensures At(b, i, n, p)
    ensures var node := b.states[i].nodes[p];
            && 0 <= node.lastApplied <= node.commitIndex <= LastIndex(node)
            && |node.nextIndex| == |node.matchIndex| == n
            && (node.role == Leader ==> forall q :: 0 <= q < n ==>
                  node.base < node.nextIndex[q] <= LastIndex(node) + 1 && node.matchIndex[q] <= LastIndex(node))
  {
    var hs := RecordRun(n, b);
    assert Inv(n, b.states[i], hs[i]);
    var h, node := hs[i], b.states[i].nodes[p];
    assert NodeOk(n, h, p, node);
    forall q | 0 <= q < n && node.role == Leader
      ensures node.matchIndex[q] <= |node.log|
    {
      assert MatchOk(h, node.term, q, node.matchIndex[q]);
    }
  }
}
