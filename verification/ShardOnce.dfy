/** Duplicate suppression follows a shard: as long as no command falls below the id recorded for its client, no
    request is written twice to a shard, wherever the shard is served. */
module ShardOnce {
  import opened ShardConfig
  import opened ShardGroup
  import opened ShardSystem
  import opened ShardInvariant
  import opened ShardApply
  import opened ShardSafety
  import Master = ShardMaster

  /** These recorded ids stop the request from being carried out again. */
  predicate Knows(seqs: map<int, int>, op: Op) {
    op.client in seqs && op.request <= seqs[op.client]
  }

  predicate KnowsAll(seqs: map<int, int>, ops: seq<Op>) {
    forall w <- ops :: Knows(seqs, w)
  }

  /** Along these operations the ids of each client rise. */
  predicate RisingIds(ops: seq<Op>) {
    forall x, y :: 0 <= x < y < |ops| && ops[x].client == ops[y].client ==> ops[x].request < ops[y].request
  }

  /** The command sets no recorded id back. */
  predicate NotBelow(g: Group, c: Command) {
    match c
    case Client(op) => op.client in g.seqs ==> g.seqs[op.client] <= op.request
    case GC(_, shard, client) => client in g.seqs ==> g.seqs[client] <= shard
    case _ => true
  }

  predicate StepNotBelow(sys: System, step: Step) {
    step.Apply? && step.gid in sys.groups ==> NotBelow(sys.groups[step.gid], step.command)
  }

  /** In the first `i` steps no command falls below the id its group has recorded for the client. */
  predicate NeverFalls(b: Behaviour, i: nat)
    requires i <= |b.steps| && |b.states| == |b.steps| + 1
  {
    forall j :: 0 <= j < i ==> StepNotBelow(b.states[j], b.steps[j])
  }

  // ---------- The invariant ----------

  /** The last group to have served the shard knows every request written to it. */
  ghost predicate OwnerKnows(sys: System, h: History, s: int)
    requires s in h.front && s in h.writes
  {
    var d := Owner(sys.configs, h.front[s], s);
    h.front[s] >= 1 ==> d in sys.groups && KnowsAll(sys.groups[d].seqs, h.writes[s])
  }

  /** So does a reply that carries the shard to the next group. */
  ghost predicate ReplyKnows(h: History, m: Migration) {
    m.shard in h.front && m.shard in h.writes && h.front[m.shard] == m.num ==> KnowsAll(m.seqs, h.writes[m.shard])
  }

  ghost predicate RepliesKnow(sys: System, h: History) {
    forall g, m {:trigger UD(m) in sys.proposed[g]} :: g in sys.proposed && UD(m) in sys.proposed[g] ==> ReplyKnows(h, m)
  }

  ghost predicate WrittenOnce(sys: System, h: History, s: int) {
    s in h.front && s in h.writes && OwnerKnows(sys, h, s) && RisingIds(h.writes[s])
  }

  ghost predicate Once(sys: System, h: History) {
    && (forall s {:trigger WrittenOnce(sys, h, s)} :: Shard(s) ==> WrittenOnce(sys, h, s))
    && RepliesKnow(sys, h)
  }

  // ---------- Commands ----------

  /** What a group knows it goes on knowing. */
  lemma ObeyKnows(g: Group, c: Command, ops: seq<Op>)
    requires NotBelow(g, c) && KnowsAll(g.seqs, ops)
    ensures KnowsAll(Obey(g, c).seqs, ops)
  {
    hide ShardData, Without, SetAside, Write, Kept, Wanted;
  }

  /** An installed reply teaches the group what the reply knows. */
  lemma InstallKnows(g: Group, m: Migration, ops: seq<Op>)
    requires m.num == g.config.num - 1 && m.shard !in g.available && KnowsAll(m.seqs, ops)
    ensures KnowsAll(InstallShard(g, m).seqs, ops)
  {
  }

  /** A write carried out rises above what the group knows, and is known from then on. */
  lemma WriteRises(g: Group, op: Op, ops: seq<Op>)
    requires Effective(g, op) && KnowsAll(g.seqs, ops) && RisingIds(ops)
    ensures RisingIds(ops + [op]) && KnowsAll(ApplyOp(g, op).seqs, ops + [op])
  {
    hide Write;
    assert forall x :: 0 <= x < |ops| ==> Knows(g.seqs, ops[x]);
  }

  /** A shard is on its way to the group that installs it. */
  predicate Arrives(sys: System, h: History, gid: int, c: Command, s: int)
    requires gid in sys.groups && s in h.front
  {
    && c.UD? && c.migration.shard == s && h.front[s] == c.migration.num == Num(sys, gid) - 1
    && s !in sys.groups[gid].available
  }

  lemma CommandIs(sys: System, h: History, gid: int, c: Command)
    requires Inv(sys, h) && Enabled(sys, Apply(gid, c))
    ensures CommandOk(sys, h, gid, c)
  {
    hide Master.History, ShardOk, GroupOk, AsksOk, CommandOk;
  }

  lemma ConfigMoves(sys: System, h: History, gid: int, config: Config, s: int)
    requires Inv(sys, h) && Enabled(sys, Apply(gid, UC(config))) && Shard(s)
    requires config.num > Num(sys, gid) && s in Kept(sys.groups[gid], config)
    ensures h.front[s] == 0 || Owner(sys.configs, h.front[s], s) == gid
  {
    hide Master.History, ShardOk, GroupOk, AsksOk, CommandsOk, Kept, Owner;
    CommandIs(sys, h, gid, UC(config));
    assert ShardOk(sys, h, s) && GroupOk(sys, gid);
    ConfigNumbered(sys, gid);
    UCFront(sys, h, gid, config, s);
  }

  lemma ConfigNumbered(sys: System, gid: int)
    requires gid in sys.groups && Master.History(sys.configs) && GroupOk(sys, gid)
    ensures Num(sys, gid) >= 0
  {
    hide Master.History;
  }

  lemma InstallMoves(sys: System, h: History, gid: int, m: Migration)
    requires Inv(sys, h) && Enabled(sys, Apply(gid, UD(m))) && m.num == Num(sys, gid) - 1
    ensures Shard(m.shard) && Owner(sys.configs, Num(sys, gid), m.shard) == gid
    ensures m.shard !in sys.groups[gid].available ==> h.front[m.shard] == m.num
  {
    hide Master.History, ShardOk, GroupOk, AsksOk, CommandsOk, Replay, Owner;
    CommandIs(sys, h, gid, UD(m));
    PulledFront(sys, h, gid, m);
    if m.shard !in sys.groups[gid].available { NotYet(sys, h, gid, m.shard); }
  }

  lemma HolderAtFront(sys: System, h: History, gid: int, s: int)
    requires Inv(sys, h) && gid in sys.groups && s in sys.groups[gid].available
    ensures Shard(s) && h.front[s] == Num(sys, gid) >= 1 && Owner(sys.configs, h.front[s], s) == gid
  {
    hide Master.History, AsksOk, CommandsOk, Replay, ShardData, Owner;
    assert GroupOk(sys, gid);
    assert ShardOk(sys, h, s);
  }

  /** Where the front of a shard is after a command, and who has brought it there. */
  lemma FrontMoves(sys: System, h: History, gid: int, c: Command, s: int)
    requires Inv(sys, h) && Enabled(sys, Apply(gid, c)) && Shard(s)
    ensures var h' := RecordStep(sys, h, Apply(gid, c));
            && s in h.front && s in h'.front && s in h.writes && s in h'.writes
            && (h'.front[s] != h.front[s] ==>
                  && s in Obey(sys.groups[gid], c).available
                  && (h.front[s] == 0 || Owner(sys.configs, h.front[s], s) == gid || Arrives(sys, h, gid, c, s)))
  {
    hide Inv, Owner, Write, Kept, Wanted, MergeSeqs, Without, SetAside;
    Completes(sys, h);
    var g := sys.groups[gid];
    if s in g.available { HolderAtFront(sys, h, gid, s); }
    if c.UC? && c.config.num > Num(sys, gid) && s in Kept(g, c.config) { ConfigMoves(sys, h, gid, c.config, s); }
    if c.UD? && c.migration.num == Num(sys, gid) - 1 { InstallMoves(sys, h, gid, c.migration); }
  }

  // ---------- Steps ----------

  lemma FrontZero(sys: System, h: History, s: int)
    requires Inv(sys, h) && Shard(s) && h.front[s] <= 0
    ensures h.writes[s] == []
  {
    hide Master.History, AsksOk, CommandsOk, Replay, ShardData, Owner, GroupOk;
    assert ShardOk(sys, h, s);
  }

  lemma ApplyOwner(sys: System, h: History, gid: int, c: Command, s: int)
    requires Inv(sys, h) && Once(sys, h) && Enabled(sys, Apply(gid, c)) && NotBelow(sys.groups[gid], c) && Shard(s)
    ensures WrittenOnce(Execute(sys, Apply(gid, c)), RecordStep(sys, h, Apply(gid, c)), s)
  {
    hide Inv, Owner, Obey, Effective, KnowsAll, RisingIds, NotBelow, InstallShard, FrontAfter;
    var sys', h' := Execute(sys, Apply(gid, c)), RecordStep(sys, h, Apply(gid, c));
    assert WrittenOnce(sys, h, s);
    var g, ops := sys.groups[gid], h.writes[s];
    FrontMoves(sys, h, gid, c, s);
    if c.Client? && WritesOf(sys, Apply(gid, c), s) != [] {
      OpWritten(sys, h, gid, c.op, s);
    } else {
      assert h'.writes[s] == ops + [] == ops;
      if KnowsAll(g.seqs, ops) { ObeyKnows(g, c, ops); }
      if h'.front[s] != h.front[s] {
        StepKeeps(sys, h, Apply(gid, c));
        HolderAtFront(sys', h', gid, s);
        if h.front[s] <= 0 {
          FrontZero(sys, h, s);
          NothingKnown(sys'.groups[gid].seqs);
        } else if Arrives(sys, h, gid, c, s) {
          ArrivesKnown(sys, h, gid, c.migration);
        }
      }
    }
  }

  lemma NothingKnown(seqs: map<int, int>)
    ensures KnowsAll(seqs, [])
  {
  }

  lemma ArrivesKnown(sys: System, h: History, gid: int, m: Migration)
    requires Once(sys, h) && Enabled(sys, Apply(gid, UD(m))) && m.shard in h.front && m.shard in h.writes
    requires Arrives(sys, h, gid, UD(m), m.shard)
    ensures KnowsAll(Obey(sys.groups[gid], UD(m)).seqs, h.writes[m.shard])
  {
    assert ReplyKnows(h, m);
    InstallKnows(sys.groups[gid], m, h.writes[m.shard]);
  }

  lemma OpWritten(sys: System, h: History, gid: int, op: Op, s: int)
    requires Inv(sys, h) && Enabled(sys, Apply(gid, Client(op))) && Effective(sys.groups[gid], op) && Key2Shard(op.key) == s
    requires Shard(s) && WrittenOnce(sys, h, s)
    ensures WrittenOnce(Execute(sys, Apply(gid, Client(op))), RecordStep(sys, h, Apply(gid, Client(op))), s)
  {
    hide Inv, Owner, KnowsAll, RisingIds, Write;
    Completes(sys, h);
    var g := sys.groups[gid];
    HolderAtFront(sys, h, gid, s);
    WriteRises(g, op, h.writes[s]);
  }

  lemma ApplyReplies(sys: System, h: History, gid: int, c: Command, g: int, m: Migration)
    requires Inv(sys, h) && Once(sys, h) && Enabled(sys, Apply(gid, c))
    requires g in sys.proposed && UD(m) in sys.proposed[g]
    ensures ReplyKnows(RecordStep(sys, h, Apply(gid, c)), m)
  {
    hide Inv, Owner, Obey, Effective, KnowsAll, CommandOk, FrontAfter;
    var sys', h' := Execute(sys, Apply(gid, c)), RecordStep(sys, h, Apply(gid, c));
    var s := m.shard;
    assert ReplyKnows(h, m);
    ReplyIs(sys, h, g, m);
    StepKeeps(sys, h, Apply(gid, c));
    ReplyIs(sys', h', g, m);
    FrontMoves(sys, h, gid, c, s);
    if h'.front[s] == m.num {
      assert gid in sys'.groups && s !in sys'.groups[gid].available;
      assert h.front[s] == m.num;
      WritesNothing(sys, gid, c, s);
      assert h'.writes[s] == h.writes[s] + [] == h.writes[s];
    }
  }

  lemma WritesNothing(sys: System, gid: int, c: Command, s: int)
    requires gid in sys.groups && s !in sys.groups[gid].available
    ensures WritesOf(sys, Apply(gid, c), s) == []
  {
  }

  lemma ReplyIs(sys: System, h: History, g: int, m: Migration)
    requires Inv(sys, h) && g in sys.proposed && UD(m) in sys.proposed[g]
    ensures g in sys.groups && Shard(m.shard) && m.shard in h.front && m.shard in h.writes
    ensures h.front[m.shard] == m.num ==> forall x <- sys.groups :: m.shard !in sys.groups[x].available
  {
    hide Master.History, ShardOk, GroupOk, AsksOk;
    assert CommandOk(sys, h, g, UD(m));
    PulledFront(sys, h, g, m);
  }

  lemma ApplyOnce(sys: System, h: History, gid: int, c: Command)
    requires Inv(sys, h) && Once(sys, h) && Enabled(sys, Apply(gid, c)) && NotBelow(sys.groups[gid], c)
    ensures Once(Execute(sys, Apply(gid, c)), RecordStep(sys, h, Apply(gid, c)))
  {
    hide Inv, NotBelow, WrittenOnce, ReplyKnows, RecordStep, Obey;
    var sys', h' := Execute(sys, Apply(gid, c)), RecordStep(sys, h, Apply(gid, c));
    forall s | Shard(s) ensures WrittenOnce(sys', h', s) { ApplyOwner(sys, h, gid, c, s); }
    forall g, m | g in sys'.proposed && UD(m) in sys'.proposed[g] ensures ReplyKnows(h', m) { ApplyReplies(sys, h, gid, c, g, m); }
  }

  lemma OtherOwner(sys: System, h: History, step: Step, s: int)
    requires Inv(sys, h) && Enabled(sys, step) && !step.Apply? && Shard(s) && WrittenOnce(sys, h, s)
    ensures WrittenOnce(Execute(sys, step), h, s)
  {
    hide Master.History, GroupOk, AsksOk, CommandsOk, KnowsAll, RisingIds, AtFront, Answer;
    assert ShardOk(sys, h, s);
  }

  lemma OtherReplies(sys: System, h: History, step: Step, g: int, m: Migration)
    requires Inv(sys, h) && Once(sys, h) && Enabled(sys, step) && !step.Apply?
    requires var sys' := Execute(sys, step); g in sys'.proposed && UD(m) in sys'.proposed[g]
    ensures ReplyKnows(h, m)
  {
    hide Inv, KnowsAll, Owner, Answer;
    if UD(m) in sys.proposed[g] {
      assert ReplyKnows(h, m);
    } else {
      AnswerKnows(sys, h, step.ask);
    }
  }

  /** A reply knows what its sender knows. */
  lemma AnswerKnows(sys: System, h: History, ask: Ask)
    requires Inv(sys, h) && Once(sys, h) && Enabled(sys, AnswerShard(ask))
    ensures ReplyKnows(h, Answer(sys.groups[Owner(sys.configs, ask.num, ask.shard)], ask.num, ask.shard))
  {
    hide ShardOk, GroupOk, CommandsOk, KnowsAll, Owner;
    assert Pulling(sys, ask.gid, ask.num, ask.shard);
    assert WrittenOnce(sys, h, ask.shard);
  }

  lemma StepOnce(sys: System, h: History, step: Step)
    requires Inv(sys, h) && Once(sys, h) && Enabled(sys, step) && StepNotBelow(sys, step)
    ensures Once(Execute(sys, step), RecordStep(sys, h, step))
  {
    hide Inv, WrittenOnce, ReplyKnows, NotBelow;
    if step.Apply? {
      hide Execute, RecordStep;
      ApplyOnce(sys, h, step.gid, step.command);
    } else {
      var sys' := Execute(sys, step);
      forall s | Shard(s) ensures WrittenOnce(sys', h, s) { OtherOwner(sys, h, step, s); }
      forall g, m | g in sys'.proposed && UD(m) in sys'.proposed[g] ensures ReplyKnows(h, m) { OtherReplies(sys, h, step, g, m); }
    }
  }

  // ---------- Over runs ----------

  lemma InitOnce(gids: set<int>)
    ensures Once(Init(gids), InitHistory())
  {
  }

  lemma {:induction false} RunOnce(gids: set<int>, b: Behaviour, i: nat) returns (h: History)
    requires IsRun(gids, b) && i <= |b.steps| && NeverFalls(b, i)
    ensures Inv(b.states[i], h) && Once(b.states[i], h)
    ensures forall s :: Shard(s) ==> s in h.writes && h.writes[s] == Writes(b, i, s)
  {
    hide Inv, Once, Init, Enabled, Execute, StepNotBelow, RecordStep, WritesOf;
    if i == 0 {
      InitHolds(gids);
      InitOnce(gids);
      h := InitHistory();
    } else {
      var h0 := RunOnce(gids, b, i - 1);
      var sys, step := b.states[i - 1], b.steps[i - 1];
      assert Follows(sys, step, b.states[i]);
      StepKeeps(sys, h0, step);
      StepOnce(sys, h0, step);
      h := RecordStep(sys, h0, step);
      Recorded(sys, h0, step);
    }
  }

  lemma Recorded(sys: System, h: History, step: Step)
    requires Inv(sys, h) && Enabled(sys, step)
    ensures forall s :: Shard(s) ==>
              s in h.writes && s in RecordStep(sys, h, step).writes
              && RecordStep(sys, h, step).writes[s] == h.writes[s] + WritesOf(sys, step, s)
  {
    hide Inv;
    Completes(sys, h);
    forall s | Shard(s) && !step.Apply? ensures h.writes[s] == h.writes[s] + WritesOf(sys, step, s) {}
  }

  /** At most once, over every run and every move of the shard: as long as no command falls below the id recorded for
      its client where it is applied, the writes to a shard have rising ids for each client, so none is repeated. */
  lemma AtMostOnce(gids: set<int>, b: Behaviour, i: nat, s: int, x: nat, y: nat)
    requires IsRun(gids, b) && i <= |b.steps| && NeverFalls(b, i) && Shard(s)
    requires x < y < |Writes(b, i, s)| && Writes(b, i, s)[x].client == Writes(b, i, s)[y].client
    ensures Writes(b, i, s)[x].request < Writes(b, i, s)[y].request
  {
    var h := RunOnce(gids, b, i);
    assert WrittenOnce(b.states[i], h, s);
  }

  /** In such a run a request that was ever written to the shard is not written again, by whichever group serves the
      shard then, nor is any earlier request of its client. */
  lemma RepeatIsIgnored(gids: set<int>, b: Behaviour, i: nat, gid: int, op: Op, x: nat)
    requires IsRun(gids, b) && i < |b.steps| && NeverFalls(b, i) && b.steps[i] == Apply(gid, Client(op))
    requires Shard(Key2Shard(op.key)) && x < |Writes(b, i, Key2Shard(op.key))|
    requires var w := Writes(b, i, Key2Shard(op.key))[x]; w.client == op.client && op.request <= w.request
    ensures gid in b.states[i].groups && gid in b.states[i + 1].groups
    ensures b.states[i + 1].groups[gid].db == b.states[i].groups[gid].db
    ensures Writes(b, i + 1, Key2Shard(op.key)) == Writes(b, i, Key2Shard(op.key))
  {
    hide Inv, RisingIds, Write;
    var s := Key2Shard(op.key);
    var h := RunOnce(gids, b, i);
    assert Follows(b.states[i], b.steps[i], b.states[i + 1]);
    assert WrittenOnce(b.states[i], h, s);
    if s in b.states[i].groups[gid].available {
      HolderAtFront(b.states[i], h, gid, s);
      assert Knows(b.states[i].groups[gid].seqs, Writes(b, i, s)[x]);
    }
  }

  // ---------- When no command falls ----------

  /** The step applies a command of the client with this id; a collection's id is its shard. */
  predicate Carries(step: Step, client: int, id: int) {
    && step.Apply?
    && match step.command
       case Client(op) => op.client == client && op.request == id
       case GC(_, shard, who) => who == client && shard == id
       case _ => false
  }

  /** Over all groups together, each client's commands are applied with ids that are not negative and never decrease. */
  ghost predicate InOrder(b: Behaviour, i: nat)
    requires i <= |b.steps|
  {
    && (forall j, client, x {:trigger Carries(b.steps[j], client, x)} :: 0 <= j < i && Carries(b.steps[j], client, x) ==> x >= 0)
    && (forall j, k, client, x, y {:trigger Carries(b.steps[j], client, x), Carries(b.steps[k], client, y)} ::
          0 <= j < k < i && Carries(b.steps[j], client, x) && Carries(b.steps[k], client, y) ==> x <= y)
  }

  ghost predicate Seen(b: Behaviour, i: nat, client: int, id: int)
    requires i <= |b.steps|
  {
    exists j :: 0 <= j < i && Carries(b.steps[j], client, id)
  }

  ghost predicate AllSeen(b: Behaviour, i: nat, seqs: map<int, int>)
    requires i <= |b.steps|
  {
    forall client <- seqs :: Seen(b, i, client, seqs[client])
  }

  /** Every id recorded at a group or carried by a reply was that of a command applied before. */
  ghost predicate IdsSeen(b: Behaviour, i: nat, sys: System)
    requires i <= |b.steps|
  {
    && (forall g <- sys.groups :: AllSeen(b, i, sys.groups[g].seqs))
    && (forall g, m {:trigger UD(m) in sys.proposed[g]} :: g in sys.proposed && UD(m) in sys.proposed[g] ==> AllSeen(b, i, m.seqs))
  }

  lemma SeenStays(b: Behaviour, i: nat, seqs: map<int, int>)
    requires i < |b.steps| && AllSeen(b, i, seqs)
    ensures AllSeen(b, i + 1, seqs)
  {
    hide Carries;
    forall client | client in seqs ensures Seen(b, i + 1, client, seqs[client]) {
      assert Seen(b, i, client, seqs[client]);
    }
  }

  lemma MergeSeen(b: Behaviour, i: nat, mine: map<int, int>, theirs: map<int, int>)
    requires i <= |b.steps| && InOrder(b, i) && AllSeen(b, i, mine) && AllSeen(b, i, theirs)
    ensures AllSeen(b, i, MergeSeqs(mine, theirs))
  {
    hide Carries;
    var merged := MergeSeqs(mine, theirs);
    forall client | client in merged ensures Seen(b, i, client, merged[client]) {
      assert client in mine ==> Seen(b, i, client, mine[client]);
      assert client in theirs ==> Seen(b, i, client, theirs[client]);
    }
  }

  lemma ObeySeen(b: Behaviour, i: nat, g: Group)
    requires i < |b.steps| && b.steps[i].Apply? && InOrder(b, i) && AllSeen(b, i, g.seqs)
    requires b.steps[i].command.UD? ==> AllSeen(b, i, b.steps[i].command.migration.seqs)
    ensures AllSeen(b, i + 1, Obey(g, b.steps[i].command).seqs)
  {
    hide AllSeen, MergeSeqs, InOrder, ShardData, Without, SetAside, Write, Kept, Wanted;
    SeenStays(b, i, g.seqs);
    match b.steps[i].command
    case UC(_) =>
    case UD(m) => MergeSeen(b, i, g.seqs, m.seqs); SeenStays(b, i, MergeSeqs(g.seqs, m.seqs));
    case GC(_, shard, client) => SetSeen(b, i, g.seqs, client, shard);
    case Client(op) => SetSeen(b, i, g.seqs, op.client, op.request);
  }

  lemma SetSeen(b: Behaviour, i: nat, seqs: map<int, int>, client: int, id: int)
    requires i < |b.steps| && AllSeen(b, i + 1, seqs) && Carries(b.steps[i], client, id)
    ensures AllSeen(b, i + 1, seqs[client := id])
  {
    hide Carries;
    assert Seen(b, i + 1, client, id);
  }

  lemma StepSeen(b: Behaviour, i: nat, sys: System, sys': System)
    requires i < |b.steps| && InOrder(b, i) && IdsSeen(b, i, sys) && Follows(sys, b.steps[i], sys')
    ensures IdsSeen(b, i + 1, sys')
  {
    hide AllSeen, InOrder, Obey;
    var step := b.steps[i];
    forall g | g in sys'.groups ensures AllSeen(b, i + 1, sys'.groups[g].seqs) {
      SeenStays(b, i, sys.groups[g].seqs);
      if step.Apply? && step.gid == g { ObeySeen(b, i, sys.groups[g]); }
    }
    forall g, m | g in sys'.proposed && UD(m) in sys'.proposed[g] ensures AllSeen(b, i + 1, m.seqs) {
      if UD(m) in sys.proposed[g] { SeenStays(b, i, m.seqs); } else { AnswerSeen(b, i, sys, g, m); }
    }
  }

  lemma AnswerSeen(b: Behaviour, i: nat, sys: System, g: int, m: Migration)
    requires i < |b.steps| && IdsSeen(b, i, sys) && Enabled(sys, b.steps[i]) && g in sys.proposed && UD(m) !in sys.proposed[g]
    requires var sys' := Execute(sys, b.steps[i]); g in sys'.proposed && UD(m) in sys'.proposed[g]
    ensures AllSeen(b, i + 1, m.seqs)
  {
    hide AllSeen, Obey, Owner;
    var ask := b.steps[i].ask;
    SeenStays(b, i, sys.groups[Owner(sys.configs, ask.num, ask.shard)].seqs);
  }

  lemma {:induction false} RunSeen(gids: set<int>, b: Behaviour, i: nat)
    requires IsRun(gids, b) && i <= |b.steps| && InOrder(b, i)
    ensures IdsSeen(b, i, b.states[i])
  {
    hide Enabled, Execute;
    if i > 0 {
      assert InOrder(b, i - 1);
      RunSeen(gids, b, i - 1);
      assert Follows(b.states[i - 1], b.steps[i - 1], b.states[i]);
      StepSeen(b, i - 1, b.states[i - 1], b.states[i]);
    }
  }

  /** If each client's commands are applied in the order of their ids, over all groups together, no command falls. */
  lemma InOrderNeverFalls(gids: set<int>, b: Behaviour, i: nat)
    requires IsRun(gids, b) && i <= |b.steps| && InOrder(b, i)
    ensures NeverFalls(b, i)
  {
    hide Enabled, Execute, Carries;
    forall j | 0 <= j < i ensures StepNotBelow(b.states[j], b.steps[j]) {
      assert InOrder(b, j);
      RunSeen(gids, b, j);
      InOrderStep(b, i, j);
    }
  }

  /** So then each request is written at most once, wherever its shard is served. */
  lemma OnceInOrder(gids: set<int>, b: Behaviour, i: nat, s: int, x: nat, y: nat)
    requires IsRun(gids, b) && i <= |b.steps| && InOrder(b, i) && Shard(s)
    requires x < |Writes(b, i, s)| && y < |Writes(b, i, s)| && Writes(b, i, s)[x].client == Writes(b, i, s)[y].client
    ensures Writes(b, i, s)[x].request == Writes(b, i, s)[y].request <==> x == y
  {
    hide Enabled, Execute, Carries, InOrder, NeverFalls;
    InOrderNeverFalls(gids, b, i);
    if x < y { AtMostOnce(gids, b, i, s, x, y); } else if y < x { AtMostOnce(gids, b, i, s, y, x); }
  }

  lemma InOrderStep(b: Behaviour, i: nat, j: nat)
    requires j < i <= |b.steps| && InOrder(b, i) && j < |b.states| && IdsSeen(b, j, b.states[j])
    ensures StepNotBelow(b.states[j], b.steps[j])
  {
    var sys, step := b.states[j], b.steps[j];
    if step.Apply? && step.gid in sys.groups {
      var seqs := sys.groups[step.gid].seqs;
      forall client, id | Carries(step, client, id) && client in seqs ensures seqs[client] <= id {
        assert Seen(b, j, client, seqs[client]);
      }
      match step.command
      case Client(op) => assert Carries(step, op.client, op.request);
      case GC(_, shard, client) => assert Carries(step, client, shard);
      case _ =>
    }
  }

  /** A command that does fall lets a request through again: between two applications of a write at the group that
      serves its shard, another command of its client leads to a second write exactly if its id is lower. */
  lemma FallingIdRepeats(gids: set<int>, b: Behaviour, i: nat, gid: int, op: Op, other: Op)
    requires IsRun(gids, b) && i + 3 <= |b.steps| && op.kind != Get && other.client == op.client
    requires b.steps[i] == Apply(gid, Client(op)) == b.steps[i + 2] && b.steps[i + 1] == Apply(gid, Client(other))
    requires gid in b.states[i].groups && Key2Shard(op.key) in b.states[i].groups[gid].available
    ensures var s := Key2Shard(op.key);
            Writes(b, i + 3, s) == Writes(b, i + 2, s) + (if other.request < op.request then [op] else [])
  {
    hide Write;
    assert Follows(b.states[i], b.steps[i], b.states[i + 1]);
    assert Follows(b.states[i + 1], b.steps[i + 1], b.states[i + 2]);
  }
}
