/** What holds over every run of the sharded store. */
module ShardSafety {
  import opened ShardConfig
  import opened ShardGroup
  import opened ShardSystem
  import opened ShardInvariant
  import opened ShardMigration
  import opened ShardApply
  import Master = ShardMaster

  // ---------- The invariant along a run ----------

  lemma InitHolds(gids: set<int>)
    ensures Inv(Init(gids), InitHistory())
  {
    var sys, h := Init(gids), InitHistory();
    assert ConfigsOk(sys);
    forall g | g in sys.groups
      ensures GroupOk(sys, g)
    {
      assert Initial().shards[..] == sys.configs[0].shards;
    }
    forall s | Shard(s)
      ensures ShardOk(sys, h, s)
    {
    }
  }

  /** A group that changes neither its configuration nor what it serves moves no front. */
  lemma FrontUnchanged(sys: System, h: History, gid: int, g': Group)
    requires Inv(sys, h) && gid in sys.groups
    requires g'.available == sys.groups[gid].available && g'.config == sys.groups[gid].config
    ensures FrontAfter(sys, gid, g', h.front) == h.front
  {
    assert GroupOk(sys, gid);
    forall s | s in h.front && s in g'.available
      ensures h.front[s] == g'.config.num
    {
      assert ShardOk(sys, h, s);
    }
  }

  lemma NothingWritten(sys: System, h: History, step: Step)
    requires step.Apply? && (step.command.Client? ==>
               step.gid in sys.groups && !Effective(sys.groups[step.gid], step.command.op))
    ensures (map s | s in h.writes :: h.writes[s] + WritesOf(sys, step, s)) == h.writes
  {
    assert forall s <- h.writes :: h.writes[s] + [] == h.writes[s];
  }

  lemma ApplyUC(sys: System, h: History, gid: int, config: Config)
    requires Inv(sys, h) && Enabled(sys, Apply(gid, UC(config)))
    ensures Inv(Execute(sys, Apply(gid, UC(config))), RecordStep(sys, h, Apply(gid, UC(config))))
  {
    var step := Apply(gid, UC(config));
    var sys', h' := Execute(sys, step), RecordStep(sys, h, step);
    var g := sys.groups[gid];
    assert CommandOk(sys, h, gid, UC(config));
    assert GroupOk(sys, gid);
    NothingWritten(sys, h, step);
    hide Inv, ShardOk, GroupOk, CommandOk, Kept, Wanted, ShardData, Without;
    if config.num <= g.config.num {
      FrontUnchanged(sys, h, gid, g);
      assert sys.groups[gid := g] == sys.groups;
    } else {
      assert NextConfig(sys, gid, config);
      UCKeeps(sys, h, gid, config, sys', h') by { Completes(sys, h); }
    }
  }

  lemma Completes(sys: System, h: History)
    requires Inv(sys, h)
    ensures Complete(h)
  {
  }

  lemma ApplyUD(sys: System, h: History, gid: int, m: Migration)
    requires Inv(sys, h) && Enabled(sys, Apply(gid, UD(m)))
    ensures Inv(Execute(sys, Apply(gid, UD(m))), RecordStep(sys, h, Apply(gid, UD(m))))
  {
    var step := Apply(gid, UD(m));
    var sys', h' := Execute(sys, step), RecordStep(sys, h, step);
    var g := sys.groups[gid];
    assert CommandOk(sys, h, gid, UD(m));
    NothingWritten(sys, h, step);
    if m.num != g.config.num - 1 || m.shard in g.available {
      assert InstallShard(g, m) == g by {
        assert GroupOk(sys, gid);
        assert g.comeIn - {m.shard} == g.comeIn || m.num != g.config.num - 1;
      }
      FrontUnchanged(sys, h, gid, g);
      assert sys.groups[gid := g] == sys.groups;
    } else {
      FrontUnchanged(sys, h, gid, g);
      forall s | Shard(s)
        ensures h'.front[s] == if s == m.shard then m.num + 1 else h.front[s]
      {
        assert FrontAfter(sys, gid, g, h.front)[s] == h.front[s];
      }
      hide InstallShard;
      UDKeeps(sys, h, gid, m, sys', h');
    }
  }

  lemma ApplyRest(sys: System, h: History, gid: int, command: Command)
    requires Inv(sys, h) && Enabled(sys, Apply(gid, command)) && (command.GC? || command.Client?)
    ensures Inv(Execute(sys, Apply(gid, command)), RecordStep(sys, h, Apply(gid, command)))
  {
    var step := Apply(gid, command);
    var sys', h' := Execute(sys, step), RecordStep(sys, h, step);
    assert CommandOk(sys, h, gid, command);
    FrontUnchanged(sys, h, gid, sys'.groups[gid]);
    hide ShardOk, GroupOk, AsksOk, CommandsOk;
    match command
    case GC(num, shard, client) =>
      NothingWritten(sys, h, step);
      GCKeeps(sys, h, gid, num, shard, client, sys');
    case Client(op) =>
      ClientKeeps(sys, h, gid, op, sys', h');
  }

  lemma StepKeeps(sys: System, h: History, step: Step)
    requires Inv(sys, h) && Enabled(sys, step)
    ensures Inv(Execute(sys, step), RecordStep(sys, h, step))
  {
    hide Inv, RecordStep;
    if step.Apply? {
      match step.command
      case UC(config) => ApplyUC(sys, h, step.gid, config);
      case UD(m) => ApplyUD(sys, h, step.gid, m);
      case GC(_, _, _) => ApplyRest(sys, h, step.gid, step.command);
      case Client(_) => ApplyRest(sys, h, step.gid, step.command);
    } else {
      NotApply(sys, h, step);
      match step
      case NewConfig(config) => NewConfigKeeps(sys, h, config);
      case ProposeConfig(gid) => ProposeConfigKeeps(sys, h, gid);
      case AskShard(gid, shard) => AskShardKeeps(sys, h, gid, shard);
      case AnswerShard(ask) => AnswerKeeps(sys, h, ask);
      case AskCollect(gid, num, shard) => AskCollectKeeps(sys, h, gid, num, shard);
      case ProposeCollect(ask, client) => ProposeCollectKeeps(sys, h, ask, client);
      case ForgetGarbage(gid, num, shard) => ForgetKeeps(sys, h, gid, num, shard);
      case ProposeOp(gid, op) => ProposeOpKeeps(sys, h, gid, op);
    }
  }

  lemma NotApply(sys: System, h: History, step: Step)
    requires Enabled(sys, step) && !step.Apply?
    ensures RecordStep(sys, h, step) == h
  {
  }

  lemma ProposeOpKeeps(sys: System, h: History, gid: int, op: Op)
    requires Inv(sys, h) && gid in sys.proposed
    ensures Inv(Propose(sys, gid, Client(op)), h)
  {
    ProposeKeeps(sys, h, gid, Client(op));
  }

  /** The invariant holds after every number of steps, for the writes made so far. */
  lemma {:induction false} RunHolds(gids: set<int>, b: Behaviour, i: nat) returns (h: History)
    requires IsRun(gids, b) && i <= |b.steps|
    ensures Inv(b.states[i], h) && forall s :: Shard(s) ==> s in h.writes && h.writes[s] == Writes(b, i, s)
  {
    if i == 0 {
      InitHolds(gids);
      h := InitHistory();
    } else {
      var h0 := RunHolds(gids, b, i - 1);
      assert Follows(b.states[i - 1], b.steps[i - 1], b.states[i]);
      h := NextHistory(b.states[i - 1], h0, b.steps[i - 1], b.states[i]);
    }
  }

  lemma NextHistory(sys: System, h: History, step: Step, sys': System) returns (h': History)
    requires Inv(sys, h) && Follows(sys, step, sys')
    ensures Inv(sys', h')
    ensures forall s :: Shard(s) ==> s in h'.writes && s in h.writes && h'.writes[s] == h.writes[s] + WritesOf(sys, step, s)
  {
    StepKeeps(sys, h, step);
    h' := RecordStep(sys, h, step);
    hide ShardOk, GroupOk, CommandOk, ConfigsOk;
    assert Complete(h);
  }

  // ---------- Theorems ----------

  /** Exclusivity: at no time do two groups serve the same shard. */
  lemma ShardServedOnce(gids: set<int>, b: Behaviour, i: nat, s: int, x: int, y: int)
    requires IsRun(gids, b) && i < |b.states| && Shard(s)
    requires x in b.states[i].groups && s in b.states[i].groups[x].available
    requires y in b.states[i].groups && s in b.states[i].groups[y].available
    ensures x == y
  {
    var h := RunHolds(gids, b, i);
    Exclusive(b.states[i], h, s, x, y);
  }

  /** The shard is on its way from configuration `c` to c + 1: its old owner has moved on, the
      new one has not installed it. */
  predicate InTransit(sys: System, s: int, c: int) {
    var d, e := Owner(sys.configs, c, s), Owner(sys.configs, c + 1, s);
    && 1 <= c && c + 1 < |sys.configs| && d != e && d in sys.groups && e in sys.groups
    && Num(sys, d) > c && (Num(sys, e) <= c || (Num(sys, e) == c + 1 && s !in sys.groups[e].available))
  }

  lemma TransitFront(sys: System, h: History, s: int, c: int)
    requires Inv(sys, h) && Shard(s) && InTransit(sys, s, c)
    ensures h.front[s] == c
  {
    hide Owner, Master.History, CommandsOk, AsksOk, Replay, ShardData;
    var d, e := Owner(sys.configs, c, s), Owner(sys.configs, c + 1, s);
    assert ShardOk(sys, h, s) && Passed(sys, s, d, c);
    if h.front[s] > c {
      assert Arrived(sys, s, c + 1);
      NotYet(sys, h, e, s);
    }
  }

  /** Conservation: a group that serves a shard holds exactly what was written to it, wherever
      it was served at the time. */
  lemma HolderHasAllWrites(gids: set<int>, b: Behaviour, i: nat, s: int, g: int)
    requires IsRun(gids, b) && i <= |b.steps| && Shard(s)
    requires g in b.states[i].groups && s in b.states[i].groups[g].available
    ensures ShardData(b.states[i].groups[g].db, s) == Replay(Writes(b, i, s))
  {
    var h := RunHolds(gids, b, i);
    assert ShardOk(b.states[i], h, s);
  }

  /** ... and a shard in transit is kept, complete, by its old owner. */
  lemma TransitKeepsAllWrites(gids: set<int>, b: Behaviour, i: nat, s: int, c: int)
    requires IsRun(gids, b) && i <= |b.steps| && Shard(s) && InTransit(b.states[i], s, c)
    ensures var out := OutOf(b.states[i].groups[Owner(b.states[i].configs, c, s)].toOut, c);
            s in out && out[s] == Replay(Writes(b, i, s))
  {
    var h := RunHolds(gids, b, i);
    TransitFront(b.states[i], h, s, c);
    assert ShardOk(b.states[i], h, s);
  }

  /** Nothing is lost or doubled: once the first owner has taken its shards, each shard is
      served by one group or in transit from one configuration, never both and never neither. */
  lemma ShardIsSomewhereOnce(gids: set<int>, b: Behaviour, i: nat, s: int)
    requires IsRun(gids, b) && i <= |b.steps| && Shard(s)
    requires var sys := b.states[i]; |sys.configs| > 1 && Arrived(sys, s, 1)
    ensures var sys := b.states[i];
            && ((exists g :: g in sys.groups && s in sys.groups[g].available) <==> !exists c :: InTransit(sys, s, c))
            && (forall c, d :: InTransit(sys, s, c) && InTransit(sys, s, d) ==> c == d)
  {
    var h := RunHolds(gids, b, i);
    var sys := b.states[i];
    forall c, d | InTransit(sys, s, c) && InTransit(sys, s, d)
      ensures c == d
    {
      TransitFront(sys, h, s, c);
      TransitFront(sys, h, s, d);
    }
    ServedOrMoving(sys, h, s);
  }

  lemma ServedOrMoving(sys: System, h: History, s: int)
    requires Inv(sys, h) && Shard(s) && Arrived(sys, s, 1) && |sys.configs| > 1
    ensures (exists g :: g in sys.groups && s in sys.groups[g].available) <==> !exists c :: InTransit(sys, s, c)
  {
    hide Owner, Master.History, CommandsOk, AsksOk, Replay, ShardData;
    assert ShardOk(sys, h, s);
    var f := h.front[s];
    var first := Owner(sys.configs, 1, s);
    assert GroupOk(sys, first);
    assert Num(sys, first) > 1 ==> Passed(sys, s, first, 1);
    if Num(sys, first) == 1 && s !in sys.groups[first].available { NotYet(sys, h, first, s); }
    assert f >= 1;
    var d := Owner(sys.configs, f, s);
    assert Arrived(sys, s, f);
    if Num(sys, d) == f {
      forall c | InTransit(sys, s, c)
        ensures false
      {
        TransitFront(sys, h, s, c);
      }
    } else {
      NoHolder(sys, h, s);
      Moving(sys, h, s);
    }
  }

  lemma NoHolder(sys: System, h: History, s: int)
    requires Inv(sys, h) && Shard(s) && h.front[s] >= 1
    requires var d := Owner(sys.configs, h.front[s], s); d in sys.groups && Num(sys, d) > h.front[s]
    ensures forall g :: g in sys.groups ==> s !in sys.groups[g].available
  {
    hide Owner, Master.History, CommandsOk, AsksOk, Replay, ShardData;
    assert ShardOk(sys, h, s);
    forall g | g in sys.groups
      ensures s !in sys.groups[g].available
    {
      assert GroupOk(sys, g);
    }
  }

  lemma Moving(sys: System, h: History, s: int)
    requires Inv(sys, h) && Shard(s) && h.front[s] >= 1
    requires var d := Owner(sys.configs, h.front[s], s); d in sys.groups && Num(sys, d) > h.front[s]
    ensures InTransit(sys, s, h.front[s])
  {
    hide Owner, Master.History, CommandsOk, AsksOk, Replay, ShardData;
    assert ShardOk(sys, h, s);
    var f := h.front[s];
    var e := Owner(sys.configs, f + 1, s);
    assert Num(sys, e) > f + 1 ==> Passed(sys, s, e, f + 1);
    NoHolder(sys, h, s);
  }

  /** The owner of the shard in configuration `c` has installed it, or has served it and moved on. */
  predicate Installed(sys: System, s: int, c: int) {
    var e := Owner(sys.configs, c, s);
    && 1 <= c < |sys.configs| && e in sys.groups
    && (Num(sys, e) > c || (Num(sys, e) == c && s in sys.groups[e].available))
  }

  lemma BehindFront(sys: System, h: History, s: int, c: int)
    requires Inv(sys, h) && Shard(s) && 1 <= c <= h.front[s]
    ensures Installed(sys, s, c)
  {
    hide Owner, Master.History, CommandsOk, AsksOk, Replay, ShardData;
    assert ShardOk(sys, h, s);
    assert Arrived(sys, s, c);
    if c < h.front[s] {
      assert HandedOn(sys, s, c) && Arrived(sys, s, c + 1);
    }
  }

  /** The copy of a shard handed over by configuration num + 1 is marked, asked or ordered to be collected. */
  ghost predicate Collecting(sys: System, num: int, s: int) {
    || (exists g :: g in sys.groups && s in Garbage(sys.groups[g].garbages, num))
    || (exists a :: a in sys.collects && a.num == num && a.shard == s)
    || (exists g, client :: g in sys.groups && g in sys.proposed && GC(num, s, client) in sys.proposed[g])
  }

  /** Garbage collection is never early: as soon as a copy is marked for collection, and at any
      time after, the new owner has installed the shard. */
  lemma CollectedAfterInstall(gids: set<int>, b: Behaviour, i: nat, num: int, s: int)
    requires IsRun(gids, b) && i <= |b.steps| && num >= 0 && Collecting(b.states[i], num, s)
    ensures Shard(s) && Installed(b.states[i], s, num + 1) && !InTransit(b.states[i], s, num)
  {
    var h := RunHolds(gids, b, i);
    FrontPast(b.states[i], h, num, s);
    BehindFront(b.states[i], h, s, num + 1);
  }

  lemma FrontPast(sys: System, h: History, num: int, s: int)
    requires Inv(sys, h) && Collecting(sys, num, s)
    ensures Shard(s) && h.front[s] > num
  {
    hide Owner, Master.History, ShardOk, GroupOk;
    if g :| g in sys.groups && s in Garbage(sys.groups[g].garbages, num) {
      assert GarbagesOk(sys, h, g);
    } else if a :| a in sys.collects && a.num == num && a.shard == s {
    } else {
      var g, client :| g in sys.groups && g in sys.proposed && GC(num, s, client) in sys.proposed[g];
      assert CommandOk(sys, h, g, GC(num, s, client));
    }
  }
}
