/** Every step of the sharded store keeps the invariant; exclusivity and conservation of
    shards over all runs follow. */
module ShardMigration {
  import opened ShardConfig
  import opened ShardGroup
  import opened ShardSystem
  import opened ShardInvariant
  import Master = ShardMaster

  // ---------- Steps that leave available shards, data and configurations alone ----------

  /** `sys'` differs in nothing the shard invariant looks at, except that outgoing data may
      have been added. */
  ghost predicate SameShards(sys: System, sys': System) {
    && sys'.configs == sys.configs && sys'.groups.Keys == sys.groups.Keys
    && sys'.proposed.Keys == sys.proposed.Keys
    && forall g <- sys.groups :: SameGroup(sys.groups[g], sys'.groups[g])
  }

  ghost predicate SameGroup(g: Group, g': Group) {
    && g' == g.(toOut := g'.toOut, garbages := g'.garbages)
    && forall n, s :: s in OutOf(g.toOut, n) ==> s in OutOf(g'.toOut, n) && OutOf(g'.toOut, n)[s] == OutOf(g.toOut, n)[s]
  }

  lemma SameShard(sys: System, h: History, sys': System, s: int)
    requires Complete(h) && ConfigsOk(sys) && Shard(s) && ShardOk(sys, h, s) && SameShards(sys, sys')
    ensures ConfigsOk(sys') && ShardOk(sys', h, s)
  {
    hide Owner, Master.History;
    assert ConfigsOk(sys');
    ReachedGrows(sys, sys', s, h.front[s]);
    hide Reached, Replay, ShardData;
    forall g, i | Passed(sys', s, g, i)
      ensures h.front[s] >= i
    {
      assert Passed(sys, s, g, i);
    }
  }

  lemma SameGroupOk(sys: System, sys': System, g: int)
    requires ConfigsOk(sys) && SameShards(sys, sys') && g in sys.groups && GroupOk(sys, g)
    ensures GroupOk(sys', g)
  {
    hide Owner;
  }

  lemma SameCommand(sys: System, h: History, sys': System, g: int, c: Command)
    requires Complete(h) && ConfigsOk(sys) && ConfigsOk(sys') && SameShards(sys, sys')
    requires g in sys.groups && CommandOk(sys, h, g, c)
    ensures CommandOk(sys', h, g, c)
  {
    hide Owner, Replay;
  }

  lemma SameParts(sys: System, h: History, sys': System)
    requires Inv(sys, h) && SameShards(sys, sys')
    ensures ConfigsOk(sys')
    ensures forall g {:trigger GroupOk(sys', g)} :: g in sys'.groups ==> GroupOk(sys', g)
    ensures forall s {:trigger ShardOk(sys', h, s)} :: Shard(s) ==> ShardOk(sys', h, s)
    ensures forall g <- sys.groups :: forall c <- sys.proposed[g] :: CommandOk(sys', h, g, c)
    ensures forall a <- sys.pulls :: a.gid in sys'.groups && Pulling(sys', a.gid, a.num, a.shard)
  {
    assert ConfigsOk(sys');
    hide Owner, Master.History, ShardOk, GroupOk, CommandOk, GarbagesOk, ConfigsOk, SameGroup;
    forall g | g in sys'.groups
      ensures GroupOk(sys', g)
    {
      assert GroupOk(sys, g);
      SameGroupOk(sys, sys', g);
    }
    forall s | Shard(s)
      ensures ShardOk(sys', h, s)
    {
      assert ShardOk(sys, h, s);
      SameShard(sys, h, sys', s);
    }
    forall g, c | g in sys.groups && c in sys.proposed[g]
      ensures CommandOk(sys', h, g, c)
    {
      SameCommand(sys, h, sys', g, c);
    }
    forall a | a in sys.pulls
      ensures a.gid in sys'.groups && Pulling(sys', a.gid, a.num, a.shard)
    {
      assert SameGroup(sys.groups[a.gid], sys'.groups[a.gid]);
      SamePulling(sys, sys', a);
    }
  }

  lemma SamePulling(sys: System, sys': System, a: Ask)
    requires ConfigsOk(sys) && ConfigsOk(sys') && SameShards(sys, sys')
    requires a.gid in sys.groups && Pulling(sys, a.gid, a.num, a.shard)
    ensures Pulling(sys', a.gid, a.num, a.shard)
  {
  }

  // ---------- Proposals and requests ----------

  lemma ProposeKeeps(sys: System, h: History, gid: int, command: Command)
    requires Inv(sys, h) && gid in sys.groups && CommandOk(sys, h, gid, command)
    ensures Inv(Propose(sys, gid, command), h)
  {
    hide Owner, Master.History;
    var sys' := Propose(sys, gid, command);
    SameParts(sys, h, sys');
    hide ShardOk, GroupOk;
    assert CommandOk(sys', h, gid, command);
    assert forall g <- sys.groups :: GarbagesOk(sys', h, g) by {
      assert forall g <- sys.groups :: GarbagesOk(sys, h, g);
    }
  }

  lemma AskShardKeeps(sys: System, h: History, gid: int, shard: int)
    requires Inv(sys, h) && Enabled(sys, AskShard(gid, shard))
    ensures Inv(Execute(sys, AskShard(gid, shard)), h)
  {
    hide Owner, Master.History;
    var sys' := Execute(sys, AskShard(gid, shard));
    assert GroupOk(sys, gid);
    SameParts(sys, h, sys');
    hide ShardOk, CommandOk;
    assert forall g <- sys.groups :: GarbagesOk(sys', h, g) by {
      assert forall g <- sys.groups :: GarbagesOk(sys, h, g);
    }
  }

  lemma AskCollectKeeps(sys: System, h: History, gid: int, num: int, shard: int)
    requires Inv(sys, h) && Enabled(sys, AskCollect(gid, num, shard))
    ensures Inv(Execute(sys, AskCollect(gid, num, shard)), h)
  {
    hide Owner, Master.History;
    var sys' := Execute(sys, AskCollect(gid, num, shard));
    SameParts(sys, h, sys');
    hide ShardOk, CommandOk, GroupOk;
    assert GarbagesOk(sys, h, gid);
    assert forall g <- sys.groups :: GarbagesOk(sys', h, g) by {
      assert forall g <- sys.groups :: GarbagesOk(sys, h, g);
    }
  }

  lemma ForgetKeeps(sys: System, h: History, gid: int, num: int, shard: int)
    requires Inv(sys, h) && Enabled(sys, ForgetGarbage(gid, num, shard))
    ensures Inv(Execute(sys, ForgetGarbage(gid, num, shard)), h)
  {
    hide Owner, Master.History;
    var sys' := Execute(sys, ForgetGarbage(gid, num, shard));
    SameParts(sys, h, sys');
    hide ShardOk, CommandOk, GroupOk;
    forall g | g in sys'.groups
      ensures GarbagesOk(sys', h, g)
    {
      assert GarbagesOk(sys, h, g);
    }
  }

  /** Asking for a shard the donor has no data for creates an entry, and changes none. */
  lemma AnswerOk(sys: System, h: History, ask: Ask)
    requires Inv(sys, h) && Enabled(sys, AnswerShard(ask))
    ensures ask.gid in sys.groups
    ensures CommandOk(sys, h, ask.gid, UD(Answer(sys.groups[Owner(sys.configs, ask.num, ask.shard)], ask.num, ask.shard)))
  {
    hide Owner, Master.History;
    assert Pulling(sys, ask.gid, ask.num, ask.shard);
    assert ShardOk(sys, h, ask.shard);
  }

  lemma AnswerAdds(g: Group, num: int, shard: int)
    ensures SameGroup(g, AfterAnswer(g, num, shard)) && AfterAnswer(g, num, shard).garbages == g.garbages
  {
  }

  lemma AnswerKeeps(sys: System, h: History, ask: Ask)
    requires Inv(sys, h) && Enabled(sys, AnswerShard(ask))
    ensures Inv(Execute(sys, AnswerShard(ask)), h)
  {
    hide Owner, Master.History;
    hide ShardOk, CommandOk, GroupOk, AfterAnswer, Answer;
    var g := sys.groups[Owner(sys.configs, ask.num, ask.shard)];
    var m := Answer(g, ask.num, ask.shard);
    AnswerOk(sys, h, ask);
    AnswerAdds(g, ask.num, ask.shard);
    ProposeKeeps(sys, h, ask.gid, UD(m));
    var mid, sys' := Propose(sys, ask.gid, UD(m)), Execute(sys, AnswerShard(ask));
    SameParts(mid, h, sys');
    forall g | g in sys'.groups
      ensures GarbagesOk(sys', h, g)
    {
      assert GarbagesOk(mid, h, g);
    }
  }

  lemma ProposeConfigKeeps(sys: System, h: History, gid: int)
    requires Inv(sys, h) && Enabled(sys, ProposeConfig(gid))
    ensures Inv(Execute(sys, ProposeConfig(gid)), h)
  {
    ProposeKeeps(sys, h, gid, UC(sys.configs[Num(sys, gid) + 1])) by { assert GroupOk(sys, gid); }
  }

  lemma ProposeCollectKeeps(sys: System, h: History, ask: Ask, client: int)
    requires Inv(sys, h) && Enabled(sys, ProposeCollect(ask, client))
    ensures Inv(Execute(sys, ProposeCollect(ask, client)), h)
  {
    ProposeKeeps(sys, h, Owner(sys.configs, ask.num, ask.shard), GC(ask.num, ask.shard, client));
  }

  // ---------- A new configuration at the master ----------

  ghost predicate OneMore(sys: System, sys': System) {
    && sys' == sys.(configs := sys'.configs) && sys.configs <= sys'.configs
    && ConfigsOk(sys) && ConfigsOk(sys')
    && forall i, s :: 0 <= i < |sys.configs| ==> Owner(sys'.configs, i, s) == Owner(sys.configs, i, s)
  }

  lemma NewConfigs(sys: System, config: Config)
    requires ConfigsOk(sys) && Enabled(sys, NewConfig(config))
    ensures OneMore(sys, Execute(sys, NewConfig(config)))
  {
    var sys' := Execute(sys, NewConfig(config));
    var n := |sys.configs|;
    assert sys'.configs[n] == config && Assigned(config);
    assert forall i, s :: 0 <= i < n ==> Owner(sys'.configs, i, s) == Owner(sys.configs, i, s);
    forall i, s | 1 <= i < n + 1 && Shard(s)
      ensures Owner(sys'.configs, i, s) in sys'.groups
    {
      if i == n { assert config.shards[s] in config.groups; }
    }
  }

  lemma NewConfigCommand(sys: System, h: History, sys': System, g: int, c: Command)
    requires OneMore(sys, sys') && Complete(h) && g in sys.groups && CommandOk(sys, h, g, c)
    ensures CommandOk(sys', h, g, c)
  {
    hide Owner, Master.History, Replay;
  }

  lemma NewConfigGroup(sys: System, sys': System, g: int)
    requires OneMore(sys, sys') && g in sys.groups && GroupOk(sys, g)
    ensures GroupOk(sys', g)
  {
    hide Owner;
  }

  lemma NewConfigKeeps(sys: System, h: History, config: Config)
    requires Inv(sys, h) && Enabled(sys, NewConfig(config))
    ensures Inv(Execute(sys, NewConfig(config)), h)
  {
    var sys' := Execute(sys, NewConfig(config));
    NewConfigs(sys, config);
    hide Owner, Master.History, ShardOk, GroupOk, CommandOk, ConfigsOk;
    forall g | g in sys'.groups
      ensures GroupOk(sys', g) && GarbagesOk(sys', h, g)
    {
      assert GroupOk(sys, g) && GarbagesOk(sys, h, g);
      NewConfigGroup(sys, sys', g);
    }
    hide GarbagesOk;
    forall s | Shard(s)
      ensures ShardOk(sys', h, s)
    {
      NewConfigShard(sys, h, sys', s);
    }
    forall g, c | g in sys.groups && c in sys.proposed[g]
      ensures CommandOk(sys', h, g, c)
    {
      NewConfigCommand(sys, h, sys', g, c);
    }
  }

  lemma NewConfigShard(sys: System, h: History, sys': System, s: int)
    requires Inv(sys, h) && OneMore(sys, sys') && Shard(s)
    ensures ShardOk(sys', h, s)
  {
    hide CommandsOk, AsksOk, Replay, ShardData, Owner, Master.History;
    assert ShardOk(sys, h, s);
    forall i | 1 <= i <= h.front[s]
      ensures Arrived(sys', s, i)
    {
      assert Arrived(sys, s, i);
    }
    forall i | 1 <= i < h.front[s]
      ensures HandedOn(sys', s, i)
    {
      assert HandedOn(sys, s, i);
    }
    forall g, i | Passed(sys', s, g, i)
      ensures h.front[s] >= i
    {
      assert GroupOk(sys, g);
      assert Passed(sys, s, g, i);
    }
  }
}
