/** The commands of a group's log keep the invariant. */
module ShardApply {
  import opened ShardConfig
  import opened ShardGroup
  import opened ShardSystem
  import opened ShardInvariant
  import Master = ShardMaster

  /** One group moves on, fronts move on, and a write happens only where the shard is served. */
  ghost predicate Advances(sys: System, h: History, sys': System, h': History, gid: int) {
    && gid in sys.groups && gid in sys'.groups
    && sys' == sys.(groups := sys.groups[gid := sys'.groups[gid]])
    && Num(sys, gid) <= Num(sys', gid) < |sys.configs|
    && Complete(h) && Complete(h')
    && forall s :: Shard(s) ==>
         h'.front[s] >= h.front[s] && (h'.writes[s] == h.writes[s] || s in sys.groups[gid].available)
  }

  lemma PulledFront(sys: System, h: History, gid: int, m: Migration)
    requires Inv(sys, h) && gid in sys.groups && CommandOk(sys, h, gid, UD(m))
    ensures h.front[m.shard] >= m.num
    ensures h.front[m.shard] == m.num ==> forall g <- sys.groups :: m.shard !in sys.groups[g].available
  {
    hide Owner, Master.History;
    var d := Owner(sys.configs, m.num, m.shard);
    assert ShardOk(sys, h, m.shard);
    assert Passed(sys, m.shard, d, m.num);
    forall g | g in sys.groups && m.shard in sys.groups[g].available
      ensures h.front[m.shard] != m.num
    {
      assert g == d ==> h.front[m.shard] == Num(sys, d);
      assert GroupOk(sys, g);
    }
  }

  lemma CommandAdvances(sys: System, h: History, sys': System, h': History, gid: int, g: int, c: Command)
    requires Inv(sys, h) && Advances(sys, h, sys', h', gid) && ConfigsOk(sys')
    requires g in sys.groups && CommandOk(sys, h, g, c)
    requires g == gid && c.UC? && c.config.num - 1 == Num(sys', gid) ==> sys'.groups[gid].comeIn == map[]
    ensures CommandOk(sys', h', g, c)
  {
    hide Owner, Master.History;
    if c.UD? {
      PulledFront(sys, h, g, c.migration);
    }
  }

  lemma CommandsAdvance(sys: System, h: History, sys': System, h': History, gid: int)
    requires Inv(sys, h) && Advances(sys, h, sys', h', gid)
    requires Num(sys', gid) == Num(sys, gid) ==>
               (sys.groups[gid].comeIn == map[] ==> sys'.groups[gid].comeIn == map[])
    requires GarbagesOk(sys', h', gid)
    ensures ConfigsOk(sys') && CommandsOk(sys', h') && AsksOk(sys', h')
  {
    hide Owner, Master.History;
    hide ShardOk, GroupOk;
    assert ConfigsOk(sys');
    forall g, c | g in sys'.groups && c in sys'.proposed[g]
      ensures CommandOk(sys', h', g, c)
    {
      assert CommandOk(sys, h, g, c);
      CommandAdvances(sys, h, sys', h', gid, g, c);
    }
    forall a | a in sys'.pulls
      ensures a.gid in sys'.groups && Pulling(sys', a.gid, a.num, a.shard)
    {
      assert Pulling(sys, a.gid, a.num, a.shard);
    }
    forall g | g in sys'.groups
      ensures GarbagesOk(sys', h', g)
    {
      if g != gid { assert GarbagesOk(sys, h, g); }
    }
  }

  /** Groups other than the one that moved do not notice. */
  lemma OthersOk(sys: System, h: History, sys': System, h': History, gid: int)
    requires Inv(sys, h) && Advances(sys, h, sys', h', gid) && ConfigsOk(sys') && GroupOk(sys', gid)
    ensures forall g {:trigger GroupOk(sys', g)} :: g in sys'.groups ==> GroupOk(sys', g)
  {
    hide Owner, Master.History;
    hide ShardOk, CommandOk;
    forall g | g in sys'.groups
      ensures GroupOk(sys', g)
    {
      if g != gid { assert GroupOk(sys, g); }
    }
  }

  lemma Finish(sys: System, h: History, sys': System, h': History, gid: int)
    requires Inv(sys, h) && Advances(sys, h, sys', h', gid)
    requires Num(sys', gid) == Num(sys, gid) ==>
               (sys.groups[gid].comeIn == map[] ==> sys'.groups[gid].comeIn == map[])
    requires GarbagesOk(sys', h', gid) && ConfigsOk(sys') && GroupOk(sys', gid)
    requires forall s {:trigger ShardOk(sys', h', s)} :: Shard(s) ==> ShardOk(sys', h', s)
    ensures Inv(sys', h')
  {
    hide Owner, Master.History;
    hide ShardOk, GroupOk, CommandOk, CommandsOk, AsksOk;
    CommandsAdvance(sys, h, sys', h', gid);
    OthersOk(sys, h, sys', h', gid);
  }

  // ---------- UC ----------

  /** A proposed configuration takes effect only as the next one, with nothing left to pull. */
  predicate NextConfig(sys: System, gid: int, config: Config)
    requires gid in sys.groups
  {
    var g := sys.groups[gid];
    && g.comeIn == map[] && 1 <= config.num < |sys.configs|
    && config == sys.configs[config.num] && config.num == g.config.num + 1
  }

  lemma UCGroup(sys: System, gid: int, config: Config, sys': System)
    requires ConfigsOk(sys) && gid in sys.groups && GroupOk(sys, gid) && NextConfig(sys, gid, config)
    requires sys' == sys.(groups := sys.groups[gid := UpdateConfig(sys.groups[gid], config)])
    ensures ConfigsOk(sys') && GroupOk(sys', gid)
  {
    hide ShardData, OutOf;
    var g, g' := sys.groups[gid], sys'.groups[gid];
    assert Assigned(config);
    forall s | Shard(s) && Owner(sys.configs, config.num, s) == gid
      ensures s in g'.available || s in g'.comeIn
    {
      assert s in Kept(g, config) || s in Wanted(g, config);
    }
  }

  /** The parts of the invariant a configuration change of `gid` looks at for shard `s`. */
  ghost predicate Before(sys: System, h: History, gid: int, config: Config, s: int) {
    && Complete(h) && ConfigsOk(sys) && Shard(s) && ShardOk(sys, h, s)
    && gid in sys.groups && GroupOk(sys, gid) && NextConfig(sys, gid, config)
  }

  lemma UCFront(sys: System, h: History, gid: int, config: Config, s: int)
    requires Before(sys, h, gid, config, s) && s in Kept(sys.groups[gid], config)
    ensures Owner(sys.configs, config.num, s) == gid
    ensures h.front[s] == Num(sys, gid)
    ensures Num(sys, gid) >= 1 ==> s in sys.groups[gid].available && Owner(sys.configs, Num(sys, gid), s) == gid
  {
    hide Master.History, Replay, ShardData;
    assert h.front[s] >= 1 ==> Arrived(sys, s, 1);
  }

  /** What a configuration change does to the fields the shard invariant looks at. */
  lemma UCFields(g: Group, config: Config, g': Group)
    requires config.num > g.config.num && g' == UpdateConfig(g, config)
    ensures g'.config == config && g'.available == Kept(g, config)
    ensures forall n :: n != g.config.num ==> OutOf(g'.toOut, n) == OutOf(g.toOut, n)
    ensures forall s <- g.available - Kept(g, config) ::
              s in OutOf(g'.toOut, g.config.num) && OutOf(g'.toOut, g.config.num)[s] == ShardData(g.db, s)
  {
  }

  lemma UCPassed(sys: System, h: History, gid: int, config: Config, sys': System, s: int, f: int)
    requires Before(sys, h, gid, config, s)
    requires gid in sys'.groups && sys' == sys.(groups := sys.groups[gid := sys'.groups[gid]]) && Num(sys', gid) == config.num
    requires f == if s in Kept(sys.groups[gid], config) then config.num else h.front[s]
    ensures f >= h.front[s] && forall g, i :: Passed(sys', s, g, i) ==> f >= i
  {
    hide Owner, Master.History;
    if s in Kept(sys.groups[gid], config) { UCFront(sys, h, gid, config, s); }
    hide ShardData, AtFront, Replay, Reached;
    forall g, i | Passed(sys', s, g, i)
      ensures f >= i
    {
      if !(g == gid && i == Num(sys, gid)) { assert Passed(sys, s, g, i); }
    }
  }

  lemma UCReached(sys: System, h: History, gid: int, config: Config, sys': System, s: int, f: int)
    requires Before(sys, h, gid, config, s) && ConfigsOk(sys')
    requires gid in sys'.groups && sys' == sys.(groups := sys.groups[gid := sys'.groups[gid]]) && Num(sys', gid) == config.num
    requires f == if s in Kept(sys.groups[gid], config) then config.num else h.front[s]
    ensures Reached(sys', s, f)
  {
    hide Owner, Master.History, Replay, ShardData, Kept, GroupOk;
    ReachedGrows(sys, sys', s, h.front[s]);
    if s in Kept(sys.groups[gid], config) {
      UCFront(sys, h, gid, config, s);
      assert Arrived(sys', s, f);
      ReachedNext(sys', s, h.front[s]);
    }
  }

  lemma UCAtFront(sys: System, h: History, gid: int, config: Config, sys': System, s: int, f: int)
    requires Before(sys, h, gid, config, s) && ConfigsOk(sys')
    requires sys' == sys.(groups := sys.groups[gid := UpdateConfig(sys.groups[gid], config)])
    requires f == if s in Kept(sys.groups[gid], config) then config.num else h.front[s]
    ensures 1 <= f < |sys'.configs| ==> AtFront(sys', s, f, Replay(h.writes[s]))
  {
    assert |config.shards| == NSHARDS by { assert Assigned(config); }
    hide Master.History, Replay, Passed;
    assert h.front[s] < |sys.configs| && (h.front[s] >= 1 ==> Arrived(sys, s, h.front[s]));
    hide Reached;
    var g, g' := sys.groups[gid], sys'.groups[gid];
    UCFields(g, config, g');
    if s in Kept(g, config) {
      UCFront(sys, h, gid, config, s);
    } else if 1 <= f && Owner(sys.configs, f, s) == gid {
      hide UpdateConfig, ShardData, OutOf;
      assert AtFront(sys, s, f, Replay(h.writes[s]));
      if Num(sys, gid) == f {
        assert s in g.available - Kept(g, config);
        assert Owner(sys.configs, f + 1, s) != gid;
      } else {
        assert OutOf(g'.toOut, f) == OutOf(g.toOut, f);
      }
    } else {
      hide UpdateConfig, ShardData, OutOf;
    }
  }

  lemma UCData(sys: System, h: History, gid: int, config: Config, sys': System, s: int, g: int)
    requires Inv(sys, h) && gid in sys.groups && NextConfig(sys, gid, config) && Shard(s)
    requires sys' == sys.(groups := sys.groups[gid := UpdateConfig(sys.groups[gid], config)])
    requires g in sys'.groups && s in sys'.groups[g].available
    ensures s in Kept(sys.groups[gid], config) <==> g == gid
    ensures ShardData(sys'.groups[g].db, s) == Replay(h.writes[s])
    ensures g != gid ==> h.front[s] == Num(sys', g)
  {
    hide Owner, Master.History;
    assert ShardOk(sys, h, s) && GroupOk(sys, gid) && GroupOk(sys, g);
    assert Before(sys, h, gid, config, s);
    if s in Kept(sys.groups[gid], config) {
      UCFront(sys, h, gid, config, s);
      var db, out := sys.groups[gid].db, sys.groups[gid].available - Kept(sys.groups[gid], config);
      assert ShardData(Without(db, out), s) == ShardData(db, s);
      if s !in sys.groups[gid].available { assert ShardData(db, s) == map[]; }
    }
  }

  lemma UCShard(sys: System, h: History, gid: int, config: Config, sys': System, h': History, s: int)
    requires Inv(sys, h) && gid in sys.groups && NextConfig(sys, gid, config) && Shard(s)
    requires sys' == sys.(groups := sys.groups[gid := UpdateConfig(sys.groups[gid], config)]) && ConfigsOk(sys')
    requires Complete(h') && h'.writes[s] == h.writes[s]
    requires h'.front[s] == if s in Kept(sys.groups[gid], config) then config.num else h.front[s]
    ensures ShardOk(sys', h', s) && h'.front[s] >= h.front[s]
  {
    hide Owner, Master.History;
    var f := h'.front[s];
    assert ShardOk(sys, h, s) && GroupOk(sys, gid);
    assert Before(sys, h, gid, config, s);
    UCPassed(sys, h, gid, config, sys', s, f);
    UCReached(sys, h, gid, config, sys', s, f);
    UCAtFront(sys, h, gid, config, sys', s, f);
    assert f == 0 ==> h.writes[s] == [] by { assert ShardOk(sys, h, s); }
    assert sys'.groups[gid].config.num == config.num;
    hide CommandOk, ShardData, Reached, AtFront, UpdateConfig;
    forall g | g in sys'.groups && s in sys'.groups[g].available
      ensures f == Num(sys', g) && ShardData(sys'.groups[g].db, s) == Replay(h.writes[s])
    {
      UCData(sys, h, gid, config, sys', s, g);
    }
  }

  lemma UCKeeps(sys: System, h: History, gid: int, config: Config, sys': System, h': History)
    requires Inv(sys, h) && gid in sys.groups && NextConfig(sys, gid, config)
    requires sys' == sys.(groups := sys.groups[gid := UpdateConfig(sys.groups[gid], config)])
    requires Complete(h') && forall s :: Shard(s) ==>
               && h'.writes[s] == h.writes[s]
               && h'.front[s] == if s in Kept(sys.groups[gid], config) then config.num else h.front[s]
    ensures Inv(sys', h')
  {
    hide Owner, Master.History;
    assert GroupOk(sys, gid);
    UCGroup(sys, gid, config, sys');
    forall s | Shard(s)
      ensures ShardOk(sys', h', s) && h'.front[s] >= h.front[s]
    {
      UCShard(sys, h, gid, config, sys', h', s);
    }
    hide ShardOk, GroupOk, CommandOk;
    assert GarbagesOk(sys', h', gid) by { assert GarbagesOk(sys, h, gid); }
    Finish(sys, h, sys', h', gid);
  }

  // ---------- UD ----------

  lemma StillPassed(sys: System, sys': System, s: int, f: int)
    requires Shard(s) && sys'.configs == sys.configs && sys'.groups.Keys == sys.groups.Keys
    requires forall g <- sys.groups :: Num(sys', g) == Num(sys, g)
    requires forall g, i :: Passed(sys, s, g, i) ==> f >= i
    ensures forall g, i :: Passed(sys', s, g, i) ==> f >= i
  {
    forall g, i | Passed(sys', s, g, i)
      ensures f >= i
    {
      assert Passed(sys, s, g, i);
    }
  }

  lemma {:induction false} ReplayKeys(writes: seq<Op>, s: int)
    requires forall op <- writes :: Key2Shard(op.key) == s
    ensures forall k <- Replay(writes) :: Key2Shard(k) == s
  {
    if writes != [] {
      ReplayKeys(writes[..|writes| - 1], s);
      assert writes[|writes| - 1] in writes;
    }
  }

  lemma MergedData(db: Data, data: Data, s: int, t: int)
    requires forall k <- db :: Key2Shard(k) != s
    requires forall k <- data :: Key2Shard(k) == s
    ensures ShardData(data + db, t) == if t == s then data else ShardData(db, t)
  {
  }

  /** A pulled shard takes effect exactly where the front waits for it. */
  lemma UDReady(sys: System, h: History, gid: int, m: Migration)
    requires Inv(sys, h) && gid in sys.groups && CommandOk(sys, h, gid, UD(m))
    requires m.num == Num(sys, gid) - 1 && m.shard !in sys.groups[gid].available
    ensures h.front[m.shard] == m.num && m.data == Replay(h.writes[m.shard])
    ensures forall g <- sys.groups :: m.shard !in sys.groups[g].available
    ensures forall k <- m.data :: Key2Shard(k) == m.shard
  {
    hide Owner, Master.History;
    PulledFront(sys, h, gid, m);
    NotYet(sys, h, gid, m.shard);
    assert ShardOk(sys, h, m.shard);
    ReplayKeys(h.writes[m.shard], m.shard);
  }

  lemma UDGroup(sys: System, gid: int, m: Migration, sys': System)
    requires ConfigsOk(sys) && gid in sys.groups && GroupOk(sys, gid) && Pulling(sys, gid, m.num, m.shard)
    requires m.num == Num(sys, gid) - 1 && m.shard !in sys.groups[gid].available
    requires forall k <- m.data :: Key2Shard(k) == m.shard
    requires sys' == sys.(groups := sys.groups[gid := InstallShard(sys.groups[gid], m)])
    ensures ConfigsOk(sys') && GroupOk(sys', gid)
  {
    hide Owner, Master.History;
    hide MergeSeqs;
  }

  lemma UDReached(sys: System, h: History, gid: int, m: Migration, sys': System, s: int, f: int)
    requires Complete(h) && ConfigsOk(sys) && ConfigsOk(sys') && Shard(s) && ShardOk(sys, h, s)
    requires gid in sys.groups && CommandOk(sys, h, gid, UD(m)) && h.front[m.shard] == m.num
    requires gid in sys'.groups && sys' == sys.(groups := sys.groups[gid := sys'.groups[gid]])
    requires Num(sys', gid) == Num(sys, gid)
    requires f == if s == m.shard then m.num + 1 else h.front[s]
    ensures Reached(sys', s, f) && forall g, i :: Passed(sys', s, g, i) ==> f >= i
  {
    hide Owner, Master.History, Replay, ShardData;
    ReachedGrows(sys, sys', s, h.front[s]);
    if s == m.shard {
      assert Arrived(sys', s, m.num + 1) && HandedOn(sys', s, m.num);
      ReachedNext(sys', s, m.num);
    }
    StillPassed(sys, sys', s, h.front[s]);
  }

  lemma UDShard(sys: System, h: History, gid: int, m: Migration, sys': System, h': History, s: int)
    requires Complete(h) && Complete(h') && ConfigsOk(sys) && ConfigsOk(sys') && Shard(s) && ShardOk(sys, h, s)
    requires gid in sys.groups && GroupOk(sys, gid) && CommandOk(sys, h, gid, UD(m))
    requires m.num == Num(sys, gid) - 1 && m.shard !in sys.groups[gid].available
    requires h.front[m.shard] == m.num && m.data == Replay(h.writes[m.shard])
    requires forall g <- sys.groups :: m.shard !in sys.groups[g].available
    requires forall k <- m.data :: Key2Shard(k) == m.shard
    requires sys' == sys.(groups := sys.groups[gid := InstallShard(sys.groups[gid], m)])
    requires h'.writes[s] == h.writes[s] && h'.front[s] == if s == m.shard then m.num + 1 else h.front[s]
    ensures ShardOk(sys', h', s)
  {
    hide Owner, Master.History, MergeSeqs, Replay, OutOf, ShardData, Reached, Passed, Key2Shard;
    assert forall k <- sys.groups[gid].db :: Key2Shard(k) != m.shard;
    MergedData(sys.groups[gid].db, m.data, m.shard, s);
    UDReached(sys, h, gid, m, sys', s, h'.front[s]);
  }

  lemma UDFrame(sys: System, h: History, gid: int, m: Migration, sys': System, h': History)
    requires Inv(sys, h) && gid in sys.groups && CommandOk(sys, h, gid, UD(m))
    requires m.num == Num(sys, gid) - 1 && m.shard !in sys.groups[gid].available
    requires sys' == sys.(groups := sys.groups[gid := InstallShard(sys.groups[gid], m)])
    requires Complete(h') && forall s :: Shard(s) ==>
               && h'.writes[s] == h.writes[s]
               && h'.front[s] == if s == m.shard then m.num + 1 else h.front[s]
    ensures ConfigsOk(sys') && GroupOk(sys', gid) && GarbagesOk(sys', h', gid)
    ensures Num(sys, gid) == Num(sys', gid) < |sys.configs|
  {
    hide Owner, Master.History, ShardOk, MergeSeqs, Replay, CommandsOk;
    assert GroupOk(sys, gid) && GarbagesOk(sys, h, gid);
    UDReady(sys, h, gid, m);
    UDGroup(sys, gid, m, sys');
  }

  lemma UDShards(sys: System, h: History, gid: int, m: Migration, sys': System, h': History)
    requires Inv(sys, h) && gid in sys.groups && CommandOk(sys, h, gid, UD(m))
    requires m.num == Num(sys, gid) - 1 && m.shard !in sys.groups[gid].available
    requires sys' == sys.(groups := sys.groups[gid := InstallShard(sys.groups[gid], m)])
    requires Complete(h') && forall s :: Shard(s) ==>
               && h'.writes[s] == h.writes[s]
               && h'.front[s] == if s == m.shard then m.num + 1 else h.front[s]
    requires ConfigsOk(sys')
    ensures forall s {:trigger ShardOk(sys', h', s)} :: Shard(s) ==> ShardOk(sys', h', s)
  {
    hide Owner, Master.History, ShardOk, Key2Shard, MergeSeqs, Replay, CommandsOk, AsksOk, CommandOk, GroupOk;
    assert GroupOk(sys, gid);
    UDReady(sys, h, gid, m);
    forall s | Shard(s)
      ensures ShardOk(sys', h', s)
    {
      assert ShardOk(sys, h, s);
      UDShard(sys, h, gid, m, sys', h', s);
    }
  }

  lemma UDKeeps(sys: System, h: History, gid: int, m: Migration, sys': System, h': History)
    requires Inv(sys, h) && gid in sys.groups && CommandOk(sys, h, gid, UD(m))
    requires m.num == Num(sys, gid) - 1 && m.shard !in sys.groups[gid].available
    requires sys' == sys.(groups := sys.groups[gid := InstallShard(sys.groups[gid], m)])
    requires Complete(h') && forall s :: Shard(s) ==>
               && h'.writes[s] == h.writes[s]
               && h'.front[s] == if s == m.shard then m.num + 1 else h.front[s]
    ensures Inv(sys', h')
  {
    hide Owner, Master.History, ShardOk, Key2Shard, MergeSeqs, Replay, CommandsOk, AsksOk, CommandOk, GarbagesOk, GroupOk;
    UDReady(sys, h, gid, m);
    UDFrame(sys, h, gid, m, sys', h');
    UDShards(sys, h, gid, m, sys', h');
    Finish(sys, h, sys', h', gid);
  }

  // ---------- GC ----------

  lemma Cleared(g: Group, num: int, shard: int, client: int, n: int, s: int)
    requires n != num || s != shard
    ensures var g' := ApplyGC(g, num, shard, client);
            && (s in OutOf(g.toOut, n) ==> s in OutOf(g'.toOut, n) && OutOf(g'.toOut, n)[s] == OutOf(g.toOut, n)[s])
            && g' == g.(toOut := g'.toOut, seqs := g'.seqs)
  {
  }

  lemma GCFrame(sys: System, h: History, gid: int, num: int, shard: int, client: int, sys': System)
    requires Inv(sys, h) && gid in sys.groups && CommandOk(sys, h, gid, GC(num, shard, client))
    requires sys' == sys.(groups := sys.groups[gid := ApplyGC(sys.groups[gid], num, shard, client)])
    ensures ConfigsOk(sys') && GroupOk(sys', gid) && GarbagesOk(sys', h, gid)
    ensures Num(sys, gid) == Num(sys', gid) < |sys.configs|
    ensures sys'.groups[gid] == sys.groups[gid].(toOut := sys'.groups[gid].toOut, seqs := sys'.groups[gid].seqs)
  {
    hide Owner, Master.History, ShardOk, CommandsOk;
    Cleared(sys.groups[gid], num, shard, client, num + 1, shard);
    assert GroupOk(sys, gid) && GarbagesOk(sys, h, gid);
  }

  lemma GCShard(sys: System, h: History, gid: int, num: int, shard: int, client: int, sys': System, s: int)
    requires Inv(sys, h) && gid in sys.groups && CommandOk(sys, h, gid, GC(num, shard, client))
    requires sys' == sys.(groups := sys.groups[gid := ApplyGC(sys.groups[gid], num, shard, client)])
    requires ConfigsOk(sys') && Shard(s)
    ensures ShardOk(sys', h, s)
  {
    hide Owner, Master.History, ApplyGC, Key2Shard, Replay, ShardData, GroupOk, CommandsOk, AsksOk, Reached, OutOf;
    assert ShardOk(sys, h, s);
    Cleared(sys.groups[gid], num, shard, client, num + 1, shard);
    Cleared(sys.groups[gid], num, shard, client, h.front[s], s);
    ReachedGrows(sys, sys', s, h.front[s]);
    StillPassed(sys, sys', s, h.front[s]);
  }

  lemma GCKeeps(sys: System, h: History, gid: int, num: int, shard: int, client: int, sys': System)
    requires Inv(sys, h) && gid in sys.groups && CommandOk(sys, h, gid, GC(num, shard, client))
    requires sys' == sys.(groups := sys.groups[gid := ApplyGC(sys.groups[gid], num, shard, client)])
    ensures Inv(sys', h)
  {
    hide Owner, Master.History, ShardOk, ApplyGC, GroupOk, CommandsOk, AsksOk, GarbagesOk, CommandOk;
    GCFrame(sys, h, gid, num, shard, client, sys');
    forall s | Shard(s) ensures ShardOk(sys', h, s) { GCShard(sys, h, gid, num, shard, client, sys', s); }
    Finish(sys, h, sys', h, gid);
  }

  // ---------- Client operations ----------

  lemma WrittenData(db: Data, op: Op, s: int)
    requires op.kind != Get
    ensures ShardData(Write(db, op), s) ==
            if s == Key2Shard(op.key) then Write(ShardData(db, s), op) else ShardData(db, s)
  {
  }

  lemma ClientShard(sys: System, h: History, gid: int, op: Op, sys': System, h': History, s: int)
    requires Complete(h) && Complete(h') && ConfigsOk(sys) && ConfigsOk(sys') && Shard(s) && ShardOk(sys, h, s)
    requires gid in sys.groups && GroupOk(sys, gid)
    requires s in sys.groups[gid].available ==> forall g <- sys.groups :: s in sys.groups[g].available ==> g == gid
    requires sys' == sys.(groups := sys.groups[gid := ApplyOp(sys.groups[gid], op)])
    requires h'.front[s] == h.front[s]
    requires h'.writes[s] == if Effective(sys.groups[gid], op) && Key2Shard(op.key) == s then h.writes[s] + [op] else h.writes[s]
    ensures ShardOk(sys', h', s)
  {
    hide Owner, Master.History, Reached, Key2Shard, ShardData, Write, OutOf;
    var g := sys.groups[gid];
    ReachedGrows(sys, sys', s, h.front[s]);
    StillPassed(sys, sys', s, h.front[s]);
    if Effective(g, op) { WrittenData(g.db, op, s); }
    if h'.writes[s] != h.writes[s] {
      assert h'.writes[s][..|h.writes[s]|] == h.writes[s];
      assert Replay(h'.writes[s]) == Write(Replay(h.writes[s]), op);
    }
  }

  lemma ClientKeeps(sys: System, h: History, gid: int, op: Op, sys': System, h': History)
    requires Inv(sys, h) && gid in sys.groups
    requires sys' == sys.(groups := sys.groups[gid := ApplyOp(sys.groups[gid], op)])
    requires Complete(h') && forall s :: Shard(s) ==>
               && h'.front[s] == h.front[s]
               && h'.writes[s] == if Effective(sys.groups[gid], op) && Key2Shard(op.key) == s
                                  then h.writes[s] + [op] else h.writes[s]
    ensures Inv(sys', h')
  {
    hide Owner, Master.History;
    hide ShardOk;
    assert GroupOk(sys, gid);
    assert ConfigsOk(sys') && GroupOk(sys', gid);
    forall s | Shard(s)
      ensures ShardOk(sys', h', s)
    {
      assert ShardOk(sys, h, s);
      forall g | g in sys.groups && s in sys.groups[gid].available && s in sys.groups[g].available
        ensures g == gid
      {
        Exclusive(sys, h, s, g, gid);
      }
      ClientShard(sys, h, gid, op, sys', h', s);
    }
    assert GarbagesOk(sys', h', gid) by { assert GarbagesOk(sys, h, gid); }
    hide GroupOk;
    Finish(sys, h, sys', h', gid);
  }
}
