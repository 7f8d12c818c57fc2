/** The invariant of shard migration. For every shard it tracks the `front`: the number of the
    newest configuration whose owner has had the shard available. */
module ShardInvariant {
  import opened ShardConfig
  import opened ShardGroup
  import opened ShardSystem
  import Master = ShardMaster

  datatype History = History(front: map<int, int>, writes: map<int, seq<Op>>)

  predicate Shard(s: int) {
    0 <= s < NSHARDS
  }

  function AllShards(): (r: set<int>)
    ensures forall s :: s in r <==> Shard(s)
  {
    {0, 1, 2, 3, 4, 5, 6, 7, 8, 9}
  }

  function InitHistory(): History {
    History(map s | s in AllShards() :: 0, map s | s in AllShards() :: [])
  }

  ghost predicate Complete(h: History) {
    forall s {:trigger s in h.front} {:trigger s in h.writes} :: Shard(s) ==> s in h.front && s in h.writes
  }

  /** The configurations are a history of the shard master over the groups that exist. */
  ghost predicate ConfigsOk(sys: System) {
    && Master.History(sys.configs)
    && sys.proposed.Keys == sys.groups.Keys
    && forall i, s {:trigger Owner(sys.configs, i, s)} :: 1 <= i < |sys.configs| && Shard(s) ==> Owner(sys.configs, i, s) in sys.groups
  }

  function Num(sys: System, g: int): int
    requires g in sys.groups
  {
    sys.groups[g].config.num
  }

  /** What a group serves or waits for is what its configuration gives it. */
  ghost predicate GroupOk(sys: System, gid: int)
    requires gid in sys.groups && Master.History(sys.configs)
  {
    var g := sys.groups[gid];
    var n := g.config.num;
    && g.gid == gid
    && 0 <= n < |sys.configs| && g.config == sys.configs[n]
    && (forall s <- g.available :: Shard(s) && n >= 1 && Owner(sys.configs, n, s) == gid)
    && (forall s <- g.comeIn :: Shard(s) && n >= 2 && Owner(sys.configs, n, s) == gid && s !in g.available && g.comeIn[s] == n - 1)
    && (forall s :: Shard(s) && n >= 1 && Owner(sys.configs, n, s) == gid ==> s in g.available || s in g.comeIn)
    && (forall k <- g.db :: Key2Shard(k) in g.available)
  }

  /** The owner of the shard in configuration `i` has got there. */
  predicate Arrived(sys: System, s: int, i: int) {
    Owner(sys.configs, i, s) in sys.groups && Num(sys, Owner(sys.configs, i, s)) >= i
  }

  /** If configuration i + 1 moves the shard, its owner in `i` has left `i` behind. */
  predicate HandedOn(sys: System, s: int, i: int) {
    var d := Owner(sys.configs, i, s);
    d != Owner(sys.configs, i + 1, s) ==> d in sys.groups && Num(sys, d) > i
  }

  /** The front of a shard has been reached by every owner up to it. */
  ghost predicate Reached(sys: System, s: int, f: int) {
    && 0 <= f < |sys.configs|
    && (forall i {:trigger Arrived(sys, s, i)} :: 1 <= i <= f ==> Arrived(sys, s, i))
    && (forall i {:trigger HandedOn(sys, s, i)} :: 1 <= i < f ==> HandedOn(sys, s, i))
  }

  lemma ReachedNext(sys: System, s: int, f: int)
    requires Reached(sys, s, f) && f + 1 < |sys.configs| && Arrived(sys, s, f + 1)
    requires f >= 1 ==> HandedOn(sys, s, f)
    ensures Reached(sys, s, f + 1)
  {
  }

  lemma ReachedGrows(sys: System, sys': System, s: int, f: int)
    requires Reached(sys, s, f) && sys'.configs == sys.configs
    requires forall g :: g in sys.groups ==> g in sys'.groups && Num(sys', g) >= Num(sys, g)
    ensures Reached(sys', s, f)
  {
    forall i | 1 <= i <= f
      ensures Arrived(sys', s, i)
    {
      assert Arrived(sys, s, i);
    }
    forall i | 1 <= i < f
      ensures HandedOn(sys', s, i)
    {
      assert HandedOn(sys, s, i);
    }
  }

  /** At the front, the shard is available at its owner, or the owner has left and keeps the
      data for the next one. */
  ghost predicate AtFront(sys: System, s: int, f: int, data: Data)
    requires Shard(s) && ConfigsOk(sys) && 1 <= f < |sys.configs|
  {
    var d := Owner(sys.configs, f, s);
    && (Num(sys, d) == f ==> s in sys.groups[d].available)
    && (Num(sys, d) > f ==>
          && f + 1 < |sys.configs| && Owner(sys.configs, f + 1, s) != d
          && s in OutOf(sys.groups[d].toOut, f) && OutOf(sys.groups[d].toOut, f)[s] == data)
  }

  ghost predicate ShardOk(sys: System, h: History, s: int)
    requires Shard(s) && Complete(h) && ConfigsOk(sys)
  {
    var f, data := h.front[s], Replay(h.writes[s]);
    && Reached(sys, s, f)
    && (f >= 1 ==> AtFront(sys, s, f, data))
    && (f == 0 ==> h.writes[s] == [])
    && (forall op <- h.writes[s] :: Key2Shard(op.key) == s)
    && (forall g <- sys.groups :: s in sys.groups[g].available ==>
          f == Num(sys, g) && ShardData(sys.groups[g].db, s) == data)
    && (forall g, i {:trigger Passed(sys, s, g, i)} :: Passed(sys, s, g, i) ==> f >= i)
  }

  /** Group `g` owned the shard in configuration `i` and has moved on. */
  predicate Passed(sys: System, s: int, g: int, i: int)
    requires Shard(s)
  {
    g in sys.groups && 1 <= i < Num(sys, g) && Owner(sys.configs, i, s) == g
  }

  ghost predicate CommandOk(sys: System, h: History, gid: int, command: Command)
    requires gid in sys.groups && Complete(h) && ConfigsOk(sys)
  {
    var g := sys.groups[gid];
    match command
    case UC(config) =>
      && 1 <= config.num < |sys.configs| && config == sys.configs[config.num]
      && config.num - 1 <= g.config.num
      && (config.num - 1 == g.config.num ==> g.comeIn == map[])
    case UD(m) =>
      && Pulling(sys, gid, m.num, m.shard)
      && Num(sys, Owner(sys.configs, m.num, m.shard)) > m.num
      && (h.front[m.shard] == m.num ==> m.data == Replay(h.writes[m.shard]))
    case GC(num, shard, _) => Shard(shard) && h.front[shard] > num
    case Client(_) => true
  }

  /** `gid` got the shard by configuration num + 1 and knows that configuration. */
  ghost predicate Pulling(sys: System, gid: int, num: int, shard: int)
    requires gid in sys.groups && ConfigsOk(sys)
  {
    && Shard(shard) && 1 <= num && num + 1 < |sys.configs|
    && num + 1 <= Num(sys, gid) && Owner(sys.configs, num + 1, shard) == gid
  }

  ghost predicate AsksOk(sys: System, h: History)
    requires Complete(h) && ConfigsOk(sys)
  {
    && (forall a <- sys.pulls :: a.gid in sys.groups && Pulling(sys, a.gid, a.num, a.shard))
    && (forall a <- sys.collects :: Shard(a.shard) && h.front[a.shard] > a.num)
    && (forall g <- sys.groups :: GarbagesOk(sys, h, g))
  }

  ghost predicate GarbagesOk(sys: System, h: History, g: int)
    requires g in sys.groups && Complete(h)
  {
    forall n <- sys.groups[g].garbages :: forall s <- sys.groups[g].garbages[n] :: Shard(s) && h.front[s] > n
  }

  ghost predicate CommandsOk(sys: System, h: History)
    requires Complete(h) && ConfigsOk(sys)
  {
    forall g <- sys.groups :: forall c <- sys.proposed[g] :: CommandOk(sys, h, g, c)
  }

  ghost predicate Inv(sys: System, h: History) {
    && Complete(h)
    && ConfigsOk(sys)
    && (forall g {:trigger GroupOk(sys, g)} :: g in sys.groups ==> GroupOk(sys, g))
    && (forall s {:trigger ShardOk(sys, h, s)} :: Shard(s) ==> ShardOk(sys, h, s))
    && CommandsOk(sys, h)
    && AsksOk(sys, h)
  }

  // ---------- Recording ----------

  /** Shards that become available move their front to their owner's configuration. */
  function FrontAfter(sys: System, gid: int, g': Group, front: map<int, int>): map<int, int>
    requires gid in sys.groups
  {
    map s | s in front :: if s in g'.available then g'.config.num else front[s]
  }

  function RecordStep(sys: System, h: History, step: Step): History
    requires Enabled(sys, step)
  {
    if step.Apply? then
      History(FrontAfter(sys, step.gid, Obey(sys.groups[step.gid], step.command), h.front),
              map s | s in h.writes :: h.writes[s] + WritesOf(sys, step, s))
    else h
  }

  // ---------- Consequences ----------

  /** At most one group has a shard available. */
  lemma Exclusive(sys: System, h: History, s: int, a: int, b: int)
    requires Inv(sys, h) && Shard(s) && a in sys.groups && b in sys.groups
    requires s in sys.groups[a].available && s in sys.groups[b].available
    ensures a == b
  {
    hide Owner, Master.History;
    assert ShardOk(sys, h, s) && GroupOk(sys, a) && GroupOk(sys, b);
  }

  /** A shard its owner in configuration `n` has not got yet is still before `n`. */
  lemma NotYet(sys: System, h: History, g: int, s: int)
    requires Inv(sys, h) && Shard(s) && g in sys.groups && s !in sys.groups[g].available
    requires Num(sys, g) >= 1 && Owner(sys.configs, Num(sys, g), s) == g
    ensures h.front[s] < Num(sys, g)
  {
    hide Owner, Master.History;
    assert ShardOk(sys, h, s) && GroupOk(sys, g);
    var n, f := Num(sys, g), h.front[s];
    assert f > n ==> Arrived(sys, s, n + 1) && HandedOn(sys, s, n);
  }
}
