/** Migration can always go on: a group may take its next configuration once nothing is missing, a missing shard can
    be fetched, and a copy that is no longer needed can be collected. */
module ShardProgress {
  import opened ShardConfig
  import opened ShardGroup
  import opened ShardSystem
  import opened ShardInvariant
  import opened ShardSafety
  import Master = ShardMaster

  // ---------- What the commands do ----------

  /** Merged request ids: the larger of the two where both sides know the client, where one does, that one (but no
      less than 0 for clients the group did not know). */
  lemma MergeIsMax(mine: map<int, int>, theirs: map<int, int>, client: int)
    ensures var merged := MergeSeqs(mine, theirs);
            && (client in merged <==> client in mine || client in theirs)
            && (client in mine ==> merged[client] >= mine[client])
            && (client in theirs ==> merged[client] >= theirs[client])
            && (client in merged ==>
                  || (client in mine && merged[client] == mine[client])
                  || (client in theirs && merged[client] == theirs[client])
                  || (client !in mine && merged[client] == 0))
  {
  }

  /** An installed shard is served, no longer missing, and marked for collection at its old owner. */
  lemma InstallDoes(g: Group, m: Migration)
    requires m.num == g.config.num - 1 && m.shard !in g.available
    ensures var g' := InstallShard(g, m);
            && g'.available == g.available + {m.shard} && g'.comeIn == g.comeIn - {m.shard} && g'.config == g.config
            && m.shard in Garbage(g'.garbages, m.num) && g'.toOut == g.toOut
            && (forall n :: Garbage(g.garbages, n) <= Garbage(g'.garbages, n))
            && (forall k <- g.db :: k in g'.db && g'.db[k] == g.db[k])
            && (forall k <- m.data :: k in g'.db && (k !in g.db ==> g'.db[k] == m.data[k]))
  {
  }

  /** Collecting removes the one copy and leaves every other copy, the data and the shards alone; it records the shard
      as its sender's id. */
  lemma CollectDoes(g: Group, num: int, shard: int, client: int)
    ensures var g' := ApplyGC(g, num, shard, client);
            && shard !in OutOf(g'.toOut, num)
            && (forall n, s :: (n != num || s != shard) ==>
                  (s in OutOf(g'.toOut, n) <==> s in OutOf(g.toOut, n))
                  && (s in OutOf(g.toOut, n) ==> OutOf(g'.toOut, n)[s] == OutOf(g.toOut, n)[s]))
            && g'.db == g.db && g'.available == g.available && g'.comeIn == g.comeIn && g'.config == g.config
            && g'.seqs == g.seqs[client := shard]
  {
  }

  // ---------- Extending a run ----------

  function Before(first: System, states: seq<System>, k: nat): System
    requires k <= |states|
  {
    if k == 0 then first else states[k - 1]
  }

  /** The run up to state `i`, followed by these steps. */
  lemma Extended(gids: set<int>, b: Behaviour, i: nat, steps: seq<Step>, states: seq<System>) returns (b': Behaviour)
    requires IsRun(gids, b) && i <= |b.steps| && |steps| == |states|
    requires forall k :: 0 <= k < |steps| ==> Follows(Before(b.states[i], states, k), steps[k], states[k])
    ensures IsRun(gids, b') && |b'.steps| == i + |steps| && b'.steps == b.steps[..i] + steps
    ensures b'.states == b.states[..i + 1] + states
  {
    hide Follows, Init;
    b' := Behaviour(b.states[..i + 1] + states, b.steps[..i] + steps);
    forall k | 0 <= k < |b'.steps| ensures Follows(b'.states[k], b'.steps[k], b'.states[k + 1]) {
      if k < i {
        assert Follows(b.states[k], b.steps[k], b.states[k + 1]);
      } else {
        var j := k - i;
        assert Follows(Before(b.states[i], states, j), steps[j], states[j]);
      }
    }
  }

  lemma {:induction false} SameWrites(b: Behaviour, b': Behaviour, i: nat, s: int)
    requires i <= |b.steps| && i <= |b'.steps| && |b.states| == |b.steps| + 1 && |b'.states| == |b'.steps| + 1
    requires forall k :: 0 <= k < i ==> b'.steps[k] == b.steps[k] && b'.states[k] == b.states[k]
    ensures Writes(b', i, s) == Writes(b, i, s)
  {
    if i > 0 { SameWrites(b, b', i - 1, s); }
  }

  // ---------- A missing shard can be fetched ----------

  lemma Awaited(sys: System, h: History, s: int, c: int)
    requires Inv(sys, h) && Shard(s) && InTransit(sys, s, c) && Num(sys, Owner(sys.configs, c + 1, s)) == c + 1
    ensures var d, e := Owner(sys.configs, c, s), Owner(sys.configs, c + 1, s);
            && s in sys.groups[e].comeIn && sys.groups[e].comeIn[s] == c
            && e in sys.proposed && d in sys.proposed && Answers(sys.groups[d], c)
  {
    hide Master.History, ShardOk, CommandsOk, AsksOk;
    assert GroupOk(sys, Owner(sys.configs, c + 1, s));
  }

  /** Three steps, whenever a shard is on its way to a group that waits for it: it is asked for, answered for and
      installed, and then served there with everything ever written to it. */
  lemma MigrationCompletes(gids: set<int>, b: Behaviour, i: nat, s: int, c: int) returns (b': Behaviour)
    requires IsRun(gids, b) && i <= |b.steps| && Shard(s) && InTransit(b.states[i], s, c)
    requires var sys := b.states[i]; Num(sys, Owner(sys.configs, c + 1, s)) == c + 1
    ensures IsRun(gids, b') && |b'.steps| == i + 3 && b'.steps[..i] == b.steps[..i] && b'.states[..i + 1] == b.states[..i + 1]
    ensures var e := Owner(b.states[i].configs, c + 1, s);
            && e in b'.states[i + 3].groups && s in b'.states[i + 3].groups[e].available
            && ShardData(b'.states[i + 3].groups[e].db, s) == Replay(Writes(b, i, s))
  {
    hide Follows, InTransit, ShardData, Replay, Owner, Inv, Init, Writes;
    var sys := b.states[i];
    var h := RunHolds(gids, b, i);
    Awaited(sys, h, s, c);
    TransitNames(sys, s, c);
    var steps, states := Fetch(sys, s, c);
    b' := Extended(gids, b, i, steps, states);
    var e := Owner(sys.configs, c + 1, s);
    HolderHasAllWrites(gids, b', i + 3, s, e);
    Unwritten(b, b', i, s);
  }

  lemma TransitNames(sys: System, s: int, c: int)
    requires InTransit(sys, s, c)
    ensures var d, e := Owner(sys.configs, c, s), Owner(sys.configs, c + 1, s);
            d != e && d in sys.groups && e in sys.groups && (Num(sys, e) == c + 1 ==> s !in sys.groups[e].available)
  {
  }

  /** The three steps. */
  lemma Fetch(sys: System, s: int, c: int) returns (steps: seq<Step>, states: seq<System>)
    requires var d, e := Owner(sys.configs, c, s), Owner(sys.configs, c + 1, s);
             && d != e && d in sys.groups && e in sys.groups && e in sys.proposed && d in sys.proposed
             && Num(sys, e) == c + 1 && s !in sys.groups[e].available
             && s in sys.groups[e].comeIn && sys.groups[e].comeIn[s] == c && Answers(sys.groups[d], c)
    ensures |steps| == |states| == 3
    ensures Follows(sys, steps[0], states[0]) && Follows(states[0], steps[1], states[1]) && Follows(states[1], steps[2], states[2])
    ensures forall k :: 0 <= k < 3 ==> !(steps[k].Apply? && steps[k].command.Client?)
    ensures var e := Owner(sys.configs, c + 1, s);
            e in states[2].groups && s in states[2].groups[e].available
  {
    hide ShardData, MergeSeqs;
    var d, e := Owner(sys.configs, c, s), Owner(sys.configs, c + 1, s);
    var ask := Ask(e, c, s);
    var s1 := Execute(sys, AskShard(e, s));
    var s2 := Execute(s1, AnswerShard(ask));
    var m := Answer(sys.groups[d], c, s);
    assert s2.groups[e] == sys.groups[e] && UD(m) in s2.proposed[e];
    var s3 := Execute(s2, Apply(e, UD(m)));
    InstallDoes(s2.groups[e], m);
    steps, states := [AskShard(e, s), AnswerShard(ask), Apply(e, UD(m))], [s1, s2, s3];
  }

  lemma Unwritten(b: Behaviour, b': Behaviour, i: nat, s: int)
    requires i <= |b.steps| && |b.states| == |b.steps| + 1 && |b'.states| == |b'.steps| + 1 && |b'.steps| == i + 3
    requires b'.steps[..i] == b.steps[..i] && b'.states[..i + 1] == b.states[..i + 1]
    requires forall k :: i <= k < i + 3 ==> !(b'.steps[k].Apply? && b'.steps[k].command.Client?)
    ensures Writes(b', i + 3, s) == Writes(b, i, s)
  {
    forall k | 0 <= k < i ensures b'.steps[k] == b.steps[k] && b'.states[k] == b.states[k] {
      assert b'.steps[..i][k] == b.steps[..i][k] && b'.states[..i + 1][k] == b.states[..i + 1][k];
    }
    SameWrites(b, b', i, s);
    assert Writes(b', i + 1, s) == Writes(b', i, s) + [];
    assert Writes(b', i + 2, s) == Writes(b', i + 1, s) + [];
    assert Writes(b', i + 3, s) == Writes(b', i + 2, s) + [];
  }

  // ---------- The next configuration ----------

  /** A group that misses nothing can take its next configuration as soon as there is one. */
  lemma ConfigurationAdvances(gids: set<int>, b: Behaviour, i: nat, gid: int) returns (b': Behaviour)
    requires IsRun(gids, b) && i <= |b.steps| && gid in b.states[i].groups
    requires b.states[i].groups[gid].comeIn == map[] && Num(b.states[i], gid) + 1 < |b.states[i].configs|
    ensures IsRun(gids, b') && |b'.steps| == i + 2 && b'.steps[..i] == b.steps[..i] && b'.states[..i + 1] == b.states[..i + 1]
    ensures gid in b'.states[i + 2].groups && Num(b'.states[i + 2], gid) == Num(b.states[i], gid) + 1
  {
    hide Follows, Inv, Init;
    var sys := b.states[i];
    var h := RunHolds(gids, b, i);
    var steps, states := Advance(sys, h, gid);
    b' := Extended(gids, b, i, steps, states);
  }

  lemma Advance(sys: System, h: History, gid: int) returns (steps: seq<Step>, states: seq<System>)
    requires Inv(sys, h) && gid in sys.groups && sys.groups[gid].comeIn == map[] && Num(sys, gid) + 1 < |sys.configs|
    ensures |steps| == |states| == 2 && Follows(sys, steps[0], states[0]) && Follows(states[0], steps[1], states[1])
    ensures gid in states[1].groups && Num(states[1], gid) == Num(sys, gid) + 1
  {
    hide ShardOk, CommandsOk, AsksOk, SetAside, Without, Kept, Wanted;
    assert GroupOk(sys, gid);
    var config := sys.configs[Num(sys, gid) + 1];
    var s1 := Execute(sys, ProposeConfig(gid));
    var s2 := Execute(s1, Apply(gid, UC(config)));
    steps, states := [ProposeConfig(gid), Apply(gid, UC(config))], [s1, s2];
  }

  // ---------- Collecting ----------

  /** A copy that its new owner has marked can be collected: asked for, ordered, and gone. */
  lemma CollectionCompletes(gids: set<int>, b: Behaviour, i: nat, gid: int, num: int, s: int, client: int) returns (b': Behaviour)
    requires IsRun(gids, b) && i <= |b.steps| && gid in b.states[i].groups && s in Garbage(b.states[i].groups[gid].garbages, num)
    requires var d := Owner(b.states[i].configs, num, s);
             d in b.states[i].groups && s in OutOf(b.states[i].groups[d].toOut, num)
    ensures IsRun(gids, b') && |b'.steps| == i + 3 && b'.steps[..i] == b.steps[..i] && b'.states[..i + 1] == b.states[..i + 1]
    ensures var d := Owner(b.states[i].configs, num, s);
            d in b'.states[i + 3].groups && s !in OutOf(b'.states[i + 3].groups[d].toOut, num)
  {
    hide Follows, Inv, Init;
    var sys := b.states[i];
    var h := RunHolds(gids, b, i);
    KeysOf(sys, h);
    var steps, states := CollectSteps(sys, gid, num, s, client);
    b' := Extended(gids, b, i, steps, states);
  }

  lemma KeysOf(sys: System, h: History)
    requires Inv(sys, h)
    ensures sys.proposed.Keys == sys.groups.Keys
  {
  }

  lemma CollectSteps(sys: System, gid: int, num: int, s: int, client: int) returns (steps: seq<Step>, states: seq<System>)
    requires gid in sys.groups && s in Garbage(sys.groups[gid].garbages, num)
    requires var d := Owner(sys.configs, num, s);
             d in sys.groups && d in sys.proposed && s in OutOf(sys.groups[d].toOut, num)
    ensures |steps| == |states| == 3
    ensures Follows(sys, steps[0], states[0]) && Follows(states[0], steps[1], states[1]) && Follows(states[1], steps[2], states[2])
    ensures var d := Owner(sys.configs, num, s);
            d in states[2].groups && s !in OutOf(states[2].groups[d].toOut, num)
  {
    var d, ask := Owner(sys.configs, num, s), Ask(gid, num, s);
    var s1 := Execute(sys, AskCollect(gid, num, s));
    var s2 := Execute(s1, ProposeCollect(ask, client));
    var s3 := Execute(s2, Apply(d, GC(num, s, client)));
    CollectDoes(s2.groups[d], num, s, client);
    steps, states := [AskCollect(gid, num, s), ProposeCollect(ask, client), Apply(d, GC(num, s, client))], [s1, s2, s3];
  }
}
