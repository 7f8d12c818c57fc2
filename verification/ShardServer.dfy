/** The shard server as the original runs it: maps and sets changed in place, element by
    element. Every method is the corresponding function of ShardGroup on the state. */
module ShardServer {
  import opened Basics
  import opened ShardConfig
  import opened ShardGroup

  /** The shards below `i` that are kept, and those that have to be pulled. */
  function KeptTo(g: Group, config: Config, i: int): set<int> {
    set k | k in Kept(g, config) && k < i
  }

  function WantedTo(g: Group, config: Config, i: int): map<int, int> {
    map k | k in Wanted(g, config) && k < i :: g.config.num
  }

  lemma SortShard(g: Group, config: Config, i: int)
    requires 0 <= i < |config.shards|
    ensures var mine := config.shards[i] == g.gid;
            var have := i in g.available || g.config.num == 0;
            && i !in KeptTo(g, config, i)
            && KeptTo(g, config, i + 1) == (if mine && have then KeptTo(g, config, i) + {i} else KeptTo(g, config, i))
            && WantedTo(g, config, i + 1) ==
               (if mine && !have then WantedTo(g, config, i)[i := g.config.num] else WantedTo(g, config, i))
  {
  }

  lemma SortEnds(g: Group, config: Config)
    ensures KeptTo(g, config, 0) == {} && WantedTo(g, config, 0) == map[]
    ensures KeptTo(g, config, |config.shards|) == Kept(g, config)
    ensures WantedTo(g, config, |config.shards|) == Wanted(g, config)
  {
  }

  /** Setting one more shard aside. */
  lemma AsideStep(toOut: map<int, map<int, Data>>, num: int, db: Data, done: set<int>, shard: int)
    requires shard !in done
    ensures var aside := SetAside(toOut, num, db, done);
            && ShardData(Without(db, done), shard) == ShardData(db, shard)
            && aside[num := OutOf(aside, num)[shard := ShardData(db, shard)]] == SetAside(toOut, num, db, done + {shard})
  {
    assert Leaving(db, done + {shard}) == Leaving(db, done)[shard := ShardData(db, shard)];
    AsideMaps(toOut, num, done == {}, Leaving(db, done), shard, ShardData(db, shard));
    hide Leaving, ShardData, Without;
  }

  lemma WithoutMore(db: Data, done: set<int>, shard: int)
    ensures Without(Without(db, done), {shard}) == Without(db, done + {shard})
  {
  }

  lemma AsideMaps(toOut: map<int, map<int, Data>>, num: int, none: bool, leaving: map<int, Data>, shard: int, data: Data)
    requires none ==> leaving == map[]
    ensures var aside := if none then toOut else toOut[num := OutOf(toOut, num) + leaving];
            aside[num := OutOf(aside, num)[shard := data]] == toOut[num := OutOf(toOut, num) + leaving[shard := data]]
  {
    var out := OutOf(toOut, num);
    assert (out + leaving)[shard := data] == out + leaving[shard := data];
    if none { assert out + leaving == out; }
  }

  lemma SetSteps(all: set<int>, kept: set<int>, i: int)
    ensures all - kept - {i} == all - (kept + {i})
  {
  }

  lemma MapStep(a: map<int, int>, b: map<int, int>, k: int, v: int)
    ensures (a + b)[k := v] == a + b[k := v]
  {
  }

  lemma MergeStep(mine: map<int, int>, theirs: map<int, int>, rest: set<int>, client: int)
    requires client in rest && rest <= theirs.Keys
    ensures var merged := MergeSeqs(mine, theirs - rest);
            merged[client := Max(Seq(merged, client), theirs[client])] == MergeSeqs(mine, theirs - (rest - {client}))
  {
  }

  lemma MergeNothing(mine: map<int, int>, theirs: map<int, int>)
    ensures MergeSeqs(mine, theirs - theirs.Keys) == mine
  {
  }

  class ShardKv {
    const gid: int
    var config: Config
    var db: Data
    var seqs: map<int, int>
    var comeIn: map<int, int>
    var toOut: map<int, map<int, Data>>
    var available: set<int>
    var garbages: map<int, set<int>>

    function State(): Group
      reads this
    {
      Group(gid, config, db, seqs, comeIn, toOut, available, garbages)
    }

    constructor (gid: int)
      ensures State() == Fresh(gid)
    {
      this.gid := gid;
      config := Initial();
      db, seqs, comeIn, toOut, available, garbages := map[], map[], map[], map[], {}, map[];
    }

    /** UC: sort the new configuration's shards, then set aside the data of those that leave. */
    method UpdateComeInAndOutShards(newConfig: Config)
      modifies this
      ensures State() == UpdateConfig(old(State()), newConfig)
    {
      if newConfig.num <= config.num { return; }
      var oldNum := config.num;
      var leaving := SortShards(newConfig);
      config := newConfig;
      SetLeavingAside(leaving, oldNum);
    }

    /** Goes through the shards of a configuration: what is kept becomes available again, what
        is new has to come in; the shards that are left over leave. */
    method SortShards(newConfig: Config) returns (leaving: set<int>)
      modifies this`available, this`comeIn
      ensures available == Kept(old(State()), newConfig)
      ensures comeIn == old(comeIn) + Wanted(old(State()), newConfig)
      ensures leaving == old(available) - available
    {
      ghost var g := State();
      leaving := available;
      available := {};
      SortEnds(g, newConfig);
      hide Kept, Wanted, KeptTo, WantedTo;
      for i := 0 to |newConfig.shards|
        invariant available == KeptTo(g, newConfig, i)
        invariant comeIn == g.comeIn + WantedTo(g, newConfig, i)
        invariant leaving == g.available - available
      {
        SortShard(g, newConfig, i);
        if newConfig.shards[i] == gid {
          if i in leaving || config.num == 0 {
            SetSteps(g.available, available, i);
            leaving := leaving - {i};
            available := available + {i};
          } else {
            MapStep(g.comeIn, WantedTo(g, newConfig, i), i, config.num);
            comeIn := comeIn[i := config.num];
          }
        }
      }
    }

    method SetLeavingAside(leaving: set<int>, num: int)
      modifies this`db, this`toOut
      ensures db == Without(old(db), leaving)
      ensures toOut == SetAside(old(toOut), num, old(db), leaving)
    {
      var rest := leaving;
      assert db == Without(db, {});
      assert leaving - rest == {};
      while rest != {}
        invariant rest <= leaving
        invariant db == Without(old(db), leaving - rest)
        invariant toOut == SetAside(old(toOut), num, old(db), leaving - rest)
        decreases |rest|
      {
        hide Without, ShardData, SetAside;
        Inhabited(rest);
        var shard :| shard in rest;
        AsideStep(old(toOut), num, old(db), leaving - rest, shard);
        WithoutMore(old(db), leaving - rest, shard);
        assert leaving - (rest - {shard}) == leaving - rest + {shard};
        var data := TakeShard(shard);
        toOut := toOut[num := OutOf(toOut, num)[shard := data]];
        rest := rest - {shard};
      }
      assert leaving - rest == leaving;
    }

    /** Moves the entries of one shard out of the database. */
    method TakeShard(shard: int) returns (data: Data)
      modifies this`db
      ensures data == ShardData(old(db), shard) && db == Without(old(db), {shard})
    {
      data := map[];
      var backup := db;
      var rest := backup.Keys;
      while rest != {}
        invariant rest <= backup.Keys
        invariant data == map k | k in backup && k !in rest && Key2Shard(k) == shard :: backup[k]
        invariant db == map k | k in backup && (k in rest || Key2Shard(k) != shard) :: backup[k]
        decreases |rest|
      {
        InhabitedBy(rest);
        var key :| key in rest;
        if Key2Shard(key) == shard {
          data := data[key := backup[key]];
          db := db - {key};
        }
        rest := rest - {key};
      }
    }

    /** UD: installs a pulled shard unless it is already served. */
    method UpdateDataBaseWithMigrateReply(m: Migration)
      modifies this
      ensures State() == InstallShard(old(State()), m)
    {
      if m.num != config.num - 1 { return; }
      comeIn := comeIn - {m.shard};
      if m.shard !in available {
        InsertAll(m.data);
        MergeRequests(m.seqs);
        available := available + {m.shard};
        garbages := garbages[m.num := Garbage(garbages, m.num) + {m.shard}];
      }
    }

    /** Inserts entries without overwriting. */
    method InsertAll(data: Data)
      modifies this`db
      ensures db == data + old(db)
    {
      var rest := data.Keys;
      while rest != {}
        invariant rest <= data.Keys
        invariant db == (data - rest) + old(db)
        decreases |rest|
      {
        InhabitedBy(rest);
        var key :| key in rest;
        if key !in db { db := db[key := data[key]]; }
        rest := rest - {key};
      }
      assert data - {} == data;
    }

    method MergeRequests(theirs: map<int, int>)
      modifies this`seqs
      ensures seqs == MergeSeqs(old(seqs), theirs)
    {
      hide MergeSeqs;
      var rest := theirs.Keys;
      MergeNothing(seqs, theirs);
      while rest != {}
        invariant rest <= theirs.Keys
        invariant seqs == MergeSeqs(old(seqs), theirs - rest)
        decreases |rest|
      {
        Inhabited(rest);
        var client :| client in rest;
        MergeStep(old(seqs), theirs, rest, client);
        seqs := seqs[client := Max(Seq(seqs, client), theirs[client])];
        rest := rest - {client};
      }
      assert theirs - {} == theirs;
    }

    /** A pull by another group: refused until this one is past the configuration asked for. */
    method ShardMigration(num: int, shard: int) returns (reply: Option<Migration>)
      modifies this`toOut
      ensures !Answers(old(State()), num) ==> reply == None && State() == old(State())
      ensures Answers(old(State()), num) ==>
                reply == Some(Answer(old(State()), num, shard)) && State() == AfterAnswer(old(State()), num, shard)
    {
      if num >= config.num { return None; }
      if num !in toOut { toOut := toOut[num := map[]]; }
      if shard !in toOut[num] { toOut := toOut[num := toOut[num][shard := map[]]]; }
      reply := Some(Migration(num, shard, toOut[num][shard], seqs));
    }

    method ClearToOutData(num: int, shard: int)
      modifies this`toOut
      ensures State() == ClearOut(old(State()), num, shard)
    {
      if num in toOut {
        toOut := toOut[num := toOut[num] - {shard}];
        if toOut[num] == map[] { toOut := toOut - {num}; }
      }
    }

    method ApplyOperation(op: Op)
      modifies this`seqs, this`db
      ensures State() == ApplyOp(old(State()), op)
    {
      var seen := op.client in seqs;
      var previous := if seen then seqs[op.client] else 0;
      seqs := seqs[op.client := op.request];
      if Key2Shard(op.key) in available {
        if op.kind == Put || op.kind == Append {
          if !seen || previous < op.request {
            if op.kind == Put {
              db := db[op.key := op.value];
            } else if op.key in db {
              db := db[op.key := db[op.key] + op.value];
            } else {
              db := db[op.key := op.value];
            }
          }
        }
      }
    }
  }
}
