/** The shard master: the history of configurations built by Join, Leave and Move. */
module ShardMaster {
  import opened ShardConfig
  import opened ShardBalance

  datatype Command =
    | Join(servers: map<int, seq<string>>)
    | Leave(gids: seq<int>)
    | MoveShard(shard: int, gid: int)

  /** Group ids are positive and Move names an existing group, as the clients do. */
  predicate WellFormed(command: Command, last: Config) {
    match command
    case Join(servers) => forall g :: g in servers ==> g > 0
    case Leave(_) => true
    case MoveShard(shard, gid) => 0 <= shard < NSHARDS && gid in last.groups
  }

  /** Numbered from 0 without gaps; every configuration after the first assigns every shard to
      a group it contains. */
  predicate History(configs: seq<Config>) {
    && configs != [] && configs[0] == Initial()
    && (forall i :: 0 <= i < |configs| ==> configs[i].num == i && PartlyAssigned(configs[i]))
    && (forall i :: 1 <= i < |configs| ==> Assigned(configs[i]))
  }

  function Last(configs: seq<Config>): Config
    requires configs != []
  {
    configs[|configs| - 1]
  }

  /** The groups a command leaves. */
  function GroupsAfter(c: Config, command: Command): map<int, seq<string>> {
    match command
    case Join(servers) => c.groups + servers
    case Leave(gids) => c.groups - set g | g in gids
    case MoveShard(_, _) => c.groups
  }

  /** Who is in the next configuration, group by group. */
  lemma GroupsAfterIs(c: Config, command: Command, g: int)
    ensures g in GroupsAfter(c, command) <==>
            match command
            case Join(servers) => g in c.groups || g in servers
            case Leave(gids) => g in c.groups && g !in gids
            case MoveShard(_, _) => g in c.groups
    ensures g in GroupsAfter(c, command) ==>
            GroupsAfter(c, command)[g] == (if command.Join? && g in command.servers then command.servers[g] else c.groups[g])
  {
  }

  /** A new shard vector that disturbs the old one no more than balance asks for: no group both loses and gains,
      nothing changes if all was assigned and balanced, and only a group above the even share loses anything. */
  predicate Gentle(before: seq<int>, after: seq<int>, groups: set<int>)
    requires |before| == |after| == NSHARDS
  {
    && (forall g <- groups :: Steady(before, after, g))
    && ((forall i :: 0 <= i < NSHARDS ==> before[i] in groups) && Balanced(before, groups) ==> after == before)
    && (forall i :: 0 <= i < NSHARDS && before[i] in groups && after[i] != before[i] && |groups| > 0 ==>
          Load(before, before[i]) > Load(after, before[i]) >= NSHARDS / |groups|)
  }

  lemma {:induction false} LoadSame(a: seq<int>, b: seq<int>, g: int)
    requires |a| == |b| && forall i :: 0 <= i < |a| ==> (a[i] == g <==> b[i] == g)
    ensures Load(a, g) == Load(b, g)
  {
    if a != [] { LoadSame(a[1..], b[1..], g); }
  }

  /** Freeing the shards of groups that leave does not matter to the others. */
  lemma GentleFreed(before: seq<int>, freed: seq<int>, after: seq<int>, groups: set<int>)
    requires |before| == |freed| == |after| == NSHARDS && groups != {} && 0 !in groups
    requires forall i :: 0 <= i < NSHARDS ==> freed[i] == if before[i] in groups then before[i] else 0
    requires forall g <- groups :: Steady(freed, after, g)
    requires 0 !in freed && Balanced(freed, groups) ==> after == freed
    requires forall i :: 0 <= i < NSHARDS && freed[i] != 0 && after[i] != freed[i] ==>
               Load(freed, freed[i]) > Load(after, freed[i]) >= NSHARDS / |groups|
    ensures Gentle(before, after, groups)
  {
    hide Load, Balanced;
    forall g | g in groups ensures Load(before, g) == Load(freed, g) && Steady(before, after, g) { LoadSame(before, freed, g); }
    if forall i :: 0 <= i < NSHARDS ==> before[i] in groups { assert before == freed; }
  }

  class Master {
    var configs: seq<Config>

    constructor ()
      ensures configs == [Initial()] && History(configs)
    {
      configs := [Initial()];
    }

    /** Applies one committed command. It appends one configuration, or none if no group would
        be left; Join and Leave leave the load balanced, Move changes its one shard alone. */
    method Apply(command: Command)
      requires History(configs) && WellFormed(command, Last(configs))
      modifies this
      ensures History(configs) && old(configs) <= configs
      ensures GroupsAfter(Last(old(configs)), command).Keys == {} ==> configs == old(configs)
      ensures GroupsAfter(Last(old(configs)), command).Keys != {} ==>
                && |configs| == |old(configs)| + 1
                && Last(configs).groups == GroupsAfter(Last(old(configs)), command)
                && (if command.MoveShard?
                    then Last(configs).shards == Last(old(configs)).shards[command.shard := command.gid]
                    else Balanced(Last(configs).shards, Last(configs).groups.Keys)
                         && Gentle(Last(old(configs)).shards, Last(configs).shards, Last(configs).groups.Keys))
    {
      hide Balanced, Gentle;
      var config := configs[|configs| - 1];
      config := config.(num := config.num + 1);
      match command
      case Join(servers) =>
        config := config.(groups := config.groups + servers);
        if config.groups.Keys == {} { return; }
        AppendBalanced(config, config.shards);
      case Leave(gids) =>
        var gone := set g | g in gids;
        config := config.(groups := config.groups - gone);
        var shards := FreeShards(config.shards, gone);
        if config.groups.Keys == {} { return; }
        AppendBalanced(config.(shards := shards), config.shards);
      case MoveShard(shard, gid) =>
        configs := configs + [config.(shards := config.shards[shard := gid])];
    }

    /** Appends the configuration with its shards rebalanced; `before` is who served them. */
    method AppendBalanced(config: Config, ghost before: seq<int>)
      requires History(configs) && config.num == |configs| && PartlyAssigned(config) && config.groups.Keys != {}
      requires |before| == NSHARDS
      requires forall i :: 0 <= i < NSHARDS ==> config.shards[i] == if before[i] in config.groups then before[i] else 0
      modifies this
      ensures History(configs) && |configs| == |old(configs)| + 1 && old(configs) <= configs
      ensures Last(configs).groups == config.groups
      ensures Balanced(Last(configs).shards, config.groups.Keys) && Gentle(before, Last(configs).shards, config.groups.Keys)
    {
      hide Load, Balanced, Steady, Gentle;
      var shards := BalanceWorkLoad(config);
      assert |config.groups| == |config.groups.Keys|;
      GentleFreed(before, config.shards, shards, config.groups.Keys);
      configs := configs + [config.(shards := shards)];
    }

    /** Takes the shards away from the groups that leave. */
    method FreeShards(before: seq<int>, gone: set<int>) returns (shards: seq<int>)
      requires |before| == NSHARDS
      ensures |shards| == NSHARDS
      ensures forall k :: 0 <= k < NSHARDS ==> shards[k] == if before[k] in gone then 0 else before[k]
    {
      shards := before;
      for i := 0 to NSHARDS
        invariant |shards| == NSHARDS
        invariant forall k :: 0 <= k < NSHARDS ==> shards[k] == if k < i && before[k] in gone then 0 else before[k]
      {
        if shards[i] in gone { shards := shards[i := 0]; }
      }
    }

    /** A query: the numbered configuration, or the newest for -1 and numbers not yet reached. */
    method Query(num: int) returns (c: Config)
      requires History(configs) && num >= -1
      ensures 0 <= num < |configs| ==> c == configs[num] && c.num == num
      ensures num == -1 || num >= |configs| ==> c == Last(configs) && c.num == |configs| - 1
    {
      if num >= |configs| || num == -1 { c := configs[|configs| - 1]; } else { c := configs[num]; }
    }
  }
}
