/** All groups and the configuration history as one state machine.

    Each group is one state machine fed by its Raft log. A proposal stays proposed and may be
    applied at any later time and any number of times, which covers lagging leaders, retries
    and duplicates; so do pull and garbage requests. */
module ShardSystem {
  import opened ShardConfig
  import opened ShardGroup
  import Master = ShardMaster

  datatype Command =
    | UC(config: Config)
    | UD(migration: Migration)
    | GC(num: int, shard: int, client: int)
    | Client(op: Op)

  datatype Ask = Ask(gid: int, num: int, shard: int)

  datatype System = System(
    configs: seq<Config>,
    groups: map<int, Group>,
    proposed: map<int, set<Command>>,
    pulls: set<Ask>,
    collects: set<Ask>)

  datatype Step =
    | NewConfig(config: Config)
    | ProposeConfig(gid: int)
    | AskShard(gid: int, shard: int)
    | AnswerShard(ask: Ask)
    | AskCollect(gid: int, num: int, shard: int)
    | ProposeCollect(ask: Ask, client: int)
    | ForgetGarbage(gid: int, num: int, shard: int)
    | ProposeOp(gid: int, op: Op)
    | Apply(gid: int, command: Command)

  function Init(gids: set<int>): System {
    System([Initial()], map g | g in gids :: Fresh(g), map g | g in gids :: {}, {}, {})
  }

  /** The group that serves a shard in a configuration; 0 if there is none. */
  function Owner(configs: seq<Config>, num: int, shard: int): int {
    if 0 <= num < |configs| && 0 <= shard < |configs[num].shards| then configs[num].shards[shard] else 0
  }

  predicate Known(s: System, num: int, shard: int) {
    Owner(s.configs, num, shard) in s.groups && Owner(s.configs, num, shard) in s.proposed
  }

  predicate Enabled(s: System, step: Step) {
    match step
    case NewConfig(config) =>
      Master.History(s.configs + [config]) && config.groups.Keys <= s.groups.Keys
    case ProposeConfig(gid) =>
      gid in s.groups && gid in s.proposed && s.groups[gid].comeIn == map[]
      && 0 <= s.groups[gid].config.num + 1 < |s.configs|
    case AskShard(gid, shard) =>
      gid in s.groups && shard in s.groups[gid].comeIn
    case AnswerShard(ask) =>
      ask in s.pulls && ask.gid in s.proposed && Known(s, ask.num, ask.shard)
      && Answers(s.groups[Owner(s.configs, ask.num, ask.shard)], ask.num)
    case AskCollect(gid, num, shard) =>
      gid in s.groups && shard in Garbage(s.groups[gid].garbages, num)
    case ProposeCollect(ask, client) =>
      ask in s.collects && Known(s, ask.num, ask.shard)
      && ask.shard in OutOf(s.groups[Owner(s.configs, ask.num, ask.shard)].toOut, ask.num)
    case ForgetGarbage(gid, num, shard) =>
      gid in s.groups && num in s.groups[gid].garbages
    case ProposeOp(gid, op) =>
      gid in s.proposed
    case Apply(gid, command) =>
      gid in s.groups && gid in s.proposed && command in s.proposed[gid]
  }

  function Propose(s: System, gid: int, command: Command): System
    requires gid in s.proposed
  {
    s.(proposed := s.proposed[gid := s.proposed[gid] + {command}])
  }

  function Obey(g: Group, command: Command): Group {
    match command
    case UC(config) => UpdateConfig(g, config)
    case UD(migration) => InstallShard(g, migration)
    case GC(num, shard, client) => ApplyGC(g, num, shard, client)
    case Client(op) => ApplyOp(g, op)
  }

  function Forget(garbages: map<int, set<int>>, num: int, shard: int): map<int, set<int>>
    requires num in garbages
  {
    var rest := garbages[num] - {shard};
    if rest == {} then garbages - {num} else garbages[num := rest]
  }

  function Execute(s: System, step: Step): System
    requires Enabled(s, step)
  {
    match step
    case NewConfig(config) => s.(configs := s.configs + [config])
    case ProposeConfig(gid) => Propose(s, gid, UC(s.configs[s.groups[gid].config.num + 1]))
    case AskShard(gid, shard) =>
      s.(pulls := s.pulls + {Ask(gid, s.groups[gid].comeIn[shard], shard)})
    case AnswerShard(ask) =>
      var donor := Owner(s.configs, ask.num, ask.shard);
      var s' := Propose(s, ask.gid, UD(Answer(s.groups[donor], ask.num, ask.shard)));
      s'.(groups := s.groups[donor := AfterAnswer(s.groups[donor], ask.num, ask.shard)])
    case AskCollect(gid, num, shard) => s.(collects := s.collects + {Ask(gid, num, shard)})
    case ProposeCollect(ask, client) =>
      Propose(s, Owner(s.configs, ask.num, ask.shard), GC(ask.num, ask.shard, client))
    case ForgetGarbage(gid, num, shard) =>
      var g := s.groups[gid];
      s.(groups := s.groups[gid := g.(garbages := Forget(g.garbages, num, shard))])
    case ProposeOp(gid, op) => Propose(s, gid, Client(op))
    case Apply(gid, command) => s.(groups := s.groups[gid := Obey(s.groups[gid], command)])
  }

  datatype Behaviour = Behaviour(states: seq<System>, steps: seq<Step>)

  predicate Follows(s: System, step: Step, s': System) {
    Enabled(s, step) && s' == Execute(s, step)
  }

  predicate IsRun(gids: set<int>, b: Behaviour) {
    && |b.states| == |b.steps| + 1
    && b.states[0] == Init(gids)
    && forall i :: 0 <= i < |b.steps| ==> Follows(b.states[i], b.steps[i], b.states[i + 1])
  }

  // ---------- What was written ----------

  /** The writes a step makes to a shard: those of a client operation applied with effect. */
  function WritesOf(s: System, step: Step, shard: int): seq<Op> {
    if step.Apply? && step.command.Client? && step.gid in s.groups
       && Effective(s.groups[step.gid], step.command.op) && Key2Shard(step.command.op.key) == shard
    then [step.command.op] else []
  }

  /** The writes to a shard in the first `i` steps of a run, wherever it was served. */
  function Writes(b: Behaviour, i: nat, shard: int): seq<Op>
    requires i <= |b.steps| && |b.states| == |b.steps| + 1
  {
    if i == 0 then [] else Writes(b, i - 1, shard) + WritesOf(b.states[i - 1], b.steps[i - 1], shard)
  }
}
