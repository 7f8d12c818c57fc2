/** Which client operations a group carries out, said by its log of applied commands alone; and what a group that
    serves a shard answers for a key. */
module ShardRequests {
  import opened ShardConfig
  import opened ShardGroup
  import opened ShardValues
  import opened ShardSystem
  import opened ShardInvariant
  import opened ShardSafety
  import opened ShardSnapshot

  /** Commands that may change the id recorded for a client. */
  predicate Concerns(c: Command, client: int) {
    match c
    case UC(_) => false
    case UD(_) => true
    case GC(_, _, who) => who == client
    case Client(op) => op.client == client
  }

  /** The latest command of a log that concerns the client, or -1. */
  function LatestFor(log: seq<Command>, client: int): (k: int)
    ensures -1 <= k < |log| && (k >= 0 ==> Concerns(log[k], client))
    ensures forall i :: k < i < |log| ==> !Concerns(log[i], client)
  {
    if log == [] then -1
    else if Concerns(log[|log| - 1], client) then |log| - 1
    else LatestFor(log[..|log| - 1], client)
  }

  lemma LatestSnoc(log: seq<Command>, c: Command, client: int)
    ensures LatestFor(log + [c], client) == if Concerns(c, client) then |log| else LatestFor(log, client)
  {
    assert (log + [c])[..|log|] == log;
  }

  /** What the latest command says about the client's recorded id. */
  predicate SaidBy(g: Group, log: seq<Command>, client: int) {
    var k := LatestFor(log, client);
    if k == -1 then client !in g.seqs
    else match log[k]
      case Client(op) => client in g.seqs && g.seqs[client] == op.request
      case _ => true
  }

  lemma ObeySays(g: Group, log: seq<Command>, c: Command, client: int)
    requires SaidBy(g, log, client)
    ensures SaidBy(Obey(g, c), log + [c], client)
  {
    hide ShardData, Without, SetAside, MergeSeqs, Write;
    LatestSnoc(log, c, client);
    var k := LatestFor(log, client);
    assert k >= 0 ==> (log + [c])[k] == log[k];
  }

  lemma OffLogSeqs(s: System, step: Step, gid: int)
    requires Enabled(s, step) && gid in s.groups && !(step.Apply? && step.gid == gid)
    ensures gid in Execute(s, step).groups && Execute(s, step).groups[gid].seqs == s.groups[gid].seqs
  {
  }

  /** In every run, the id a group has recorded for a client is that of the client's latest command in its log,
      unless a shard was installed or collected since. */
  lemma {:induction false} RecordedInLog(gids: set<int>, b: Behaviour, i: nat, gid: int, client: int)
    requires IsRun(gids, b) && i <= |b.steps| && gid in gids
    ensures gid in b.states[i].groups && SaidBy(b.states[i].groups[gid], Applied(b, i, gid), client)
  {
    hide SaidBy, Obey, Enabled;
    if i == 0 {
      FreshSays(gid, client);
    } else {
      var s, step := b.states[i - 1], b.steps[i - 1];
      RecordedInLog(gids, b, i - 1, gid, client);
      assert Follows(s, step, b.states[i]);
      if step.Apply? && step.gid == gid {
        ObeySays(s.groups[gid], Applied(b, i - 1, gid), step.command, client);
      } else {
        OffLogSeqs(s, step, gid);
        SameSays(s.groups[gid], b.states[i].groups[gid], Applied(b, i - 1, gid), client);
      }
    }
  }

  lemma FreshSays(gid: int, client: int)
    ensures SaidBy(Fresh(gid), [], client)
  {
  }

  lemma SameSays(g: Group, g': Group, log: seq<Command>, client: int)
    requires SaidBy(g, log, client) && g'.seqs == g.seqs
    ensures SaidBy(g', log, client)
  {
  }

  /** The data with one value put, or appended to what the key held before. */
  predicate Wrote(before: Data, after: Data, op: Op) {
    && after.Keys == before.Keys + {op.key}
    && after[op.key] == (if op.kind == Append && op.key in before then before[op.key] else "") + op.value
    && forall k <- before :: k != op.key ==> after[k] == before[k]
  }

  /** Over every run: when a group comes to a put or append in its log, with only client commands of that client
      since the last install, it carries the operation out exactly if it serves the shard and the client is new to
      it or the id is above the client's previous one; and what it carries out is what counts as written. */
  lemma CarriedOutIff(gids: set<int>, b: Behaviour, i: nat, gid: int, op: Op)
    requires IsRun(gids, b) && i < |b.steps| && gid in gids && b.steps[i] == Apply(gid, Client(op)) && op.kind != Get
    requires var log := Applied(b, i, gid); var k := LatestFor(log, op.client); k == -1 || log[k].Client?
    ensures gid in b.states[i].groups && gid in b.states[i + 1].groups
    ensures var log := Applied(b, i, gid);
            var k := LatestFor(log, op.client);
            var g, g', s := b.states[i].groups[gid], b.states[i + 1].groups[gid], Key2Shard(op.key);
            if s in g.available && (k == -1 || log[k].op.request < op.request)
            then Wrote(g.db, g'.db, op) && Writes(b, i + 1, s) == Writes(b, i, s) + [op]
            else g'.db == g.db && Writes(b, i + 1, s) == Writes(b, i, s)
  {
    RecordedInLog(gids, b, i, gid, op.client);
    assert Follows(b.states[i], b.steps[i], b.states[i + 1]);
    var g := b.states[i].groups[gid];
    if Effective(g, op) { WriteWrote(g.db, op); }
  }

  lemma WriteWrote(db: Data, op: Op)
    requires op.kind != Get
    ensures Wrote(db, Write(db, op), op)
  {
    assert "" + op.value == op.value;
  }

  /** A get never changes the data. */
  lemma GetsChangeNothing(gids: set<int>, b: Behaviour, i: nat, gid: int, op: Op, s: int)
    requires IsRun(gids, b) && i < |b.steps| && b.steps[i] == Apply(gid, Client(op)) && op.kind == Get
    ensures gid in b.states[i].groups && gid in b.states[i + 1].groups
    ensures b.states[i + 1].groups[gid].db == b.states[i].groups[gid].db && Writes(b, i + 1, s) == Writes(b, i, s)
  {
    assert Follows(b.states[i], b.steps[i], b.states[i + 1]);
    assert Writes(b, i, s) + [] == Writes(b, i, s);
  }

  /** Over every run: the group that serves a shard has for each of its keys the last value put, wherever that was,
      followed by everything appended since, in order; and no key that was never written. */
  lemma ServedValues(gids: set<int>, b: Behaviour, i: nat, gid: int, key: string)
    requires IsRun(gids, b) && i <= |b.steps| && gid in b.states[i].groups && Shard(Key2Shard(key))
    requires Key2Shard(key) in b.states[i].groups[gid].available
    ensures var db, writes := b.states[i].groups[gid].db, Writes(b, i, Key2Shard(key));
            && (key in db <==> exists j :: 0 <= j < |writes| && Names(writes[j], key))
            && (key in db ==> db[key] == ValueOf(writes, key))
  {
    var s, db := Key2Shard(key), b.states[i].groups[gid].db;
    HolderHasAllWrites(gids, b, i, s, gid);
    ReplayIs(Writes(b, i, s), key);
    assert key in db <==> key in ShardData(db, s);
  }
}
