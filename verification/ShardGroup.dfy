/** One group of the sharded store as a value, and what each command of its Raft log does to
    it. The class in ShardServer.dfy carries the same commands out with the original's loops. */
module ShardGroup {
  import opened ShardConfig

  type Data = map<string, string>

  datatype Group = Group(
    gid: int,
    config: Config,
    db: Data,
    seqs: map<int, int>,
    comeIn: map<int, int>,
    toOut: map<int, map<int, Data>>,
    available: set<int>,
    garbages: map<int, set<int>>)

  function Fresh(gid: int): Group {
    Group(gid, Initial(), map[], map[], map[], map[], {}, map[])
  }

  /** A shard's data on its way to a new owner: the reply of a pull. */
  datatype Migration = Migration(num: int, shard: int, data: Data, seqs: map<int, int>)

  datatype Kind = Put | Append | Get

  datatype Op = Op(kind: Kind, key: string, value: string, client: int, request: int)

  // ---------- Keys and shards ----------

  /** The original's %: truncating, so negative for a negative dividend. */
  function Remainder(a: int, b: int): int
    requires b > 0
  {
    if a >= 0 then a % b else -((-a) % b)
  }

  function Key2Shard(key: string): int {
    Remainder(if key == "" then 0 else key[0] as int - 'a' as int, NSHARDS)
  }

  /** The entries of one shard. */
  function ShardData(db: Data, s: int): Data {
    map k | k in db && Key2Shard(k) == s :: db[k]
  }

  function Without(db: Data, out: set<int>): Data {
    map k | k in db && Key2Shard(k) !in out :: db[k]
  }

  // ---------- UC: a new configuration ----------

  /** The shards of `config` the group goes on serving without asking for them. */
  function Kept(g: Group, config: Config): set<int> {
    set i | 0 <= i < |config.shards| && config.shards[i] == g.gid && (i in g.available || g.config.num == 0)
  }

  /** The shards it has to pull, with the number of the configuration to pull them from. */
  function Wanted(g: Group, config: Config): map<int, int> {
    map i | 0 <= i < |config.shards| && config.shards[i] == g.gid && i !in Kept(g, config) :: g.config.num
  }

  function OutOf(toOut: map<int, map<int, Data>>, num: int): map<int, Data> {
    if num in toOut then toOut[num] else map[]
  }

  function Leaving(db: Data, out: set<int>): map<int, Data> {
    map s | s in out :: ShardData(db, s)
  }

  /** The outgoing data once the shards `out` have been set aside under configuration `num`. */
  function SetAside(toOut: map<int, map<int, Data>>, num: int, db: Data, out: set<int>): map<int, map<int, Data>> {
    if out == {} then toOut else toOut[num := OutOf(toOut, num) + Leaving(db, out)]
  }

  function UpdateConfig(g: Group, config: Config): Group {
    if config.num <= g.config.num then g
    else
      var kept := Kept(g, config);
      var out := g.available - kept;
      g.(config := config,
         available := kept,
         comeIn := g.comeIn + Wanted(g, config),
         db := Without(g.db, out),
         toOut := SetAside(g.toOut, g.config.num, g.db, out))
  }

  // ---------- UD: a pulled shard ----------

  function Seq(seqs: map<int, int>, client: int): int {
    if client in seqs then seqs[client] else 0
  }

  function Max(a: int, b: int): int {
    if a < b then b else a
  }

  function MergeSeqs(mine: map<int, int>, theirs: map<int, int>): map<int, int> {
    mine + map c | c in theirs :: Max(Seq(mine, c), theirs[c])
  }

  function Garbage(garbages: map<int, set<int>>, num: int): set<int> {
    if num in garbages then garbages[num] else {}
  }

  function InstallShard(g: Group, m: Migration): Group {
    if m.num != g.config.num - 1 then g
    else if m.shard in g.available then g.(comeIn := g.comeIn - {m.shard})
    else
      g.(comeIn := g.comeIn - {m.shard},
         db := m.data + g.db,
         seqs := MergeSeqs(g.seqs, m.seqs),
         available := g.available + {m.shard},
         garbages := g.garbages[m.num := Garbage(g.garbages, m.num) + {m.shard}])
  }

  // ---------- Answering a pull ----------

  /** A pull is answered once the group is past the configuration asked for. Looking the shard
      up creates an empty entry if there is none. */
  predicate Answers(g: Group, num: int) {
    num < g.config.num
  }

  function AfterAnswer(g: Group, num: int, shard: int): Group {
    var out := OutOf(g.toOut, num);
    g.(toOut := g.toOut[num := if shard in out then out else out[shard := map[]]])
  }

  function Answer(g: Group, num: int, shard: int): Migration {
    Migration(num, shard, OutOf(AfterAnswer(g, num, shard).toOut, num)[shard], g.seqs)
  }

  // ---------- GC and client operations ----------

  function Record(g: Group, client: int, request: int): Group {
    g.(seqs := g.seqs[client := request])
  }

  function ClearOut(g: Group, num: int, shard: int): Group {
    if num !in g.toOut then g
    else
      var rest := g.toOut[num] - {shard};
      g.(toOut := if rest == map[] then g.toOut - {num} else g.toOut[num := rest])
  }

  function Write(db: Data, op: Op): Data {
    match op.kind
    case Put => db[op.key := op.value]
    case Append => db[op.key := if op.key in db then db[op.key] + op.value else op.value]
    case Get => db
  }

  /** The data after these operations, one after another. */
  function Replay(writes: seq<Op>): Data {
    if writes == [] then map[] else Write(Replay(writes[..|writes| - 1]), writes[|writes| - 1])
  }

  /** Whether a client operation changes the data. */
  predicate Effective(g: Group, op: Op) {
    && Key2Shard(op.key) in g.available
    && op.kind != Get
    && (op.client !in g.seqs || g.seqs[op.client] < op.request)
  }

  function ApplyOp(g: Group, op: Op): Group {
    var g' := Record(g, op.client, op.request);
    if Effective(g, op) then g'.(db := Write(g.db, op)) else g'
  }

  function ApplyGC(g: Group, num: int, shard: int, client: int): Group {
    ClearOut(Record(g, client, shard), num, shard)
  }
}
