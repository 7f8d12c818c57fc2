/** Configurations of the sharded store: which group serves which shard. */
module ShardConfig {
  const NSHARDS := 10

  datatype Config = Config(num: int, shards: seq<int>, groups: map<int, seq<string>>)

  function Initial(): Config {
    Config(0, seq(NSHARDS, _ => 0), map[])
  }

  /** Every shard is served by a group of this configuration. */
  predicate Assigned(c: Config) {
    |c.shards| == NSHARDS && forall i :: 0 <= i < NSHARDS ==> c.shards[i] in c.groups
  }

  /** Every shard is served by a group of this configuration or by none (0). */
  predicate PartlyAssigned(c: Config) {
    && |c.shards| == NSHARDS && 0 !in c.groups
    && forall i :: 0 <= i < NSHARDS ==> c.shards[i] == 0 || c.shards[i] in c.groups
  }
}
