// Configurations: which group owns each shard, under a version number.
module ShardConfig {

  // Group id 0 means "no group".
  datatype Config = Config(num: nat, shards: seq<nat>, groups: map<nat, seq<string>>)

  const NShards: nat := 10

  const NoConfig := Config(0, [0, 0, 0, 0, 0, 0, 0, 0, 0, 0], map[])

  function Owner(c: Config, shard: nat): nat {
    if shard < |c.shards| then c.shards[shard] else 0
  }
}
