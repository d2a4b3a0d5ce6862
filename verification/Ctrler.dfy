// The shard controller: configuration changes, and the append-only, deduplicated
// history of configurations it replicates.
module Ctrler {
  import opened ShardConfig
  import opened Placement
  import opened RebalanceLoop
  import Raft = RaftCore

  datatype Op =
    | JoinOp(client: nat, seqNum: nat, groups: map<nat, seq<string>>)
    | LeaveOp(client: nat, seqNum: nat, gids: seq<nat>)
    | MoveOp(client: nat, seqNum: nat, shard: nat, gid: nat)
    | NoopOp(client: nat, seqNum: nat)

  ghost predicate WellFormed(c: Config) { |c.shards| == NShards }

  function RemoveAll(groups: map<nat, seq<string>>, gids: seq<nat>): map<nat, seq<string>> {
    map g | g in groups && g !in gids :: groups[g]
  }

  // What an operation makes of the latest configuration.
  ghost predicate Changes(op: Op, c: Config, next: Config) {
    && next.num == c.num + 1
    && match op
       case JoinOp(_, _, groups) =>
         next.groups == c.groups + groups && IsRebalance(c.shards, next.groups.Keys, next.shards)
       case LeaveOp(_, _, gids) =>
         next.groups == RemoveAll(c.groups, gids) && IsRebalance(c.shards, next.groups.Keys, next.shards)
       case MoveOp(_, _, shard, gid) =>
         next.groups == c.groups && shard < |c.shards| && next.shards == c.shards[shard := gid]
       case NoopOp(_, _) => false
  }

  // A map with another's entries copied over it.
  method CopyInto(base: map<nat, seq<string>>, add: map<nat, seq<string>>) returns (groups: map<nat, seq<string>>)
    ensures groups == base + add
  {
    groups := base;
    var todo := add.Keys;
    while todo != {}
      invariant CopiedBut(base, add, todo, groups)
      decreases |todo|
    {
      var g :| g in todo;
      CopyStep(base, add, todo, groups, g);
      groups := groups[g := add[g]];
      todo := todo - {g};
    }
    assert groups == base + add;
  }

  // All of add but `todo` has been copied.
  ghost predicate CopiedBut(
    base: map<nat, seq<string>>, add: map<nat, seq<string>>, todo: set<nat>, groups: map<nat, seq<string>>)
  {
    && todo <= add.Keys
    && (forall g :: g in groups <==> g in base || (g in add && g !in todo))
    && (forall g :: g in groups ==> groups[g] == if g in add && g !in todo then add[g] else base[g])
  }

  lemma CopyStep(
    base: map<nat, seq<string>>, add: map<nat, seq<string>>, todo: set<nat>, groups: map<nat, seq<string>>, g: nat)
    requires CopiedBut(base, add, todo, groups) && g in todo
    ensures CopiedBut(base, add, todo - {g}, groups[g := add[g]])
  {}

  lemma MergedGroups(base: map<nat, seq<string>>, add: map<nat, seq<string>>)
    ensures forall g :: g in base + add <==> g in base || g in add
    ensures forall g :: g in base + add ==> (base + add)[g] == if g in add then add[g] else base[g]
  {}

  method Join(c: Config, newGroups: map<nat, seq<string>>) returns (next: Config)
    ensures Changes(JoinOp(0, 0, newGroups), c, next)
    ensures forall g :: g in next.groups <==> g in c.groups || g in newGroups
    ensures forall g :: g in next.groups ==> next.groups[g] == if g in newGroups then newGroups[g] else c.groups[g]
  {
    var groups := CopyInto(map[], c.groups);
    assert groups == c.groups;
    groups := CopyInto(groups, newGroups);
    MergedGroups(c.groups, newGroups);
    var shards := RebalanceShards(c.shards, groups.Keys);
    return Config(c.num + 1, shards, groups);
  }

  method Leave(c: Config, gids: seq<nat>) returns (next: Config)
    ensures Changes(LeaveOp(0, 0, gids), c, next)
    ensures forall g :: g in next.groups <==> g in c.groups && g !in gids
    ensures forall g :: g in next.groups ==> next.groups[g] == c.groups[g]
  {
    var groups := c.groups;
    for i := 0 to |gids|
      invariant groups == RemoveAll(c.groups, gids[..i])
    {
      assert gids[..i + 1] == gids[..i] + [gids[i]];
      groups := groups - {gids[i]};
    }
    assert gids[..|gids|] == gids;
    var shards := RebalanceShards(c.shards, groups.Keys);
    return Config(c.num + 1, shards, groups);
  }

  method Move(c: Config, shard: nat, gid: nat) returns (next: Config)
    requires shard < |c.shards|
    ensures Changes(MoveOp(0, 0, shard, gid), c, next)
    ensures next.shards[shard] == gid && forall s :: 0 <= s < |c.shards| && s != shard ==> next.shards[s] == c.shards[s]
    ensures Moved(c.shards, next.shards) == if c.shards[shard] == gid then 0 else 1
  {
    next := Config(c.num + 1, c.shards[shard := gid], c.groups);
    OneMoved(c.shards, shard, gid);
  }

  lemma {:induction false} OneMoved(s: Shards, shard: nat, gid: nat)
    requires shard < |s|
    ensures Moved(s, s[shard := gid]) == if s[shard] == gid then 0 else 1
  {
    var n := |s| - 1;
    if shard < n {
      OneMoved(s[..n], shard, gid);
      assert s[shard := gid][..n] == s[..n][shard := gid];
    } else {
      assert s[shard := gid][..n] == s[..n];
      SameAll(s[..n], s[..n]);
    }
  }

  method Change(op: Op, c: Config) returns (next: Config)
    requires !op.NoopOp? && WellFormed(c) && (op.MoveOp? ==> op.shard < NShards)
    ensures Changes(op, c, next) && WellFormed(next)
  {
    match op {
      case JoinOp(_, _, groups) => next := Join(c, groups);
      case LeaveOp(_, _, gids) => next := Leave(c, gids);
      case MoveOp(_, _, shard, gid) => next := Move(c, shard, gid);
    }
  }

  class Controller {
    var configs: seq<Config>
    var duplicateTable: map<nat, nat>
    var noopAppliedTerm: nat

    // Num is the position in the history.
    ghost predicate Valid()
      reads this
    {
      configs != [] && forall i :: 0 <= i < |configs| ==> configs[i].num == i && WellFormed(configs[i])
    }

    constructor ()
      ensures Valid() && configs == [NoConfig] && duplicateTable == map[] && noopAppliedTerm == 0
    {
      configs, duplicateTable, noopAppliedTerm := [NoConfig], map[], 0;
    }

    // One committed entry: a first delivery appends exactly one configuration, a
    // retry none, and nothing already in the history ever changes.
    method ApplyEntry(op: Op, term: nat)
      requires Valid() && (op.MoveOp? ==> op.shard < NShards)
      modifies this
      ensures Valid() && noopAppliedTerm == if op.NoopOp? then term else old(noopAppliedTerm)
      ensures
        var first := op.seqNum > Raft.Get(old(duplicateTable), op.client);
        && duplicateTable == (if first then old(duplicateTable)[op.client := op.seqNum] else old(duplicateTable))
        && old(configs) <= configs
        && |configs| == |old(configs)| + (if first && !op.NoopOp? then 1 else 0)
        && (first && !op.NoopOp? ==> Changes(op, old(configs)[|old(configs)| - 1], configs[|configs| - 1]))
    {
      if op.NoopOp? {
        noopAppliedTerm := term;
      }
      var seen := if op.client in duplicateTable then duplicateTable[op.client] else 0;
      if op.seqNum > seen {
        var latest := configs[|configs| - 1];
        if !op.NoopOp? {
          var next := Change(op, latest);
          configs := configs + [next];
        }
        duplicateTable := duplicateTable[op.client := op.seqNum];
      }
    }

    // The configuration of that number, or the latest for a number out of range.
    method Query(num: int, role: Raft.Role, term: nat) returns (ok: bool, config: Config)
      requires Valid()
      ensures ok <==> role == Raft.Leader && noopAppliedTerm == term
      ensures ok ==> config in configs && config.num == if 0 <= num < |configs| then num else |configs| - 1
    {
      if role != Raft.Leader || noopAppliedTerm != term {
        return false, NoConfig;
      }
      var idx := num;
      if idx < 0 || idx >= |configs| {
        idx := |configs| - 1;
      }
      return true, configs[idx];
    }
  }
}
