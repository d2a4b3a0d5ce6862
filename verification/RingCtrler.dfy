// The ring controller: a replicated history of ring configurations in which
// every operation is judged when it is applied and the verdict is remembered.
module RingCtrler {
  import opened HashRing
  import opened RingConfig
  import Raft = RaftCore

  // Unset is the zero value: what a retry numbered 0 of an unknown client gets.
  datatype Verdict = OK | ErrInvalidArgs | Unset

  datatype Op =
    | InitOp(client: nat, seqNum: nat, ring: Ring, groups: map<nat, seq<string>>)
    | SplitOp(client: nat, seqNum: nat, shard: int, point: Point)
    | MoveOp(client: nat, seqNum: nat, shard: int, gid: nat)
    | NoopOp(client: nat, seqNum: nat)

  datatype Remembered = Remembered(seqNum: nat, verdict: Verdict)

  // Numbered by position; after the empty first one, all well formed over the
  // groups the history was initialised with.
  ghost predicate HistoryOK(configs: seq<Config>) {
    && configs != [] && configs[0] == Zero
    && (forall i :: 0 <= i < |configs| ==> configs[i].num == i)
    && (forall i :: 0 < i < |configs| ==> WellFormed(configs[i]) && configs[i].groups == configs[1].groups)
  }

  // With an address for every group, every configuration ever served routes.
  lemma HistoryRoutes(configs: seq<Config>, i: nat)
    requires HistoryOK(configs) && 0 < i < |configs|
    requires forall g :: g in configs[1].groups ==> configs[1].groups[g] != []
    ensures Routable(configs[i])
  {
    RoutableIff(configs[i]);
  }

  // What an accepted operation appends.
  ghost predicate Extends(op: Op, cur: Config, next: Config) {
    match op
    case InitOp(_, _, ring, groups) =>
      cur.num == 0 && Routable(next) && next.num == 1 && next.ring == ring && next.groups == groups
    case SplitOp(_, _, shard, p) => SplitConfig(cur, shard, p) == Ok(next)
    case MoveOp(_, _, shard, gid) => MoveRingShard(cur, shard, gid) == Ok(next)
    case NoopOp(_, _) => false
  }

  // What must be accepted.
  ghost predicate Acceptable(op: Op, cur: Config) {
    match op
    case InitOp(_, _, ring, groups) =>
      && cur.num == 0 && HashRing.Valid(ring) && groups != map[]
      && forall g :: g in groups ==> groups[g] != []
    case SplitOp(_, _, shard, p) => SplitConfig(cur, shard, p).Ok?
    case MoveOp(_, _, shard, gid) => MoveRingShard(cur, shard, gid).Ok?
    case NoopOp(_, _) => true
  }

  lemma ExtendsHistory(op: Op, configs: seq<Config>, next: Config)
    requires HistoryOK(configs) && Extends(op, configs[|configs| - 1], next)
    ensures HistoryOK(configs + [next])
  {
    var cur := configs[|configs| - 1];
    var longer := configs + [next];
    match op {
      case InitOp(_, _, _, _) =>
        RoutableIsWellFormed(next);
      case SplitOp(_, _, shard, p) =>
        SplitKeeps(cur, shard, p);
      case MoveOp(_, _, shard, gid) =>
        MoveChangesOneShard(cur, shard, gid, 0);
      case NoopOp(_, _) =>
    }
    forall i | 0 <= i < |longer| ensures longer[i].num == i {}
    forall i | 0 < i < |longer| ensures WellFormed(longer[i]) && longer[i].groups == longer[1].groups {}
  }

  class Controller {
    var configs: seq<Config>
    var duplicateTable: map<nat, Remembered>
    var noopAppliedTerm: nat

    ghost predicate Valid()
      reads this
    {
      HistoryOK(configs)
    }

    constructor ()
      ensures Valid() && configs == [Zero] && duplicateTable == map[] && noopAppliedTerm == 0
    {
      configs, duplicateTable, noopAppliedTerm := [Zero], map[], 0;
    }

    // Accepted operations append exactly one configuration; refused ones none.
    method ApplyOp(op: Op) returns (verdict: Verdict)
      requires Valid()
      modifies this`configs
      ensures Valid()
      ensures
        var cur := old(configs)[|old(configs)| - 1];
        if verdict == OK && !op.NoopOp? then
          |configs| == |old(configs)| + 1 && old(configs) <= configs && Extends(op, cur, configs[|configs| - 1])
        else configs == old(configs)
      ensures Acceptable(op, old(configs)[|old(configs)| - 1]) ==> verdict == OK
    {
      var cur := configs[|configs| - 1];
      var next: Result<Config>;
      match op {
        case InitOp(_, _, ring, groups) =>
          if cur.num != 0 {
            return ErrInvalidArgs;
          }
          next := NewRingConfig(ring, groups);
        case SplitOp(_, _, shard, p) => next := Divide(cur, shard, p);
        case MoveOp(_, _, shard, gid) => next := Reassign(cur, shard, gid);
        case NoopOp(_, _) => return OK;
      }
      if next.Err? {
        return ErrInvalidArgs;
      }
      ExtendsHistory(op, configs, next.value);
      configs := configs + [next.value];
      return OK;
    }

    // One committed entry.  A retry gets the verdict of its first delivery.
    method ApplyEntry(op: Op, term: nat) returns (verdict: Verdict)
      requires Valid()
      modifies this
      ensures Valid() && old(configs) <= configs
      ensures noopAppliedTerm == if op.NoopOp? then term else old(noopAppliedTerm)
      ensures
        var seen := old(duplicateTable);
        var last := if op.client in seen then seen[op.client] else Remembered(0, Unset);
        var retry := !op.NoopOp? && op.seqNum <= last.seqNum;
        && (retry ==> verdict == last.verdict && configs == old(configs) && duplicateTable == seen)
        && (op.NoopOp? ==> configs == old(configs) && duplicateTable == seen)
        && (!retry && !op.NoopOp? ==>
              && duplicateTable == seen[op.client := Remembered(op.seqNum, verdict)]
              && |configs| == |old(configs)| + (if verdict == OK then 1 else 0))
    {
      if op.NoopOp? {
        noopAppliedTerm := term;
      }
      var d := if op.client in duplicateTable then duplicateTable[op.client] else Remembered(0, Unset);
      if !op.NoopOp? && op.seqNum <= d.seqNum {
        verdict := d.verdict;
      } else {
        verdict := ApplyOp(op);
        if !op.NoopOp? {
          duplicateTable := duplicateTable[op.client := Remembered(op.seqNum, verdict)];
        }
      }
    }

    // The configuration of that number, or the latest for a number out of range.
    method Query(num: int, role: Raft.Role, term: nat) returns (ok: bool, config: Config)
      requires Valid()
      ensures ok <==> role == Raft.Leader && noopAppliedTerm == term
      ensures ok ==> config in configs && config.num == if 0 <= num < |configs| then num else |configs| - 1
    {
      if role != Raft.Leader || noopAppliedTerm != term {
        return false, Zero;
      }
      var i := num;
      if i < 0 || i >= |configs| {
        i := |configs| - 1;
      }
      return true, configs[i];
    }
  }

  // SplitConfig, on a configuration of the history.  Maps are values here, so the
  // source's copying of the owners is implicit.
  method Divide(c: Config, shard: int, p: Point) returns (r: Result<Config>)
    requires c == Zero || WellFormed(c)
    ensures r == SplitConfig(c, shard, p)
  {
    if shard !in c.owners {
      return Err;
    }
    var split := SplitRing(c.ring, shard, p);
    if split.Err? {
      return Err;
    }
    return Ok(Config(c.num + 1, split.value.0, c.owners[split.value.1 := c.owners[shard]], c.groups));
  }

  method Reassign(c: Config, shard: int, gid: nat) returns (r: Result<Config>)
    ensures r == MoveRingShard(c, shard, gid)
  {
    if shard !in c.owners || gid !in c.groups {
      return Err;
    }
    return Ok(Config(c.num + 1, c.ring, c.owners[shard := gid], c.groups));
  }
}
