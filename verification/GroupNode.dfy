// The apply loop, pull and readiness handlers of one replica of a shard group,
// as they update it in place; each does what the group's state machine says.
module GroupNode {
  import opened ShardConfig
  import opened ShardGroup
  import Raft = RaftCore

  datatype GroupErr = OK | ErrWrongGroup | ErrWrongLeader | ErrNoKey | ErrNotReady

  datatype PullReply = PullReply(err: GroupErr, data: map<string, string>, dup: map<nat, nat>)

  // m is `was` with the entries of `add` below n written in.
  ghost predicate Noted(m: map<nat, nat>, was: map<nat, nat>, add: map<nat, nat>, n: nat) {
    && (forall s: nat :: s in m <==> s in was || (s < n && s in add))
    && (forall s: nat :: s in m ==> m[s] == if s < n && s in add then add[s] else was[s])
  }

  lemma NotedStep(m: map<nat, nat>, was: map<nat, nat>, add: map<nat, nat>, n: nat)
    requires Noted(m, was, add, n)
    ensures Noted(if n in add then m[n := add[n]] else m, was, add, n + 1)
  {}

  lemma NotedAll(m: map<nat, nat>, was: map<nat, nat>, add: map<nat, nat>, n: nat)
    requires Noted(m, was, add, n) && forall s :: s in add ==> s < n
    ensures m == was + add
  {}

  class GroupServer {
    const gid: nat
    var cfg: Config
    var store: map<string, string>
    var migrating: map<nat, nat>
    var leaving: map<nat, nat>
    var duplicateTable: map<nat, nat>
    var noopAppliedTerm: nat

    ghost function State(): Server
      reads this
    {
      Server(cfg, store, migrating, leaving, duplicateTable)
    }

    constructor (gid: nat)
      ensures this.gid == gid && State() == Fresh && noopAppliedTerm == 0
    {
      this.gid := gid;
      cfg, store, migrating, leaving, duplicateTable, noopAppliedTerm := NoConfig, map[], map[], map[], map[], 0;
    }

    method Owns(key: string) returns (owns: bool)
      ensures owns <==> Ready(gid, State(), Key2Shard(key))
    {
      var shard := Key2Shard(key);
      if Owner(cfg, shard) != gid {
        return false;
      }
      return shard !in migrating;
    }

    // One committed entry; the error is what its proposer is told.
    method ApplyEntry(op: Op, term: nat) returns (err: GroupErr)
      modifies this
      ensures State() == Apply(gid, old(State()), op)
      ensures noopAppliedTerm == if op.NoopOp? then term else old(noopAppliedTerm)
      ensures err == ErrWrongGroup <==>
                op.WriteOp? && (|| Owner(old(cfg), Key2Shard(op.write.key)) != gid
                                || Key2Shard(op.write.key) in old(migrating))
      ensures err != ErrWrongGroup ==> err == OK
    {
      err := OK;
      match op {
        case NoopOp => noopAppliedTerm := term;
        case ConfigOp(config) => ApplyConfig(config);
        case MigrateOp(shard, data, dup) => ApplyMigrate(shard, data, dup);
        case GcOp(shard) => ApplyGc(shard);
        case WriteOp(w) =>
          var owns := Owns(w.key);
          if !owns {
            err := ErrWrongGroup;
          } else {
            ApplyWrite(w);
          }
      }
    }

    method ApplyWrite(w: Write)
      requires Ready(gid, State(), Key2Shard(w.key))
      modifies this`store, this`duplicateTable
      ensures State() == Apply(gid, old(State()), WriteOp(w))
    {
      var last := if w.client in duplicateTable then duplicateTable[w.client] else 0;
      if w.seqNum > last {
        match w.kind {
          case Put => store := store[w.key := w.value];
          case Append =>
            var current := if w.key in store then store[w.key] else "";
            store := store[w.key := current + w.value];
        }
        duplicateTable := duplicateTable[w.client := w.seqNum];
      }
    }

    method ApplyConfig(config: Config)
      modifies this`cfg, this`migrating, this`leaving
      ensures State() == Adopt(gid, old(State()), config)
    {
      if config.num == cfg.num + 1 {
        var before := cfg;
        ghost var was := State();
        ghost var gained, lost := GainedFrom(gid, before, config), LostTo(gid, before, config);
        cfg := config;
        for shard := 0 to NShards
          invariant cfg == config && store == was.store && duplicateTable == was.dup
          invariant Noted(migrating, was.migrating, gained, shard) && Noted(leaving, was.leaving, lost, shard)
        {
          NotedStep(migrating, was.migrating, gained, shard);
          NotedStep(leaving, was.leaving, lost, shard);
          var oldOwner, newOwner := Owner(before, shard), Owner(config, shard);
          if newOwner == gid && oldOwner != gid && oldOwner != 0 {
            migrating := migrating[shard := oldOwner];
          }
          if oldOwner == gid && newOwner != gid && newOwner != 0 {
            leaving := leaving[shard := newOwner];
          }
        }
        NotedAll(migrating, was.migrating, gained, NShards);
        NotedAll(leaving, was.leaving, lost, NShards);
      }
    }

    method ApplyMigrate(shard: nat, data: map<string, string>, dup: map<nat, nat>)
      modifies this`store, this`duplicateTable, this`migrating
      ensures State() == Apply(gid, old(State()), MigrateOp(shard, data, dup))
    {
      if shard in migrating {
        MergeData(data);
        MergeDup(dup);
        migrating := migrating - {shard};
      }
    }

    method MergeData(data: map<string, string>)
      modifies this`store
      ensures store == old(store) + data
    {
      ghost var was := store;
      var todo := data.Keys;
      while todo != {}
        invariant todo <= data.Keys
        invariant forall k :: k in store <==> k in was || (k in data && k !in todo)
        invariant forall k :: k in store ==> store[k] == if k in data && k !in todo then data[k] else was[k]
        decreases |todo|
      {
        var k :| k in todo;
        store := store[k := data[k]];
        todo := todo - {k};
      }
      assert store == was + data;
    }

    method MergeDup(dup: map<nat, nat>)
      modifies this`duplicateTable
      ensures duplicateTable == MaxMerge(old(duplicateTable), dup)
    {
      ghost var was := duplicateTable;
      var todo := dup.Keys;
      while todo != {}
        invariant todo <= dup.Keys
        invariant forall c :: c in duplicateTable <==> c in was || (c in dup && c !in todo && dup[c] > Last(was, c))
        invariant forall c :: c in duplicateTable ==>
                    duplicateTable[c] == if c in dup && c !in todo && dup[c] > Last(was, c) then dup[c] else was[c]
        decreases |todo|
      {
        var c :| c in todo;
        var seen := if c in duplicateTable then duplicateTable[c] else 0;
        if dup[c] > seen {
          duplicateTable := duplicateTable[c := dup[c]];
        }
        todo := todo - {c};
      }
      assert duplicateTable == MaxMerge(was, dup);
    }

    method ApplyGc(shard: nat)
      modifies this`store, this`leaving
      ensures State() == Apply(gid, old(State()), GcOp(shard))
    {
      if shard in leaving {
        ghost var was := store;
        var todo := store.Keys;
        while todo != {}
          invariant todo <= store.Keys <= was.Keys && leaving == old(leaving)
          invariant forall k :: k in was ==> (k in store <==> k in todo || Key2Shard(k) != shard)
          invariant forall k :: k in store ==> store[k] == was[k]
          decreases |todo|
        {
          var k :| k in todo;
          if Key2Shard(k) == shard {
            store := store - {k};
          }
          todo := todo - {k};
        }
        assert store == Without(was, shard);
        leaving := leaving - {shard};
      }
    }

    // Answered by any replica, leader or not.
    method Pull(shard: nat, configNum: nat) returns (reply: PullReply)
      ensures reply.err == if AnswersPull(State(), shard, configNum) then OK else ErrNotReady
      ensures reply.err == OK ==> reply.data == Slice(store, shard) && reply.dup == duplicateTable
    {
      if cfg.num < configNum || shard in migrating {
        return PullReply(ErrNotReady, map[], map[]);
      }
      var data := map[];
      var todo := store.Keys;
      while todo != {}
        invariant todo <= store.Keys
        invariant forall k :: k in data <==> k in store && k !in todo && Key2Shard(k) == shard
        invariant forall k :: k in data ==> data[k] == store[k]
        decreases |todo|
      {
        var k :| k in todo;
        if Key2Shard(k) == shard {
          data := data[k := store[k]];
        }
        todo := todo - {k};
      }
      assert data == Slice(store, shard);
      return PullReply(OK, data, duplicateTable);
    }

    method HasShard(shard: nat) returns (ready: bool)
      ensures ready <==> Ready(gid, State(), shard)
    {
      return Owner(cfg, shard) == gid && shard !in migrating;
    }

    // Leader with an applied no-op of its own term, and the key's shard served here.
    method Get(key: string, role: Raft.Role, term: nat) returns (err: GroupErr, value: string)
      ensures err == ErrWrongLeader <==> role != Raft.Leader || noopAppliedTerm != term
      ensures err == ErrWrongGroup <==>
                role == Raft.Leader && noopAppliedTerm == term && !Ready(gid, State(), Key2Shard(key))
      ensures err == OK ==> key in Slice(store, Key2Shard(key)) && value == Slice(store, Key2Shard(key))[key]
      ensures err == ErrNoKey ==> key !in store
      ensures err != ErrNotReady
    {
      if role != Raft.Leader || noopAppliedTerm != term {
        return ErrWrongLeader, "";
      }
      var owns := Owns(key);
      if !owns {
        return ErrWrongGroup, "";
      }
      if key !in store {
        return ErrNoKey, "";
      }
      return OK, store[key];
    }

    method TakeSnapshot() returns (snap: Server)
      ensures snap == State()
    {
      return Server(cfg, store, migrating, leaving, duplicateTable);
    }

    method RestoreSnapshot(snap: Server)
      modifies this`cfg, this`store, this`migrating, this`leaving, this`duplicateTable
      ensures State() == snap
    {
      cfg, store, migrating, leaving, duplicateTable := snap.cfg, snap.store, snap.migrating, snap.leaving, snap.dup;
    }
  }
}
