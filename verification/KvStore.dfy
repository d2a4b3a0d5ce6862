// The replicated key/value state machine: client-deduplicated writes, snapshots
// of store and dedup table together, and the own-term read gate.
module KvStore {
  import Raft = RaftCore
  import Register

  datatype Kind = Put | Append | Noop

  datatype Op = Op(kind: Kind, key: string, value: string, client: nat, seqNum: nat)

  datatype Kv = Kv(store: map<string, string>, dup: map<nat, nat>)

  const Empty := Kv(map[], map[])

  function Value(store: map<string, string>, key: string): string {
    if key in store then store[key] else ""
  }

  function Effect(store: map<string, string>, op: Op): map<string, string> {
    match op.kind
    case Put => store[op.key := op.value]
    case Append => store[op.key := Value(store, op.key) + op.value]
    case Noop => store
  }

  function ApplyOp(kv: Kv, op: Op): Kv {
    if op.seqNum > Raft.Get(kv.dup, op.client)
    then Kv(Effect(kv.store, op), kv.dup[op.client := op.seqNum])
    else kv
  }

  function ApplyAll(kv: Kv, ops: seq<Op>): Kv {
    if ops == [] then kv else ApplyOp(ApplyAll(kv, ops[..|ops| - 1]), ops[|ops| - 1])
  }

  /******* Replay *******/

  lemma {:induction false} ApplyConcat(kv: Kv, a: seq<Op>, b: seq<Op>)
    ensures ApplyAll(kv, a + b) == ApplyAll(ApplyAll(kv, a), b)
  {
    if b == [] {
      assert a + b == a;
    } else {
      var ab := a + b;
      ApplyConcat(kv, a, b[..|b| - 1]);
      assert ab[..|ab| - 1] == a + b[..|b| - 1];
    }
  }

  // The dedup table has caught up with every operation in ops.
  ghost predicate Seen(kv: Kv, ops: seq<Op>) {
    forall i :: 0 <= i < |ops| ==> ops[i].seqNum <= Raft.Get(kv.dup, ops[i].client)
  }

  lemma {:induction false} AppliedIsSeen(kv: Kv, ops: seq<Op>)
    ensures Seen(ApplyAll(kv, ops), ops)
    ensures forall c :: Raft.Get(kv.dup, c) <= Raft.Get(ApplyAll(kv, ops).dup, c)
  {
    if ops != [] {
      AppliedIsSeen(kv, ops[..|ops| - 1]);
      var before := ApplyAll(kv, ops[..|ops| - 1]);
      forall i | 0 <= i < |ops| - 1
        ensures ops[i].seqNum <= Raft.Get(ApplyAll(kv, ops).dup, ops[i].client)
      {
        assert ops[..|ops| - 1][i] == ops[i];
      }
    }
  }

  lemma {:induction false} SeenIsNoOp(kv: Kv, ops: seq<Op>)
    requires Seen(kv, ops)
    ensures ApplyAll(kv, ops) == kv
  {
    if ops != [] {
      SeenIsNoOp(kv, ops[..|ops| - 1]);
    }
  }

  // However often, and however late, a request in the log is delivered again, it
  // changes neither the store nor the dedup table.
  lemma RetryChangesNothing(kv: Kv, ops: seq<Op>, i: nat, later: seq<Op>)
    requires i < |ops|
    ensures ApplyAll(kv, ops + later + [ops[i]]) == ApplyAll(kv, ops + later)
  {
    var all := ops + later;
    AppliedIsSeen(kv, all);
    assert all[i] == ops[i];
    assert (all + [ops[i]])[..|all|] == all;
  }

  // A first delivery does what the request says to its own key and nothing to
  // any other key or client.
  lemma FirstDelivery(kv: Kv, op: Op, key: string, client: nat)
    requires op.seqNum > Raft.Get(kv.dup, op.client)
    ensures
      var kv' := ApplyOp(kv, op);
      && Value(kv'.store, key) == (if key != op.key then Value(kv.store, key)
                                   else match op.kind
                                        case Put => op.value
                                        case Append => Value(kv.store, key) + op.value
                                        case Noop => Value(kv.store, key))
      && Raft.Get(kv'.dup, client) == if client == op.client then op.seqNum else Raft.Get(kv.dup, client)
  {}

  // The state at j has already seen everything between i and j.
  lemma PrefixSeen(log: seq<Op>, i: nat, j: nat)
    requires i <= j <= |log|
    ensures Seen(ApplyAll(Empty, log[..j]), log[i..j])
  {
    AppliedIsSeen(Empty, log[..j]);
    forall x | 0 <= x < j - i
      ensures log[i..j][x].seqNum <= Raft.Get(ApplyAll(Empty, log[..j]).dup, log[i..j][x].client)
    {
      assert log[i..j][x] == log[..j][i + x];
    }
  }

  // Replaying the log from any point i over the state reached at a later point j
  // gives the state the whole log gives.
  lemma ReplayOverNewerSnapshot(log: seq<Op>, i: nat, j: nat)
    requires i <= j <= |log|
    ensures ApplyAll(ApplyAll(Empty, log[..j]), log[i..]) == ApplyAll(Empty, log)
  {
    var reached := ApplyAll(Empty, log[..j]);
    var rest := log[j..];
    assert log[i..] == log[i..j] + rest;
    ApplyConcat(reached, log[i..j], rest);
    assert ApplyAll(reached, log[i..j]) == reached by {
      PrefixSeen(log, i, j);
      SeenIsNoOp(reached, log[i..j]);
    }
    assert log == log[..j] + rest;
    ApplyConcat(Empty, log[..j], rest);
  }

  /******* What a log leaves, said over the log alone *******/

  // The first delivery of its request: no earlier operation of the client had as
  // high a number.
  ghost predicate Effective(ops: seq<Op>, i: nat)
    requires i < |ops|
  {
    ops[i].seqNum > 0 && forall j :: 0 <= j < i && ops[j].client == ops[i].client ==> ops[j].seqNum < ops[i].seqNum
  }

  // The changes that effective operations make to a key, in log order.
  ghost function Changes(ops: seq<Op>, key: string): seq<Register.Change> {
    if ops == [] then []
    else
      var n := |ops| - 1;
      var before, op := Changes(ops[..n], key), ops[n];
      if op.key != key || !Effective(ops, n) then before
      else match op.kind
           case Put => before + [Register.Set(op.value)]
           case Append => before + [Register.Add(op.value)]
           case Noop => before
  }

  ghost predicate HasNumber(ops: seq<Op>, client: nat, seqNum: nat) {
    exists i :: 0 <= i < |ops| && ops[i].client == client && ops[i].seqNum == seqNum
  }

  ghost predicate FromLog(ops: seq<Op>, dup: map<nat, nat>) {
    forall c {:trigger Raft.Get(dup, c)} :: Raft.Get(dup, c) > 0 ==> HasNumber(ops, c, Raft.Get(dup, c))
  }

  // A client's entry in the dedup table is its highest number in the log.
  lemma {:induction false} TableIsHighest(ops: seq<Op>)
    ensures FromLog(ops, ApplyAll(Empty, ops).dup)
    ensures forall i :: 0 <= i < |ops| ==> ops[i].seqNum <= Raft.Get(ApplyAll(Empty, ops).dup, ops[i].client)
  {
    AppliedIsSeen(Empty, ops);
    if ops != [] {
      var before, op := ops[..|ops| - 1], ops[|ops| - 1];
      TableIsHighest(before);
      NumbersStay(before, op, ApplyAll(Empty, before).dup);
      assert ops == before + [op];
    }
  }

  lemma NumbersStay(before: seq<Op>, op: Op, dup: map<nat, nat>)
    requires FromLog(before, dup)
    ensures FromLog(before + [op], dup) && FromLog(before + [op], dup[op.client := op.seqNum])
  {
    var ops := before + [op];
    assert ops[|before|] == op;
    forall c | Raft.Get(dup, c) > 0 ensures HasNumber(ops, c, Raft.Get(dup, c)) {
      var i :| 0 <= i < |before| && before[i].client == c && before[i].seqNum == Raft.Get(dup, c);
      assert ops[i] == before[i];
    }
    var dup' := dup[op.client := op.seqNum];
    forall c | Raft.Get(dup', c) > 0 ensures HasNumber(ops, c, Raft.Get(dup', c)) {
      if c == op.client {
        assert ops[|before|].client == c && ops[|before|].seqNum == Raft.Get(dup', c);
      } else {
        assert Raft.Get(dup, c) == Raft.Get(dup', c);
      }
    }
  }

  // The table decides whether an operation is a first delivery.
  lemma FirstIffAbove(before: seq<Op>, op: Op, dup: map<nat, nat>)
    requires FromLog(before, dup)
    requires forall i :: 0 <= i < |before| ==> before[i].seqNum <= Raft.Get(dup, before[i].client)
    ensures Effective(before + [op], |before|) <==> op.seqNum > Raft.Get(dup, op.client)
  {
    var ops := before + [op];
    assert forall j :: 0 <= j < |before| ==> ops[j] == before[j];
    if Raft.Get(dup, op.client) > 0 {
      var i :| 0 <= i < |before| && before[i].client == op.client && before[i].seqNum == Raft.Get(dup, op.client);
      assert ops[i] == before[i];
    }
  }

  lemma OneMore(before: seq<Op>, op: Op, key: string)
    ensures Changes(before + [op], key) ==
              if op.key != key || !Effective(before + [op], |before|) then Changes(before, key)
              else match op.kind
                   case Put => Changes(before, key) + [Register.Set(op.value)]
                   case Append => Changes(before, key) + [Register.Add(op.value)]
                   case Noop => Changes(before, key)
  {
    assert (before + [op])[..|before|] == before;
  }

  // After a log, a key holds its last effective Put and the effective Appends
  // after it.
  lemma {:induction false} LogLeaves(ops: seq<Op>, key: string)
    ensures Value(ApplyAll(Empty, ops).store, key) == Register.Content(Changes(ops, key))
  {
    if ops == [] {
      assert Register.Joined([]) == "";
    } else {
      var before, op := ops[..|ops| - 1], ops[|ops| - 1];
      assert ops == before + [op];
      LogLeaves(before, key);
      TableIsHighest(before);
      FirstIffAbove(before, op, ApplyAll(Empty, before).dup);
      OneMore(before, op, key);
      Register.ContentAppend(Changes(before, key),
                             if op.kind == Put then Register.Set(op.value) else Register.Add(op.value));
    }
  }

  /******* Snapshots on disk *******/

  // The two blobs of the persister: the snapshot bytes, and the state blob with
  // its lastIncludedIndex and the log after it.  Past what is committed that log
  // may be anything, and another leader's entries may yet replace it.
  datatype Disk = Disk(snapshot: Kv, base: nat, suffix: seq<Op>)

  // SaveStateAndSnapshot, from Snapshot or from InstallSnapshot, writes the
  // snapshot first and the state second; a crash after `writes` of the two
  // leaves this.
  function Interrupted(disk: Disk, snapshot: Kv, base: nat, suffix: seq<Op>, writes: nat): Disk {
    if writes == 0 then disk
    else if writes == 1 then disk.(snapshot := snapshot)
    else Disk(snapshot, base, suffix)
  }

  // A restarted server adopts the snapshot only if the state blob refers to one,
  // then applies what is committed after the blob's base, which is what Raft
  // delivers whatever the blob's own suffix says.
  function Recovered(disk: Disk, log: seq<Op>): Kv
    requires disk.base <= |log|
  {
    ApplyAll(if disk.base > 0 then disk.snapshot else Empty, log[disk.base..])
  }

  // The disk of a node in a group whose committed log is `log`: compacted through
  // base, with a snapshot at least that recent.
  ghost predicate Holds(disk: Disk, log: seq<Op>, at: nat) {
    && disk.base <= at <= |log|
    && (disk.base > 0 ==> disk.snapshot == ApplyAll(Empty, log[..at]))
  }

  lemma RecoveryIsExact(disk: Disk, log: seq<Op>, at: nat)
    requires Holds(disk, log, at)
    ensures Recovered(disk, log) == ApplyAll(Empty, log)
  {
    if disk.base > 0 {
      ReplayOverNewerSnapshot(log, disk.base, at);
    } else {
      assert log[0..] == log;
    }
  }

  // Wherever a crash falls in saving a snapshot of `index`, whatever suffix goes
  // with it, recovery rebuilds exactly the store and dedup table of the committed
  // log, and the disk is as recoverable as before.
  lemma CrashDuringSnapshot(disk: Disk, log: seq<Op>, at: nat, index: nat, suffix: seq<Op>, writes: nat)
    returns (at': nat)
    requires Holds(disk, log, at) && disk.base <= index <= |log|
    ensures
      var after := Interrupted(disk, ApplyAll(Empty, log[..index]), index, suffix, writes);
      Holds(after, log, at') && Recovered(after, log) == ApplyAll(Empty, log)
  {
    at' := if writes == 0 then at else index;
    RecoveryIsExact(Interrupted(disk, ApplyAll(Empty, log[..index]), index, suffix, writes), log, at');
  }

  // The other order loses data: state first, and a crash before the snapshot.
  lemma StateFirstLosesWrites()
    ensures
      var log := [Op(Put, "k", "v", 1, 1)];
      var disk := Disk(Empty, 0, log);
      Holds(disk, log, 0) && Recovered(disk.(base := 1, suffix := []), log) != ApplyAll(Empty, log)
  {
    var op := Op(Put, "k", "v", 1, 1);
    var log := [op];
    assert log[..0] == [] && log[1..] == [];
    assert ApplyAll(Empty, log) == ApplyOp(ApplyAll(Empty, log[..0]), op);
    assert ApplyAll(Empty, log).dup == map[1 := 1];
  }

  /******* The server *******/

  // The term of the last no-op in a stretch of the log, or what it was before.
  function LastNoop(before: nat, ops: seq<Op>, terms: seq<nat>): nat
    requires |ops| == |terms|
  {
    if ops == [] then before
    else if ops[|ops| - 1].kind == Noop then terms[|ops| - 1]
    else LastNoop(before, ops[..|ops| - 1], terms[..|ops| - 1])
  }

  lemma {:induction false} NoopOf(before: nat, ops: seq<Op>, terms: seq<nat>)
    requires |ops| == |terms| && LastNoop(before, ops, terms) != before
    ensures exists i :: 0 <= i < |ops| && ops[i].kind == Noop && terms[i] == LastNoop(before, ops, terms)
  {
    var last := |ops| - 1;
    if ops[last].kind != Noop {
      NoopOf(before, ops[..last], terms[..last]);
      var i :| 0 <= i < last && ops[..last][i].kind == Noop && terms[..last][i] == LastNoop(before, ops, terms);
      assert ops[i].kind == Noop && terms[i] == LastNoop(before, ops, terms);
    }
  }

  datatype Reply = WrongLeader | NoKey | Ok(value: string)

  class KVServer {
    var store: map<string, string>
    var duplicateTable: map<nat, nat>
    var noopAppliedTerm: nat

    ghost function State(): Kv
      reads this
    {
      Kv(store, duplicateTable)
    }

    constructor ()
      ensures State() == Empty && noopAppliedTerm == 0
    {
      store, duplicateTable, noopAppliedTerm := map[], map[], 0;
    }

    // One committed entry from the apply channel.
    method Apply(op: Op, term: nat)
      modifies this
      ensures State() == ApplyOp(old(State()), op)
      ensures noopAppliedTerm == if op.kind == Noop then term else old(noopAppliedTerm)
    {
      if op.kind == Noop {
        noopAppliedTerm := term;
      }
      var last := if op.client in duplicateTable then duplicateTable[op.client] else 0;
      if op.seqNum > last {
        match op.kind {
          case Put => store := store[op.key := op.value];
          case Append =>
            var current := if op.key in store then store[op.key] else "";
            store := store[op.key := current + op.value];
          case Noop =>
        }
        duplicateTable := duplicateTable[op.client := op.seqNum];
      }
    }

    // The apply loop over a stretch of the log.
    method ApplyEntries(ops: seq<Op>, terms: seq<nat>)
      requires |ops| == |terms|
      modifies this
      ensures State() == ApplyAll(old(State()), ops)
      ensures noopAppliedTerm == LastNoop(old(noopAppliedTerm), ops, terms)
      ensures old(State()) == Empty ==>
                forall key {:trigger Changes(ops, key)} ::
                  (if key in store then store[key] else "") == Register.Content(Changes(ops, key))
    {
      for i := 0 to |ops|
        invariant State() == ApplyAll(old(State()), ops[..i])
        invariant noopAppliedTerm == LastNoop(old(noopAppliedTerm), ops[..i], terms[..i])
      {
        assert ops[..i + 1][..i] == ops[..i] && terms[..i + 1][..i] == terms[..i];
        Apply(ops[i], terms[i]);
      }
      assert ops[..|ops|] == ops && terms[..|ops|] == terms;
      forall key {:trigger Changes(ops, key)}
        ensures Value(ApplyAll(Empty, ops).store, key) == Register.Content(Changes(ops, key))
      {
        LogLeaves(ops, key);
      }
    }

    method TakeSnapshot() returns (snap: Kv)
      ensures snap == State()
    {
      return Kv(store, duplicateTable);
    }

    // Wholesale: nothing of the old state remains.
    method RestoreSnapshot(snap: Kv)
      modifies this`store, this`duplicateTable
      ensures State() == snap
    {
      store, duplicateTable := snap.store, snap.dup;
    }

    // Answers only as leader, and only once a no-op of the current term is applied.
    method Get(key: string, role: Raft.Role, term: nat) returns (reply: Reply)
      ensures reply.WrongLeader? <==> role != Raft.Leader || noopAppliedTerm != term
      ensures reply.NoKey? <==> role == Raft.Leader && noopAppliedTerm == term && key !in store
      ensures reply.Ok? ==> key in store && reply.value == store[key]
    {
      if role != Raft.Leader || noopAppliedTerm != term {
        return WrongLeader;
      }
      if key !in store {
        return NoKey;
      }
      return Ok(store[key]);
    }
  }
}
