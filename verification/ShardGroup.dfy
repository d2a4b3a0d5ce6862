// One shard group's replicated state machine: what each committed groupOp does
// to the configuration it has adopted, its data, its pending hand-offs and its
// dedup table.
module ShardGroup {
  import opened ShardConfig

  // Any fixed hash of keys to shards.
  type Shard = n: nat | n < NShards
  const Key2Shard: string -> Shard

  datatype Kind = Put | Append

  datatype Write = Write(client: nat, seqNum: nat, kind: Kind, key: string, value: string)

  datatype Op =
    | WriteOp(write: Write)
    | ConfigOp(config: Config)
    | MigrateOp(shard: nat, data: map<string, string>, dup: map<nat, nat>)
    | GcOp(shard: nat)
    | NoopOp

  // The state every replica of the group reaches at a point of its committed log.
  datatype Server = Server(
    cfg: Config,
    store: map<string, string>,
    migrating: map<nat, nat>,
    leaving: map<nat, nat>,
    dup: map<nat, nat>)

  const Fresh := Server(NoConfig, map[], map[], map[], map[])

  function Last(dup: map<nat, nat>, client: nat): nat {
    if client in dup then dup[client] else 0
  }

  // Owned by the adopted configuration and not waiting for its data.
  predicate Ready(gid: nat, st: Server, shard: nat) {
    Owner(st.cfg, shard) == gid && shard !in st.migrating
  }

  function Effect(store: map<string, string>, w: Write): map<string, string> {
    match w.kind
    case Put => store[w.key := w.value]
    case Append => store[w.key := (if w.key in store then store[w.key] else "") + w.value]
  }

  // The part of a store that belongs to one shard.
  function Slice(store: map<string, string>, shard: nat): map<string, string> {
    map k | k in store && Key2Shard(k) == shard :: store[k]
  }

  function Without(store: map<string, string>, shard: nat): map<string, string> {
    map k | k in store && Key2Shard(k) != shard :: store[k]
  }

  // The larger sequence number of each client.
  function MaxMerge(a: map<nat, nat>, b: map<nat, nat>): map<nat, nat> {
    map c | c in a.Keys + b.Keys && (Last(b, c) > Last(a, c) || c in a) ::
      if Last(b, c) > Last(a, c) then b[c] else a[c]
  }

  predicate Gained(gid: nat, from: Config, to: Config, shard: nat) {
    Owner(to, shard) == gid && Owner(from, shard) != gid && Owner(from, shard) != 0
  }

  predicate Lost(gid: nat, from: Config, to: Config, shard: nat) {
    Owner(from, shard) == gid && Owner(to, shard) != gid && Owner(to, shard) != 0
  }

  // Each newly gained shard, with the group to pull it from.
  function GainedFrom(gid: nat, from: Config, to: Config): map<nat, nat> {
    map s: nat | s < NShards && Gained(gid, from, to, s) :: Owner(from, s)
  }

  // Each shard given away, with the group it went to.
  function LostTo(gid: nat, from: Config, to: Config): map<nat, nat> {
    map s: nat | s < NShards && Lost(gid, from, to, s) :: Owner(to, s)
  }

  function Adopt(gid: nat, st: Server, config: Config): Server {
    if config.num != st.cfg.num + 1 then st
    else st.(cfg := config,
             migrating := st.migrating + GainedFrom(gid, st.cfg, config),
             leaving := st.leaving + LostTo(gid, st.cfg, config))
  }

  // A write that takes effect, as opposed to one refused or recognised as a retry.
  predicate TakesEffect(gid: nat, st: Server, w: Write) {
    Ready(gid, st, Key2Shard(w.key)) && w.seqNum > Last(st.dup, w.client)
  }

  function Apply(gid: nat, st: Server, op: Op): Server {
    match op
    case WriteOp(w) =>
      if TakesEffect(gid, st, w)
      then st.(store := Effect(st.store, w), dup := st.dup[w.client := w.seqNum])
      else st
    case ConfigOp(config) => Adopt(gid, st, config)
    case MigrateOp(shard, data, dup) =>
      if shard in st.migrating
      then st.(store := st.store + data, dup := MaxMerge(st.dup, dup), migrating := st.migrating - {shard})
      else st
    case GcOp(shard) =>
      if shard in st.leaving
      then st.(store := Without(st.store, shard), leaving := st.leaving - {shard})
      else st
    case NoopOp => st
  }

  // The error a write's proposer is told: OK unless the shard is not served here.
  predicate Accepted(gid: nat, st: Server, w: Write) {
    Ready(gid, st, Key2Shard(w.key))
  }

  // A replica answers a pull of `shard` made under configuration `num` once it
  // has adopted that configuration itself and holds the shard's data.
  predicate AnswersPull(st: Server, shard: nat, num: nat) {
    st.cfg.num >= num && shard !in st.migrating
  }

  /******* Slices *******/

  // A write sets or extends its own key and touches no other.
  lemma EffectIs(store: map<string, string>, w: Write, key: string)
    ensures w.key in Effect(store, w)
    ensures key != w.key ==> (key in Effect(store, w) <==> key in store)
    ensures key != w.key && key in store ==> Effect(store, w)[key] == store[key]
    ensures Effect(store, w)[w.key] ==
              match w.kind
              case Put => w.value
              case Append => (if w.key in store then store[w.key] else "") + w.value
  {}

  lemma SliceOfEffect(store: map<string, string>, w: Write, shard: nat)
    ensures Slice(Effect(store, w), shard)
         == if Key2Shard(w.key) == shard then Effect(Slice(store, shard), w) else Slice(store, shard)
  {
    assert w.key in store && Key2Shard(w.key) == shard ==> w.key in Slice(store, shard);
  }

  lemma SliceOfMerge(store: map<string, string>, data: map<string, string>, from: nat, shard: nat)
    requires data == Slice(data, from)
    ensures shard != from ==> Slice(store + data, shard) == Slice(store, shard)
    ensures shard == from && Slice(store, shard) == map[] ==> Slice(store + data, shard) == data
  {
    forall k | k in data ensures Key2Shard(k) == from {
      assert k in Slice(data, from);
    }
    if shard == from && Slice(store, shard) == map[] {
      forall k | k in store ensures Key2Shard(k) != shard {
        assert k !in Slice(store, shard);
      }
    }
  }

  lemma SliceOfWithout(store: map<string, string>, gone: nat, shard: nat)
    ensures Slice(Without(store, gone), shard) == if shard == gone then map[] else Slice(store, shard)
  {}

  lemma SliceTwice(store: map<string, string>, shard: nat)
    ensures Slice(Slice(store, shard), shard) == Slice(store, shard)
  {}

  lemma MergeIsMax(a: map<nat, nat>, b: map<nat, nat>, c: nat)
    ensures Last(MaxMerge(a, b), c) == if Last(b, c) > Last(a, c) then Last(b, c) else Last(a, c)
  {}
}
