// Several shard groups, a controller and one-at-a-time clients as one system.
// Each group is its committed log, kept as the list of states the log passes
// through; a replica may be at any of them, so any of them may answer a pull or
// a readiness question.  Proposals may commit late, repeatedly or never.
module HandoffProtocol {
  import opened ShardConfig
  import opened ShardGroup
  import Register

  datatype World = World(
    configs: seq<Config>,            // the controller's append-only history
    hist: map<nat, seq<Server>>,     // group -> states of its committed log so far
    props: set<(nat, Op)>,           // Migrate and GC entries ever proposed, by group
    issued: map<nat, seq<Write>>,    // client -> its writes; the n-th carries SeqNum n
    acked: map<nat, nat>,            // client -> how many of them it saw succeed
    oks: set<(nat, nat)>,            // (client, SeqNum) some group answered OK
    eff: seq<Write>)                 // writes in the order they took effect

  datatype Step =
    | Reconfigure(config: Config)
    | Commit(gid: nat, op: Op)
    | Pull(gid: nat, at: nat, shard: nat, seen: nat)
    | Confirm(gid: nat, at: nat, shard: nat, seen: nat)
    | Issue(write: Write)
    | Ack(client: nat)

  // A group that has committed nothing yet is at its first state.
  function Hist(w: World, g: nat): (h: seq<Server>)
    ensures h != []
  {
    if g in w.hist && w.hist[g] != [] then w.hist[g] else [Fresh]
  }

  function Cur(w: World, g: nat): Server {
    Hist(w, g)[|Hist(w, g)| - 1]
  }

  function IssuedBy(w: World, client: nat): seq<Write> {
    if client in w.issued then w.issued[client] else []
  }

  predicate Issued(w: World, x: Write) {
    0 < x.seqNum <= |IssuedBy(w, x.client)| && IssuedBy(w, x.client)[x.seqNum - 1] == x
  }

  const Initial := World([NoConfig], map[], {}, map[], map[], {}, [])

  // next gives no shard back to an owner it was taken from.  As every shard starts
  // with owner 0, this also says that no owned shard is left without a group.
  ghost predicate NoReturn(configs: seq<Config>, next: Config)
    requires configs != []
  {
    forall s, i :: 0 <= i < |configs| && Owner(configs[i], s) == Owner(next, s) ==>
      Owner(configs[|configs| - 1], s) == Owner(next, s)
  }

  // The limit on a controller's history under which the hand-off is exact.
  ghost predicate NeverReturns(configs: seq<Config>) {
    forall k {:trigger configs[k]} :: 0 < k < |configs| ==> NoReturn(configs[..k], configs[k])
  }

  ghost predicate Enabled(w: World, step: Step) {
    match step
    case Reconfigure(config) =>
      w.configs != [] && config.num == |w.configs| && |config.shards| == NShards
    case Commit(gid, op) =>
      gid > 0 && (match op
                  case WriteOp(x) => Issued(w, x)
                  case ConfigOp(config) => config in w.configs
                  case MigrateOp(_, _, _) => (gid, op) in w.props
                  case GcOp(_) => (gid, op) in w.props
                  case NoopOp => true)
    case Pull(gid, at, shard, seen) =>
      && gid > 0 && at < |Hist(w, gid)| && shard in Hist(w, gid)[at].migrating
      && var donor := Hist(w, Hist(w, gid)[at].migrating[shard]);
         seen < |donor| && AnswersPull(donor[seen], shard, Hist(w, gid)[at].cfg.num)
    case Confirm(gid, at, shard, seen) =>
      && gid > 0 && at < |Hist(w, gid)| && shard in Hist(w, gid)[at].leaving
      && var to := Hist(w, gid)[at].leaving[shard];
         seen < |Hist(w, to)| && Ready(to, Hist(w, to)[seen], shard)
    case Issue(x) =>
      && x.seqNum == |IssuedBy(w, x.client)| + 1
      && Last(w.acked, x.client) == |IssuedBy(w, x.client)|
    case Ack(client) =>
      (client, |IssuedBy(w, client)|) in w.oks
  }

  function Committed(w: World, gid: nat, op: Op): World {
    var st := Cur(w, gid);
    var w1 := w.(hist := w.hist[gid := Hist(w, gid) + [Apply(gid, st, op)]]);
    if op.WriteOp? then
      w1.(oks := if Accepted(gid, st, op.write) then w.oks + {(op.write.client, op.write.seqNum)} else w.oks,
          eff := if TakesEffect(gid, st, op.write) then w.eff + [op.write] else w.eff)
    else w1
  }

  function Take(w: World, step: Step): World
    requires Enabled(w, step)
  {
    match step
    case Reconfigure(config) => w.(configs := w.configs + [config])
    case Commit(gid, op) => Committed(w, gid, op)
    case Pull(gid, at, shard, seen) =>
      var st := Hist(w, Hist(w, gid)[at].migrating[shard])[seen];
      w.(props := w.props + {(gid, MigrateOp(shard, Slice(st.store, shard), st.dup))})
    case Confirm(gid, at, shard, seen) =>
      w.(props := w.props + {(gid, GcOp(shard))})
    case Issue(x) => w.(issued := w.issued[x.client := IssuedBy(w, x.client) + [x]])
    case Ack(client) => w.(acked := w.acked[client := |IssuedBy(w, client)|])
  }

  ghost predicate IsRun(run: seq<World>) {
    && run != [] && run[0] == Initial
    && forall i :: 0 < i < |run| ==> Follows(run[i - 1], run[i])
  }

  ghost predicate Follows(w: World, w': World) {
    exists step :: Enabled(w, step) && w' == Take(w, step)
  }

  /******* What the clients wrote *******/

  // The contents of a shard after the given writes, each applied once, in order.
  function Ref(eff: seq<Write>, shard: nat): map<string, string> {
    if eff == [] then map[]
    else
      var before, x := Ref(eff[..|eff| - 1], shard), eff[|eff| - 1];
      if Key2Shard(x.key) == shard then Effect(before, x) else before
  }

  // The changes the writes make to one key, in the order they took effect.
  function Changes(eff: seq<Write>, key: string): seq<Register.Change> {
    if eff == [] then []
    else
      var before, x := Changes(eff[..|eff| - 1], key), eff[|eff| - 1];
      if x.key != key then before
      else match x.kind
           case Put => before + [Register.Set(x.value)]
           case Append => before + [Register.Add(x.value)]
  }

  // So a key of the shard holds its last Put and the Appends after it.
  lemma {:induction false} RefIsContent(eff: seq<Write>, key: string)
    ensures (if key in Ref(eff, Key2Shard(key)) then Ref(eff, Key2Shard(key))[key] else "")
         == Register.Content(Changes(eff, key))
  {
    if eff == [] {
      assert Register.Joined([]) == "";
    } else {
      var before, x := eff[..|eff| - 1], eff[|eff| - 1];
      RefIsContent(before, key);
      Register.ContentAppend(Changes(before, key),
                             if x.kind == Put then Register.Set(x.value) else Register.Add(x.value));
    }
  }

  // The dedup table remembers every write to the shard.
  ghost predicate Covers(dup: map<nat, nat>, eff: seq<Write>, shard: nat) {
    forall x :: x in eff && Key2Shard(x.key) == shard ==> x.seqNum <= Last(dup, x.client)
  }

  ghost predicate Touched(eff: seq<Write>, shard: nat) {
    exists x :: x in eff && Key2Shard(x.key) == shard
  }

  lemma {:induction false} RefUntouched(eff: seq<Write>, shard: nat)
    requires !Touched(eff, shard)
    ensures Ref(eff, shard) == map[]
  {
    if eff != [] {
      var last := |eff| - 1;
      assert eff[last] in eff;
      assert !Touched(eff[..last], shard);
      RefUntouched(eff[..last], shard);
    }
  }

  lemma RefAppend(eff: seq<Write>, x: Write, shard: nat)
    ensures Ref(eff + [x], shard)
         == if Key2Shard(x.key) == shard then Effect(Ref(eff, shard), x) else Ref(eff, shard)
  {
    assert (eff + [x])[..|eff|] == eff;
  }
}
