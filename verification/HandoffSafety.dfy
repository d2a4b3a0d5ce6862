// The hand-off theorems, for every run.
module HandoffSafety {
  import opened ShardConfig
  import opened ShardGroup
  import opened HandoffProtocol
  import opened HandoffInvariant
  import opened HandoffCommit
  import opened HandoffAdopt
  import opened HandoffSteps

  lemma InitialShard(s: nat)
    ensures ShardInv(Initial, s)
  {
    forall g ensures !Has(Initial, s, g) {
      assert Owner(NoConfig, s) == 0;
    }
  }

  lemma InitialInv()
    ensures Inv(Initial)
  {
    forall s ensures ShardInv(Initial, s) {
      InitialShard(s);
    }
  }

  lemma CommitShard(w: World, g: nat, op: Op, s: nat)
    requires Inv(w) && Enabled(w, Commit(g, op))
    ensures ShardInv(Committed(w, g, op), s)
  {
    assert ShardInv(w, s);
    match op
    case WriteOp(x) => CommitWrite(w, g, x, s);
    case ConfigOp(c) => CommitConfig(w, g, c, s);
    case MigrateOp(t, data, dup) =>
      assert ShardInv(w, t);
      CommitMigrate(w, g, t, data, dup, s);
    case GcOp(t) => CommitGc(w, g, t, s);
    case NoopOp => IdleShard(w, Committed(w, g, op), g, s);
  }

  // A step that gives no shard back.
  ghost predicate Allowed(w: World, step: Step) {
    Enabled(w, step) && (step.Reconfigure? ==> NoReturn(w.configs, step.config))
  }

  lemma TakeShard(w: World, step: Step, s: nat)
    requires Inv(w) && Allowed(w, step)
    ensures ShardInv(Take(w, step), s)
  {
    assert ShardInv(w, s);
    match step
    case Reconfigure(c) => ExtendShard(w, Take(w, step), c, s);
    case Commit(g, op) => CommitShard(w, g, op, s);
    case Pull(gid, at, t, seen) => PullShard(w, gid, at, t, seen, s);
    case Confirm(gid, at, t, seen) => ConfirmShard(w, gid, at, t, seen, s);
    case Issue(_) => CarryShard(w, Take(w, step), s);
    case Ack(_) => CarryShard(w, Take(w, step), s);
  }

  lemma TakeServers(w: World, step: Step)
    requires ConfigsOK(w.configs) && ServersOK(w) && Allowed(w, step)
    ensures ConfigsOK(Take(w, step).configs) && ServersOK(Take(w, step))
  {
    var w' := Take(w, step);
    match step
    case Reconfigure(c) => ExtendTenures(w, w', c);
    case Commit(g, op) => CommitServers(w, g, op);
    case _ => HistAlike(w, w');
  }

  lemma HistAlike(w: World, w': World)
    requires w'.hist == w.hist && w'.configs == w.configs && ServersOK(w)
    ensures ServersOK(w')
  {
    forall g ensures Hist(w', g) == Hist(w, g) {}
  }

  lemma TakeClients(w: World, step: Step)
    requires Inv(w) && Enabled(w, step)
    ensures TablesOK(Take(w, step)) && ClientsOK(Take(w, step))
  {
    if !step.Commit? {
      PropsTables(w, step);
    }
    match step
    case Commit(g, op) =>
      CommitTables(w, g, op);
      assert op.WriteOp? ==> ShardInv(w, Key2Shard(op.write.key));
      CommitClients(w, g, op);
    case Issue(x) => IssueClients(w, x);
    case Ack(c) => AckClients(w, c);
    case _ =>
      forall c ensures IssuedBy(Take(w, step), c) == IssuedBy(w, c) {}
  }

  // Every step of the system keeps the invariant.
  lemma TakeInv(w: World, step: Step)
    requires Inv(w) && Allowed(w, step)
    ensures Inv(Take(w, step))
  {
    TakeServers(w, step);
    TakeClients(w, step);
    forall s ensures ShardInv(Take(w, step), s) {
      TakeShard(w, step, s);
    }
  }

  // The history up to any step of a run that never returns a shard never does.
  lemma AllowedStep(w: World, step: Step)
    requires Enabled(w, step) && NeverReturns(Take(w, step).configs)
    ensures NeverReturns(w.configs) && Allowed(w, step)
  {
    var cs, cs' := w.configs, Take(w, step).configs;
    if step.Reconfigure? {
      assert cs'[|cs|] == step.config && cs'[..|cs|] == cs;
      forall k | 0 < k < |cs| ensures NoReturn(cs[..k], cs[k]) {
        assert cs'[k] == cs[k] && cs'[..k] == cs[..k];
      }
    }
  }

  lemma {:induction false} RunInv(run: seq<World>, i: nat)
    requires IsRun(run) && i < |run| && NeverReturns(run[i].configs)
    ensures Inv(run[i])
  {
    if i == 0 {
      InitialInv();
    } else {
      assert Follows(run[i - 1], run[i]);
      var step :| Enabled(run[i - 1], step) && run[i] == Take(run[i - 1], step);
      AllowedStep(run[i - 1], step);
      RunInv(run, i - 1);
      TakeInv(run[i - 1], step);
    }
  }

  lemma {:induction false} ConfigsGrow(run: seq<World>, i: nat, j: nat)
    requires IsRun(run) && i <= j < |run| && NeverReturns(run[j].configs)
    ensures NeverReturns(run[i].configs)
  {
    if i < j {
      assert Follows(run[j - 1], run[j]);
      var step :| Enabled(run[j - 1], step) && run[j] == Take(run[j - 1], step);
      AllowedStep(run[j - 1], step);
      ConfigsGrow(run, i, j - 1);
    }
  }

  /******* Theorems *******/

  lemma ServerHas(w: World, s: nat, g: nat)
    requires ServersOK(w) && g > 0 && Ready(g, Cur(w, g), s)
    ensures Has(w, s, g) && Owner(Cur(w, g).cfg, s) == g
  {
    CurIn(w, g);
    ReadyHasLanded(w, s, g, Cur(w, g));
  }

  // At every moment at most one group is ready to serve a shard.
  lemma UniqueServer(run: seq<World>, i: nat, s: nat, g: nat, g': nat)
    requires IsRun(run) && i < |run| && NeverReturns(run[i].configs) && g > 0 && g' > 0
    requires Ready(g, Cur(run[i], g), s) && Ready(g', Cur(run[i], g'), s)
    ensures g == g'
  {
    RunInv(run, i);
    ServerHas(run[i], s, g);
    ServerHas(run[i], s, g');
    assert ShardInv(run[i], s);
    UniqueReady(run[i], s, g, g');
  }

  // What it serves is what the effective writes to the shard add up to.
  lemma ServesTheWrites(run: seq<World>, i: nat, s: nat, g: nat)
    requires IsRun(run) && i < |run| && NeverReturns(run[i].configs)
    requires g > 0 && Ready(g, Cur(run[i], g), s)
    ensures Slice(Cur(run[i], g).store, s) == Ref(run[i].eff, s)
  {
    RunInv(run, i);
    ServerHas(run[i], s, g);
    assert ShardInv(run[i], s);
  }

  // The n-th write of client c is among the effective ones.
  predicate Effective(w: World, c: nat, n: nat) {
    0 < n <= |IssuedBy(w, c)| && IssuedBy(w, c)[n - 1] in w.eff
  }

  predicate SameRequest(x: Write, y: Write) {
    x.client == y.client && x.seqNum == y.seqNum
  }

  lemma DistinctRequests(w: World, j: nat, k: nat)
    requires ClientsOK(w) && j < |w.eff| && k < |w.eff| && SameRequest(w.eff[j], w.eff[k])
    ensures j == k
  {
    assert Issued(w, w.eff[j]) && Issued(w, w.eff[k]);
    assert w.eff[j] == w.eff[k];
  }

  lemma AckedPosition(w: World, c: nat, n: nat) returns (m: nat)
    requires ClientsOK(w) && 0 < n <= Last(w.acked, c)
    ensures m < |w.eff| && w.eff[m].client == c && w.eff[m].seqNum == n
    ensures Effective(w, c, n)
  {
    assert Done(w.eff, c, n);
    var x :| x in w.eff && x.client == c && x.seqNum == n;
    assert Issued(w, x);
    m :| m < |w.eff| && w.eff[m] == x;
  }

  // Each acknowledged write took effect exactly once; nothing else did but
  // writes some client issued.
  lemma ExactlyOnce(run: seq<World>, i: nat)
    requires IsRun(run) && i < |run| && NeverReturns(run[i].configs)
    ensures forall x :: x in run[i].eff ==> Issued(run[i], x)
    ensures forall j, k :: 0 <= j < k < |run[i].eff| ==> !SameRequest(run[i].eff[j], run[i].eff[k])
    ensures forall c, n :: 0 < n <= Last(run[i].acked, c) ==> Effective(run[i], c, n)
  {
    RunInv(run, i);
    forall j, k | 0 <= j < k < |run[i].eff| ensures !SameRequest(run[i].eff[j], run[i].eff[k]) {
      if SameRequest(run[i].eff[j], run[i].eff[k]) {
        DistinctRequests(run[i], j, k);
      }
    }
    forall c, n | 0 < n <= Last(run[i].acked, c) ensures Effective(run[i], c, n) {
      var m := AckedPosition(run[i], c, n);
    }
  }

  lemma {:induction false} EffectsGrow(run: seq<World>, i: nat, j: nat)
    requires IsRun(run) && i <= j < |run|
    ensures run[i].eff <= run[j].eff
  {
    if i < j {
      EffectsGrow(run, i, j - 1);
      assert Follows(run[j - 1], run[j]);
    }
  }

  // Real-time order: a write acknowledged before another was issued comes first.
  lemma WritesInRealTimeOrder(run: seq<World>, i: nat, j: nat, k: nat, k': nat)
    requires IsRun(run) && i <= j < |run| && NeverReturns(run[j].configs)
    requires k < |run[j].eff| && k' < |run[j].eff|
    requires run[j].eff[k].seqNum <= Last(run[i].acked, run[j].eff[k].client)
    requires run[j].eff[k'].seqNum > |IssuedBy(run[i], run[j].eff[k'].client)|
    ensures k < k'
  {
    EffectsGrow(run, i, j);
    ConfigsGrow(run, i, j);
    assert ClientsOK(run[i]) by { RunInv(run, i); }
    assert ClientsOK(run[j]) by { RunInv(run, j); }
    var x := run[j].eff[k];
    assert Issued(run[j], x);
    var m := AckedPosition(run[i], x.client, x.seqNum);
    DistinctRequests(run[j], m, k);
    assert k' < |run[i].eff| ==> Issued(run[i], run[i].eff[k']);
  }

  // A copy is collected only after the group it went to has landed the shard and
  // its committed log has held those very contents.
  lemma CollectedWasDelivered(run: seq<World>, i: nat, g: nat, s: nat)
    requires IsRun(run) && i < |run| && NeverReturns(run[i].configs)
    requires Enabled(run[i], Commit(g, GcOp(s))) && s in Cur(run[i], g).leaving
    ensures
      var w, to := run[i], Cur(run[i], g).leaving[s];
      && !Ready(g, Cur(w, g), s)
      && Has(w, s, to) && InLog(w, s, to, Slice(Cur(w, g).store, s))
  {
    RunInv(run, i);
    var w := run[i];
    assert ShardInv(w, s);
    Collecting(w, Committed(w, g, GcOp(s)), g, s);
    CurIn(w, g);
    assert StateOK(w, s, g, Cur(w, g));
    var j: nat :| j <= Cur(w, g).cfg.num && Hands(w.configs, s, g, Cur(w, g).leaving[s], j);
  }

  // Lagging or not, all replicas of a donor answer a pull with the same data for
  // as long as it can still matter.
  lemma PullsAgree(run: seq<World>, i: nat, gid: nat, at: nat, s: nat, seen: nat, seen': nat)
    requires IsRun(run) && i < |run| && NeverReturns(run[i].configs)
    requires Enabled(run[i], Pull(gid, at, s, seen)) && Enabled(run[i], Pull(gid, at, s, seen'))
    requires s in Cur(run[i], gid).migrating
    ensures
      var donor := Hist(run[i], Hist(run[i], gid)[at].migrating[s]);
      Slice(donor[seen].store, s) == Slice(donor[seen'].store, s) == Ref(run[i].eff, s)
  {
    RunInv(run, i);
    assert ShardInv(run[i], s);
    PulledIsRight(run[i], gid, at, s, seen);
    PulledIsRight(run[i], gid, at, s, seen');
    var donor := Hist(run[i], Hist(run[i], gid)[at].migrating[s]);
    SliceTwice(donor[seen].store, s);
    SliceTwice(donor[seen'].store, s);
  }

  // No crash, hand-off or collection loses a write: some group holds it all.
  lemma NothingIsLost(run: seq<World>, i: nat, s: nat)
    requires IsRun(run) && i < |run| && NeverReturns(run[i].configs) && Touched(run[i].eff, s)
    ensures exists g :: g > 0 && Slice(Cur(run[i], g).store, s) == Ref(run[i].eff, s)
  {
    RunInv(run, i);
    var w := run[i];
    assert ShardInv(w, s);
    var g, j :| Hands(w.configs, s, 0, g, j) && Has(w, s, g);
    HolderAhead(w, s, j);
  }

  // From any owner that has the data, the last one along the chain holds it.
  lemma {:induction false} HolderAhead(w: World, s: nat, j: nat)
    requires Inv(w) && j < |w.configs| && Has(w, s, Owner(w.configs[j], s))
    ensures exists g :: g > 0 && Slice(Cur(w, g).store, s) == Ref(w.eff, s)
    decreases |w.configs| - j
  {
    assert ShardInv(w, s);
    var g := Owner(w.configs[j], s);
    CurIn(w, g);
    if j + 1 < |w.configs| && Has(w, s, Owner(w.configs[j + 1], s)) {
      HolderAhead(w, s, j + 1);
    } else if j + 1 < |w.configs| && Cur(w, g).cfg.num > j {
      var h := Owner(w.configs[j + 1], s);
      assert Hands(w.configs, s, g, h, j + 1);
      assert FrozenCopy(w, s, g, h, j + 1, Cur(w, g));
      assert Holds(w, s, Cur(w, g).store, Cur(w, g).dup);
    } else {
      StillServing(w, s, g, j);
      assert Holds(w, s, Cur(w, g).store, Cur(w, g).dup);
    }
  }

  lemma StillServing(w: World, s: nat, g: nat, j: nat)
    requires ConfigsOK(w.configs) && ServersOK(w) && Has(w, s, g)
    requires j < |w.configs| && Owner(w.configs[j], s) == g && Cur(w, g).cfg.num <= j
    ensures Owner(Cur(w, g).cfg, s) == g
  {
    CurIn(w, g);
    var i: nat :| i <= Cur(w, g).cfg.num && i < |w.configs| && Owner(w.configs[i], s) == g;
    Contiguous(w.configs, s, i, Cur(w, g).cfg.num, j);
  }

  // A group never serves a shard it still means to collect.
  lemma NeverCollectsServed(run: seq<World>, i: nat, s: nat, g: nat)
    requires IsRun(run) && i < |run| && NeverReturns(run[i].configs)
    requires g > 0 && Ready(g, Cur(run[i], g), s)
    ensures s !in Cur(run[i], g).leaving
  {
    RunInv(run, i);
    assert ShardInv(run[i], s);
    ServingIsNotLeaving(run[i], s, g);
  }
}
