// What the hand-off gets done: writes are taken, acknowledged and found again, and
// configurations, migrations and collections go through when their turn comes.
module HandoffProgress {
  import opened ShardConfig
  import opened ShardGroup
  import opened HandoffProtocol
  import opened HandoffInvariant
  import opened HandoffCommit
  import opened HandoffAdopt
  import opened HandoffSteps
  import opened HandoffSafety
  import Register

  // The group that serves a shard holds, for each of its keys, the last Put that
  // took effect and the Appends that took effect after it.
  lemma ServesContent(run: seq<World>, i: nat, g: nat, key: string)
    requires IsRun(run) && i < |run| && NeverReturns(run[i].configs)
    requires g > 0 && Ready(g, Cur(run[i], g), Key2Shard(key))
    ensures
      var store := Cur(run[i], g).store;
      (if key in store then store[key] else "") == Register.Content(Changes(run[i].eff, key))
  {
    var s := Key2Shard(key);
    ServesTheWrites(run, i, s, g);
    RefIsContent(run[i].eff, key);
    assert key in Slice(Cur(run[i], g).store, s) <==> key in Cur(run[i], g).store;
  }

  // Committing an issued write where its shard is served, the first time or again,
  // gets it acknowledged, and it is then among the effective writes.
  lemma ServedWriteIsTaken(run: seq<World>, i: nat, g: nat, x: Write)
    requires IsRun(run) && i < |run| && NeverReturns(run[i].configs)
    requires g > 0 && Issued(run[i], x)
    requires Owner(Cur(run[i], g).cfg, Key2Shard(x.key)) == g && Key2Shard(x.key) !in Cur(run[i], g).migrating
    ensures
      var w' := Committed(run[i], g, WriteOp(x));
      && (x.client, x.seqNum) in w'.oks && x in w'.eff
      && w'.eff == (if x in run[i].eff then run[i].eff else run[i].eff + [x])
  {
    RunInv(run, i);
    var w := run[i];
    assert ShardInv(w, Key2Shard(x.key));
    if x.seqNum <= Last(Cur(w, g).dup, x.client) {
      RetryIsDone(w, g, x);
      var y :| y in w.eff && y.client == x.client && y.seqNum == x.seqNum;
      assert Issued(w, y);
    }
    if x in w.eff {
      CurIn(w, g);
      ReadyHasLanded(w, Key2Shard(x.key), g, Cur(w, g));
      assert Has(w, Key2Shard(x.key), g);
      assert Covers(Cur(w, g).dup, w.eff, Key2Shard(x.key));
    }
  }

  // Anywhere else it is refused and changes nothing.
  lemma UnservedWriteIsRefused(w: World, g: nat, x: Write)
    requires Owner(Cur(w, g).cfg, Key2Shard(x.key)) != g || Key2Shard(x.key) in Cur(w, g).migrating
    ensures
      var w' := Committed(w, g, WriteOp(x));
      w'.oks == w.oks && w'.eff == w.eff && Cur(w', g) == Cur(w, g)
  {}

  // The next configuration, once committed, is adopted: a shard gained from nobody
  // is served at once, one gained from a group waits for it, one lost is refused
  // and kept for the new owner.
  lemma NextIsAdopted(w: World, g: nat, s: nat)
    requires g > 0 && ConfigsOK(w.configs) && ServersOK(w) && Cur(w, g).cfg.num + 1 < |w.configs|
    ensures
      var n := Cur(w, g).cfg.num;
      var from, to := Owner(w.configs[n], s), Owner(w.configs[n + 1], s);
      var st := Cur(Committed(w, g, ConfigOp(w.configs[n + 1])), g);
      && st.cfg == w.configs[n + 1] && st.store == Cur(w, g).store && st.dup == Cur(w, g).dup
      && (to == g && from == 0 && s !in Cur(w, g).migrating ==> Ready(g, st, s))
      && (to == g && from != g && from != 0 ==> s in st.migrating && st.migrating[s] == from)
      && (from == g && to != g && to != 0 ==> !Ready(g, st, s) && s in st.leaving && st.leaving[s] == to)
      && (from == to == g ==> (Ready(g, st, s) <==> Ready(g, Cur(w, g), s)))
  {
    var n := Cur(w, g).cfg.num;
    CurIn(w, g);
    var w' := Committed(w, g, ConfigOp(w.configs[n + 1]));
    assert Adopts(w, w', g, n) by { assert w.configs[n + 1].num == n + 1; }
    AdoptMoves(w, w', g, n);
    AdoptPending(w, w', g, n, s);
  }

  // When the donor has the data and has caught up with the recipient, a pull is
  // answered and, committed, lands exactly what was written.
  lemma HandOffCompletes(run: seq<World>, i: nat, h: nat, s: nat)
    requires IsRun(run) && i < |run| && NeverReturns(run[i].configs)
    requires h > 0 && s in Cur(run[i], h).migrating
    requires
      var donor := Cur(run[i], Cur(run[i], h).migrating[s]);
      s !in donor.migrating && donor.cfg.num >= Cur(run[i], h).cfg.num
    ensures
      var w := run[i];
      var d := Cur(w, h).migrating[s];
      var pull := Pull(h, |Hist(w, h)| - 1, s, |Hist(w, d)| - 1);
      var op := MigrateOp(s, Slice(Cur(w, d).store, s), Cur(w, d).dup);
      && Enabled(w, pull) && Enabled(Take(w, pull), Commit(h, op))
      && var w' := Committed(Take(w, pull), h, op);
         && s !in Cur(w', h).migrating && Slice(Cur(w', h).store, s) == Ref(w.eff, s)
         && (Ready(h, Cur(w', h), s) <==> Owner(Cur(w, h).cfg, s) == h)
  {
    RunInv(run, i);
    var w := run[i];
    var d := Cur(w, h).migrating[s];
    var pull := Pull(h, |Hist(w, h)| - 1, s, |Hist(w, d)| - 1);
    var op := MigrateOp(s, Slice(Cur(w, d).store, s), Cur(w, d).dup);
    var w1 := Take(w, pull);
    TakeInv(w, pull);
    assert Hist(w1, h) == Hist(w, h);
    assert ShardInv(w1, s);
    var from, k := Landing(w1, Committed(w1, h, op), h, s, op.data, op.dup);
  }

  // When the recipient serves the shard, its answer and a committed GC remove the
  // donor's copy.
  lemma CollectionCompletes(w: World, g: nat, s: nat)
    requires g > 0 && s in Cur(w, g).leaving
    requires Ready(Cur(w, g).leaving[s], Cur(w, Cur(w, g).leaving[s]), s)
    ensures
      var to := Cur(w, g).leaving[s];
      var confirm := Confirm(g, |Hist(w, g)| - 1, s, |Hist(w, to)| - 1);
      && Enabled(w, confirm) && Enabled(Take(w, confirm), Commit(g, GcOp(s)))
      && var w' := Committed(Take(w, confirm), g, GcOp(s));
         Slice(Cur(w', g).store, s) == map[] && s !in Cur(w', g).leaving
  {
    var to := Cur(w, g).leaving[s];
    var w1 := Take(w, Confirm(g, |Hist(w, g)| - 1, s, |Hist(w, to)| - 1));
    assert Hist(w1, g) == Hist(w, g);
    SliceOfWithout(Cur(w, g).store, s, s);
  }
}
