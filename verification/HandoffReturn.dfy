// Shards that come back: exactly when a group collects data it serves.
module HandoffReturn {
  import opened ShardConfig
  import opened ShardGroup
  import opened HandoffProtocol
  import opened HandoffInvariant
  import opened HandoffCommit
  import opened HandoffSteps

  /******* Exactly when a collection deletes what is served *******/

  // A GC changes what a group serves exactly if the shard is still marked leaving
  // and not empty; the group then goes on serving it, empty.
  lemma CollectsServedIff(g: nat, st: Server, s: nat)
    requires Ready(g, st, s)
    ensures
      var st' := Apply(g, st, GcOp(s));
      && (Slice(st'.store, s) != Slice(st.store, s) <==> s in st.leaving && Slice(st.store, s) != map[])
      && Ready(g, st', s) && (s in st.leaving ==> Slice(st'.store, s) == map[])
  {
    SliceOfWithout(st.store, s, s);
  }

  // The shard has left g and is with g again at configuration num.
  ghost predicate CameBack(cs: seq<Config>, s: nat, g: nat, num: nat) {
    && num < |cs| && Owner(cs[num], s) == g
    && exists h: nat, i: nat :: i <= num && Hands(cs, s, g, h, i)
  }

  ghost predicate LeavingHanded(w: World) {
    forall g, q, s {:trigger s in q.leaving, q in Hist(w, g)} :: g > 0 && q in Hist(w, g) && s in q.leaving ==>
      HandedBy(w, s, g, q.leaving[s], q.cfg.num)
  }

  // What holds in every run, whatever the controller does.
  ghost predicate AnyRunInv(w: World) { Numbered(w.configs) && ServersOK(w) && LeavingHanded(w) }

  lemma AdoptLeaving(w: World, g: nat, st: Server, c: Config, s: nat)
    requires g > 0 && Numbered(w.configs) && st.cfg.num < |w.configs| && st.cfg == w.configs[st.cfg.num]
    requires c in w.configs && s in Adopt(g, st, c).leaving
    requires s in st.leaving ==> HandedBy(w, s, g, st.leaving[s], st.cfg.num)
    ensures HandedBy(w, s, g, Adopt(g, st, c).leaving[s], Adopt(g, st, c).cfg.num)
  {
    if c.num == st.cfg.num + 1 && Lost(g, st.cfg, c, s) {
      var k :| 0 <= k < |w.configs| && w.configs[k] == c;
      assert w.configs[k].num == k;
      assert s < NShards;
      assert Hands(w.configs, s, g, Owner(c, s), k);
    }
  }

  lemma CommitLeaving(w: World, g: nat, op: Op)
    requires AnyRunInv(w) && Enabled(w, Commit(g, op))
    ensures LeavingHanded(Committed(w, g, op))
  {
    var w' := Committed(w, g, op);
    var st, st' := Cur(w, g), Apply(g, Cur(w, g), op);
    CurIn(w, g);
    assert Hist(w', g) == Hist(w, g) + [st'] && w'.configs == w.configs;
    forall y, q, s | y > 0 && q in Hist(w', y) && s in q.leaving
      ensures HandedBy(w', s, y, q.leaving[s], q.cfg.num)
    {
      if q in Hist(w, y) {
        assert HandedBy(w, s, y, q.leaving[s], q.cfg.num);
      } else {
        assert y == g && q == st' && (s in st.leaving ==> HandedBy(w, s, g, st.leaving[s], st.cfg.num));
        if op.ConfigOp? {
          AdoptLeaving(w, g, st, op.config, s);
        }
      }
    }
  }

  lemma ReconfigureAny(w: World, c: Config)
    requires AnyRunInv(w) && Enabled(w, Reconfigure(c))
    ensures AnyRunInv(Take(w, Reconfigure(c)))
  {
    var w' := Take(w, Reconfigure(c));
    forall g ensures Hist(w', g) == Hist(w, g) {}
    forall y, q, s | y > 0 && q in Hist(w', y) && s in q.leaving
      ensures HandedBy(w', s, y, q.leaving[s], q.cfg.num)
    {
      assert HandedBy(w, s, y, q.leaving[s], q.cfg.num);
      var i: nat :| i <= q.cfg.num && Hands(w.configs, s, y, q.leaving[s], i);
      HandsStays(w.configs, w'.configs, s, y, q.leaving[s], i);
    }
  }

  lemma AnyStep(w: World, step: Step)
    requires AnyRunInv(w) && Enabled(w, step)
    ensures AnyRunInv(Take(w, step))
  {
    match step
    case Reconfigure(c) => ReconfigureAny(w, c);
    case Commit(g, op) =>
      CommitServers(w, g, op);
      CommitLeaving(w, g, op);
    case _ => AlikeAny(w, Take(w, step));
  }

  lemma AlikeAny(w: World, w': World)
    requires AnyRunInv(w) && w'.configs == w.configs && w'.hist == w.hist
    ensures AnyRunInv(w')
  {
    forall g ensures Hist(w', g) == Hist(w, g) {}
    forall y, q, s | y > 0 && q in Hist(w', y) && s in q.leaving
      ensures HandedBy(w', s, y, q.leaving[s], q.cfg.num)
    {
      assert HandedBy(w, s, y, q.leaving[s], q.cfg.num);
    }
  }

  lemma {:induction false} AnyRun(run: seq<World>, i: nat)
    requires IsRun(run) && i < |run|
    ensures AnyRunInv(run[i])
  {
    if i > 0 {
      AnyRun(run, i - 1);
      assert Follows(run[i - 1], run[i]);
      var step :| Enabled(run[i - 1], step) && run[i] == Take(run[i - 1], step);
      AnyStep(run[i - 1], step);
    }
  }

  // In every run, only a shard that has come back can be collected while served.
  lemma OnlyReturnedIsCollected(run: seq<World>, i: nat, g: nat, s: nat)
    requires IsRun(run) && i < |run| && g > 0 && Ready(g, Cur(run[i], g), s)
    requires Slice(Apply(g, Cur(run[i], g), GcOp(s)).store, s) != Slice(Cur(run[i], g).store, s)
    ensures CameBack(run[i].configs, s, g, Cur(run[i], g).cfg.num)
  {
    AnyRun(run, i);
    CurIn(run[i], g);
    CollectsServedIff(g, Cur(run[i], g), s);
    assert HandedBy(run[i], s, g, Cur(run[i], g).leaving[s], Cur(run[i], g).cfg.num);
  }
}
