// The remaining steps: pulls, readiness answers, new configurations and clients.
module HandoffSteps {
  import opened ShardConfig
  import opened ShardGroup
  import opened HandoffProtocol
  import opened HandoffInvariant
  import opened HandoffCommit
  import opened HandoffAdopt

  // Steps that touch no group and no configuration.
  ghost predicate GroupsAlike(w: World, w': World) {
    w'.configs == w.configs && w'.hist == w.hist && w'.eff == w.eff
  }

  lemma CarryPlaces(w: World, w': World, s: nat)
    requires GroupsAlike(w, w')
    ensures SameHolders(w, w', s) && forall g :: Hist(w', g) == Hist(w, g)
  {
    forall x ensures Has(w', s, x) <==> Has(w, s, x) {
      assert Hist(w', x) == Hist(w, x);
    }
  }

  lemma CarryStates(w: World, w': World, s: nat)
    requires GroupsAlike(w, w') && StatesOK(w, s) && Chain(w, s)
    ensures StatesOK(w', s) && Chain(w', s)
  {
    CarryPlaces(w, w', s);
    forall y, q | y > 0 && q in Hist(w', y) ensures StateOK(w', s, y, q) {
      assert StateOK(w, s, y, q);
    }
    forall d, h, i | Hands(w'.configs, s, d, h, i) && d != 0 && Has(w', s, h)
      ensures Has(w', s, d) && Cur(w', d).cfg.num >= i
    {
      assert Hands(w.configs, s, d, h, i) && Has(w, s, h);
    }
  }

  lemma CarryData(w: World, w': World, s: nat)
    requires GroupsAlike(w, w') && Served(w, s) && Frozen(w, s) && Copied(w, s) && Started(w, s)
    ensures Served(w', s) && Frozen(w', s) && Copied(w', s) && Started(w', s)
  {
    CarryPlaces(w, w', s);
    forall g | Has(w', s, g) && Owner(Cur(w', g).cfg, s) == g
      ensures Holds(w', s, Cur(w', g).store, Cur(w', g).dup)
    {
      assert Has(w, s, g);
      assert Holds(w, s, Cur(w, g).store, Cur(w, g).dup);
    }
    forall d, h, i, q | q in Hist(w', d) && FrozenCopy(w', s, d, h, i, q) && !Has(w', s, h)
      ensures Holds(w', s, q.store, q.dup)
    {
      assert FrozenCopy(w, s, d, h, i, q) && !Has(w, s, h);
      assert Holds(w, s, q.store, q.dup);
    }
    forall d, h, i | d != 0 && Hands(w'.configs, s, d, h, i) && s in Cur(w', d).leaving && Has(w', s, h)
      ensures InLog(w', s, h, Slice(Cur(w', d).store, s))
    {
      assert Hands(w.configs, s, d, h, i) && Has(w, s, h);
      assert InLog(w, s, h, Slice(Cur(w, d).store, s));
    }
    UntouchedStarted(w, w', s);
  }

  lemma CarryFlight(w: World, w': World, s: nat, h: nat, data: map<string, string>, dup: map<nat, nat>)
    requires GroupsAlike(w, w') && FlightOK(w, s, h, data, dup)
    ensures FlightOK(w', s, h, data, dup)
  {
    CarryPlaces(w, w', s);
    FlightStays(w, w', s, h, data, dup);
  }

  // Proposals already made stay justified; new ones must be.
  lemma CarryShard(w: World, w': World, s: nat)
    requires GroupsAlike(w, w') && ShardInv(w, s)
    requires forall h, data, dup {:trigger (h, MigrateOp(s, data, dup)) in w'.props} ::
               (h, MigrateOp(s, data, dup)) in w'.props && (h, MigrateOp(s, data, dup)) !in w.props ==>
                 h > 0 && FlightOK(w, s, h, data, dup)
    requires forall g {:trigger (g, GcOp(s)) in w'.props} ::
               (g, GcOp(s)) in w'.props && (g, GcOp(s)) !in w.props ==>
                 g > 0 && exists h, i :: Hands(w.configs, s, g, h, i) && Has(w, s, h)
    ensures ShardInv(w', s)
  {
    CarryPlaces(w, w', s);
    CarryStates(w, w', s);
    CarryData(w, w', s);
    forall h, data, dup | (h, MigrateOp(s, data, dup)) in w'.props
      ensures h > 0 && FlightOK(w', s, h, data, dup)
    {
      CarryFlight(w, w', s, h, data, dup);
    }
    forall g | (g, GcOp(s)) in w'.props
      ensures g > 0 && exists h, i :: Hands(w'.configs, s, g, h, i) && Has(w', s, h)
    {
      var h, i :| Hands(w.configs, s, g, h, i) && Has(w, s, h);
      assert Has(w', s, h);
    }
  }

  /******* Pull and readiness *******/

  // Any replica that answers a pull gives data that may safely land.
  lemma PulledIsRight(w: World, gid: nat, at: nat, s: nat, seen: nat)
    requires Enabled(w, Pull(gid, at, s, seen)) && ServersOK(w) && StatesOK(w, s) && Frozen(w, s)
    ensures
      var q := Hist(w, Hist(w, gid)[at].migrating[s])[seen];
      FlightOK(w, s, gid, Slice(q.store, s), q.dup)
  {
    var st := Hist(w, gid)[at];
    var d := st.migrating[s];
    var q := Hist(w, d)[seen];
    assert st in Hist(w, gid) && q in Hist(w, d);
    assert StateOK(w, s, gid, st);
    var i: nat :| i <= st.cfg.num && Hands(w.configs, s, d, gid, i);
    assert Owner(w.configs[i - 1], s) == d;
    assert FrozenCopy(w, s, d, gid, i, q);
    assert StateOK(w, s, d, q);
    assert FrozenFor(w, s, d, gid, i);
    SliceTwice(q.store, s);
  }

  // A recipient that answers "ready" has landed the shard.
  lemma ConfirmedIsRight(w: World, gid: nat, at: nat, s: nat, seen: nat)
    requires Enabled(w, Confirm(gid, at, s, seen)) && ConfigsOK(w.configs) && ServersOK(w) && StatesOK(w, s)
    ensures exists h, i :: Hands(w.configs, s, gid, h, i) && Has(w, s, h)
  {
    var st := Hist(w, gid)[at];
    var to := st.leaving[s];
    var q := Hist(w, to)[seen];
    assert st in Hist(w, gid) && q in Hist(w, to);
    assert StateOK(w, s, gid, st);
    var i: nat :| i <= st.cfg.num && Hands(w.configs, s, gid, to, i);
    NeverToNobody(w.configs, s, gid, to, i);
    ReadyHasLanded(w, s, to, q);
    assert StateOK(w, s, to, q);
  }

  lemma PullShard(w: World, gid: nat, at: nat, t: nat, seen: nat, s: nat)
    requires Enabled(w, Pull(gid, at, t, seen)) && ServersOK(w) && ShardInv(w, s)
    ensures ShardInv(Take(w, Pull(gid, at, t, seen)), s)
  {
    if s == t {
      PulledIsRight(w, gid, at, s, seen);
    }
    CarryShard(w, Take(w, Pull(gid, at, t, seen)), s);
  }

  lemma ConfirmShard(w: World, gid: nat, at: nat, t: nat, seen: nat, s: nat)
    requires Enabled(w, Confirm(gid, at, t, seen)) && ConfigsOK(w.configs) && ServersOK(w) && ShardInv(w, s)
    ensures ShardInv(Take(w, Confirm(gid, at, t, seen)), s)
  {
    if s == t {
      ConfirmedIsRight(w, gid, at, s, seen);
    }
    CarryShard(w, Take(w, Confirm(gid, at, t, seen)), s);
  }

  /******* A new configuration *******/

  ghost predicate Extends(w: World, w': World, c: Config) {
    && ConfigsOK(w.configs) && ServersOK(w) && NoReturn(w.configs, c)
    && Enabled(w, Reconfigure(c)) && w' == Take(w, Reconfigure(c))
  }

  lemma ExtendTenures(w: World, w': World, c: Config)
    requires Extends(w, w', c)
    ensures ConfigsOK(w'.configs) && ServersOK(w') && w.configs <= w'.configs
    ensures forall g :: Hist(w', g) == Hist(w, g)
  {
    var cs, n := w.configs, |w.configs|;
    forall s, i, j, k | 0 <= i && k < n + 1 && Between(i, j, k) && Owner(w'.configs[i], s) == Owner(w'.configs[k], s)
      ensures Owner(w'.configs[j], s) == Owner(w'.configs[i], s)
    {
      if i < n && j < n {
        assert Owner(cs[n - 1], s) == Owner(c, s) || k < n;
        Contiguous(cs, s, i, j, if k < n then k else n - 1);
      }
    }
    forall g ensures Hist(w', g) == Hist(w, g) {}
  }

  // The group it gives a shard to cannot have had that shard.
  lemma ExtendHands(w: World, w': World, c: Config, s: nat)
    requires Extends(w, w', c)
    ensures forall g {:trigger Has(w', s, g)} {:trigger Has(w, s, g)} :: Has(w', s, g) <==> Has(w, s, g)
    ensures forall g, q {:trigger q in Hist(w', g)} ::
              q in Hist(w', g) ==> (Landed(w'.configs, q, s, g) <==> Landed(w.configs, q, s, g))
    ensures forall d, h, i {:trigger Hands(w'.configs, s, d, h, i)} :: Hands(w'.configs, s, d, h, i) ==>
              Hands(w.configs, s, d, h, i) || (i == |w.configs| && !Has(w, s, h))
  {
    ExtendTenures(w, w', c);
    forall g, q | q in Hist(w', g)
      ensures Landed(w'.configs, q, s, g) <==> Landed(w.configs, q, s, g)
    {
      assert q in Hist(w, g);
      BegunAlike(w.configs, w'.configs, q.cfg.num, s, g);
    }
    forall g ensures Has(w', s, g) <==> Has(w, s, g) {
      CurIn(w', g);
    }
    forall d, h, i: nat | Hands(w'.configs, s, d, h, i)
      ensures Hands(w.configs, s, d, h, i) || (i == |w.configs| && !Has(w, s, h))
    {
      assert i < |w.configs| ==> Hands(w.configs, s, d, h, i);
    }
  }

  lemma BegunAlike(cs: seq<Config>, cs': seq<Config>, num: nat, s: nat, g: nat)
    requires cs <= cs' && num < |cs|
    ensures Begun(cs', num, s, g) <==> Begun(cs, num, s, g)
  {
    if Begun(cs', num, s, g) {
      var i :| 0 <= i <= num && Owner(cs'[i], s) == g;
      assert Owner(cs[i], s) == g;
    }
    if Begun(cs, num, s, g) {
      var i :| 0 <= i <= num && Owner(cs[i], s) == g;
      assert Owner(cs'[i], s) == g;
    }
  }

  lemma HandsStays(cs: seq<Config>, cs': seq<Config>, s: nat, d: nat, h: nat, i: nat)
    requires cs <= cs' && Hands(cs, s, d, h, i)
    ensures Hands(cs', s, d, h, i)
  {}

  lemma ExtendStates(w: World, w': World, c: Config, s: nat)
    requires Extends(w, w', c) && StatesOK(w, s) && Chain(w, s)
    ensures StatesOK(w', s) && Chain(w', s)
  {
    ExtendTenures(w, w', c);
    ExtendHands(w, w', c, s);
    forall y, q | y > 0 && q in Hist(w', y) ensures StateOK(w', s, y, q) {
      assert StateOK(w, s, y, q);
      if s in q.migrating {
        var i: nat :| i <= q.cfg.num && Hands(w.configs, s, q.migrating[s], y, i);
        HandsStays(w.configs, w'.configs, s, q.migrating[s], y, i);
      }
      if s in q.leaving {
        var i: nat :| i <= q.cfg.num && Hands(w.configs, s, y, q.leaving[s], i);
        HandsStays(w.configs, w'.configs, s, y, q.leaving[s], i);
      }
    }
    forall d, h, i | Hands(w'.configs, s, d, h, i) && d != 0 && Has(w', s, h)
      ensures Has(w', s, d) && Cur(w', d).cfg.num >= i
    {
      assert Hands(w.configs, s, d, h, i) && Has(w, s, h);
    }
  }

  lemma ExtendProposals(w: World, w': World, c: Config, s: nat)
    requires Extends(w, w', c) && Flight(w, s) && Collect(w, s) && Started(w, s)
    ensures Flight(w', s) && Collect(w', s) && Started(w', s)
  {
    ExtendTenures(w, w', c);
    ExtendHands(w, w', c, s);
    forall h, data, dup | (h, MigrateOp(s, data, dup)) in w'.props
      ensures h > 0 && FlightOK(w', s, h, data, dup)
    {
      FlightStays(w, w', s, h, data, dup);
    }
    forall g | (g, GcOp(s)) in w'.props
      ensures g > 0 && exists h, i :: Hands(w'.configs, s, g, h, i) && Has(w', s, h)
    {
      var h, i :| Hands(w.configs, s, g, h, i) && Has(w, s, h);
      HandsStays(w.configs, w'.configs, s, g, h, i);
      assert Has(w', s, h);
    }
    if Touched(w'.eff, s) {
      var g, i :| Hands(w.configs, s, 0, g, i) && Has(w, s, g);
      HandsStays(w.configs, w'.configs, s, 0, g, i);
      assert Has(w', s, g);
    }
  }

  lemma ExtendData(w: World, w': World, c: Config, s: nat)
    requires Extends(w, w', c) && Served(w, s) && Frozen(w, s) && Copied(w, s)
    ensures Served(w', s) && Frozen(w', s) && Copied(w', s)
  {
    ExtendTenures(w, w', c);
    ExtendHands(w, w', c, s);
    forall g | Has(w', s, g) && Owner(Cur(w', g).cfg, s) == g
      ensures Holds(w', s, Cur(w', g).store, Cur(w', g).dup)
    {
      assert Has(w, s, g);
      assert Holds(w, s, Cur(w, g).store, Cur(w, g).dup);
    }
    forall d, h, i, q | q in Hist(w', d) && FrozenCopy(w', s, d, h, i, q) && !Has(w', s, h)
      ensures Holds(w', s, q.store, q.dup)
    {
      assert q in Hist(w, d) && Hands(w'.configs, s, d, h, i);
      assert FrozenCopy(w, s, d, h, i, q) && !Has(w, s, h);
      assert Holds(w, s, q.store, q.dup);
    }
    forall d, h, i | d != 0 && Hands(w'.configs, s, d, h, i) && s in Cur(w', d).leaving && Has(w', s, h)
      ensures InLog(w', s, h, Slice(Cur(w', d).store, s))
    {
      assert Hands(w.configs, s, d, h, i) && Has(w, s, h);
      assert InLog(w, s, h, Slice(Cur(w, d).store, s));
    }
  }

  lemma ExtendShard(w: World, w': World, c: Config, s: nat)
    requires Extends(w, w', c) && ShardInv(w, s)
    ensures ShardInv(w', s)
  {
    ExtendStates(w, w', c, s);
    ExtendProposals(w, w', c, s);
    ExtendData(w, w', c, s);
  }

  /******* Commits, gathered *******/

  lemma IdleShard(w: World, w': World, g: nat, s: nat)
    requires g > 0 && w'.eff == w.eff && Moves(w, w', g, Cur(w, g)) && ShardInv(w, s)
    ensures ShardInv(w', s)
  {
    Untouched(w, w', g, Cur(w, g), s);
  }

  lemma CommitWrite(w: World, g: nat, x: Write, s: nat)
    requires g > 0 && ConfigsOK(w.configs) && ServersOK(w) && ShardInv(w, s)
    ensures ShardInv(Committed(w, g, WriteOp(x)), s)
  {
    var w' := Committed(w, g, WriteOp(x));
    if !TakesEffect(g, Cur(w, g), x) {
      IdleShard(w, w', g, s);
    } else if s == Key2Shard(x.key) {
      WriteHere(w, w', g, x);
    } else {
      WriteElsewhere(w, w', g, x, s);
    }
  }

  // Anything but the next version is ignored.
  lemma StaleConfig(w: World, g: nat, c: Config)
    requires g > 0 && c.num != Cur(w, g).cfg.num + 1
    ensures Moves(w, Committed(w, g, ConfigOp(c)), g, Cur(w, g)) && Committed(w, g, ConfigOp(c)).eff == w.eff
  {}

  lemma CommitConfig(w: World, g: nat, c: Config, s: nat)
    requires g > 0 && ConfigsOK(w.configs) && ServersOK(w) && ShardInv(w, s) && c in w.configs
    ensures ShardInv(Committed(w, g, ConfigOp(c)), s)
  {
    var w' := Committed(w, g, ConfigOp(c));
    if c.num == Cur(w, g).cfg.num + 1 {
      NextConfig(w, g, c);
      AdoptShard(w, w', g, Cur(w, g).cfg.num, s);
    } else {
      StaleConfig(w, g, c);
      IdleShard(w, w', g, s);
    }
  }

  lemma NextConfig(w: World, g: nat, c: Config)
    requires g > 0 && ConfigsOK(w.configs) && ServersOK(w) && c in w.configs && c.num == Cur(w, g).cfg.num + 1
    ensures Adopts(w, Committed(w, g, ConfigOp(c)), g, Cur(w, g).cfg.num)
  {
    var k :| 0 <= k < |w.configs| && w.configs[k] == c;
    assert w.configs[k].num == k;
  }

  lemma CommitMigrate(w: World, g: nat, t: nat, data: map<string, string>, dup: map<nat, nat>, s: nat)
    requires g > 0 && ConfigsOK(w.configs) && ServersOK(w) && ShardInv(w, s) && Flight(w, t)
    requires (g, MigrateOp(t, data, dup)) in w.props
    ensures ShardInv(Committed(w, g, MigrateOp(t, data, dup)), s)
  {
    var w' := Committed(w, g, MigrateOp(t, data, dup));
    if t !in Cur(w, g).migrating {
      IdleShard(w, w', g, s);
    } else if s == t {
      LandHere(w, w', g, s, data, dup);
    } else {
      LandElsewhere(w, w', g, t, data, dup, s);
    }
  }

  lemma CommitGc(w: World, g: nat, t: nat, s: nat)
    requires g > 0 && ConfigsOK(w.configs) && ServersOK(w) && ShardInv(w, s) && (g, GcOp(t)) in w.props
    ensures ShardInv(Committed(w, g, GcOp(t)), s)
  {
    var w' := Committed(w, g, GcOp(t));
    if t !in Cur(w, g).leaving {
      IdleShard(w, w', g, s);
    } else if s == t {
      CollectHere(w, w', g, s);
    } else {
      CollectElsewhere(w, w', g, t, s);
    }
  }

  lemma CommitServers(w: World, g: nat, op: Op)
    requires Numbered(w.configs) && ServersOK(w) && Enabled(w, Commit(g, op))
    ensures ServersOK(Committed(w, g, op)) && Committed(w, g, op).configs == w.configs
  {
    var w' := Committed(w, g, op);
    CurIn(w, g);
    var st, st' := Cur(w, g), Apply(g, Cur(w, g), op);
    assert st.cfg.num <= st'.cfg.num < |w.configs| && st'.cfg == w.configs[st'.cfg.num];
    assert Hist(w', g) == Hist(w, g) + [st'] && Cur(w', g) == st';
    forall y, q | q in Hist(w', y)
      ensures q.cfg.num < |w'.configs| && q.cfg == w'.configs[q.cfg.num] && q.cfg.num <= Cur(w', y).cfg.num
    {
      assert y != g ==> Hist(w', y) == Hist(w, y);
      assert q in Hist(w, y) || (y == g && q == st');
    }
  }

  /******* Clients *******/

  lemma KnownGrows(eff: seq<Write>, x: Write, dup: map<nat, nat>)
    requires Known(eff, dup)
    ensures Known(eff + [x], dup)
  {
    forall c | Last(dup, c) > 0 ensures Done(eff + [x], c, Last(dup, c)) {
      var y :| y in eff && y.client == c && y.seqNum == Last(dup, c);
      assert y in eff + [x];
    }
  }

  lemma AppliedKnown(w: World, g: nat, op: Op)
    requires TablesOK(w) && Enabled(w, Commit(g, op))
    ensures Known(Committed(w, g, op).eff, Apply(g, Cur(w, g), op).dup)
  {
    var st := Cur(w, g);
    CurIn(w, g);
    if op.WriteOp? && TakesEffect(g, st, op.write) {
      var x := op.write;
      KnownGrows(w.eff, x, st.dup);
      assert x in w.eff + [x];
      var dup' := st.dup[x.client := x.seqNum];
      forall c | Last(dup', c) > 0 ensures Done(w.eff + [x], c, Last(dup', c)) {
        assert c != x.client ==> Last(dup', c) == Last(st.dup, c);
      }
    } else if op.MigrateOp? && op.shard in st.migrating {
      assert Known(w.eff, op.dup);
      forall c | Last(MaxMerge(st.dup, op.dup), c) > 0
        ensures Done(w.eff, c, Last(MaxMerge(st.dup, op.dup), c))
      {
        MergeIsMax(st.dup, op.dup, c);
      }
    }
  }

  lemma CommitTables(w: World, g: nat, op: Op)
    requires TablesOK(w) && Enabled(w, Commit(g, op))
    ensures TablesOK(Committed(w, g, op))
  {
    var w' := Committed(w, g, op);
    AppliedKnown(w, g, op);
    var st' := Apply(g, Cur(w, g), op);
    forall dup | Known(w.eff, dup) ensures Known(w'.eff, dup) {
      if w'.eff != w.eff {
        KnownGrows(w.eff, op.write, dup);
      }
    }
    assert Hist(w', g) == Hist(w, g) + [st'];
    forall y, q | q in Hist(w', y) ensures Known(w'.eff, q.dup) {
      assert y != g ==> Hist(w', y) == Hist(w, y);
      assert q in Hist(w, y) || q == st';
    }
  }

  lemma PropsTables(w: World, step: Step)
    requires TablesOK(w) && Enabled(w, step) && !step.Commit?
    ensures TablesOK(Take(w, step))
  {
    var w' := Take(w, step);
    forall y ensures Hist(w', y) == Hist(w, y) {}
    if step.Pull? {
      var donor := Hist(w, step.gid)[step.at].migrating[step.shard];
      assert Hist(w, donor)[step.seen] in Hist(w, donor);
    }
  }

  // A write the serving group has seen before took effect before.
  lemma RetryIsDone(w: World, g: nat, x: Write)
    requires TablesOK(w) && ClientsOK(w) && Issued(w, x) && x.seqNum <= Last(Cur(w, g).dup, x.client)
    ensures Done(w.eff, x.client, x.seqNum)
  {
    CurIn(w, g);
    var m := Last(Cur(w, g).dup, x.client);
    assert Known(w.eff, Cur(w, g).dup);
    var y :| y in w.eff && y.client == x.client && y.seqNum == m;
    assert Issued(w, y);
    assert |IssuedBy(w, x.client)| <= Last(w.acked, x.client) + 1;
  }

  // A write never takes effect twice: the serving group remembers it.
  lemma EffectIsNew(w: World, g: nat, x: Write)
    requires ConfigsOK(w.configs) && ServersOK(w) && Served(w, Key2Shard(x.key))
    requires g > 0 && TakesEffect(g, Cur(w, g), x)
    ensures x !in w.eff
  {
    CurIn(w, g);
    ReadyHasLanded(w, Key2Shard(x.key), g, Cur(w, g));
    assert Has(w, Key2Shard(x.key), g);
    assert Covers(Cur(w, g).dup, w.eff, Key2Shard(x.key));
  }

  lemma DoneGrows(eff: seq<Write>, x: Write)
    ensures forall c, n {:trigger Done(eff + [x], c, n)} :: Done(eff, c, n) ==> Done(eff + [x], c, n)
    ensures Done(eff + [x], x.client, x.seqNum)
  {
    assert x in eff + [x];
    forall c, n | Done(eff, c, n) ensures Done(eff + [x], c, n) {
      var y :| y in eff && y.client == c && y.seqNum == n;
      assert y in eff + [x];
    }
  }

  lemma CommitClients(w: World, g: nat, op: Op)
    requires ConfigsOK(w.configs) && ServersOK(w) && TablesOK(w) && ClientsOK(w)
    requires Enabled(w, Commit(g, op)) && (op.WriteOp? ==> Served(w, Key2Shard(op.write.key)))
    ensures ClientsOK(Committed(w, g, op))
  {
    var w' := Committed(w, g, op);
    assert w'.issued == w.issued && w'.acked == w.acked;
    forall c ensures IssuedBy(w', c) == IssuedBy(w, c) {}
    if op.WriteOp? && Accepted(g, Cur(w, g), op.write) {
      var x := op.write;
      if TakesEffect(g, Cur(w, g), x) {
        EffectIsNew(w, g, x);
        DoneGrows(w.eff, x);
      } else {
        RetryIsDone(w, g, x);
      }
    }
  }

  lemma IssueClients(w: World, x: Write)
    requires ClientsOK(w) && Enabled(w, Issue(x))
    ensures ClientsOK(Take(w, Issue(x)))
  {
    var w' := Take(w, Issue(x));
    forall c ensures IssuedBy(w, c) <= IssuedBy(w', c) {}
    forall y | y in w'.eff ensures Issued(w', y) {
      assert Issued(w, y);
    }
  }

  lemma AckClients(w: World, client: nat)
    requires ClientsOK(w) && Enabled(w, Ack(client))
    ensures ClientsOK(Take(w, Ack(client)))
  {
    var w' := Take(w, Ack(client));
    forall c ensures IssuedBy(w', c) == IssuedBy(w, c) {}
    var n := |IssuedBy(w, client)|;
    forall k | 0 < k <= n ensures Done(w.eff, client, k) {
      assert n <= Last(w.acked, client) + 1;
      assert k == n || k <= Last(w.acked, client);
    }
  }
}
