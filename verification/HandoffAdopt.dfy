// A group adopting the next configuration: freezing what it loses, waiting for
// what it gains.
module HandoffAdopt {
  import opened ShardConfig
  import opened ShardGroup
  import opened HandoffProtocol
  import opened HandoffInvariant
  import opened HandoffCommit

  ghost predicate Adopts(w: World, w': World, g: nat, n: nat) {
    && g > 0 && n == Cur(w, g).cfg.num && n + 1 < |w.configs|
    && w' == Committed(w, g, ConfigOp(w.configs[n + 1]))
    && ConfigsOK(w.configs) && ServersOK(w)
  }

  lemma AdoptMoves(w: World, w': World, g: nat, n: nat)
    requires Adopts(w, w', g, n)
    ensures Moves(w, w', g, Cur(w', g)) && w'.eff == w.eff
    ensures Cur(w, g).cfg == w.configs[n]
    ensures Cur(w', g) == Adopt(g, Cur(w, g), w.configs[n + 1]) && Cur(w', g).cfg == w.configs[n + 1]
    ensures forall x :: Cur(w, x).cfg.num <= Cur(w', x).cfg.num
  {
    CurIn(w, g);
  }

  lemma AdoptPending(w: World, w': World, g: nat, n: nat, s: nat)
    requires Adopts(w, w', g, n)
    ensures
      var st, st', c := Cur(w, g), Cur(w', g), w.configs;
      && (s in st'.migrating <==> s in st.migrating || Gained(g, c[n], c[n + 1], s))
      && (Gained(g, c[n], c[n + 1], s) ==> st'.migrating[s] == Owner(c[n], s) && Hands(c, s, Owner(c[n], s), g, n + 1))
      && (!Gained(g, c[n], c[n + 1], s) && s in st.migrating ==> st'.migrating[s] == st.migrating[s])
      && (s in st'.leaving <==> s in st.leaving || Lost(g, c[n], c[n + 1], s))
      && (Lost(g, c[n], c[n + 1], s) ==>
            st'.leaving[s] == Owner(c[n + 1], s) && Hands(c, s, g, Owner(c[n + 1], s), n + 1))
      && (!Lost(g, c[n], c[n + 1], s) && s in st.leaving ==> st'.leaving[s] == st.leaving[s])
  {
    AdoptMoves(w, w', g, n);
    assert w.configs[n + 1].num == n + 1;
    assert |w.configs[n].shards| == NShards && |w.configs[n + 1].shards| == NShards;
  }

  lemma AdopterHas(w: World, w': World, g: nat, n: nat, s: nat)
    requires Adopts(w, w', g, n)
    ensures Has(w, s, g) ==> Has(w', s, g)
    ensures Has(w', s, g) && !Has(w, s, g) ==> Hands(w.configs, s, 0, g, n + 1)
  {
    AdoptMoves(w, w', g, n);
    AdoptPending(w, w', g, n, s);
    var c := w.configs;
    if Has(w, s, g) {
      var i :| 0 <= i <= n && Owner(c[i], s) == g;
      if Owner(c[n + 1], s) == g {
        Contiguous(c, s, i, n, n + 1);
      }
      assert Begun(c, n + 1, s, g);
    } else if Has(w', s, g) {
      var i :| 0 <= i <= n + 1 && Owner(c[i], s) == g;
      assert i == n + 1;
    }
  }

  // Adoption makes a group a holder only as a shard's first owner.
  lemma AdoptHolders(w: World, w': World, g: nat, n: nat, s: nat)
    requires Adopts(w, w', g, n)
    ensures forall x {:trigger Has(w, s, x)} {:trigger Has(w', s, x)} :: Has(w, s, x) ==> Has(w', s, x)
    ensures forall x {:trigger Has(w, s, x)} {:trigger Has(w', s, x)} ::
              Has(w', s, x) && !Has(w, s, x) ==> x == g && Hands(w.configs, s, 0, g, n + 1)
  {
    AdoptMoves(w, w', g, n);
    AdopterHas(w, w', g, n, s);
    forall x | x != g ensures Has(w', s, x) <==> Has(w, s, x) {
      assert Cur(w', x) == Cur(w, x);
    }
  }

  lemma AdoptStates(w: World, w': World, g: nat, n: nat, s: nat)
    requires Adopts(w, w', g, n) && StatesOK(w, s)
    ensures StatesOK(w', s)
  {
    AdoptMoves(w, w', g, n);
    AdoptPending(w, w', g, n, s);
    AdoptHolders(w, w', g, n, s);
    CurIn(w, g);
    forall y, q | y > 0 && q in Hist(w', y) ensures StateOK(w', s, y, q) {
      if q in Hist(w, y) {
        assert StateOK(w, s, y, q);
        StateStays(w, w', s, y, q);
      } else {
        assert StateOK(w, s, g, Cur(w, g));
        NewState(w, w', g, n, s);
      }
    }
  }

  lemma StateStays(w: World, w': World, s: nat, y: nat, q: Server)
    requires StateOK(w, s, y, q) && w'.configs == w.configs && (Has(w, s, y) ==> Has(w', s, y))
    ensures StateOK(w', s, y, q)
  {}

  lemma NewState(w: World, w': World, g: nat, n: nat, s: nat)
    requires Adopts(w, w', g, n) && StateOK(w, s, g, Cur(w, g)) && (Has(w, s, g) ==> Has(w', s, g))
    ensures StateOK(w', s, g, Cur(w', g))
  {
    AdoptMoves(w, w', g, n);
    AdoptPending(w, w', g, n, s);
  }

  lemma AdoptChain(w: World, w': World, g: nat, n: nat, s: nat)
    requires Adopts(w, w', g, n) && Chain(w, s)
    ensures Chain(w', s)
  {
    AdoptMoves(w, w', g, n);
    AdoptHolders(w, w', g, n, s);
    forall d, h, i | Hands(w'.configs, s, d, h, i) && d != 0 && Has(w', s, h)
      ensures Has(w', s, d) && Cur(w', d).cfg.num >= i
    {
      if !Has(w, s, h) {
        HandedOnce(w.configs, s, d, h, i, 0, g, n + 1);
      }
      assert Hands(w.configs, s, d, h, i);
      assert Has(w, s, d);
    }
  }

  lemma AdoptFlight(w: World, w': World, g: nat, n: nat, s: nat)
    requires Adopts(w, w', g, n) && Flight(w, s)
    ensures Flight(w', s)
  {
    AdoptMoves(w, w', g, n);
    AdoptHolders(w, w', g, n, s);
    forall h, data, dup | (h, MigrateOp(s, data, dup)) in w'.props
      ensures h > 0 && FlightOK(w', s, h, data, dup)
    {
      FlightStays(w, w', s, h, data, dup);
    }
  }

  // The first owner starts from nothing, and nothing has been written.
  lemma FirstOwnerHolds(w: World, w': World, g: nat, n: nat, s: nat)
    requires Adopts(w, w', g, n) && StatesOK(w, s) && Started(w, s)
    requires Hands(w.configs, s, 0, g, n + 1) && !Has(w, s, g)
    ensures Holds(w', s, Cur(w', g).store, Cur(w', g).dup)
  {
    AdoptMoves(w, w', g, n);
    CurIn(w, g);
    assert StateOK(w, s, g, Cur(w, g));
    if Touched(w.eff, s) {
      var f, j :| Hands(w.configs, s, 0, f, j) && Has(w, s, f);
      HandedOnce(w.configs, s, 0, g, n + 1, 0, f, j);
    }
    RefUntouched(w.eff, s);
  }

  // What the group served before the step is what it holds after it.
  lemma ServedBefore(w: World, w': World, g: nat, n: nat, s: nat)
    requires Adopts(w, w', g, n) && Has(w, s, g) && Served(w, s) && Owner(w.configs[n], s) == g
    ensures Holds(w', s, Cur(w', g).store, Cur(w', g).dup)
  {
    AdoptMoves(w, w', g, n);
    assert Holds(w, s, Cur(w, g).store, Cur(w, g).dup);
  }

  lemma AdoptServed(w: World, w': World, g: nat, n: nat, s: nat)
    requires Adopts(w, w', g, n) && StatesOK(w, s) && Served(w, s) && Started(w, s)
    ensures Served(w', s)
  {
    AdoptMoves(w, w', g, n);
    AdoptHolders(w, w', g, n, s);
    forall y | Has(w', s, y) && Owner(Cur(w', y).cfg, s) == y
      ensures Holds(w', s, Cur(w', y).store, Cur(w', y).dup)
    {
      if !Has(w, s, y) {
        FirstOwnerHolds(w, w', g, n, s);
      } else if y == g {
        var i :| 0 <= i <= n && i < |w.configs| && Owner(w.configs[i], s) == g;
        Contiguous(w.configs, s, i, n, n + 1);
        ServedBefore(w, w', g, n, s);
      } else {
        assert Holds(w, s, Cur(w, y).store, Cur(w, y).dup);
      }
    }
  }

  // Losing a shard freezes exactly what was served.
  lemma AdoptFreezes(w: World, w': World, g: nat, n: nat, s: nat, h: nat, j: nat)
    requires Adopts(w, w', g, n) && Served(w, s) && Frozen(w, s)
    requires FrozenCopy(w', s, g, h, j, Cur(w', g)) && !Has(w, s, h)
    ensures Holds(w', s, Cur(w', g).store, Cur(w', g).dup)
  {
    AdoptMoves(w, w', g, n);
    AdoptHolders(w, w', g, n, s);
    if !Has(w, s, g) {
      GainedBeforeLost(w.configs, s, 0, g, n + 1, h, j);
    }
    if j <= n {
      CurIn(w, g);
      assert FrozenCopy(w, s, g, h, j, Cur(w, g));
      assert Holds(w, s, Cur(w, g).store, Cur(w, g).dup);
    } else {
      ServedBefore(w, w', g, n, s);
    }
  }

  lemma AdoptFrozen(w: World, w': World, g: nat, n: nat, s: nat)
    requires Adopts(w, w', g, n) && Served(w, s) && Frozen(w, s)
    ensures Frozen(w', s)
  {
    AdoptMoves(w, w', g, n);
    AdoptHolders(w, w', g, n, s);
    forall e, h, j, q | q in Hist(w', e) && FrozenCopy(w', s, e, h, j, q) && !Has(w', s, h)
      ensures Holds(w', s, q.store, q.dup)
    {
      assert !Has(w, s, h);
      if q in Hist(w, e) {
        assert FrozenCopy(w, s, e, h, j, q);
        assert Holds(w, s, q.store, q.dup);
      } else {
        AdoptFreezes(w, w', g, n, s, h, j);
      }
    }
  }

  // A shard lost in this very step has no recipient that landed already.
  lemma JustLost(w: World, w': World, g: nat, n: nat, s: nat, h: nat, j: nat)
    requires Adopts(w, w', g, n) && Chain(w, s)
    requires Hands(w.configs, s, g, h, j) && Has(w, s, h) && s in Cur(w', g).leaving
    ensures s in Cur(w, g).leaving
  {
    AdoptMoves(w, w', g, n);
    AdoptPending(w, w', g, n, s);
    if s !in Cur(w, g).leaving {
      HandedOnce(w.configs, s, g, Owner(w.configs[n + 1], s), n + 1, g, h, j);
    }
  }

  // Who keeps the shard for a recipient that has landed did so before the step.
  lemma LeftBefore(w: World, w': World, g: nat, n: nat, s: nat, e: nat, h: nat, j: nat)
    requires Adopts(w, w', g, n) && Chain(w, s)
    requires e != 0 && Hands(w.configs, s, e, h, j) && s in Cur(w', e).leaving && Has(w', s, h)
    ensures s in Cur(w, e).leaving && Has(w, s, h) && Cur(w', e).store == Cur(w, e).store
  {
    AdoptMoves(w, w', g, n);
    AdoptHolders(w, w', g, n, s);
    if !Has(w, s, h) {
      HandedOnce(w.configs, s, 0, g, n + 1, e, h, j);
    }
    if e == g {
      JustLost(w, w', g, n, s, h, j);
    }
  }

  lemma AdoptCopied(w: World, w': World, g: nat, n: nat, s: nat)
    requires Adopts(w, w', g, n) && Chain(w, s) && Copied(w, s)
    ensures Copied(w', s)
  {
    AdoptMoves(w, w', g, n);
    forall e, h, j | e != 0 && Hands(w'.configs, s, e, h, j) && s in Cur(w', e).leaving && Has(w', s, h)
      ensures InLog(w', s, h, Slice(Cur(w', e).store, s))
    {
      LeftBefore(w, w', g, n, s, e, h, j);
      assert Hands(w.configs, s, e, h, j);
      InLogStays(w, w', g, Cur(w', g), s, h, Slice(Cur(w, e).store, s));
    }
  }

  lemma AdoptShard(w: World, w': World, g: nat, n: nat, s: nat)
    requires Adopts(w, w', g, n) && ShardInv(w, s)
    ensures ShardInv(w', s)
  {
    AdoptMoves(w, w', g, n);
    AdoptHolders(w, w', g, n, s);
    AdoptStates(w, w', g, n, s);
    AdoptChain(w, w', g, n, s);
    AdoptFlight(w, w', g, n, s);
    AdoptServed(w, w', g, n, s);
    AdoptFrozen(w, w', g, n, s);
    AdoptCopied(w, w', g, n, s);
    MoreHolders(w, w', s);
  }
}
