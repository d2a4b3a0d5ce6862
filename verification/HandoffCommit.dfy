// Entries committed to one group's log: writes, landings and collections keep
// the invariant of every shard.
module HandoffCommit {
  import opened ShardConfig
  import opened ShardGroup
  import opened HandoffProtocol
  import opened HandoffInvariant

  // Group g's log moves to state st'; nothing else about groups changes.
  ghost predicate Moves(w: World, w': World, g: nat, st': Server) {
    && g > 0 && w'.configs == w.configs && w'.props == w.props
    && Hist(w', g) == Hist(w, g) + [st']
    && forall x :: x != g ==> Hist(w', x) == Hist(w, x)
  }

  ghost predicate SameWrites(w: World, w': World, s: nat) {
    && Ref(w'.eff, s) == Ref(w.eff, s)
    && forall x: Write :: Key2Shard(x.key) == s ==> (x in w'.eff <==> x in w.eff)
  }

  // What a state change leaves alone when it is about another shard.
  ghost predicate SameShard(st: Server, st': Server, s: nat) {
    && st'.cfg == st.cfg && Slice(st'.store, s) == Slice(st.store, s)
    && (s in st'.migrating <==> s in st.migrating)
    && (s in st.migrating ==> st'.migrating[s] == st.migrating[s])
    && (s in st'.leaving ==> s in st.leaving && st'.leaving[s] == st.leaving[s])
    && (forall c :: Last(st.dup, c) <= Last(st'.dup, c))
  }

  ghost predicate SameHolders(w: World, w': World, s: nat) {
    forall x {:trigger Has(w', s, x)} {:trigger Has(w, s, x)} :: Has(w', s, x) <==> Has(w, s, x)
  }

  lemma CurIn(w: World, g: nat)
    ensures Cur(w, g) in Hist(w, g)
  {}

  lemma InLogStays(w: World, w': World, g: nat, st': Server, s: nat, h: nat, data: map<string, string>)
    requires Moves(w, w', g, st') && InLog(w, s, h, data)
    ensures InLog(w', s, h, data)
  {
    var q :| q in Hist(w, h) && Slice(q.store, s) == data;
    assert q in Hist(w', h);
  }

  lemma StillHolds(w: World, w': World, s: nat, st: Server, st': Server)
    requires SameWrites(w, w', s) && Holds(w, s, st.store, st.dup)
    requires Slice(st'.store, s) == Slice(st.store, s) && forall c :: Last(st.dup, c) <= Last(st'.dup, c)
    ensures Holds(w', s, st'.store, st'.dup)
  {
    forall x | x in w'.eff && Key2Shard(x.key) == s ensures x.seqNum <= Last(st'.dup, x.client) {
      assert x in w.eff;
    }
  }

  lemma UntouchedStates(w: World, w': World, g: nat, st': Server, s: nat)
    requires Moves(w, w', g, st') && SameShard(Cur(w, g), st', s) && StatesOK(w, s)
    ensures SameHolders(w, w', s) && StatesOK(w', s)
  {
    CurIn(w, g);
    forall x, q | x > 0 && q in Hist(w', x) ensures StateOK(w', s, x, q) {
      if q in Hist(w, x) {
        assert StateOK(w, s, x, q);
      } else {
        assert StateOK(w, s, g, Cur(w, g));
      }
    }
  }

  // A Migrate in flight stays right while configurations and holders only grow.
  lemma FlightStays(w: World, w': World, s: nat, h: nat, data: map<string, string>, dup: map<nat, nat>)
    requires FlightOK(w, s, h, data, dup) && w.configs <= w'.configs
    requires forall x {:trigger Has(w, s, x)} {:trigger Cur(w', x)} ::
               Cur(w, x).cfg.num <= Cur(w', x).cfg.num && (Has(w, s, x) ==> Has(w', s, x))
    requires Has(w', s, h) || SameWrites(w, w', s)
    ensures FlightOK(w', s, h, data, dup)
  {
    var d: nat, i: nat :| FrozenFor(w, s, d, h, i);
    assert FrozenFor(w', s, d, h, i);
    if !Has(w', s, h) {
      forall x | x in w'.eff && Key2Shard(x.key) == s ensures x.seqNum <= Last(dup, x.client) {
        assert x in w.eff;
      }
    }
  }

  lemma UntouchedFlight(w: World, w': World, g: nat, st': Server, s: nat)
    requires Moves(w, w', g, st') && Cur(w, g).cfg == st'.cfg && SameHolders(w, w', s) && SameWrites(w, w', s)
    requires Flight(w, s)
    ensures Flight(w', s)
  {
    forall h, data, dup | (h, MigrateOp(s, data, dup)) in w'.props
      ensures h > 0 && FlightOK(w', s, h, data, dup)
    {
      FlightStays(w, w', s, h, data, dup);
    }
  }

  lemma UntouchedData(w: World, w': World, g: nat, st': Server, s: nat)
    requires Moves(w, w', g, st') && SameShard(Cur(w, g), st', s) && SameHolders(w, w', s) && SameWrites(w, w', s)
    requires Served(w, s) && Frozen(w, s)
    ensures Served(w', s) && Frozen(w', s)
  {
    CurIn(w, g);
    forall x | Has(w', s, x) && Owner(Cur(w', x).cfg, s) == x
      ensures Holds(w', s, Cur(w', x).store, Cur(w', x).dup)
    {
      assert Has(w, s, x);
      StillHolds(w, w', s, Cur(w, x), Cur(w', x));
    }
    forall d, h, i, q | q in Hist(w', d) && FrozenCopy(w', s, d, h, i, q) && !Has(w', s, h)
      ensures Holds(w', s, q.store, q.dup)
    {
      assert !Has(w, s, h);
      var q0 := if q in Hist(w, d) then q else Cur(w, g);
      assert FrozenCopy(w, s, d, h, i, q0);
      StillHolds(w, w', s, q0, q);
    }
  }

  lemma UntouchedCopies(w: World, w': World, g: nat, st': Server, s: nat)
    requires Moves(w, w', g, st') && SameShard(Cur(w, g), st', s) && SameHolders(w, w', s)
    requires Copied(w, s)
    ensures Copied(w', s)
  {
    forall d, h, i | d != 0 && Hands(w'.configs, s, d, h, i) && s in Cur(w', d).leaving && Has(w', s, h)
      ensures InLog(w', s, h, Slice(Cur(w', d).store, s))
    {
      assert Has(w, s, h) && Hands(w.configs, s, d, h, i);
      InLogStays(w, w', g, Cur(w', g), s, h, Slice(Cur(w, d).store, s));
    }
  }

  lemma UntouchedCollect(w: World, w': World, g: nat, st': Server, s: nat)
    requires Moves(w, w', g, st') && SameHolders(w, w', s) && Collect(w, s)
    ensures Collect(w', s)
  {
    forall x | (x, GcOp(s)) in w'.props
      ensures x > 0 && exists h, i :: Hands(w'.configs, s, x, h, i) && Has(w', s, h)
    {
      var h, i :| Hands(w.configs, s, x, h, i) && Has(w, s, h);
      assert Has(w', s, h);
    }
  }

  lemma UntouchedChain(w: World, w': World, g: nat, st': Server, s: nat)
    requires Moves(w, w', g, st') && Cur(w, g).cfg == st'.cfg && SameHolders(w, w', s) && Chain(w, s)
    ensures Chain(w', s)
  {
    forall d, h, i | Hands(w'.configs, s, d, h, i) && d != 0 && Has(w', s, h)
      ensures Has(w', s, d) && Cur(w', d).cfg.num >= i
    {
      assert Hands(w.configs, s, d, h, i) && Has(w, s, h);
    }
  }

  lemma UntouchedStarted(w: World, w': World, s: nat)
    requires w'.configs == w.configs && SameHolders(w, w', s) && Started(w, s)
    requires Touched(w'.eff, s) ==> Touched(w.eff, s)
    ensures Started(w', s)
  {
    if Touched(w'.eff, s) {
      var g, i :| Hands(w.configs, s, 0, g, i) && Has(w, s, g);
      assert Has(w', s, g);
    }
  }

  lemma Untouched(w: World, w': World, g: nat, st': Server, s: nat)
    requires Moves(w, w', g, st') && SameShard(Cur(w, g), st', s) && SameWrites(w, w', s)
    requires ShardInv(w, s)
    ensures ShardInv(w', s)
  {
    UntouchedStates(w, w', g, st', s);
    UntouchedFlight(w, w', g, st', s);
    UntouchedData(w, w', g, st', s);
    UntouchedCopies(w, w', g, st', s);
    UntouchedCollect(w, w', g, st', s);
    UntouchedChain(w, w', g, st', s);
    UntouchedStarted(w, w', s);
  }

  /******* A write that takes effect *******/

  ghost predicate WriteLands(w: World, w': World, g: nat, x: Write) {
    && g > 0 && TakesEffect(g, Cur(w, g), x) && w' == Committed(w, g, WriteOp(x))
    && ConfigsOK(w.configs) && ServersOK(w)
  }

  lemma WriterHas(w: World, w': World, g: nat, x: Write)
    requires WriteLands(w, w', g, x)
    ensures Moves(w, w', g, Cur(w', g)) && Has(w, Key2Shard(x.key), g)
    ensures Owner(Cur(w, g).cfg, Key2Shard(x.key)) == g
    ensures SameHolders(w, w', Key2Shard(x.key))
    ensures Cur(w', g) == Apply(g, Cur(w, g), WriteOp(x)) && w'.eff == w.eff + [x]
  {
    CurIn(w, g);
    ReadyHasLanded(w, Key2Shard(x.key), g, Cur(w, g));
  }

  lemma WriteElsewhere(w: World, w': World, g: nat, x: Write, s: nat)
    requires WriteLands(w, w', g, x) && s != Key2Shard(x.key) && ShardInv(w, s)
    ensures ShardInv(w', s)
  {
    WriterHas(w, w', g, x);
    SliceOfEffect(Cur(w, g).store, x, s);
    RefAppend(w.eff, x, s);
    Untouched(w, w', g, Cur(w', g), s);
  }

  lemma WriteStates(w: World, w': World, g: nat, x: Write)
    requires WriteLands(w, w', g, x) && StatesOK(w, Key2Shard(x.key))
    ensures StatesOK(w', Key2Shard(x.key))
  {
    var s := Key2Shard(x.key);
    WriterHas(w, w', g, x);
    CurIn(w, g);
    forall y, q | y > 0 && q in Hist(w', y) ensures StateOK(w', s, y, q) {
      assert StateOK(w, s, y, if q in Hist(w, y) then q else Cur(w, g));
    }
  }

  lemma WriteFlight(w: World, w': World, g: nat, x: Write)
    requires WriteLands(w, w', g, x) && Chain(w, Key2Shard(x.key)) && Flight(w, Key2Shard(x.key))
    ensures Flight(w', Key2Shard(x.key))
  {
    var s := Key2Shard(x.key);
    WriterHas(w, w', g, x);
    forall h, data, dup | (h, MigrateOp(s, data, dup)) in w'.props
      ensures h > 0 && FlightOK(w', s, h, data, dup)
    {
      assert FlightOK(w, s, h, data, dup);
      var d: nat, i: nat :| FrozenFor(w, s, d, h, i);
      ReadyIsHolder(w, s, g, d, h, i);
      assert Has(w', s, h);
      FlightStays(w, w', s, h, data, dup);
    }
  }

  lemma WriteServed(w: World, w': World, g: nat, x: Write)
    requires WriteLands(w, w', g, x) && Chain(w, Key2Shard(x.key)) && Served(w, Key2Shard(x.key))
    ensures Served(w', Key2Shard(x.key))
  {
    var s := Key2Shard(x.key);
    WriterHas(w, w', g, x);
    SliceOfEffect(Cur(w, g).store, x, s);
    RefAppend(w.eff, x, s);
    assert Holds(w, s, Cur(w, g).store, Cur(w, g).dup);
    forall y | Has(w', s, y) && Owner(Cur(w', y).cfg, s) == y
      ensures Holds(w', s, Cur(w', y).store, Cur(w', y).dup)
    {
      assert Has(w, s, y);
      UniqueReady(w, s, g, y);
    }
  }

  lemma WriteFrozen(w: World, w': World, g: nat, x: Write)
    requires WriteLands(w, w', g, x) && Chain(w, Key2Shard(x.key)) && StatesOK(w, Key2Shard(x.key))
    ensures Frozen(w', Key2Shard(x.key))
  {
    var s := Key2Shard(x.key);
    WriterHas(w, w', g, x);
    forall d, h, i, q | q in Hist(w', d) && FrozenCopy(w', s, d, h, i, q)
      ensures Has(w', s, h)
    {
      if q in Hist(w, d) {
        assert StateOK(w, s, d, q);
        assert Has(w, s, d);
      }
      ReadyIsHolder(w, s, g, d, h, i);
    }
  }

  lemma WriteCopied(w: World, w': World, g: nat, x: Write)
    requires WriteLands(w, w', g, x) && StatesOK(w, Key2Shard(x.key)) && Copied(w, Key2Shard(x.key))
    ensures Copied(w', Key2Shard(x.key))
  {
    var s := Key2Shard(x.key);
    WriterHas(w, w', g, x);
    ServingIsNotLeaving(w, s, g);
    forall d, h, i | d != 0 && Hands(w'.configs, s, d, h, i) && s in Cur(w', d).leaving && Has(w', s, h)
      ensures InLog(w', s, h, Slice(Cur(w', d).store, s))
    {
      assert Hands(w.configs, s, d, h, i) && Has(w, s, h) && d != g;
      InLogStays(w, w', g, Cur(w', g), s, h, Slice(Cur(w, d).store, s));
    }
  }

  lemma ServingIsNotLeaving(w: World, s: nat, g: nat)
    requires ConfigsOK(w.configs) && ServersOK(w) && StatesOK(w, s) && g > 0
    requires Owner(Cur(w, g).cfg, s) == g
    ensures s !in Cur(w, g).leaving
  {
    CurIn(w, g);
    assert StateOK(w, s, g, Cur(w, g));
    if s in Cur(w, g).leaving {
      var i: nat :| i <= Cur(w, g).cfg.num && Hands(w.configs, s, g, Cur(w, g).leaving[s], i);
      Contiguous(w.configs, s, i - 1, i, Cur(w, g).cfg.num);
    }
  }

  lemma WriteHere(w: World, w': World, g: nat, x: Write)
    requires WriteLands(w, w', g, x) && ShardInv(w, Key2Shard(x.key))
    ensures ShardInv(w', Key2Shard(x.key))
  {
    var s := Key2Shard(x.key);
    WriterHas(w, w', g, x);
    WriteStates(w, w', g, x);
    WriteFlight(w, w', g, x);
    WriteServed(w, w', g, x);
    WriteFrozen(w, w', g, x);
    WriteCopied(w, w', g, x);
    UntouchedCollect(w, w', g, Cur(w', g), s);
    UntouchedChain(w, w', g, Cur(w', g), s);
    CurIn(w, g);
    FirstOwnerHas(w, s, g, Cur(w, g).cfg.num);
    var f, j :| Hands(w.configs, s, 0, f, j) && Has(w, s, f);
    assert Has(w', s, f);
  }

  /******* A migration that lands *******/

  ghost predicate Lands(w: World, w': World, g: nat, s: nat, data: map<string, string>, dup: map<nat, nat>) {
    && g > 0 && s in Cur(w, g).migrating && (g, MigrateOp(s, data, dup)) in w.props
    && w' == Committed(w, g, MigrateOp(s, data, dup))
    && ConfigsOK(w.configs) && ServersOK(w)
  }

  lemma LandingMoves(w: World, w': World, g: nat, s: nat, data: map<string, string>, dup: map<nat, nat>)
    requires Lands(w, w', g, s, data, dup)
    ensures Moves(w, w', g, Cur(w', g)) && w'.eff == w.eff
    ensures !Has(w, s, g) && forall x :: x != g ==> (Has(w', s, x) <==> Has(w, s, x))
    ensures Cur(w', g) == Apply(g, Cur(w, g), MigrateOp(s, data, dup))
  {}

  // The landed data is exactly what has been written to the shard.
  lemma LandingHolds(w: World, w': World, g: nat, s: nat, data: map<string, string>, dup: map<nat, nat>)
    requires Lands(w, w', g, s, data, dup) && StatesOK(w, s) && FlightOK(w, s, g, data, dup)
    ensures Holds(w', s, Cur(w', g).store, Cur(w', g).dup)
  {
    LandingMoves(w, w', g, s, data, dup);
    CurIn(w, g);
    assert StateOK(w, s, g, Cur(w, g));
    SliceOfMerge(Cur(w, g).store, data, s, s);
    forall x | x in w.eff && Key2Shard(x.key) == s
      ensures x.seqNum <= Last(Cur(w', g).dup, x.client)
    {
      MergeIsMax(Cur(w, g).dup, dup, x.client);
    }
  }

  lemma Landing(w: World, w': World, g: nat, s: nat, data: map<string, string>, dup: map<nat, nat>)
    returns (d: nat, i: nat)
    requires Lands(w, w', g, s, data, dup) && StatesOK(w, s) && Flight(w, s)
    ensures Moves(w, w', g, Cur(w', g)) && w'.eff == w.eff
    ensures !Has(w, s, g) && Has(w', s, g) && forall x :: x != g ==> (Has(w', s, x) <==> Has(w, s, x))
    ensures FrozenFor(w, s, d, g, i) && FrozenFor(w', s, d, g, i) && d != g
    ensures Holds(w', s, Cur(w', g).store, Cur(w', g).dup)
    ensures Cur(w', g).cfg == Cur(w, g).cfg && Cur(w', g).leaving == Cur(w, g).leaving
  {
    LandingMoves(w, w', g, s, data, dup);
    assert FlightOK(w, s, g, data, dup);
    LandingHolds(w, w', g, s, data, dup);
    d, i :| FrozenFor(w, s, d, g, i);
    assert Begun(w.configs, Cur(w, g).cfg.num, s, g);
  }

  lemma LandElsewhere(w: World, w': World, g: nat, s: nat, data: map<string, string>, dup: map<nat, nat>, t: nat)
    requires Lands(w, w', g, s, data, dup) && t != s && Flight(w, s) && ShardInv(w, t)
    ensures ShardInv(w', t)
  {
    assert FlightOK(w, s, g, data, dup);
    SliceOfMerge(Cur(w, g).store, data, s, t);
    forall c ensures Last(Cur(w, g).dup, c) <= Last(Cur(w', g).dup, c) {
      MergeIsMax(Cur(w, g).dup, dup, c);
    }
    Untouched(w, w', g, Cur(w', g), t);
  }

  lemma LandStates(w: World, w': World, g: nat, s: nat, data: map<string, string>, dup: map<nat, nat>)
    requires Lands(w, w', g, s, data, dup) && StatesOK(w, s) && Flight(w, s)
    ensures StatesOK(w', s)
  {
    var d, i := Landing(w, w', g, s, data, dup);
    CurIn(w, g);
    forall y, q | y > 0 && q in Hist(w', y) ensures StateOK(w', s, y, q) {
      assert StateOK(w, s, y, if q in Hist(w, y) then q else Cur(w, g));
    }
  }

  lemma LandChain(w: World, w': World, g: nat, s: nat, data: map<string, string>, dup: map<nat, nat>)
    requires Lands(w, w', g, s, data, dup) && StatesOK(w, s) && Flight(w, s) && Chain(w, s)
    ensures Chain(w', s)
  {
    var d, i := Landing(w, w', g, s, data, dup);
    forall e, h, j | Hands(w'.configs, s, e, h, j) && e != 0 && Has(w', s, h)
      ensures Has(w', s, e) && Cur(w', e).cfg.num >= j
    {
      if h == g {
        HandedOnce(w.configs, s, d, g, i, e, h, j);
      } else {
        assert Hands(w.configs, s, e, h, j) && Has(w, s, h);
      }
    }
  }

  lemma LandFlight(w: World, w': World, g: nat, s: nat, data: map<string, string>, dup: map<nat, nat>)
    requires Lands(w, w', g, s, data, dup) && StatesOK(w, s) && Flight(w, s)
    ensures Flight(w', s)
  {
    var d, i := Landing(w, w', g, s, data, dup);
    forall h, data', dup' | (h, MigrateOp(s, data', dup')) in w'.props
      ensures h > 0 && FlightOK(w', s, h, data', dup')
    {
      FlightStays(w, w', s, h, data', dup');
    }
  }

  lemma LandData(w: World, w': World, g: nat, s: nat, data: map<string, string>, dup: map<nat, nat>)
    requires Lands(w, w', g, s, data, dup) && StatesOK(w, s) && Flight(w, s) && Served(w, s) && Frozen(w, s)
    ensures Served(w', s) && Frozen(w', s)
  {
    var d, i := Landing(w, w', g, s, data, dup);
    forall y | Has(w', s, y) && Owner(Cur(w', y).cfg, s) == y
      ensures Holds(w', s, Cur(w', y).store, Cur(w', y).dup)
    {
      if y != g {
        assert Has(w, s, y);
        assert Holds(w, s, Cur(w, y).store, Cur(w, y).dup);
      }
    }
    forall e, h, j, q | q in Hist(w', e) && FrozenCopy(w', s, e, h, j, q) && !Has(w', s, h)
      ensures Holds(w', s, q.store, q.dup)
    {
      if q in Hist(w, e) {
        assert FrozenCopy(w, s, e, h, j, q) && !Has(w, s, h);
        assert Holds(w, s, q.store, q.dup);
      }
    }
  }

  // The giver still holds what just landed.
  lemma LandedCopy(
    w: World, w': World, g: nat, s: nat, data: map<string, string>, dup: map<nat, nat>, d: nat, i: nat)
    requires Lands(w, w', g, s, data, dup) && StatesOK(w, s) && Flight(w, s) && Frozen(w, s)
    requires FrozenFor(w, s, d, g, i) && d != g && d != 0 && s in Cur(w', d).leaving
    ensures InLog(w', s, g, Slice(Cur(w', d).store, s))
  {
    var _, _ := Landing(w, w', g, s, data, dup);
    CurIn(w, d);
    assert FrozenCopy(w, s, d, g, i, Cur(w, d));
    assert Holds(w, s, Cur(w, d).store, Cur(w, d).dup);
    CurIn(w', g);
  }

  lemma LandCopied(w: World, w': World, g: nat, s: nat, data: map<string, string>, dup: map<nat, nat>)
    requires Lands(w, w', g, s, data, dup) && StatesOK(w, s) && Flight(w, s) && Chain(w, s) && Frozen(w, s)
    requires Copied(w, s)
    ensures Copied(w', s)
  {
    var d, i := Landing(w, w', g, s, data, dup);
    forall e, h, j | e != 0 && Hands(w'.configs, s, e, h, j) && s in Cur(w', e).leaving && Has(w', s, h)
      ensures InLog(w', s, h, Slice(Cur(w', e).store, s))
    {
      if h == g {
        HandedOnce(w.configs, s, d, g, i, e, h, j);
        LandedCopy(w, w', g, s, data, dup, d, i);
      } else {
        assert Hands(w.configs, s, e, h, j) && Has(w, s, h) && Has(w, s, e);
        InLogStays(w, w', g, Cur(w', g), s, h, Slice(Cur(w, e).store, s));
      }
    }
  }

  // Landing only ever adds holders, so what names a holder still does.
  lemma MoreHolders(w: World, w': World, s: nat)
    requires w'.configs == w.configs && w'.props == w.props && w'.eff == w.eff
    requires forall x {:trigger Has(w, s, x)} :: Has(w, s, x) ==> Has(w', s, x)
    requires Collect(w, s) && Started(w, s)
    ensures Collect(w', s) && Started(w', s)
  {
    forall x | (x, GcOp(s)) in w'.props
      ensures x > 0 && exists h, i :: Hands(w'.configs, s, x, h, i) && Has(w', s, h)
    {
      var h, i :| Hands(w.configs, s, x, h, i) && Has(w, s, h);
      assert Has(w', s, h);
    }
    if Touched(w'.eff, s) {
      var g, i :| Hands(w.configs, s, 0, g, i) && Has(w, s, g);
      assert Has(w', s, g);
    }
  }

  lemma LandHere(w: World, w': World, g: nat, s: nat, data: map<string, string>, dup: map<nat, nat>)
    requires Lands(w, w', g, s, data, dup) && ShardInv(w, s)
    ensures ShardInv(w', s)
  {
    var d, i := Landing(w, w', g, s, data, dup);
    LandStates(w, w', g, s, data, dup);
    LandChain(w, w', g, s, data, dup);
    LandFlight(w, w', g, s, data, dup);
    LandData(w, w', g, s, data, dup);
    LandCopied(w, w', g, s, data, dup);
    MoreHolders(w, w', s);
  }

  /******* A collection *******/

  ghost predicate Collects(w: World, w': World, g: nat, s: nat) {
    && g > 0 && s in Cur(w, g).leaving && (g, GcOp(s)) in w.props
    && w' == Committed(w, g, GcOp(s))
    && ConfigsOK(w.configs) && ServersOK(w)
  }

  lemma CollectingMoves(w: World, w': World, g: nat, s: nat)
    requires Collects(w, w', g, s)
    ensures Moves(w, w', g, Cur(w', g)) && w'.eff == w.eff && SameHolders(w, w', s)
    ensures Cur(w', g).cfg == Cur(w, g).cfg && Slice(Cur(w', g).store, s) == map[]
    ensures Cur(w', g).migrating == Cur(w, g).migrating && s !in Cur(w', g).leaving
  {
    SliceOfWithout(Cur(w, g).store, s, s);
  }

  // A collected copy is no longer served, and its recipient has landed.
  lemma Collecting(w: World, w': World, g: nat, s: nat)
    requires Collects(w, w', g, s) && StatesOK(w, s) && Collect(w, s)
    ensures Owner(Cur(w, g).cfg, s) != g && Has(w, s, Cur(w, g).leaving[s])
    ensures forall h, i :: Hands(w.configs, s, g, h, i) ==> Has(w, s, h)
  {
    if Owner(Cur(w, g).cfg, s) == g {
      ServingIsNotLeaving(w, s, g);
    }
    var to, k :| Hands(w.configs, s, g, to, k) && Has(w, s, to);
    forall h, i | Hands(w.configs, s, g, h, i) ensures Has(w, s, h) {
      HandedOnce(w.configs, s, g, to, k, g, h, i);
    }
    CurIn(w, g);
    assert StateOK(w, s, g, Cur(w, g));
  }

  lemma CollectElsewhere(w: World, w': World, g: nat, s: nat, t: nat)
    requires Collects(w, w', g, s) && t != s && ShardInv(w, t)
    ensures ShardInv(w', t)
  {
    SliceOfWithout(Cur(w, g).store, s, t);
    Untouched(w, w', g, Cur(w', g), t);
  }

  lemma CollectStates(w: World, w': World, g: nat, s: nat)
    requires Collects(w, w', g, s) && StatesOK(w, s)
    ensures StatesOK(w', s)
  {
    CollectingMoves(w, w', g, s);
    CurIn(w, g);
    forall y, q | y > 0 && q in Hist(w', y) ensures StateOK(w', s, y, q) {
      assert StateOK(w, s, y, if q in Hist(w, y) then q else Cur(w, g));
    }
  }

  lemma CollectData(w: World, w': World, g: nat, s: nat)
    requires Collects(w, w', g, s) && StatesOK(w, s) && Collect(w, s) && Served(w, s) && Frozen(w, s)
    ensures Served(w', s) && Frozen(w', s)
  {
    CollectingMoves(w, w', g, s);
    Collecting(w, w', g, s);
    forall y | Has(w', s, y) && Owner(Cur(w', y).cfg, s) == y
      ensures Holds(w', s, Cur(w', y).store, Cur(w', y).dup)
    {
      assert Has(w, s, y) && y != g;
      assert Holds(w, s, Cur(w, y).store, Cur(w, y).dup);
    }
    forall e, h, j, q | q in Hist(w', e) && FrozenCopy(w', s, e, h, j, q) && !Has(w', s, h)
      ensures Holds(w', s, q.store, q.dup)
    {
      assert !Has(w, s, h) && Hands(w.configs, s, e, h, j) && e != g;
      assert FrozenCopy(w, s, e, h, j, q);
      assert Holds(w, s, q.store, q.dup);
    }
  }

  lemma CollectCopied(w: World, w': World, g: nat, s: nat)
    requires Collects(w, w', g, s) && Copied(w, s)
    ensures Copied(w', s)
  {
    CollectingMoves(w, w', g, s);
    forall e, h, j | e != 0 && Hands(w'.configs, s, e, h, j) && s in Cur(w', e).leaving && Has(w', s, h)
      ensures InLog(w', s, h, Slice(Cur(w', e).store, s))
    {
      assert Hands(w.configs, s, e, h, j) && Has(w, s, h) && e != g;
      InLogStays(w, w', g, Cur(w', g), s, h, Slice(Cur(w, e).store, s));
    }
  }

  lemma CollectHere(w: World, w': World, g: nat, s: nat)
    requires Collects(w, w', g, s) && ShardInv(w, s)
    ensures ShardInv(w', s)
  {
    CollectingMoves(w, w', g, s);
    CollectStates(w, w', g, s);
    CollectData(w, w', g, s);
    CollectCopied(w, w', g, s);
    UntouchedFlight(w, w', g, Cur(w', g), s);
    UntouchedChain(w, w', g, Cur(w', g), s);
    MoreHolders(w, w', s);
  }
}
