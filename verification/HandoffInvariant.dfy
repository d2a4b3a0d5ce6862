// The invariant of the hand-off protocol, shard by shard, and what it implies.
module HandoffInvariant {
  import opened ShardConfig
  import opened ShardGroup
  import opened HandoffProtocol

  /******* The controller's history *******/

  predicate Between(i: int, j: int, k: int) { i <= j <= k }

  // Every owner holds a shard for one contiguous stretch of configurations.
  ghost predicate Tenures(cs: seq<Config>) {
    forall s, i, j, k {:trigger Owner(cs[i], s), Between(i, j, k)} ::
      0 <= i && k < |cs| && Between(i, j, k) && Owner(cs[i], s) == Owner(cs[k], s) ==>
        Owner(cs[j], s) == Owner(cs[i], s)
  }

  ghost predicate Numbered(cs: seq<Config>) {
    cs != [] && cs[0] == NoConfig && forall k :: 0 <= k < |cs| ==> cs[k].num == k && |cs[k].shards| == NShards
  }

  ghost predicate ConfigsOK(cs: seq<Config>) {
    Numbered(cs) && Tenures(cs)
  }

  // Configuration i hands the shard from d to h.
  ghost predicate Hands(cs: seq<Config>, s: nat, d: nat, h: nat, i: nat) {
    0 < i < |cs| && Owner(cs[i - 1], s) == d && Owner(cs[i], s) == h && d != h
  }

  lemma Contiguous(cs: seq<Config>, s: nat, i: nat, j: nat, k: nat)
    requires Tenures(cs) && i <= j <= k < |cs| && Owner(cs[i], s) == Owner(cs[k], s)
    ensures Owner(cs[j], s) == Owner(cs[i], s)
  {
    assert Between(i, j, k);
  }

  // A shard is gained once and lost once by a group.
  lemma HandedOnce(cs: seq<Config>, s: nat, d: nat, h: nat, i: nat, d': nat, h': nat, i': nat)
    requires Tenures(cs) && Hands(cs, s, d, h, i) && Hands(cs, s, d', h', i')
    requires h == h' || d == d'
    ensures i == i' && d == d' && h == h'
  {
    var lo, hi := if i < i' then i else i', if i < i' then i' else i;
    if lo < hi {
      if h == h' {
        Contiguous(cs, s, lo, hi - 1, hi);
      } else {
        Contiguous(cs, s, lo - 1, lo, hi - 1);
      }
    }
  }

  lemma GainedBeforeLost(cs: seq<Config>, s: nat, d: nat, g: nat, i: nat, h: nat, j: nat)
    requires Tenures(cs) && Hands(cs, s, d, g, i) && Hands(cs, s, g, h, j)
    ensures i < j
  {
    if j < i {
      Contiguous(cs, s, j - 1, i - 1, i);
    }
  }

  lemma NeverToNobody(cs: seq<Config>, s: nat, d: nat, h: nat, i: nat)
    requires ConfigsOK(cs) && Hands(cs, s, d, h, i)
    ensures h != 0
  {
    if h == 0 {
      Contiguous(cs, s, 0, i - 1, i);
    }
  }

  /******* Where a group stands *******/

  ghost predicate Begun(cs: seq<Config>, num: nat, s: nat, g: nat) {
    exists i :: 0 <= i <= num && i < |cs| && Owner(cs[i], s) == g
  }

  // The group has at some point owned the shard and has its data in place.
  ghost predicate Landed(cs: seq<Config>, st: Server, s: nat, g: nat) {
    g != 0 && s !in st.migrating && Begun(cs, st.cfg.num, s, g)
  }

  ghost predicate Has(w: World, s: nat, g: nat) {
    Landed(w.configs, Cur(w, g), s, g)
  }

  /******* The invariant *******/

  // Every state a group passed through adopted a real configuration.
  ghost predicate ServersOK(w: World) {
    forall g, q {:trigger q in Hist(w, g)} :: q in Hist(w, g) ==>
      && q.cfg.num < |w.configs| && q.cfg == w.configs[q.cfg.num]
      && q.cfg.num <= Cur(w, g).cfg.num
  }

  // By configuration num the shard has gone from d to h.
  ghost predicate HandedBy(w: World, s: nat, d: nat, h: nat, num: nat) {
    exists i: nat :: i <= num && Hands(w.configs, s, d, h, i)
  }

  ghost predicate StateOK(w: World, s: nat, g: nat, q: Server) {
    && (s in q.migrating ==> q.migrating[s] != 0 && HandedBy(w, s, q.migrating[s], g, q.cfg.num))
    && (s in q.leaving ==> HandedBy(w, s, g, q.leaving[s], q.cfg.num))
    && (Landed(w.configs, q, s, g) ==> Has(w, s, g))
    && (!Landed(w.configs, q, s, g) ==> Slice(q.store, s) == map[])
  }

  ghost predicate StatesOK(w: World, s: nat) {
    forall g, q {:trigger q in Hist(w, g)} :: g > 0 && q in Hist(w, g) ==> StateOK(w, s, g, q)
  }

  // A group has the data only after its predecessor had it and stopped serving.
  ghost predicate Chain(w: World, s: nat) {
    forall d, h, i {:trigger Hands(w.configs, s, d, h, i)} ::
      Hands(w.configs, s, d, h, i) && d != 0 && Has(w, s, h) ==> Has(w, s, d) && Cur(w, d).cfg.num >= i
  }

  ghost predicate Holds(w: World, s: nat, store: map<string, string>, dup: map<nat, nat>) {
    Slice(store, s) == Ref(w.eff, s) && Covers(dup, w.eff, s)
  }

  // h was given the shard by d, and d has the data and no longer changes it.
  ghost predicate FrozenFor(w: World, s: nat, d: nat, h: nat, i: nat) {
    && d != 0 && i <= Cur(w, h).cfg.num && Hands(w.configs, s, d, h, i)
    && Has(w, s, d) && Cur(w, d).cfg.num >= i
  }

  ghost predicate FlightOK(w: World, s: nat, h: nat, data: map<string, string>, dup: map<nat, nat>) {
    && data == Slice(data, s)
    && (exists d: nat, i: nat :: FrozenFor(w, s, d, h, i))
    && (!Has(w, s, h) ==> Holds(w, s, data, dup))
  }

  // A proposed Migrate is right for as long as it could still land.
  ghost predicate Flight(w: World, s: nat) {
    forall h, data, dup {:trigger (h, MigrateOp(s, data, dup)) in w.props} ::
      (h, MigrateOp(s, data, dup)) in w.props ==> h > 0 && FlightOK(w, s, h, data, dup)
  }

  // A proposed GC means that the recipient has landed.
  ghost predicate Collect(w: World, s: nat) {
    forall g :: (g, GcOp(s)) in w.props ==> g > 0 && exists h, i :: Hands(w.configs, s, g, h, i) && Has(w, s, h)
  }

  ghost predicate Served(w: World, s: nat) {
    forall g {:trigger Has(w, s, g)} :: Has(w, s, g) && Owner(Cur(w, g).cfg, s) == g ==>
      Holds(w, s, Cur(w, g).store, Cur(w, g).dup)
  }

  ghost predicate FrozenCopy(w: World, s: nat, d: nat, h: nat, i: nat, q: Server) {
    d != 0 && Hands(w.configs, s, d, h, i) && Landed(w.configs, q, s, d) && q.cfg.num >= i
  }

  // What a donor froze stays exact until its recipient has landed.
  ghost predicate Frozen(w: World, s: nat) {
    forall d, h, i, q {:trigger FrozenCopy(w, s, d, h, i, q)} ::
      q in Hist(w, d) && FrozenCopy(w, s, d, h, i, q) && !Has(w, s, h) ==> Holds(w, s, q.store, q.dup)
  }

  ghost predicate InLog(w: World, s: nat, h: nat, data: map<string, string>) {
    exists q :: q in Hist(w, h) && Slice(q.store, s) == data
  }

  // A copy not yet collected is one the recipient's log has held.
  ghost predicate Copied(w: World, s: nat) {
    forall d, h, i {:trigger Hands(w.configs, s, d, h, i)} ::
      d != 0 && Hands(w.configs, s, d, h, i) && s in Cur(w, d).leaving && Has(w, s, h) ==>
        InLog(w, s, h, Slice(Cur(w, d).store, s))
  }

  // Nothing is written to a shard before its first owner serves it.
  ghost predicate Started(w: World, s: nat) {
    Touched(w.eff, s) ==> exists g, i :: Hands(w.configs, s, 0, g, i) && Has(w, s, g)
  }

  ghost predicate ShardInv(w: World, s: nat) {
    && StatesOK(w, s) && Chain(w, s) && Flight(w, s) && Collect(w, s)
    && Served(w, s) && Frozen(w, s) && Copied(w, s) && Started(w, s)
  }

  /******* Clients *******/

  ghost predicate Done(eff: seq<Write>, client: nat, n: nat) {
    exists x :: x in eff && x.client == client && x.seqNum == n
  }

  // A dedup entry is the number of a write that took effect.
  ghost predicate Known(eff: seq<Write>, dup: map<nat, nat>) {
    forall c :: Last(dup, c) > 0 ==> Done(eff, c, Last(dup, c))
  }

  ghost predicate TablesOK(w: World) {
    && (forall g, q {:trigger q in Hist(w, g)} :: q in Hist(w, g) ==> Known(w.eff, q.dup))
    && (forall h, s, data, dup {:trigger (h, MigrateOp(s, data, dup)) in w.props} ::
          (h, MigrateOp(s, data, dup)) in w.props ==> Known(w.eff, dup))
  }

  ghost predicate ClientsOK(w: World) {
    && (forall x :: x in w.eff ==> Issued(w, x))
    && (forall i, j :: 0 <= i < j < |w.eff| ==> w.eff[i] != w.eff[j])
    && (forall c :: |IssuedBy(w, c)| <= Last(w.acked, c) + 1 && Last(w.acked, c) <= |IssuedBy(w, c)|)
    && (forall c, n :: 0 < n <= Last(w.acked, c) ==> Done(w.eff, c, n))
    && (forall c, n :: (c, n) in w.oks ==> Done(w.eff, c, n))
  }

  ghost predicate Inv(w: World) {
    && ConfigsOK(w.configs) && ServersOK(w) && TablesOK(w) && ClientsOK(w)
    && forall s :: ShardInv(w, s)
  }

  /******* Consequences *******/

  // Every owner before a group that has the data had it too and has moved on.
  lemma {:induction false} ChainBack(w: World, s: nat, h: nat, i: nat, j: nat)
    requires ConfigsOK(w.configs) && ServersOK(w) && Chain(w, s)
    requires j < i < |w.configs| && Owner(w.configs[i], s) == h && Has(w, s, h)
    requires Owner(w.configs[j], s) != h && Owner(w.configs[j], s) != 0
    ensures Has(w, s, Owner(w.configs[j], s))
    ensures Owner(Cur(w, Owner(w.configs[j], s)).cfg, s) != Owner(w.configs[j], s)
    decreases i
  {
    var cs := w.configs;
    var g, d := Owner(cs[j], s), Owner(cs[i - 1], s);
    if d == h {
      ChainBack(w, s, h, i - 1, j);
    } else {
      assert Hands(cs, s, d, h, i);
      if d == 0 {
        Contiguous(cs, s, 0, j, i - 1);
      }
      if d == g {
        assert Cur(w, g) in Hist(w, g);
        if Owner(cs[Cur(w, g).cfg.num], s) == g {
          Contiguous(cs, s, j, i, Cur(w, g).cfg.num);
        }
      } else {
        ChainBack(w, s, d, i - 1, j);
      }
    }
  }

  // A ready group is the only place the shard's data can change.
  lemma ReadyIsHolder(w: World, s: nat, g: nat, d: nat, h: nat, i: nat)
    requires ConfigsOK(w.configs) && ServersOK(w) && Chain(w, s)
    requires Has(w, s, g) && Owner(Cur(w, g).cfg, s) == g
    requires d != 0 && Hands(w.configs, s, d, h, i) && Has(w, s, d) && Cur(w, d).cfg.num >= i
    ensures Has(w, s, h)
  {
    var cs := w.configs;
    assert Cur(w, g) in Hist(w, g) && Cur(w, d) in Hist(w, d);
    NeverToNobody(cs, s, d, h, i);
    var k := Cur(w, g).cfg.num;
    assert Owner(cs[k], s) == g;
    if k >= i {
      if g != h {
        ChainBack(w, s, g, k, i);
      }
    } else if d != g {
      ChainBack(w, s, d, i - 1, k);
    }
  }

  lemma UniqueReady(w: World, s: nat, g: nat, g': nat)
    requires ConfigsOK(w.configs) && ServersOK(w) && Chain(w, s)
    requires Has(w, s, g) && Owner(Cur(w, g).cfg, s) == g
    requires Has(w, s, g') && Owner(Cur(w, g').cfg, s) == g'
    ensures g == g'
  {
    assert Cur(w, g) in Hist(w, g) && Cur(w, g') in Hist(w, g');
    var k, k' := Cur(w, g).cfg.num, Cur(w, g').cfg.num;
    if g != g' {
      if k < k' {
        ChainBack(w, s, g', k', k);
      } else {
        ChainBack(w, s, g, k, k');
      }
    }
  }

  lemma {:induction false} FirstOwnerHas(w: World, s: nat, h: nat, i: nat)
    requires ConfigsOK(w.configs) && Chain(w, s)
    requires i < |w.configs| && Owner(w.configs[i], s) == h && Has(w, s, h)
    ensures exists g, j :: Hands(w.configs, s, 0, g, j) && Has(w, s, g)
    decreases i
  {
    assert Owner(NoConfig, s) == 0;
    var d := Owner(w.configs[i - 1], s);
    if d == h {
      FirstOwnerHas(w, s, h, i - 1);
    } else {
      assert Hands(w.configs, s, d, h, i);
      if d != 0 {
        FirstOwnerHas(w, s, d, i - 1);
      }
    }
  }

  // A server that says it is ready has landed.
  lemma ReadyHasLanded(w: World, s: nat, g: nat, q: Server)
    requires ServersOK(w) && g > 0 && q in Hist(w, g) && Ready(g, q, s)
    ensures Landed(w.configs, q, s, g)
  {
    assert Owner(w.configs[q.cfg.num], s) == g;
  }
}
