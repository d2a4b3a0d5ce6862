// A run in which a shard returns to its first owner and an acknowledged write is
// lost: the owner's `leaving` entry outlives its absence, and a replica of the
// other group, still at the configuration in between, confirms the collection.
module HandoffLoss {
  import opened ShardConfig
  import opened ShardGroup
  import opened HandoffProtocol
  import opened HandoffCommit
  import Paths

  /******* The two groups' states *******/

  function OwnedBy(num: nat, g: nat): Config {
    Config(num, [g, g, g, g, g, g, g, g, g, g], map[])
  }

  lemma OwnedByOwner(num: nat, g: nat, s: Shard)
    ensures Owner(OwnedBy(num, g), s) == g
  {}

  const History := [NoConfig, OwnedBy(1, 1), OwnedBy(2, 2), OwnedBy(3, 1)]

  lemma Adopted(g: nat, st: Server, num: nat, from: nat, to: nat, s: Shard)
    requires st.cfg.num == num && Owner(st.cfg, s) == from && g > 0
    ensures Moved(g, st, Apply(g, st, ConfigOp(OwnedBy(num + 1, to))), num, from, to, s)
  {
    OwnedByOwner(num + 1, to, s);
    var c := OwnedBy(num + 1, to);
    assert s in GainedFrom(g, st.cfg, c) <==> Gained(g, st.cfg, c, s);
    assert s in LostTo(g, st.cfg, c) <==> Lost(g, st.cfg, c, s);
  }

  // A landing Migrate that carries the key.
  lemma MigrateLands(g: nat, st: Server, s: Shard, data: map<string, string>, dup: map<nat, nat>, key: string)
    requires s in st.migrating && key in data
    ensures
      var st' := Apply(g, st, MigrateOp(s, data, dup));
      st'.cfg == st.cfg && s !in st'.migrating && st'.leaving == st.leaving && key in st'.store
  {}

  /******* Steps *******/

  ghost function Next(): (World, World) -> bool { (w, w') => Follows(w, w') }

  ghost predicate Reached(w: World) { Paths.Reaches(Next(), Initial, w) }

  lemma Then(w: World, step: Step)
    requires Reached(w) && Enabled(w, step)
    ensures Reached(Take(w, step))
  {
    assert Follows(w, Take(w, step));
    Paths.Then(Next(), Initial, w, Take(w, step));
  }

  // Reached, with these two committed logs, x issued and these writes effective.
  ghost predicate At(w: World, x: Write, one: seq<Server>, two: seq<Server>, eff: seq<Write>) {
    && Reached(w) && w.configs == History && Hist(w, 1) == one && Hist(w, 2) == two
    && IssuedBy(w, x.client) == [x] && w.eff == eff
  }

  lemma Prepared(x: Write) returns (w: World)
    requires x.seqNum == 1
    ensures At(w, x, [Fresh], [Fresh], [])
  {
    Paths.Here(Next(), Initial);
    Then(Initial, Issue(x));
    var w1 := Take(Initial, Issue(x));
    Then(w1, Reconfigure(OwnedBy(1, 1)));
    var w2 := Take(w1, Reconfigure(OwnedBy(1, 1)));
    Then(w2, Reconfigure(OwnedBy(2, 2)));
    var w3 := Take(w2, Reconfigure(OwnedBy(2, 2)));
    Then(w3, Reconfigure(OwnedBy(3, 1)));
    w := Take(w3, Reconfigure(OwnedBy(3, 1)));
    assert w.configs == History;
  }

  // An entry other than an effective write commits in group 1, or in group 2.
  lemma CommitOne(w: World, x: Write, one: seq<Server>, two: seq<Server>, eff: seq<Write>, op: Op) returns (w': World)
    requires one != [] && At(w, x, one, two, eff) && Enabled(w, Commit(1, op)) && !op.WriteOp?
    ensures At(w', x, one + [Apply(1, one[|one| - 1], op)], two, eff)
    ensures w'.props == w.props && w'.oks == w.oks && w'.acked == w.acked
  {
    Then(w, Commit(1, op));
    w' := Committed(w, 1, op);
    assert IssuedBy(w', x.client) == IssuedBy(w, x.client);
  }

  lemma CommitTwo(w: World, x: Write, one: seq<Server>, two: seq<Server>, eff: seq<Write>, op: Op) returns (w': World)
    requires two != [] && At(w, x, one, two, eff) && Enabled(w, Commit(2, op)) && !op.WriteOp?
    ensures At(w', x, one, two + [Apply(2, two[|two| - 1], op)], eff)
    ensures w'.props == w.props && w'.oks == w.oks && w'.acked == w.acked
  {
    Then(w, Commit(2, op));
    w' := Committed(w, 2, op);
    assert IssuedBy(w', x.client) == IssuedBy(w, x.client);
  }

  lemma PullBy(w: World, x: Write, one: seq<Server>, two: seq<Server>, eff: seq<Write>,
               gid: nat, at: nat, s: nat, seen: nat) returns (w': World)
    requires At(w, x, one, two, eff) && Enabled(w, Pull(gid, at, s, seen))
    ensures At(w', x, one, two, eff) && w'.oks == w.oks && w'.acked == w.acked
    ensures
      var st := Hist(w, Hist(w, gid)[at].migrating[s])[seen];
      (gid, MigrateOp(s, Slice(st.store, s), st.dup)) in w'.props
  {
    Then(w, Pull(gid, at, s, seen));
    w' := Take(w, Pull(gid, at, s, seen));
    assert Hist(w', 1) == Hist(w, 1) && Hist(w', 2) == Hist(w, 2);
    assert IssuedBy(w', x.client) == IssuedBy(w, x.client);
  }

  // What adopting configuration num + 1 means for a shard that goes from -> to.
  ghost predicate Moved(g: nat, st: Server, st': Server, num: nat, from: nat, to: nat, s: nat) {
    && st'.cfg == OwnedBy(num + 1, to) && st'.store == st.store && st'.dup == st.dup
    && (s in st'.migrating <==> s in st.migrating || (to == g && from != g && from != 0))
    && (to == g && from != g && from != 0 ==> st'.migrating[s] == from)
    && (s in st'.leaving <==> s in st.leaving || (from == g && to != g && to != 0))
    && (from == g && to != g && to != 0 ==> st'.leaving[s] == to)
    && (s in st.leaving && !(from == g && to != g && to != 0) ==> st'.leaving[s] == st.leaving[s])
  }

  lemma ConfigOne(w: World, x: Write, one: seq<Server>, two: seq<Server>, eff: seq<Write>,
                  num: nat, from: nat, to: nat, s: Shard) returns (w': World, st': Server)
    requires one != [] && At(w, x, one, two, eff) && num < 3 && History[num + 1] == OwnedBy(num + 1, to)
    requires one[|one| - 1].cfg.num == num && Owner(one[|one| - 1].cfg, s) == from
    ensures At(w', x, one + [st'], two, eff) && w'.acked == w.acked && w'.props == w.props
    ensures Moved(1, one[|one| - 1], st', num, from, to, s)
  {
    assert History[num + 1] in w.configs;
    Adopted(1, one[|one| - 1], num, from, to, s);
    w' := CommitOne(w, x, one, two, eff, ConfigOp(OwnedBy(num + 1, to)));
    st' := Apply(1, one[|one| - 1], ConfigOp(OwnedBy(num + 1, to)));
  }

  lemma ConfigTwo(w: World, x: Write, one: seq<Server>, two: seq<Server>, eff: seq<Write>,
                  num: nat, from: nat, to: nat, s: Shard) returns (w': World, st': Server)
    requires two != [] && At(w, x, one, two, eff) && num < 3 && History[num + 1] == OwnedBy(num + 1, to)
    requires two[|two| - 1].cfg.num == num && Owner(two[|two| - 1].cfg, s) == from
    ensures At(w', x, one, two + [st'], eff) && w'.acked == w.acked && w'.props == w.props
    ensures Moved(2, two[|two| - 1], st', num, from, to, s)
  {
    assert History[num + 1] in w.configs;
    Adopted(2, two[|two| - 1], num, from, to, s);
    w' := CommitTwo(w, x, one, two, eff, ConfigOp(OwnedBy(num + 1, to)));
    st' := Apply(2, two[|two| - 1], ConfigOp(OwnedBy(num + 1, to)));
  }

  /******* The run *******/

  // Group 1 serves the shard.
  lemma Serving(x: Write) returns (w: World, a1: Server)
    requires x.seqNum == 1
    ensures At(w, x, [Fresh, a1], [Fresh], []) && a1.cfg == OwnedBy(1, 1) && Ready(1, a1, Key2Shard(x.key))
    ensures a1.store == map[] && a1.dup == map[] && Key2Shard(x.key) !in a1.leaving
  {
    var w0 := Prepared(x);
    OwnedByOwner(1, 1, Key2Shard(x.key));
    w, a1 := ConfigOne(w0, x, [Fresh], [Fresh], [], 0, 0, 1, Key2Shard(x.key));
    assert [Fresh] + [a1] == [Fresh, a1];
  }

  // It takes x, and x's client is told so.
  lemma Written(x: Write) returns (w: World, a: seq<Server>)
    requires x.seqNum == 1
    ensures At(w, x, a, [Fresh], [x]) && Last(w.acked, x.client) == 1
    ensures |a| == 3 && a[2].cfg == OwnedBy(1, 1) && x.key in a[2].store
    ensures Key2Shard(x.key) !in a[2].migrating && Key2Shard(x.key) !in a[2].leaving
  {
    var w1, a1 := Serving(x);
    Then(w1, Commit(1, WriteOp(x)));
    var w2 := Committed(w1, 1, WriteOp(x));
    a := [Fresh, a1, Apply(1, a1, WriteOp(x))];
    EffectIs(a1.store, x, x.key);
    assert Cur(w1, 1) == a1 && Hist(w2, 1) == a;
    w := Acknowledged(w2, x, a);
  }

  lemma Acknowledged(w: World, x: Write, a: seq<Server>) returns (w': World)
    requires At(w, x, a, [Fresh], [x]) && (x.client, 1) in w.oks
    ensures At(w', x, a, [Fresh], [x]) && Last(w'.acked, x.client) == 1
  {
    Then(w, Ack(x.client));
    w' := Take(w, Ack(x.client));
    assert Hist(w', 1) == Hist(w, 1) && Hist(w', 2) == Hist(w, 2);
    assert IssuedBy(w', x.client) == [x];
  }

  // Group 1 gives the shard away and group 2 waits for its data.
  lemma GivenAway(x: Write) returns (w: World, a: seq<Server>, b: seq<Server>)
    requires x.seqNum == 1
    ensures At(w, x, a, b, [x]) && Last(w.acked, x.client) == 1 && |a| == 4 && |b| == 3
    ensures
      var s := Key2Shard(x.key);
      && a[3].cfg == OwnedBy(2, 2) && s !in a[3].migrating && s in a[3].leaving && a[3].leaving[s] == 2
      && b[2].cfg == OwnedBy(2, 2) && s in b[2].migrating && b[2].migrating[s] == 1 && s !in b[2].leaving
      && x.key in a[3].store
  {
    var s := Key2Shard(x.key);
    OwnedByOwner(1, 1, s);
    var w0, a0 := Written(x);
    var w1, a3 := ConfigOne(w0, x, a0, [Fresh], [x], 1, 1, 2, s);
    a := a0 + [a3];
    w, b := TwoAdopts(w1, x, a);
  }

  lemma TwoAdopts(w: World, x: Write, a: seq<Server>) returns (w': World, b: seq<Server>)
    requires At(w, x, a, [Fresh], [x])
    ensures At(w', x, a, b, [x]) && w'.acked == w.acked && |b| == 3
    ensures
      var s := Key2Shard(x.key);
      b[2].cfg == OwnedBy(2, 2) && s in b[2].migrating && b[2].migrating[s] == 1 && s !in b[2].leaving
  {
    var s := Key2Shard(x.key);
    OwnedByOwner(1, 1, s);
    var w2, b1 := ConfigTwo(w, x, a, [Fresh], [x], 0, 0, 1, s);
    var b2;
    w', b2 := ConfigTwo(w2, x, a, [Fresh] + [b1], [x], 1, 1, 2, s);
    b := [Fresh] + [b1] + [b2];
  }

  // Group 2 pulls it and serves it.
  lemma HandedOver(x: Write) returns (w: World, a: seq<Server>, b: seq<Server>)
    requires x.seqNum == 1
    ensures At(w, x, a, b, [x]) && Last(w.acked, x.client) == 1 && |a| == 4 && |b| == 4
    ensures
      var s := Key2Shard(x.key);
      && a[3].cfg == OwnedBy(2, 2) && s !in a[3].migrating && s in a[3].leaving && a[3].leaving[s] == 2
      && b[3].cfg == OwnedBy(2, 2) && s !in b[3].migrating && s !in b[3].leaving && x.key in b[3].store
  {
    var s := Key2Shard(x.key);
    var w3, a3, b2 := GivenAway(x);
    a := a3;
    var w4 := PullBy(w3, x, a, b2, [x], 2, 2, s, 3);
    var op := MigrateOp(s, Slice(a[3].store, s), a[3].dup);
    w := CommitTwo(w4, x, a, b2, [x], op);
    b := b2 + [Apply(2, b2[2], op)];
    MigrateLands(2, b2[2], s, op.data, op.dup, x.key);
  }

  // It comes back: group 1 pulls it and serves it again, still marked leaving.
  lemma BroughtBack(x: Write) returns (w: World, a: seq<Server>, b: seq<Server>)
    requires x.seqNum == 1
    ensures At(w, x, a, b, [x]) && Last(w.acked, x.client) == 1 && |a| == 6 && |b| == 5
    ensures
      var s := Key2Shard(x.key);
      && a[5].cfg == OwnedBy(3, 1) && s !in a[5].migrating && s in a[5].leaving && a[5].leaving[s] == 2
      && x.key in a[5].store && b[3].cfg == OwnedBy(2, 2) && s !in b[3].migrating
  {
    var s := Key2Shard(x.key);
    OwnedByOwner(2, 2, s);
    var w0, a0, b0 := HandedOver(x);
    var w1, b4 := ConfigTwo(w0, x, a0, b0, [x], 2, 2, 1, s);
    b := b0 + [b4];
    var w2, a4 := ConfigOne(w1, x, a0, b, [x], 2, 2, 1, s);
    a := a0 + [a4];
    var w3 := PullBy(w2, x, a, b, [x], 1, 4, s, 4);
    var op := MigrateOp(s, Slice(b4.store, s), b4.dup);
    MigrateLands(1, a4, s, op.data, op.dup, x.key);
    w := CommitOne(w3, x, a, b, [x], op);
    a := a + [Apply(1, a4, op)];
  }

  // Any first write of a client can be acknowledged and then lost, by the group
  // that serves its shard, in a run whose one fault is that the shard came back.
  lemma AcknowledgedWriteLost(x: Write)
    requires x.seqNum == 1
    ensures exists run :: IsRun(run) && WriteLost(run[|run| - 1], x)
  {
    var s := Key2Shard(x.key);
    OwnedByOwner(2, 2, s);
    OwnedByOwner(3, 1, s);
    var w0, a, b := BroughtBack(x);
    assert Enabled(w0, Confirm(1, 5, s, 3));
    Then(w0, Confirm(1, 5, s, 3));
    var w1 := Take(w0, Confirm(1, 5, s, 3));
    assert Hist(w1, 1) == a && Hist(w1, 2) == b && IssuedBy(w1, x.client) == [x];
    var w := CommitOne(w1, x, a, b, [x], GcOp(s));
    assert Cur(w, 1) == Apply(1, a[5], GcOp(s));
    RefKeeps(x);
    var run :| Paths.IsPath(Next(), run) && run[0] == Initial && run[|run| - 1] == w;
    forall i | 0 < i < |run| ensures Follows(run[i - 1], run[i]) {
      assert Paths.StepOf(Next(), run, i);
    }
    assert IsRun(run) && WriteLost(run[|run| - 1], x);
  }

  // Acknowledged, effective, and gone from the group that serves its shard.
  ghost predicate WriteLost(w: World, x: Write) {
    && x in w.eff && x.seqNum <= Last(w.acked, x.client)
    && exists g :: g > 0 && Ready(g, Cur(w, g), Key2Shard(x.key)) && x.key !in Cur(w, g).store
                   && x.key in Ref(w.eff, Key2Shard(x.key))
  }

  lemma RefKeeps(x: Write)
    ensures x.key in Ref([x], Key2Shard(x.key))
  {
    assert [x][..0] == [];
    EffectIs(map[], x, x.key);
  }
}
