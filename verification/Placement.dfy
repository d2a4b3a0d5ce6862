// Shard placement on values: which shards stay, who gets the rest, and why no
// assignment with the same group sizes moves fewer.
module Placement {

  type Shards = seq<nat>        // shard -> group id
  type Targets = map<nat, nat>  // live group id -> how many shards it should own

  function Min(a: nat, b: nat): nat { if a < b then a else b }

  function Count(s: Shards, g: nat): nat {
    if s == [] then 0 else Count(s[..|s| - 1], g) + if s[|s| - 1] == g then 1 else 0
  }

  // How many shards two assignments place alike.
  function Same(a: Shards, b: Shards): nat
    requires |a| == |b|
  {
    if a == [] then 0
    else Same(a[..|a| - 1], b[..|b| - 1]) + if a[|a| - 1] == b[|b| - 1] then 1 else 0
  }

  function Moved(a: Shards, b: Shards): int
    requires |a| == |b|
  {
    |a| - Same(a, b)
  }

  /******* The rule *******/

  // A shard stays while its group, counting up from shard 0, is within target.
  predicate Kept(s: Shards, targets: Targets, i: nat)
    requires i < |s|
  {
    s[i] in targets && Count(s[..i], s[i]) < targets[s[i]]
  }

  // The shards among the first n that do not stay, ascending.
  function Orphans(s: Shards, targets: Targets, n: nat): seq<nat>
    requires n <= |s|
  {
    if n == 0 then []
    else Orphans(s, targets, n - 1) + if Kept(s, targets, n - 1) then [] else [n - 1]
  }

  function Need(s: Shards, targets: Targets, g: nat): nat
    requires g in targets
  {
    targets[g] - Min(Count(s, g), targets[g])
  }

  function Repeat(g: nat, n: nat): seq<nat> {
    if n == 0 then [] else Repeat(g, n - 1) + [g]
  }

  // The groups in the order they are handed orphans, once per shard needed.
  function Deal(s: Shards, targets: Targets, gids: seq<nat>): seq<nat>
    requires forall g :: g in gids ==> g in targets
  {
    if gids == [] then []
    else
      var last := |gids| - 1;
      Deal(s, targets, gids[..last]) + Repeat(gids[last], Need(s, targets, gids[last]))
  }

  // gids lists the live groups, each once.
  ghost predicate Lists(gids: seq<nat>, targets: Targets) {
    && (forall g :: g in gids <==> g in targets)
    && (forall i, j :: 0 <= i < j < |gids| ==> gids[i] != gids[j])
  }

  function SumTargets(gids: seq<nat>, targets: Targets): nat
    requires forall g :: g in gids ==> g in targets
  {
    if gids == [] then 0 else SumTargets(gids[..|gids| - 1], targets) + targets[gids[|gids| - 1]]
  }

  // What the groups can keep altogether.
  function SumKept(s: Shards, gids: seq<nat>, targets: Targets): nat
    requires forall g :: g in gids ==> g in targets
  {
    if gids == [] then 0
    else
      var g := gids[|gids| - 1];
      SumKept(s, gids[..|gids| - 1], targets) + Min(Count(s, g), targets[g])
  }

  ghost predicate Fits(s: Shards, gids: seq<nat>, targets: Targets) {
    Lists(gids, targets) && SumTargets(gids, targets) == |s|
  }

  function Assign(s: Shards, gids: seq<nat>, targets: Targets): (r: Shards)
    requires Fits(s, gids, targets)
    ensures |r| == |s|
  {
    OrphansMatchNeeds(s, gids, targets);
    seq(|s|, i requires 0 <= i < |s| =>
      if Kept(s, targets, i) then s[i]
      else OrphansGrow(s, targets, i, |s|); Deal(s, targets, gids)[|Orphans(s, targets, i)|])
  }

  /******* Counting *******/

  lemma CountAppend(s: Shards, x: nat, g: nat)
    ensures Count(s + [x], g) == Count(s, g) + if x == g then 1 else 0
  {
    assert (s + [x])[..|s|] == s;
  }

  lemma {:induction false} CountConcat(a: Shards, b: Shards, g: nat)
    ensures Count(a + b, g) == Count(a, g) + Count(b, g)
  {
    if b == [] {
      assert a + b == a;
    } else {
      CountConcat(a, b[..|b| - 1], g);
      assert (a + b)[..|a + b| - 1] == a + b[..|b| - 1];
    }
  }

  lemma CountPrefix(s: Shards, n: nat, g: nat)
    requires n < |s|
    ensures Count(s[..n + 1], g) == Count(s[..n], g) + if s[n] == g then 1 else 0
  {
    assert s[..n + 1][..n] == s[..n];
  }

  lemma {:induction false} RepeatCount(g: nat, n: nat, h: nat)
    ensures |Repeat(g, n)| == n && Count(Repeat(g, n), h) == if g == h then n else 0
    ensures forall x :: x in Repeat(g, n) ==> x == g
  {
    if n > 0 {
      RepeatCount(g, n - 1, h);
      CountAppend(Repeat(g, n - 1), g, h);
    }
  }

  lemma {:induction false} DealCount(s: Shards, targets: Targets, gids: seq<nat>, g: nat)
    requires forall x :: x in gids ==> x in targets
    requires forall i, j :: 0 <= i < j < |gids| ==> gids[i] != gids[j]
    ensures Count(Deal(s, targets, gids), g) == if g in gids then Need(s, targets, g) else 0
    ensures |Deal(s, targets, gids)| == SumTargets(gids, targets) - SumKept(s, gids, targets)
    ensures forall x :: x in Deal(s, targets, gids) ==> x in gids
  {
    if gids != [] {
      var last := |gids| - 1;
      DealCount(s, targets, gids[..last], g);
      RepeatCount(gids[last], Need(s, targets, gids[last]), g);
      CountConcat(Deal(s, targets, gids[..last]), Repeat(gids[last], Need(s, targets, gids[last])), g);
      assert g in gids <==> g in gids[..last] || g == gids[last];
    }
  }

  // One more shard adds one to what is kept exactly if that shard stays.
  lemma {:induction false} SumKeptStep(s: Shards, gids: seq<nat>, targets: Targets, n: nat)
    requires n < |s| && forall x :: x in gids ==> x in targets
    requires forall i, j :: 0 <= i < j < |gids| ==> gids[i] != gids[j]
    ensures SumKept(s[..n + 1], gids, targets)
         == SumKept(s[..n], gids, targets) + if s[n] in gids && Kept(s, targets, n) then 1 else 0
  {
    if gids != [] {
      var last := |gids| - 1;
      SumKeptStep(s, gids[..last], targets, n);
      CountPrefix(s, n, gids[last]);
      assert s[n] in gids <==> s[n] in gids[..last] || s[n] == gids[last];
    }
  }

  lemma {:induction false} OrphansCount(s: Shards, gids: seq<nat>, targets: Targets, n: nat)
    requires n <= |s| && Lists(gids, targets)
    ensures |Orphans(s, targets, n)| == n - SumKept(s[..n], gids, targets)
  {
    if n == 0 {
      NothingKept(gids, targets);
      assert s[..0] == [];
    } else {
      OrphansCount(s, gids, targets, n - 1);
      SumKeptStep(s, gids, targets, n - 1);
    }
  }

  lemma {:induction false} NothingKept(gids: seq<nat>, targets: Targets)
    requires forall x :: x in gids ==> x in targets
    ensures SumKept([], gids, targets) == 0
  {
    if gids != [] {
      NothingKept(gids[..|gids| - 1], targets);
    }
  }

  // There are exactly as many orphans as groups need: the hand-out neither
  // overruns the orphans nor leaves one over.
  lemma OrphansMatchNeeds(s: Shards, gids: seq<nat>, targets: Targets)
    requires Fits(s, gids, targets)
    ensures |Orphans(s, targets, |s|)| == |Deal(s, targets, gids)|
  {
    OrphansCount(s, gids, targets, |s|);
    assert s[..|s|] == s;
    DealCount(s, targets, gids, 0);
  }

  lemma {:induction false} OrphansGrow(s: Shards, targets: Targets, i: nat, n: nat)
    requires i <= n <= |s|
    ensures Orphans(s, targets, i) <= Orphans(s, targets, n)
    ensures i < n && !Kept(s, targets, i) ==>
              |Orphans(s, targets, i)| < |Orphans(s, targets, n)|
              && Orphans(s, targets, n)[|Orphans(s, targets, i)|] == i
  {
    if i < n {
      OrphansGrow(s, targets, i, n - 1);
    }
  }

  /******* Group sizes *******/

  lemma {:induction false} AssignCounts(s: Shards, gids: seq<nat>, targets: Targets, g: nat, n: nat)
    requires Fits(s, gids, targets) && n <= |s|
    ensures |Orphans(s, targets, n)| <= |Deal(s, targets, gids)|
    ensures Count(Assign(s, gids, targets)[..n], g)
         == (if g in targets then Min(Count(s[..n], g), targets[g]) else 0)
            + Count(Deal(s, targets, gids)[..|Orphans(s, targets, n)|], g)
  {
    OrphansMatchNeeds(s, gids, targets);
    OrphansGrow(s, targets, n, |s|);
    if n > 0 {
      var r, deal, m := Assign(s, gids, targets), Deal(s, targets, gids), n - 1;
      var o := |Orphans(s, targets, m)|;
      AssignCounts(s, gids, targets, g, m);
      CountPrefix(r, m, g);
      CountPrefix(s, m, g);
      if !Kept(s, targets, m) {
        DealtAt(s, gids, targets, m);
        CountPrefix(deal, o, g);
        assert Min(Count(s[..n], s[m]), if s[m] in targets then targets[s[m]] else 0)
            == Min(Count(s[..m], s[m]), if s[m] in targets then targets[s[m]] else 0) by { CountPrefix(s, m, s[m]); }
      }
    }
  }

  // The orphan with k orphans below it goes to the k-th group dealt.
  lemma DealtAt(s: Shards, gids: seq<nat>, targets: Targets, i: nat)
    requires Fits(s, gids, targets) && i < |s| && !Kept(s, targets, i)
    ensures |Orphans(s, targets, i)| < |Deal(s, targets, gids)|
    ensures Assign(s, gids, targets)[i] == Deal(s, targets, gids)[|Orphans(s, targets, i)|]
  {
    OrphansMatchNeeds(s, gids, targets);
    OrphansGrow(s, targets, i, |s|);
  }

  // Every group ends up with exactly its target, and no one else owns a shard.
  lemma AssignHitsTargets(s: Shards, gids: seq<nat>, targets: Targets)
    requires Fits(s, gids, targets)
    ensures forall g :: Count(Assign(s, gids, targets), g) == if g in targets then targets[g] else 0
    ensures forall i :: 0 <= i < |s| ==> Assign(s, gids, targets)[i] in targets
  {
    var r := Assign(s, gids, targets);
    OrphansMatchNeeds(s, gids, targets);
    forall g ensures Count(r, g) == if g in targets then targets[g] else 0 {
      AssignCounts(s, gids, targets, g, |s|);
      DealCount(s, targets, gids, g);
      assert r[..|s|] == r && s[..|s|] == s;
      assert Deal(s, targets, gids)[..|Deal(s, targets, gids)|] == Deal(s, targets, gids);
    }
    forall i | 0 <= i < |s| ensures r[i] in targets {
      DealCount(s, targets, gids, 0);
      OrphansGrow(s, targets, i, |s|);
    }
  }

  /******* Movement *******/

  // Shards both assignments give to g.
  function Both(a: Shards, b: Shards, g: nat): nat
    requires |a| == |b|
  {
    if a == [] then 0
    else Both(a[..|a| - 1], b[..|b| - 1], g) + if a[|a| - 1] == g && b[|b| - 1] == g then 1 else 0
  }

  function SumBoth(a: Shards, b: Shards, gids: seq<nat>): nat
    requires |a| == |b|
  {
    if gids == [] then 0 else SumBoth(a, b, gids[..|gids| - 1]) + Both(a, b, gids[|gids| - 1])
  }

  lemma {:induction false} BothBounded(a: Shards, b: Shards, g: nat)
    requires |a| == |b|
    ensures Both(a, b, g) <= Min(Count(a, g), Count(b, g))
  {
    if a != [] {
      BothBounded(a[..|a| - 1], b[..|b| - 1], g);
    }
  }

  lemma {:induction false} SumBothStep(a: Shards, b: Shards, gids: seq<nat>)
    requires |a| == |b| > 0 && forall i, j :: 0 <= i < j < |gids| ==> gids[i] != gids[j]
    ensures SumBoth(a, b, gids) == SumBoth(a[..|a| - 1], b[..|b| - 1], gids)
                                   + if a[|a| - 1] == b[|b| - 1] && a[|a| - 1] in gids then 1 else 0
  {
    if gids != [] {
      var last := |gids| - 1;
      SumBothStep(a, b, gids[..last]);
      assert a[|a| - 1] in gids <==> a[|a| - 1] in gids[..last] || a[|a| - 1] == gids[last];
    }
  }

  lemma {:induction false} SumBothNone(gids: seq<nat>)
    ensures SumBoth([], [], gids) == 0
  {
    if gids != [] {
      SumBothNone(gids[..|gids| - 1]);
    }
  }

  lemma {:induction false} SameIsSumBoth(a: Shards, b: Shards, gids: seq<nat>)
    requires |a| == |b| && (forall i :: 0 <= i < |b| ==> b[i] in gids)
    requires forall i, j :: 0 <= i < j < |gids| ==> gids[i] != gids[j]
    ensures Same(a, b) == SumBoth(a, b, gids)
  {
    if a == [] {
      SumBothNone(gids);
    } else {
      SameIsSumBoth(a[..|a| - 1], b[..|b| - 1], gids);
      SumBothStep(a, b, gids);
    }
  }

  lemma {:induction false} SumBothBounded(a: Shards, b: Shards, gids: seq<nat>, targets: Targets)
    requires |a| == |b| && forall g :: g in gids ==> g in targets && Count(b, g) == targets[g]
    ensures SumBoth(a, b, gids) <= SumKept(a, gids, targets)
  {
    if gids != [] {
      SumBothBounded(a, b, gids[..|gids| - 1], targets);
      BothBounded(a, b, gids[|gids| - 1]);
    }
  }

  // No assignment with these group sizes keeps more shards in place.
  lemma KeptAtMost(s: Shards, other: Shards, gids: seq<nat>, targets: Targets)
    requires Lists(gids, targets) && |other| == |s|
    requires forall i :: 0 <= i < |other| ==> other[i] in targets
    requires forall g :: g in targets ==> Count(other, g) == targets[g]
    ensures Same(s, other) <= SumKept(s, gids, targets)
  {
    SameIsSumBoth(s, other, gids);
    SumBothBounded(s, other, gids, targets);
  }

  lemma {:induction false} AssignKeeps(s: Shards, gids: seq<nat>, targets: Targets, n: nat)
    requires Fits(s, gids, targets) && n <= |s|
    ensures Same(s[..n], Assign(s, gids, targets)[..n]) >= n - |Orphans(s, targets, n)|
  {
    if n > 0 {
      var r := Assign(s, gids, targets);
      AssignKeeps(s, gids, targets, n - 1);
      assert s[..n][..n - 1] == s[..n - 1] && r[..n][..n - 1] == r[..n - 1];
    }
  }

  lemma AssignKeepsAll(s: Shards, gids: seq<nat>, targets: Targets)
    requires Fits(s, gids, targets)
    ensures Same(s, Assign(s, gids, targets)) == SumKept(s, gids, targets)
  {
    var r := Assign(s, gids, targets);
    AssignKeeps(s, gids, targets, |s|);
    OrphansCount(s, gids, targets, |s|);
    assert s[..|s|] == s && r[..|s|] == r;
    AssignHitsTargets(s, gids, targets);
    KeptAtMost(s, r, gids, targets);
  }

  // The assignment moves as few shards as any with the same group sizes.
  lemma AssignMovesLeast(s: Shards, other: Shards, gids: seq<nat>, targets: Targets)
    requires Fits(s, gids, targets) && |other| == |s|
    requires forall i :: 0 <= i < |other| ==> other[i] in targets
    requires forall g :: g in targets ==> Count(other, g) == targets[g]
    ensures Moved(s, Assign(s, gids, targets)) <= Moved(s, other)
  {
    AssignKeepsAll(s, gids, targets);
    KeptAtMost(s, other, gids, targets);
  }

  lemma {:induction false} SameAll(a: Shards, b: Shards)
    requires |a| == |b|
    ensures Same(a, b) <= |a| && (Same(a, b) == |a| <==> a == b)
  {
    if a != [] {
      SameAll(a[..|a| - 1], b[..|b| - 1]);
      assert a == a[..|a| - 1] + [a[|a| - 1]] && b == b[..|b| - 1] + [b[|b| - 1]];
    }
  }

  // An assignment already on target stays as it is.
  lemma AssignFixed(s: Shards, gids: seq<nat>, targets: Targets)
    requires Fits(s, gids, targets)
    requires forall i :: 0 <= i < |s| ==> s[i] in targets
    requires forall g :: g in targets ==> Count(s, g) == targets[g]
    ensures Assign(s, gids, targets) == s
  {
    AssignMovesLeast(s, s, gids, targets);
    SameAll(s, s);
    SameAll(s, Assign(s, gids, targets));
  }

  /******* Which shards move, and where *******/

  // Of a group's shards the lowest stay.
  lemma LowestStay(s: Shards, gids: seq<nat>, targets: Targets, i: nat, j: nat)
    requires Fits(s, gids, targets) && i < j < |s| && s[i] == s[j]
    requires Assign(s, gids, targets)[j] == s[j]
    ensures Assign(s, gids, targets)[i] == s[i]
  {
    if !Kept(s, targets, j) {
      MovedAway(s, gids, targets, j);
    }
    CountGrows(s, i, j, s[i]);
  }

  lemma {:induction false} CountGrows(s: Shards, i: nat, j: nat, g: nat)
    requires i <= j <= |s|
    ensures Count(s[..i], g) <= Count(s[..j], g)
  {
    if i < j {
      CountGrows(s, i, j - 1, g);
      CountPrefix(s, j - 1, g);
    }
  }

  // A shard over its group's target goes to another group.
  lemma MovedAway(s: Shards, gids: seq<nat>, targets: Targets, i: nat)
    requires Fits(s, gids, targets) && i < |s| && !Kept(s, targets, i)
    ensures Assign(s, gids, targets)[i] != s[i]
  {
    DealtAt(s, gids, targets, i);
    DealCount(s, targets, gids, s[i]);
    var deal, k := Deal(s, targets, gids), |Orphans(s, targets, i)|;
    if s[i] in targets {
      CountGrows(s, i, |s|, s[i]);
      assert s[..|s|] == s;
    }
    CountPositive(deal, k);
  }

  lemma {:induction false} CountPositive(s: Shards, k: nat)
    requires k < |s|
    ensures Count(s, s[k]) > 0
  {
    if k < |s| - 1 {
      CountPositive(s[..|s| - 1], k);
    }
  }

  // Shards that move are handed out in ascending order to groups in ascending
  // order.
  lemma MovedInOrder(s: Shards, gids: seq<nat>, targets: Targets, i: nat, j: nat)
    requires Fits(s, gids, targets) && i < j < |s|
    requires forall x, y :: 0 <= x < y < |gids| ==> gids[x] < gids[y]
    requires Assign(s, gids, targets)[i] != s[i] && Assign(s, gids, targets)[j] != s[j]
    ensures Assign(s, gids, targets)[i] <= Assign(s, gids, targets)[j]
  {
    DealtAt(s, gids, targets, i);
    DealtAt(s, gids, targets, j);
    OrphansGrow(s, targets, i, j);
    DealAscends(s, targets, gids);
  }

  ghost predicate NonDecreasing(s: seq<nat>) {
    forall x, y :: 0 <= x <= y < |s| ==> s[x] <= s[y]
  }

  lemma {:induction false} DealAscends(s: Shards, targets: Targets, gids: seq<nat>)
    requires (forall x :: x in gids ==> x in targets)
    requires forall x, y :: 0 <= x < y < |gids| ==> gids[x] < gids[y]
    ensures NonDecreasing(Deal(s, targets, gids))
  {
    if gids != [] {
      var n := |gids| - 1;
      DealAscends(s, targets, gids[..n]);
      DealCount(s, targets, gids[..n], 0);
      RepeatCount(gids[n], Need(s, targets, gids[n]), 0);
      AllAtMost(Deal(s, targets, gids[..n]), gids[..n], gids[n]);
      AppendAscends(Deal(s, targets, gids[..n]), Repeat(gids[n], Need(s, targets, gids[n])), gids[n]);
    }
  }

  lemma AllAtMost(deal: seq<nat>, gids: seq<nat>, g: nat)
    requires (forall x :: x in deal ==> x in gids) && forall i :: 0 <= i < |gids| ==> gids[i] < g
    ensures forall x :: x in deal ==> x <= g
  {}

  lemma AppendAscends(a: seq<nat>, b: seq<nat>, g: nat)
    requires NonDecreasing(a) && (forall x :: x in a ==> x <= g) && forall x :: x in b ==> x == g
    ensures NonDecreasing(a + b)
  {
    forall x, y | 0 <= x <= y < |a + b| ensures (a + b)[x] <= (a + b)[y] {
      if y >= |a| {
        assert b[y - |a|] in b;
        assert if x < |a| then a[x] in a else b[x - |a|] in b;
      }
    }
  }
}
