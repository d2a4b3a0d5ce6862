// Balanced targets, when they really cost the fewest moves, and the controller's
// rebalancing loop.
module Rebalance {
  import opened Placement

  /******* Sorted ids *******/

  ghost predicate Increasing(s: seq<nat>) {
    forall i, j :: 0 <= i < j < |s| ==> s[i] < s[j]
  }

  lemma Least(live: set<nat>) returns (m: nat)
    requires live != {}
    ensures m in live && forall x :: x in live ==> m <= x
  {
    m :| m in live;
    var others := live - {m};
    if others != {} {
      var m' := Least(others);
      if m' < m {
        m := m';
      }
      forall x | x in live ensures m <= x {
        assert x in others || live == others + {x};
      }
    } else {
      forall x | x in live ensures m <= x {
        assert x !in others;
      }
    }
  }

  function Lowest(live: set<nat>): (m: nat)
    requires live != {}
    ensures m in live && forall x :: x in live ==> m <= x
  {
    assert exists m :: m in live && forall x :: x in live ==> m <= x by { var m := Least(live); }
    var m :| m in live && forall x :: x in live ==> m <= x;
    m
  }

  // sort.Ints on distinct values.
  function Ascending(live: set<nat>): (r: seq<nat>)
    ensures Increasing(r) && |r| == |live|
    ensures forall x :: x in r <==> x in live
  {
    if live == {} then []
    else
      var m := Lowest(live);
      var rest := Ascending(live - {m});
      IncreasingCons(m, rest);
      [m] + rest
  }

  lemma IncreasingCons(m: nat, rest: seq<nat>)
    requires Increasing(rest) && forall x :: x in rest ==> m < x
    ensures Increasing([m] + rest)
  {
    assert forall i :: 0 <= i < |rest| ==> rest[i] in rest;
  }

  lemma {:induction false} SameIncreasing(a: seq<nat>, b: seq<nat>)
    requires Increasing(a) && Increasing(b) && forall x :: x in a <==> x in b
    ensures a == b
    decreases |a|
  {
    if a == [] {
      assert forall i :: 0 <= i < |b| ==> b[i] in b;
    } else {
      assert a[0] in b;
      assert b[0] in a;
      assert a[0] == b[0];
      forall x ensures x in a[1..] <==> x in b[1..] {
        assert x in a <==> x == a[0] || x in a[1..];
        assert x in b <==> x == b[0] || x in b[1..];
        assert a[0] !in a[1..] && b[0] !in b[1..];
      }
      SameIncreasing(a[1..], b[1..]);
    }
  }

  /******* Targets *******/

  // The share of the i-th of k groups: the first ones absorb the remainder.
  function Share(n: nat, k: nat, i: nat): nat
    requires k > 0
  {
    n / k + if i < n % k then 1 else 0
  }

  function TargetsUpto(n: nat, gids: seq<nat>, i: nat): Targets
    requires i <= |gids|
  {
    if i == 0 then map[] else TargetsUpto(n, gids, i - 1)[gids[i - 1] := Share(n, |gids|, i - 1)]
  }

  function Balance(n: nat, gids: seq<nat>): Targets { TargetsUpto(n, gids, |gids|) }

  lemma {:induction false} TargetsAre(n: nat, gids: seq<nat>, i: nat)
    requires i <= |gids| && Increasing(gids)
    ensures forall g :: g in TargetsUpto(n, gids, i) <==> g in gids[..i]
    ensures forall j :: 0 <= j < i ==> TargetsUpto(n, gids, i)[gids[j]] == Share(n, |gids|, j)
  {
    if i > 0 {
      TargetsAre(n, gids, i - 1);
      assert gids[..i] == gids[..i - 1] + [gids[i - 1]];
    }
  }

  function Times(n: nat, q: nat): nat {
    if n == 0 then 0 else Times(n - 1, q) + q
  }

  lemma {:induction false} TimesIsProduct(n: nat, q: nat)
    ensures Times(n, q) == n * q
  {
    if n > 0 {
      TimesIsProduct(n - 1, q);
    }
  }

  lemma Division(n: nat, k: nat)
    requires k > 0
    ensures Times(k, n / k) + n % k == n && n % k < k
  {
    TimesIsProduct(k, n / k);
  }

  lemma {:induction false} SharesSum(n: nat, gids: seq<nat>, targets: Targets, i: nat)
    requires i <= |gids| && gids != []
    requires forall g :: g in gids ==> g in targets
    requires forall j :: 0 <= j < |gids| ==> targets[gids[j]] == Share(n, |gids|, j)
    ensures SumTargets(gids[..i], targets) == Times(i, n / |gids|) + Min(i, n % |gids|)
  {
    if i > 0 {
      SharesSum(n, gids, targets, i - 1);
      assert gids[..i][..i - 1] == gids[..i - 1];
    }
  }

  lemma BalanceFits(s: Shards, gids: seq<nat>)
    requires gids != [] && Increasing(gids)
    ensures Fits(s, gids, Balance(|s|, gids))
    ensures forall i :: 0 <= i < |gids| ==> Balance(|s|, gids)[gids[i]] == Share(|s|, |gids|, i)
    ensures NearQ(gids, Balance(|s|, gids), |s| / |gids|)
  {
    TargetsAre(|s|, gids, |gids|);
    assert gids[..|gids|] == gids;
    SharesSum(|s|, gids, Balance(|s|, gids), |gids|);
    Division(|s|, |gids|);
    forall g | g in gids ensures |s| / |gids| <= Balance(|s|, gids)[g] <= |s| / |gids| + 1 {
      var i :| 0 <= i < |gids| && gids[i] == g;
    }
  }

  /******* When it really moves the fewest *******/

  // Everyone within one shard of everyone else, all shards with live groups.
  ghost predicate Balanced(s: Shards, gids: seq<nat>)
    requires gids != []
  {
    && (forall i :: 0 <= i < |s| ==> s[i] in gids)
    && (forall g :: g in gids ==> |s| / |gids| <= Count(s, g) <= |s| / |gids| + 1)
  }

  // Some group low enough to be given an extra shard does not have one already,
  // while some group too high for one does.
  ghost predicate ExtraInWrongHands(s: Shards, gids: seq<nat>)
    requires gids != []
  {
    exists i, j :: 0 <= i < |s| % |gids| <= j < |gids|
                   && Count(s, gids[i]) <= |s| / |gids| && Count(s, gids[j]) > |s| / |gids|
  }

  ghost predicate NearQ(gids: seq<nat>, targets: Targets, q: nat) {
    forall g :: g in gids ==> g in targets && q <= targets[g] <= q + 1
  }

  function SumLow(s: Shards, gids: seq<nat>, q: nat): nat {
    if gids == [] then 0 else SumLow(s, gids[..|gids| - 1], q) + Min(Count(s, gids[|gids| - 1]), q)
  }

  lemma {:induction false} KeptFromExtras(s: Shards, gids: seq<nat>, targets: Targets, q: nat)
    requires NearQ(gids, targets, q)
    ensures SumKept(s, gids, targets) + Times(|gids|, q) <= SumLow(s, gids, q) + SumTargets(gids, targets)
    ensures (forall g :: g in gids && targets[g] > q ==> Count(s, g) > q) ==>
              SumKept(s, gids, targets) + Times(|gids|, q) == SumLow(s, gids, q) + SumTargets(gids, targets)
  {
    if gids != [] {
      KeptFromExtras(s, gids[..|gids| - 1], targets, q);
      assert gids[|gids| - 1] in gids;
    }
  }

  lemma {:induction false} KeptTermwise(s: Shards, gids: seq<nat>, c: Targets, t: Targets, q: nat)
    requires NearQ(gids, c, q) && NearQ(gids, t, q)
    requires forall g :: g in gids && t[g] == q ==> Count(s, g) <= q
    ensures SumKept(s, gids, c) <= SumKept(s, gids, t)
  {
    if gids != [] {
      KeptTermwise(s, gids[..|gids| - 1], c, t, q);
      assert gids[|gids| - 1] in gids;
    }
  }

  function Counts(s: Shards, gids: seq<nat>): Targets {
    map g | g in gids :: Count(s, g)
  }

  lemma {:induction false} BothSelf(s: Shards, g: nat)
    ensures Both(s, s, g) == Count(s, g)
  {
    if s != [] {
      BothSelf(s[..|s| - 1], g);
    }
  }

  lemma {:induction false} SumOfCounts(s: Shards, gids: seq<nat>, targets: Targets)
    requires forall g :: g in gids ==> g in targets && targets[g] == Count(s, g)
    ensures SumTargets(gids, targets) == SumBoth(s, s, gids)
  {
    if gids != [] {
      SumOfCounts(s, gids[..|gids| - 1], targets);
      BothSelf(s, gids[|gids| - 1]);
    }
  }

  // The sizes of any assignment over these groups add up to all shards.
  lemma CountsFit(s: Shards, gids: seq<nat>)
    requires Increasing(gids) && forall i :: 0 <= i < |s| ==> s[i] in gids
    ensures Fits(s, gids, Counts(s, gids))
  {
    SumOfCounts(s, gids, Counts(s, gids));
    SameIsSumBoth(s, s, gids);
    SameAll(s, s);
  }

  // Sizes within one of q that add up alike keep no more than the targets do.
  lemma KeptNoMore(s: Shards, gids: seq<nat>, c: Targets)
    requires gids != [] && Increasing(gids) && !ExtraInWrongHands(s, gids)
    requires NearQ(gids, c, |s| / |gids|) && SumTargets(gids, c) == |s|
    ensures Fits(s, gids, Balance(|s|, gids))
    ensures SumKept(s, gids, c) <= SumKept(s, gids, Balance(|s|, gids))
  {
    var t, q := Balance(|s|, gids), |s| / |gids|;
    BalanceFits(s, gids);
    if forall i :: 0 <= i < |s| % |gids| ==> Count(s, gids[i]) > q {
      forall g | g in gids && t[g] > q ensures Count(s, g) > q {
        var i :| 0 <= i < |gids| && gids[i] == g;
      }
      KeptFromExtras(s, gids, t, q);
      KeptFromExtras(s, gids, c, q);
    } else {
      forall g | g in gids && t[g] == q ensures Count(s, g) <= q {
        var j :| 0 <= j < |gids| && gids[j] == g;
        assert |s| % |gids| <= j;
      }
      KeptTermwise(s, gids, c, t, q);
    }
  }

  lemma FewestUnlessMisplaced(s: Shards, gids: seq<nat>, other: Shards)
    requires gids != [] && Increasing(gids) && |other| == |s| && Balanced(other, gids)
    requires !ExtraInWrongHands(s, gids)
    ensures Fits(s, gids, Balance(|s|, gids))
    ensures Moved(s, Assign(s, gids, Balance(|s|, gids))) <= Moved(s, other)
  {
    var c := Counts(other, gids);
    CountsFit(other, gids);
    KeptNoMore(s, gids, c);
    AssignKeepsAll(s, gids, Balance(|s|, gids));
    KeptAtMost(s, other, gids, c);
  }

  lemma {:induction false} Retarget(s: Shards, gids: seq<nat>, t: Targets, g: nat, v: nat)
    requires forall x :: x in gids ==> x in t
    requires forall i, j :: 0 <= i < j < |gids| ==> gids[i] != gids[j]
    requires g in t
    ensures SumTargets(gids, t[g := v]) == SumTargets(gids, t) + if g in gids then v - t[g] else 0
    ensures SumKept(s, gids, t[g := v])
         == SumKept(s, gids, t) + if g in gids then Min(Count(s, g), v) - Min(Count(s, g), t[g]) else 0
  {
    if gids != [] {
      var last := |gids| - 1;
      Retarget(s, gids[..last], t, g, v);
      assert g in gids <==> g in gids[..last] || g == gids[last];
    }
  }

  // Moving one unit of target from i to j keeps one shard more.
  lemma ShiftedTargets(s: Shards, gids: seq<nat>, i: nat, j: nat) returns (t: Targets)
    requires gids != [] && Increasing(gids) && i < |s| % |gids| <= j < |gids|
    requires Count(s, gids[i]) <= |s| / |gids| < Count(s, gids[j])
    ensures Fits(s, gids, t) && Fits(s, gids, Balance(|s|, gids)) && NearQ(gids, t, |s| / |gids|)
    ensures SumKept(s, gids, t) == SumKept(s, gids, Balance(|s|, gids)) + 1
  {
    var b, q := Balance(|s|, gids), |s| / |gids|;
    BalanceFits(s, gids);
    assert gids[i] != gids[j];
    var t1 := b[gids[i] := q];
    Retarget(s, gids, b, gids[i], q);
    t := t1[gids[j] := q + 1];
    Retarget(s, gids, t1, gids[j], q + 1);
  }

  lemma FewerIfMisplaced(s: Shards, gids: seq<nat>) returns (other: Shards)
    requires gids != [] && Increasing(gids) && ExtraInWrongHands(s, gids)
    ensures |other| == |s| && Balanced(other, gids) && Fits(s, gids, Balance(|s|, gids))
    ensures Moved(s, other) < Moved(s, Assign(s, gids, Balance(|s|, gids)))
  {
    var i: nat, j: nat :| i < |s| % |gids| <= j < |gids|
                          && Count(s, gids[i]) <= |s| / |gids| && Count(s, gids[j]) > |s| / |gids|;
    var t := ShiftedTargets(s, gids, i, j);
    other := Assign(s, gids, t);
    AssignHitsTargets(s, gids, t);
    AssignKeepsAll(s, gids, t);
    AssignKeepsAll(s, gids, Balance(|s|, gids));
  }

  // "As few as possible", over all balanced assignments: exactly when no extra
  // shard sits with a group whose id is too high to keep it.
  lemma FewestMovesIff(s: Shards, gids: seq<nat>)
    requires gids != [] && Increasing(gids)
    ensures Fits(s, gids, Balance(|s|, gids))
    ensures (forall other | |other| == |s| && Balanced(other, gids) ::
               Moved(s, Assign(s, gids, Balance(|s|, gids))) <= Moved(s, other))
            <==> !ExtraInWrongHands(s, gids)
  {
    BalanceFits(s, gids);
    if ExtraInWrongHands(s, gids) {
      var other := FewerIfMisplaced(s, gids);
      assert Balanced(other, gids);
    } else {
      forall other | |other| == |s| && Balanced(other, gids)
        ensures Moved(s, Assign(s, gids, Balance(|s|, gids))) <= Moved(s, other)
      {
        FewestUnlessMisplaced(s, gids, other);
      }
    }
  }

  function Split343(): Shards { Repeat(1, 3) + Repeat(2, 4) + Repeat(3, 3) }

  lemma Split343Counts(g: nat)
    ensures |Split343()| == 10
    ensures Count(Split343(), g) == if g == 2 then 4 else if g == 1 || g == 3 then 3 else 0
    ensures forall i :: 0 <= i < 10 ==> Split343()[i] in [1, 2, 3]
  {
    var a, b, c := Repeat(1, 3), Repeat(2, 4), Repeat(3, 3);
    RepeatCount(1, 3, g);
    RepeatCount(2, 4, g);
    RepeatCount(3, 3, g);
    CountConcat(a + b, c, g);
    CountConcat(a, b, g);
    forall i | 0 <= i < 10 ensures (a + b + c)[i] in [1, 2, 3] {
      assert (a + b + c)[i] in a || (a + b + c)[i] in b || (a + b + c)[i] in c;
    }
  }

  lemma OffTarget(s: Shards)
    requires |s| == 10 && Count(s, 1) == 3 && Count(s, 2) == 4 && Count(s, 3) == 3
    requires forall i :: 0 <= i < 10 ==> s[i] in [1, 2, 3]
    ensures Balanced(s, [1, 2, 3]) && Fits(s, [1, 2, 3], Balance(10, [1, 2, 3]))
    ensures Assign(s, [1, 2, 3], Balance(10, [1, 2, 3])) != s
  {
    var gids := [1, 2, 3];
    BalanceFits(s, gids);
    AssignHitsTargets(s, gids, Balance(10, gids));
    assert Balance(10, gids)[gids[0]] == Share(10, 3, 0) == 4;
  }

  // Ten shards split 3/4/3 over groups 1, 2, 3 are balanced; rebalancing moves
  // one all the same, to make them 4/3/3.
  lemma NeedlessMove()
    ensures |Split343()| == 10 && Balanced(Split343(), [1, 2, 3])
    ensures Fits(Split343(), [1, 2, 3], Balance(10, [1, 2, 3]))
    ensures Assign(Split343(), [1, 2, 3], Balance(10, [1, 2, 3])) != Split343()
  {
    Split343Counts(1);
    Split343Counts(2);
    Split343Counts(3);
    var s := Split343();
    OffTarget(s);
  }

  // Rebalancing again with the same groups changes nothing.
  lemma RebalanceTwice(s: Shards, gids: seq<nat>)
    requires gids != [] && Increasing(gids)
    ensures
      var t := Balance(|s|, gids);
      && Fits(s, gids, t) && Fits(Assign(s, gids, t), gids, t)
      && Assign(Assign(s, gids, t), gids, t) == Assign(s, gids, t)
  {
    BalanceFits(s, gids);
    AssignHitsTargets(s, gids, Balance(|s|, gids));
    AssignFixed(Assign(s, gids, Balance(|s|, gids)), gids, Balance(|s|, gids));
  }
}
