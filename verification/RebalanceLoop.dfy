// The controller's rebalancing loop, step by step, computing that assignment.
module RebalanceLoop {
  import opened Placement
  import opened Rebalance

  // The shards of group g, ascending.
  function Indices(s: Shards, g: nat): (r: seq<nat>)
    ensures |r| == Count(s, g)
  {
    if s == [] then [] else Indices(s[..|s| - 1], g) + if s[|s| - 1] == g then [|s| - 1] else []
  }

  lemma {:induction false} IndicesAre(s: Shards, g: nat)
    ensures Increasing(Indices(s, g))
    ensures forall r :: 0 <= r < |Indices(s, g)| ==>
              var x := Indices(s, g)[r]; x < |s| && s[x] == g && Count(s[..x], g) == r
  {
    if s != [] {
      var n := |s| - 1;
      IndicesAre(s[..n], g);
      forall r | 0 <= r < |Indices(s, g)|
        ensures var x := Indices(s, g)[r]; x < |s| && s[x] == g && Count(s[..x], g) == r
      {
        if r < |Indices(s[..n], g)| {
          var x := Indices(s[..n], g)[r];
          assert s[..n][..x] == s[..x];
        }
      }
    }
  }

  lemma {:induction false} IndexOf(s: Shards, x: nat)
    requires x < |s|
    ensures Count(s[..x], s[x]) < |Indices(s, s[x])| && Indices(s, s[x])[Count(s[..x], s[x])] == x
  {
    var n := |s| - 1;
    if x < n {
      IndexOf(s[..n], x);
      assert s[..n][..x] == s[..x];
    } else {
      IndicesAre(s[..n], s[x]);
    }
  }

  // The lowest shards of a group, as many as its target, are the ones that stay.
  function Staying(s: Shards, targets: Targets, g: nat): seq<nat>
    requires g in targets
  {
    Indices(s, g)[..Min(Count(s, g), targets[g])]
  }

  function Leaving(s: Shards, targets: Targets, g: nat): seq<nat>
    requires g in targets
  {
    Indices(s, g)[Min(Count(s, g), targets[g])..]
  }

  lemma StayingAre(s: Shards, targets: Targets, g: nat)
    requires g in targets
    ensures forall x: nat :: x in Staying(s, targets, g) <==> x < |s| && s[x] == g && Kept(s, targets, x)
  {
    var ix, k := Indices(s, g), Min(Count(s, g), targets[g]);
    IndicesAre(s, g);
    forall x: nat | x < |s| && s[x] == g && Kept(s, targets, x) ensures x in Staying(s, targets, g) {
      IndexOf(s, x);
      assert Staying(s, targets, g)[Count(s[..x], g)] == x;
    }
    forall x: nat | x in Staying(s, targets, g) ensures x < |s| && s[x] == g && Kept(s, targets, x) {
      var r :| 0 <= r < k && Staying(s, targets, g)[r] == x;
      assert ix[r] == x;
    }
  }

  lemma LeavingAre(s: Shards, targets: Targets, g: nat)
    requires g in targets
    ensures forall x: nat :: x in Leaving(s, targets, g) <==> x < |s| && s[x] == g && !Kept(s, targets, x)
    ensures Increasing(Leaving(s, targets, g))
  {
    var ix, k := Indices(s, g), Min(Count(s, g), targets[g]);
    IndicesAre(s, g);
    forall x: nat | x < |s| && s[x] == g && !Kept(s, targets, x) ensures x in Leaving(s, targets, g) {
      IndexOf(s, x);
      assert Leaving(s, targets, g)[Count(s[..x], g) - k] == x;
    }
    forall x: nat | x in Leaving(s, targets, g) ensures x < |s| && s[x] == g && !Kept(s, targets, x) {
      var r :| 0 <= r < |ix| - k && Leaving(s, targets, g)[r] == x;
      assert ix[k + r] == x;
    }
  }

  lemma {:induction false} OrphansAre(s: Shards, targets: Targets, n: nat)
    requires n <= |s|
    ensures Increasing(Orphans(s, targets, n))
    ensures forall x: nat :: x in Orphans(s, targets, n) <==> x < n && !Kept(s, targets, x)
  {
    if n > 0 {
      OrphansAre(s, targets, n - 1);
      var before := Orphans(s, targets, n - 1);
      assert forall i :: 0 <= i < |before| ==> before[i] in before;
    }
  }

  /******* Targets and owners *******/

  method TargetLoop(n: nat, gids: seq<nat>) returns (targets: Targets)
    requires gids != []
    ensures targets == Balance(n, gids)
  {
    var target, remainder := n / |gids|, n % |gids|;
    targets := map[];
    for i := 0 to |gids|
      invariant targets == TargetsUpto(n, gids, i)
    {
      targets := targets[gids[i] := if i < remainder then target + 1 else target];
    }
  }

  type Owned = map<nat, seq<nat>>

  function Of(owned: Owned, g: nat): seq<nat> {
    if g in owned then owned[g] else []
  }

  ghost predicate NoRepeats(s: seq<nat>) {
    forall i, j :: 0 <= i < j < |s| ==> s[i] != s[j]
  }

  lemma AppendNoRepeats(a: seq<nat>, b: seq<nat>)
    requires NoRepeats(a) && NoRepeats(b) && forall x :: x in a ==> x !in b
    ensures NoRepeats(a + b)
  {
    forall i, j | 0 <= i < j < |a + b| ensures (a + b)[i] != (a + b)[j] {
      if i < |a| <= j {
        assert a[i] in a && b[j - |a|] in b;
      }
    }
  }

  // The first n shards, grouped by owner.
  ghost predicate GroupedUpto(s: Shards, live: set<nat>, n: nat, owned: Owned)
    requires n <= |s|
  {
    owned.Keys <= live && forall g :: g in live ==> Of(owned, g) == Indices(s[..n], g)
  }

  ghost predicate OwnerlessUpto(s: Shards, live: set<nat>, n: nat, orphans: seq<nat>)
    requires n <= |s|
  {
    NoRepeats(orphans) && forall x: nat :: x in orphans <==> x < n && s[x] !in live
  }

  lemma OwnerlessStep(s: Shards, live: set<nat>, n: nat, orphans: seq<nat>)
    requires n < |s| && OwnerlessUpto(s, live, n, orphans)
    ensures OwnerlessUpto(s, live, n + 1, if s[n] in live then orphans else orphans + [n])
  {
    if s[n] !in live {
      AppendNoRepeats(orphans, [n]);
    }
  }

  lemma GroupedStep(s: Shards, live: set<nat>, n: nat, owned: Owned)
    requires n < |s| && GroupedUpto(s, live, n, owned)
    ensures GroupedUpto(s, live, n + 1, if s[n] in live then owned[s[n] := Of(owned, s[n]) + [n]] else owned)
  {
    assert s[..n + 1][..n] == s[..n];
    forall g ensures Indices(s[..n + 1], g) == Indices(s[..n], g) + if s[n] == g then [n] else [] {}
  }

  // Group the shards by owner; those without a live owner are orphans.
  method Collect(s: Shards, live: set<nat>) returns (owned: Owned, orphans: seq<nat>)
    ensures GroupedUpto(s, live, |s|, owned) && OwnerlessUpto(s, live, |s|, orphans)
  {
    owned, orphans := map[], [];
    for i := 0 to |s|
      invariant GroupedUpto(s, live, i, owned) && OwnerlessUpto(s, live, i, orphans)
    {
      var g := s[i];
      GroupedStep(s, live, i, owned);
      OwnerlessStep(s, live, i, orphans);
      if g in live {
        owned := owned[g := Of(owned, g) + [i]];
      } else {
        orphans := orphans + [i];
      }
    }
  }

  // The orphans once the groups in `done` have been trimmed.
  ghost predicate OrphansUpto(s: Shards, targets: Targets, done: seq<nat>, orphans: seq<nat>) {
    && NoRepeats(orphans)
    && forall x: nat :: x in orphans <==>
      x < |s| && (s[x] !in targets || (s[x] in done && !Kept(s, targets, x)))
  }

  lemma TrimStep(s: Shards, targets: Targets, done: seq<nat>, g: nat, orphans: seq<nat>)
    requires g in targets && g !in done && OrphansUpto(s, targets, done, orphans)
    ensures OrphansUpto(s, targets, done + [g], orphans + Leaving(s, targets, g))
  {
    LeavingAre(s, targets, g);
    AppendNoRepeats(orphans, Leaving(s, targets, g));
  }

  // The first i groups have been trimmed, the others still own what they owned.
  ghost predicate TrimmedUpto(s: Shards, gids: seq<nat>, targets: Targets, owned: Owned, i: nat)
    requires i <= |gids| && forall g :: g in gids ==> g in targets
  {
    && owned.Keys <= targets.Keys
    && (forall j :: 0 <= j < i ==> Of(owned, gids[j]) == Staying(s, targets, gids[j]))
    && (forall j :: i <= j < |gids| ==> Of(owned, gids[j]) == Indices(s, gids[j]))
  }

  lemma TrimOwned(s: Shards, gids: seq<nat>, targets: Targets, owned: Owned, i: nat)
    requires Lists(gids, targets) && i < |gids| && TrimmedUpto(s, gids, targets, owned, i)
    ensures TrimmedUpto(s, gids, targets, owned[gids[i] := Staying(s, targets, gids[i])], i + 1)
    ensures |Indices(s, gids[i])| <= targets[gids[i]] ==> TrimmedUpto(s, gids, targets, owned, i + 1)
  {
    var owned' := owned[gids[i] := Staying(s, targets, gids[i])];
    forall j | 0 <= j < |gids| && j != i ensures Of(owned', gids[j]) == Of(owned, gids[j]) {
      assert gids[j] != gids[i];
    }
  }

  lemma TrimTurn(s: Shards, gids: seq<nat>, targets: Targets, owned: Owned, orphans: seq<nat>, i: nat)
    requires Lists(gids, targets) && i < |gids|
    requires TrimmedUpto(s, gids, targets, owned, i) && OrphansUpto(s, targets, gids[..i], orphans)
    ensures
      var g := gids[i];
      var cur, want := Of(owned, g), targets[g];
      if |cur| > want then
        && TrimmedUpto(s, gids, targets, owned[g := cur[..want]], i + 1)
        && OrphansUpto(s, targets, gids[..i + 1], orphans + cur[want..])
      else
        TrimmedUpto(s, gids, targets, owned, i + 1) && OrphansUpto(s, targets, gids[..i + 1], orphans)
  {
    var g := gids[i];
    assert gids[..i + 1] == gids[..i] + [g];
    TrimStep(s, targets, gids[..i], g, orphans);
    TrimOwned(s, gids, targets, owned, i);
    if |Of(owned, g)| <= targets[g] {
      assert orphans + Leaving(s, targets, g) == orphans;
    }
  }

  // Groups over target give up their highest shards.
  method Trim(s: Shards, gids: seq<nat>, targets: Targets, owned0: Owned, orphans0: seq<nat>)
    returns (owned: Owned, orphans: seq<nat>)
    requires Lists(gids, targets) && TrimmedUpto(s, gids, targets, owned0, 0)
    requires OrphansUpto(s, targets, [], orphans0)
    ensures TrimmedUpto(s, gids, targets, owned, |gids|) && OrphansUpto(s, targets, gids, orphans)
  {
    owned, orphans := owned0, orphans0;
    assert gids[..0] == [];
    for i := 0 to |gids|
      invariant TrimmedUpto(s, gids, targets, owned, i) && OrphansUpto(s, targets, gids[..i], orphans)
    {
      var g := gids[i];
      TrimTurn(s, gids, targets, owned, orphans, i);
      var cur, want := Of(owned, g), targets[g];
      if |cur| > want {
        orphans := orphans + cur[want..];
        owned := owned[g := cur[..want]];
      }
    }
    assert gids[..|gids|] == gids;
  }

  /******* Handing out *******/

  // Everything in `owned` is where r puts it.
  ghost predicate Agrees(r: Shards, owned: Owned) {
    forall g: nat, x: nat {:trigger x in Of(owned, g)} :: x in Of(owned, g) ==> x < |r| && r[x] == g
  }

  ghost predicate InPlace(r: Shards, owned: Owned, x: nat) {
    x < |r| && x in Of(owned, r[x])
  }

  // What stays, and the first `dealt` of all orphans, are with their groups.
  ghost predicate Placed(r: Shards, home: set<nat>, all: seq<nat>, owned: Owned, dealt: nat)
    requires dealt <= |all|
  {
    && Agrees(r, owned) && (forall x :: x in home ==> InPlace(r, owned, x))
    && (forall k {:trigger all[k]} :: 0 <= k < dealt ==> InPlace(r, owned, all[k]))
  }

  // The i-th group's orphans are those from offs[i] up to offs[i + 1].
  ghost predicate Slots(gids: seq<nat>, offs: seq<nat>, all: seq<nat>, r: Shards) {
    && |offs| == |gids| + 1 && offs[0] == 0 && offs[|gids|] == |all|
    && (forall i {:trigger SlotAt(gids, offs, all, r, i)} :: 0 <= i < |gids| ==> SlotAt(gids, offs, all, r, i))
  }

  ghost predicate SlotAt(gids: seq<nat>, offs: seq<nat>, all: seq<nat>, r: Shards, i: nat)
    requires i < |gids| && |offs| == |gids| + 1
  {
    Slot(gids[i], offs[i], offs[i + 1], all, r)
  }

  ghost predicate Slot(g: nat, lo: nat, hi: nat, all: seq<nat>, r: Shards) {
    lo <= hi <= |all| && forall k :: lo <= k < hi ==> all[k] < |r| && r[all[k]] == g
  }

  // Each group is short of exactly its slot.
  ghost predicate Short(gids: seq<nat>, targets: Targets, owned: Owned, offs: seq<nat>, i: nat)
    requires i < |gids| && |offs| == |gids| + 1
  {
    gids[i] in targets && targets[gids[i]] + offs[i] == |Of(owned, gids[i])| + offs[i + 1]
  }

  lemma TurnPlaces(r: Shards, home: set<nat>, all: seq<nat>, owned: Owned, g: nat, lo: nat, hi: nat)
    requires Slot(g, lo, hi, all, r) && Placed(r, home, all, owned, lo)
    ensures Placed(r, home, all, owned[g := Of(owned, g) + all[lo..hi]], hi)
  {
    var take := all[lo..hi];
    var owned' := owned[g := Of(owned, g) + take];
    forall k | 0 <= k < |take| ensures take[k] < |r| && r[take[k]] == g {
      assert take[k] == all[lo + k];
    }
    MoreAgrees(r, owned, g, take);
    forall x | InPlace(r, owned, x) ensures InPlace(r, owned', x) {}
    forall k | 0 <= k < hi ensures InPlace(r, owned', all[k]) {
      if k >= lo {
        assert take[k - lo] == all[k];
      }
    }
  }

  lemma MoreAgrees(r: Shards, owned: Owned, g: nat, take: seq<nat>)
    requires Agrees(r, owned) && forall k :: 0 <= k < |take| ==> take[k] < |r| && r[take[k]] == g
    ensures Agrees(r, owned[g := Of(owned, g) + take])
  {
    var owned' := owned[g := Of(owned, g) + take];
    forall h: nat, x: nat {:trigger x in Of(owned', h)} | x in Of(owned', h) ensures x < |r| && r[x] == h {
      assert x in Of(owned, h) || (h == g && x in take);
    }
  }

  // Hand the orphans out, in order, to the groups still under target.  Each
  // slice orphans[..need] is in range.
  method HandOut(gids: seq<nat>, targets: Targets, owned0: Owned, all: seq<nat>,
                 ghost r: Shards, ghost home: set<nat>, ghost offs: seq<nat>)
    returns (owned: Owned)
    requires NoRepeats(gids) && Slots(gids, offs, all, r)
    requires forall i {:trigger Short(gids, targets, owned0, offs, i)} ::
               0 <= i < |gids| ==> Short(gids, targets, owned0, offs, i)
    requires Placed(r, home, all, owned0, 0)
    ensures Placed(r, home, all, owned, |all|)
  {
    var orphans := all;
    owned := owned0;
    for i := 0 to |gids|
      invariant offs[i] <= |all| && orphans == all[offs[i]..] && Placed(r, home, all, owned, offs[i])
      invariant forall j :: i <= j < |gids| ==> Of(owned, gids[j]) == Of(owned0, gids[j])
    {
      var g := gids[i];
      assert SlotAt(gids, offs, all, r, i) && Short(gids, targets, owned0, offs, i);
      var need := targets[g] - |Of(owned, g)|;
      if need <= 0 {
        continue;
      }
      var take := orphans[..need];
      assert take == all[offs[i]..offs[i + 1]];
      TurnPlaces(r, home, all, owned, g, offs[i], offs[i + 1]);
      owned := owned[g := Of(owned, g) + take];
      orphans := orphans[need..];
    }
  }

  /******* The rule gives such slots *******/

  // r is what keeping and dealing give.
  ghost predicate Rule(s: Shards, targets: Targets, deal: seq<nat>, r: Shards) {
    && |r| == |s| && |Orphans(s, targets, |s|)| == |deal|
    && forall x: nat {:trigger r[x]} :: x < |s| ==>
         if Kept(s, targets, x) then r[x] == s[x]
         else |Orphans(s, targets, x)| < |deal| && r[x] == deal[|Orphans(s, targets, x)|]
  }

  lemma AssignIsRule(s: Shards, gids: seq<nat>, targets: Targets)
    requires Fits(s, gids, targets)
    ensures Rule(s, targets, Deal(s, targets, gids), Assign(s, gids, targets))
  {
    OrphansMatchNeeds(s, gids, targets);
    forall x: nat | x < |s| && !Kept(s, targets, x)
      ensures |Orphans(s, targets, x)| < |Deal(s, targets, gids)|
      ensures Assign(s, gids, targets)[x] == Deal(s, targets, gids)[|Orphans(s, targets, x)|]
    {
      DealtAt(s, gids, targets, x);
    }
  }

  // The k-th orphan goes where the deal's k-th entry says.
  lemma OrphanGoes(s: Shards, targets: Targets, deal: seq<nat>, r: Shards, k: nat)
    requires Rule(s, targets, deal, r) && k < |deal|
    ensures var x := Orphans(s, targets, |s|)[k]; x < |r| && r[x] == deal[k]
  {
    var all := Orphans(s, targets, |s|);
    OrphansAre(s, targets, |s|);
    var x := all[k];
    assert x in all;
    OrphansGrow(s, targets, x, |s|);
    assert all[|Orphans(s, targets, x)|] == x;
    var g := r[x];
  }

  lemma {:induction false} DealPrefix(s: Shards, targets: Targets, gids: seq<nat>, i: nat)
    requires i <= |gids| && forall g :: g in gids ==> g in targets
    ensures Deal(s, targets, gids[..i]) <= Deal(s, targets, gids)
    decreases |gids|
  {
    if i == |gids| {
      assert gids[..i] == gids;
    } else {
      DealPrefix(s, targets, gids[..|gids| - 1], i);
      assert gids[..|gids| - 1][..i] == gids[..i];
    }
  }

  // Where the i-th group's turn falls in the deal.
  lemma Turn(s: Shards, targets: Targets, gids: seq<nat>, i: nat)
    requires i < |gids| && forall g :: g in gids ==> g in targets
    ensures
      var d, lo, hi := Deal(s, targets, gids), |Deal(s, targets, gids[..i])|, |Deal(s, targets, gids[..i + 1])|;
      hi == lo + Need(s, targets, gids[i]) <= |d| && forall k :: lo <= k < hi ==> d[k] == gids[i]
  {
    assert gids[..i + 1][..i] == gids[..i];
    DealPrefix(s, targets, gids, i + 1);
    var need := Need(s, targets, gids[i]);
    var mine := Repeat(gids[i], need);
    RepeatCount(gids[i], need, 0);
    var d, before, upto := Deal(s, targets, gids), Deal(s, targets, gids[..i]), Deal(s, targets, gids[..i + 1]);
    assert upto == before + mine;
    forall k | |before| <= k < |upto| ensures d[k] == gids[i] {
      assert d[k] == upto[k];
      assert mine[k - |before|] in mine;
    }
  }

  function Offsets(s: Shards, targets: Targets, gids: seq<nat>): seq<nat>
    requires forall g :: g in gids ==> g in targets
  {
    seq(|gids| + 1, i requires 0 <= i <= |gids| => |Deal(s, targets, gids[..i])|)
  }

  lemma OneSlot(s: Shards, gids: seq<nat>, targets: Targets, r: Shards, i: nat)
    requires (forall g :: g in gids ==> g in targets) && Rule(s, targets, Deal(s, targets, gids), r) && i < |gids|
    ensures
      var offs := Offsets(s, targets, gids);
      && offs[i + 1] == offs[i] + Need(s, targets, gids[i])
      && SlotAt(gids, offs, Orphans(s, targets, |s|), r, i)
  {
    Turn(s, targets, gids, i);
    var lo, hi := |Deal(s, targets, gids[..i])|, |Deal(s, targets, gids[..i + 1])|;
    var all := Orphans(s, targets, |s|);
    forall k | lo <= k < hi ensures all[k] < |r| && r[all[k]] == gids[i] {
      OrphanGoes(s, targets, Deal(s, targets, gids), r, k);
    }
  }

  lemma OffsetEnds(s: Shards, gids: seq<nat>, targets: Targets)
    requires forall g :: g in gids ==> g in targets
    ensures
      var offs := Offsets(s, targets, gids);
      offs[0] == 0 && offs[|gids|] == |Deal(s, targets, gids)|
  {
    assert gids[..0] == [] && gids[..|gids|] == gids;
  }

  lemma RuleSlots(s: Shards, gids: seq<nat>, targets: Targets, r: Shards)
    requires (forall g :: g in gids ==> g in targets) && Rule(s, targets, Deal(s, targets, gids), r)
    ensures Slots(gids, Offsets(s, targets, gids), Orphans(s, targets, |s|), r)
  {
    var offs, all := Offsets(s, targets, gids), Orphans(s, targets, |s|);
    OffsetEnds(s, gids, targets);
    forall i {:trigger SlotAt(gids, offs, all, r, i)} | 0 <= i < |gids| ensures SlotAt(gids, offs, all, r, i) {
      OneSlot(s, gids, targets, r, i);
    }
  }

  lemma TrimmedOf(s: Shards, gids: seq<nat>, targets: Targets, owned: Owned, g: nat)
    requires Lists(gids, targets) && TrimmedUpto(s, gids, targets, owned, |gids|)
    ensures Of(owned, g) == if g in targets then Staying(s, targets, g) else []
  {
    if g in targets {
      var j :| 0 <= j < |gids| && gids[j] == g;
    }
  }

  function Home(s: Shards, targets: Targets): set<nat> {
    set x: nat | x < |s| && Kept(s, targets, x)
  }

  lemma TrimmedIsPlaced(s: Shards, gids: seq<nat>, targets: Targets, deal: seq<nat>, r: Shards, owned: Owned)
    requires Rule(s, targets, deal, r) && Lists(gids, targets) && TrimmedUpto(s, gids, targets, owned, |gids|)
    ensures Placed(r, Home(s, targets), Orphans(s, targets, |s|), owned, 0)
  {
    assert Agrees(r, owned) by {
      forall g: nat, x: nat {:trigger x in Of(owned, g)} | x in Of(owned, g) ensures x < |r| && r[x] == g {
        TrimmedOf(s, gids, targets, owned, g);
        StayingAre(s, targets, g);
      }
    }
    forall x | x in Home(s, targets) ensures InPlace(r, owned, x) {
      TrimmedOf(s, gids, targets, owned, s[x]);
      StayingAre(s, targets, s[x]);
    }
  }

  // Whatever order the groups come in, each write puts a shard where it belongs.
  method Fill(n: nat, ghost r: Shards, owned: Owned) returns (result: Shards)
    requires n == |r| && Agrees(r, owned)
    ensures |result| == n
    ensures forall g: nat, x: nat :: x in Of(owned, g) ==> result[x] == r[x]
  {
    result := seq(n, _ => 0);
    var todo := owned.Keys;
    while todo != {}
      invariant todo <= owned.Keys && |result| == n
      invariant forall g: nat, x: nat :: g !in todo && x in Of(owned, g) ==> result[x] == r[x]
      decreases |todo|
    {
      var g :| g in todo;
      result := FillGroup(r, owned, g, result);
      todo := todo - {g};
    }
  }

  method FillGroup(ghost r: Shards, owned: Owned, g: nat, result0: Shards) returns (result: Shards)
    requires g in owned && Agrees(r, owned) && |result0| == |r|
    ensures |result| == |r|
    ensures forall x: nat :: x < |r| ==> result[x] == if x in owned[g] then r[x] else result0[x]
  {
    result := result0;
    var mine := owned[g];
    assert forall k :: 0 <= k < |mine| ==> mine[k] in Of(owned, g);
    for k := 0 to |mine|
      invariant |result| == |r|
      invariant forall x: nat :: x < |r| ==> result[x] == if x in mine[..k] then r[x] else result0[x]
    {
      assert mine[..k + 1] == mine[..k] + [mine[k]];
      result := result[mine[k] := g];
    }
    assert mine[..|mine|] == mine;
  }

  // What rebalancing s over the live groups gives: all zero without any; else the
  // balanced targets, lowest shards staying, orphans dealt in ascending order.
  ghost predicate IsRebalance(s: Shards, live: set<nat>, r: Shards) {
    && |r| == |s|
    && if live == {} then forall i :: 0 <= i < |s| ==> r[i] == 0
       else Fits(s, Ascending(live), Balance(|s|, Ascending(live)))
            && r == Assign(s, Ascending(live), Balance(|s|, Ascending(live)))
  }

  // So every shard is with a live group, and the group with the i-th lowest id
  // has its share: the floor, and one more for the first of them.
  method RebalanceShards(s: Shards, live: set<nat>) returns (result: Shards)
    ensures IsRebalance(s, live, result)
    ensures live != {} ==> forall i :: 0 <= i < |s| ==> result[i] in live
    ensures forall i :: 0 <= i < |live| ==> Count(result, Ascending(live)[i]) == Share(|s|, |live|, i)
  {
    var gids := Ascending(live);
    if |gids| == 0 {
      return seq(|s|, _ => 0);
    }
    result := Rearrange(s, live, gids);
    AssignHitsTargets(s, gids, Balance(|s|, gids));
    BalanceFits(s, gids);
  }

  lemma SortedOrphans(s: Shards, gids: seq<nat>, targets: Targets, orphans: seq<nat>)
    requires Lists(gids, targets) && OrphansUpto(s, targets, gids, orphans)
    ensures Ascending(set x | x in orphans) == Orphans(s, targets, |s|)
  {
    var sorted := Ascending(set x | x in orphans);
    OrphansAre(s, targets, |s|);
    forall x: nat ensures x in sorted <==> x in Orphans(s, targets, |s|) {
      assert x in sorted <==> x in orphans;
    }
    SameIncreasing(sorted, Orphans(s, targets, |s|));
  }

  // Once every orphan is dealt, every shard is with its group.
  lemma AllPlaced(s: Shards, targets: Targets, r: Shards, owned: Owned, x: nat)
    requires |r| == |s| && x < |s|
    requires Placed(r, Home(s, targets), Orphans(s, targets, |s|), owned, |Orphans(s, targets, |s|)|)
    ensures x in Of(owned, r[x])
  {
    assert InPlace(r, owned, x) by {
      if Kept(s, targets, x) {
        assert x in Home(s, targets);
      } else {
        OrphansGrow(s, targets, x, |s|);
        assert Orphans(s, targets, |s|)[|Orphans(s, targets, x)|] == x;
      }
    }
  }

  method Rearrange(s: Shards, live: set<nat>, gids: seq<nat>) returns (result: Shards)
    requires gids == Ascending(live) && gids != []
    ensures Fits(s, gids, Balance(|s|, gids)) && result == Assign(s, gids, Balance(|s|, gids))
  {
    var targets := TargetLoop(|s|, gids);
    BalanceFits(s, gids);
    assert targets.Keys == live;
    var owned, orphans := Collect(s, live);
    assert s[..|s|] == s;
    owned, orphans := Trim(s, gids, targets, owned, orphans);
    SortedOrphans(s, gids, targets, orphans);
    orphans := Ascending(set x | x in orphans);
    ghost var r := Assign(s, gids, targets);
    AssignIsRule(s, gids, targets);
    result := Settle(s, gids, targets, r, owned, orphans);
  }

  method Settle(s: Shards, gids: seq<nat>, targets: Targets, ghost r: Shards, owned0: Owned, orphans: seq<nat>)
    returns (result: Shards)
    requires Lists(gids, targets) && Rule(s, targets, Deal(s, targets, gids), r)
    requires TrimmedUpto(s, gids, targets, owned0, |gids|) && orphans == Orphans(s, targets, |s|)
    ensures result == r
  {
    TrimmedIsPlaced(s, gids, targets, Deal(s, targets, gids), r, owned0);
    RuleSlots(s, gids, targets, r);
    ghost var offs := Offsets(s, targets, gids);
    forall i {:trigger Short(gids, targets, owned0, offs, i)} | 0 <= i < |gids|
      ensures Short(gids, targets, owned0, offs, i)
    {
      OneSlot(s, gids, targets, r, i);
      TrimmedOf(s, gids, targets, owned0, gids[i]);
    }
    var owned := HandOut(gids, targets, owned0, orphans, r, Home(s, targets), offs);
    result := Fill(|s|, r, owned);
    forall x: nat | x < |s| ensures result[x] == r[x] {
      AllPlaced(s, targets, r, owned, x);
    }
  }
}
