// Versioned ring configurations: who owns each shard of a ring.
module RingConfig {
  import opened HashRing
  import Rebalance

  datatype Config = Config(num: nat, ring: Ring, owners: map<int, nat>, groups: map<nat, seq<string>>)

  const Zero := Config(0, [], map[], map[])

  // Every shard of a valid ring has an owner, no one else has, and every owner is
  // a known group.
  ghost predicate WellFormed(c: Config) {
    && Valid(c.ring)
    && (forall i :: 0 <= i < |c.ring| ==> c.ring[i].shard in c.owners)
    && (forall s :: s in c.owners ==> Position(c.ring, s) < |c.ring| && c.owners[s] in c.groups)
  }

  // What Validate accepts: owners must also have an address.
  ghost predicate Routable(c: Config) {
    && Valid(c.ring) && |c.owners| == |c.ring|
    && forall i :: 0 <= i < |c.ring| ==>
         && c.ring[i].shard in c.owners && c.owners[c.ring[i].shard] in c.groups
         && c.groups[c.owners[c.ring[i].shard]] != []
  }

  function Addresses(c: Config, gid: nat): seq<string> {
    if gid in c.groups then c.groups[gid] else []
  }

  method Validate(c: Config) returns (ok: bool)
    ensures ok <==> Routable(c)
  {
    ok := HashRing.Validate(c.ring);
    if !ok || |c.owners| != |c.ring| {
      return false;
    }
    for i := 0 to |c.ring|
      invariant forall j :: 0 <= j < i ==>
                  c.ring[j].shard in c.owners && Addresses(c, c.owners[c.ring[j].shard]) != []
    {
      var s := c.ring[i].shard;
      if s !in c.owners || Addresses(c, c.owners[s]) == [] {
        return false;
      }
    }
  }

  function ShardSet(ring: Ring): set<int> {
    set i | 0 <= i < |ring| :: ring[i].shard
  }

  lemma {:induction false} ShardCount(ring: Ring)
    requires DistinctShards(ring)
    ensures |ShardSet(ring)| == |ring|
  {
    if ring != [] {
      var n := |ring| - 1;
      ShardCount(ring[..n]);
      assert ShardSet(ring) == ShardSet(ring[..n]) + {ring[n].shard};
      assert ring[n].shard !in ShardSet(ring[..n]) by {
        forall i | 0 <= i < n ensures ring[..n][i].shard != ring[n].shard {}
      }
    }
  }

  // A well-formed configuration routes exactly when every owner has an address.
  lemma RoutableIff(c: Config)
    requires WellFormed(c)
    ensures Routable(c) <==> forall s :: s in c.owners ==> c.groups[c.owners[s]] != []
  {
    ShardCount(c.ring);
    OwnersAreShards(c);
    if Routable(c) {
      forall s | s in c.owners ensures c.groups[c.owners[s]] != [] {
        assert c.ring[Position(c.ring, s)].shard == s;
      }
    }
  }

  lemma RoutableIsWellFormed(c: Config)
    requires Routable(c)
    ensures WellFormed(c)
  {
    ShardCount(c.ring);
    assert ShardSet(c.ring) <= c.owners.Keys;
    SubsetOfSameSize(ShardSet(c.ring), c.owners.Keys);
    forall s | s in c.owners ensures Position(c.ring, s) < |c.ring| && c.owners[s] in c.groups {
      assert s in ShardSet(c.ring);
    }
  }

  lemma SubsetOfSameSize(a: set<int>, b: set<int>)
    requires a <= b && |a| == |b|
    ensures a == b
  {
    assert |b - a| == |b| - |a|;
  }

  // The group that serves a point.
  function GroupOf(c: Config, p: Point): nat
    requires c.ring != [] && c.ring[Serving(c.ring, p)].shard in c.owners
  {
    c.owners[c.ring[Serving(c.ring, p)].shard]
  }

  /******* Operations *******/

  method DealOwners(ring: Ring, groups: map<nat, seq<string>>, gids: seq<nat>) returns (owners: map<int, nat>)
    requires gids != [] && forall g :: g in gids ==> g in groups
    ensures owners.Keys == ShardSet(ring) && forall s :: s in owners ==> owners[s] in groups
    ensures DistinctShards(ring) ==> forall i :: 0 <= i < |ring| ==> owners[ring[i].shard] == gids[i % |gids|]
  {
    owners := map[];
    for i := 0 to |ring|
      invariant owners.Keys == ShardSet(ring[..i]) && forall s :: s in owners ==> owners[s] in groups
      invariant DistinctShards(ring) ==>
                  forall j :: 0 <= j < i ==> ring[j].shard in owners && owners[ring[j].shard] == gids[j % |gids|]
    {
      assert gids[i % |gids|] in gids;
      assert ShardSet(ring[..i + 1]) == ShardSet(ring[..i]) + {ring[i].shard};
      owners := owners[ring[i].shard := gids[i % |gids|]];
    }
    assert ring[..|ring|] == ring;
  }

  lemma DealtRoutes(c: Config)
    requires Valid(c.ring) && c.owners.Keys == ShardSet(c.ring)
    requires forall s :: s in c.owners ==> c.owners[s] in c.groups && c.groups[c.owners[s]] != []
    ensures Routable(c)
  {
    ShardCount(c.ring);
    assert |c.owners| == |c.owners.Keys|;
    forall i | 0 <= i < |c.ring| ensures c.ring[i].shard in c.owners {
      assert c.ring[i].shard in ShardSet(c.ring);
    }
  }

  // Version 1: shards dealt round-robin to the groups in ascending order.
  method NewRingConfig(ring: Ring, groups: map<nat, seq<string>>) returns (r: Result<Config>)
    ensures r.Ok? ==>
              && Routable(r.value) && r.value.num == 1 && r.value.ring == ring && r.value.groups == groups
              && groups != map[]
              && forall i :: 0 <= i < |ring| ==>
                   r.value.owners[ring[i].shard] == Rebalance.Ascending(groups.Keys)[i % |groups.Keys|]
    ensures Valid(ring) && groups != map[] && (forall g :: g in groups ==> groups[g] != []) ==> r.Ok?
  {
    var gids := Rebalance.Ascending(groups.Keys);
    if |gids| == 0 {
      return Err;
    }
    var owners := DealOwners(ring, groups, gids);
    var c := Config(1, ring, owners, groups);
    var ok := Validate(c);
    if !ok {
      if Valid(ring) && forall g :: g in groups ==> groups[g] != [] {
        DealtRoutes(c);
      }
      return Err;
    }
    return Ok(c);
  }

  function SplitConfig(c: Config, shard: int, p: Point): Result<Config> {
    if shard !in c.owners then Err
    else
      match Split(c.ring, shard, p)
      case Err => Err
      case Ok((ring, id)) => Ok(Config(c.num + 1, ring, c.owners[id := c.owners[shard]], c.groups))
  }

  function MoveRingShard(c: Config, shard: int, gid: nat): Result<Config> {
    if shard !in c.owners || gid !in c.groups then Err
    else Ok(c.(num := c.num + 1, owners := c.owners[shard := gid]))
  }

  // Splitting keeps the configuration well formed and its groups.
  lemma SplitKeeps(c: Config, shard: int, p: Point)
    requires WellFormed(c) && SplitConfig(c, shard, p).Ok?
    ensures WellFormed(SplitConfig(c, shard, p).value)
    ensures SplitConfig(c, shard, p).value.groups == c.groups
  {
    var c', id := SplitConfig(c, shard, p).value, MaxShard(c.ring) + 1;
    SplitKeepsValid(c.ring, shard, p);
    OwnersAreShards(c);
    ShardSetInsert(c.ring, Entry(p, id), Below(c.ring, p));
    forall s | s in c'.owners ensures c'.owners[s] in c'.groups {}
    ShardsAreOwned(c');
  }

  lemma ShardsAreOwned(c: Config)
    requires Valid(c.ring) && ShardSet(c.ring) == c.owners.Keys
    requires forall s :: s in c.owners ==> c.owners[s] in c.groups
    ensures WellFormed(c)
  {
    forall i | 0 <= i < |c.ring| ensures c.ring[i].shard in c.owners {
      assert c.ring[i].shard in ShardSet(c.ring);
    }
    forall s | s in c.owners ensures Position(c.ring, s) < |c.ring| {
      assert s in ShardSet(c.ring);
    }
  }

  lemma OwnersAreShards(c: Config)
    requires WellFormed(c)
    ensures ShardSet(c.ring) == c.owners.Keys
  {
    forall s | s in c.owners ensures s in ShardSet(c.ring) {
      assert c.ring[Position(c.ring, s)].shard == s;
    }
  }

  lemma ShardSetInsert(ring: Ring, e: Entry, k: nat)
    requires k <= |ring|
    ensures ShardSet(ring[..k] + [e] + ring[k..]) == ShardSet(ring) + {e.shard}
  {
    var r := ring[..k] + [e] + ring[k..];
    assert r[k] == e;
    forall s | s in ShardSet(ring) ensures s in ShardSet(r) {
      var i :| 0 <= i < |ring| && ring[i].shard == s;
      assert r[if i < k then i else i + 1] == ring[i];
    }
    forall s | s in ShardSet(r) ensures s in ShardSet(ring) + {e.shard} {
      var i :| 0 <= i < |r| && r[i].shard == s;
      assert r[i] == if i < k then ring[i] else if i == k then e else ring[i - 1];
    }
  }

  // A split is accepted exactly at a point the shard serves and no range starts at.
  lemma SplitAcceptedIff(c: Config, shard: int, p: Point)
    requires WellFormed(c)
    ensures SplitConfig(c, shard, p).Ok? <==>
              c.ring[Serving(c.ring, p)].shard == shard && forall i :: 0 <= i < |c.ring| ==> c.ring[i].start != p
  {
    SplittableIff(c.ring, shard, p);
    OwnersAreShards(c);
    assert c.ring[Serving(c.ring, p)].shard in ShardSet(c.ring);
  }

  // A move is accepted exactly for a shard of the ring and a known group.
  lemma MoveAcceptedIff(c: Config, shard: int, gid: nat)
    requires WellFormed(c)
    ensures MoveRingShard(c, shard, gid).Ok? <==>
              (exists i :: 0 <= i < |c.ring| && c.ring[i].shard == shard) && gid in c.groups
  {
    OwnersAreShards(c);
  }

  // A split changes no point's group.
  lemma SplitMovesNoData(c: Config, shard: int, p: Point, q: Point)
    requires WellFormed(c) && SplitConfig(c, shard, p).Ok?
    ensures
      var c' := SplitConfig(c, shard, p).value;
      c'.ring != [] && c'.ring[Serving(c'.ring, q)].shard in c'.owners && GroupOf(c', q) == GroupOf(c, q)
  {
    SplitKeeps(c, shard, p);
    SplitKeepsValid(c.ring, shard, p);
    SplitMovesUpperHalf(c.ring, shard, p, q);
    if InRange(p, RangeEnd(c.ring, Position(c.ring, shard)), q) {
      UpperHalfWasShards(c.ring, shard, p, q);
    }
  }

  // A move changes the group of exactly the moved shard's points.
  lemma MoveChangesOneShard(c: Config, shard: int, gid: nat, q: Point)
    requires WellFormed(c) && MoveRingShard(c, shard, gid).Ok?
    ensures WellFormed(MoveRingShard(c, shard, gid).value)
    ensures
      var c' := MoveRingShard(c, shard, gid).value;
      GroupOf(c', q) == if Owns(c.ring, Position(c.ring, shard), q) then gid else GroupOf(c, q)
  {
    var i := Position(c.ring, shard);
    ServingIsOnlyOwner(c.ring, q, i);
    var j := Serving(c.ring, q);
    assert i != j ==> c.ring[i].shard != c.ring[j].shard;
  }

  // A move is accepted onto any known group, with or without addresses; the
  // result routes exactly when that group has one.
  lemma MoveRoutesIff(c: Config, shard: int, gid: nat)
    requires Routable(c) && MoveRingShard(c, shard, gid).Ok?
    ensures Routable(MoveRingShard(c, shard, gid).value) <==> c.groups[gid] != []
  {
    var c' := MoveRingShard(c, shard, gid).value;
    RoutableIsWellFormed(c);
    RoutableIff(c);
    assert WellFormed(c');
    RoutableIff(c');
    assert c'.owners[shard] == gid;
  }

  lemma UnroutableMove()
    ensures
      var c := Config(1, [Entry(0, 1)], map[1 := 1], map[1 := ["a"], 2 := []]);
      Routable(c) && MoveRingShard(c, 1, 2).Ok? && !Routable(MoveRingShard(c, 1, 2).value)
  {
    var c := Config(1, [Entry(0, 1)], map[1 := 1], map[1 := ["a"], 2 := []]);
    assert c.owners.Keys == {1};
    MoveRoutesIff(c, 1, 2);
  }
}
