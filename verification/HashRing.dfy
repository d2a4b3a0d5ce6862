// A hash ring over 2^32 points: lookup by binary search, and splitting one range.
module HashRing {

  const Top: nat := 0x1_0000_0000

  type Point = n: nat | n < Top

  datatype Entry = Entry(start: Point, shard: int)

  type Ring = seq<Entry>

  datatype Result<+T> = Ok(value: T) | Err

  /******* Ranges *******/

  function RangeEnd(ring: Ring, i: nat): Point
    requires i < |ring|
  {
    ring[(i + 1) % |ring|].start
  }

  lemma RangeEndIs(ring: Ring, i: nat)
    requires i < |ring|
    ensures RangeEnd(ring, i) == if i + 1 < |ring| then ring[i + 1].start else ring[0].start
  {
    if i + 1 < |ring| {
      assert (i + 1) % |ring| == i + 1;
    } else {
      assert (i + 1) % |ring| == 0;
    }
  }

  // [start, end), wrapping past the top when end is not above start.
  predicate InRange(start: Point, end: Point, p: Point) {
    if start < end then start <= p < end else start <= p || p < end
  }

  predicate Owns(ring: Ring, i: nat, p: Point)
    requires i < |ring|
  {
    InRange(ring[i].start, RangeEnd(ring, i), p)
  }

  ghost predicate Sorted(ring: Ring) {
    forall i, j :: 0 <= i < j < |ring| ==> ring[i].start < ring[j].start
  }

  ghost predicate DistinctShards(ring: Ring) {
    forall i, j :: 0 <= i < j < |ring| ==> ring[i].shard != ring[j].shard
  }

  ghost predicate Valid(ring: Ring) {
    ring != [] && Sorted(ring) && DistinctShards(ring)
  }

  /******* Lookup *******/

  // How many entries start at or before p.
  function Below(ring: Ring, p: Point): (k: nat)
    ensures k <= |ring|
  {
    if ring == [] then 0
    else if ring[|ring| - 1].start <= p then |ring|
    else Below(ring[..|ring| - 1], p)
  }

  lemma {:induction false} BelowIs(ring: Ring, p: Point)
    requires Sorted(ring)
    ensures forall i :: 0 <= i < |ring| ==> (ring[i].start <= p <==> i < Below(ring, p))
  {
    if ring != [] && ring[|ring| - 1].start > p {
      BelowIs(ring[..|ring| - 1], p);
    }
  }

  // The index of the entry that serves p: the last one at or before it, or, before
  // the first, the one that wraps.
  function Serving(ring: Ring, p: Point): (i: nat)
    requires ring != []
    ensures i < |ring|
  {
    if Below(ring, p) == 0 then |ring| - 1 else Below(ring, p) - 1
  }

  // Every point lies in exactly one range, and Serving is that range.
  lemma ServingIsOnlyOwner(ring: Ring, p: Point, i: nat)
    requires Valid(ring) && i < |ring|
    ensures Owns(ring, i, p) <==> i == Serving(ring, p)
  {
    BelowIs(ring, p);
    RangeEndIs(ring, i);
    OwnerIsBelow(ring, p, i, Below(ring, p));
  }

  lemma OwnerIsBelow(ring: Ring, p: Point, i: nat, k: nat)
    requires ring != [] && Sorted(ring) && i < |ring| && IsBelow(ring, p, k)
    ensures InRange(ring[i].start, if i + 1 < |ring| then ring[i + 1].start else ring[0].start, p) <==>
              i == if k == 0 then |ring| - 1 else k - 1
  {
    if i + 1 < |ring| {
      assert ring[i].start < ring[i + 1].start;
    } else {
      assert i > 0 ==> ring[0].start < ring[i].start;
    }
  }

  // The entry with the greatest start at or before p, or, if every start is after
  // it, the one with the greatest start of all.
  ghost predicate IsLastBefore(ring: Ring, i: nat, p: Point)
    requires i < |ring|
  {
    var none := forall j :: 0 <= j < |ring| ==> ring[j].start > p;
    && (none || ring[i].start <= p)
    && forall j :: 0 <= j < |ring| && (none || ring[j].start <= p) ==> ring[j].start <= ring[i].start
  }

  lemma ServingIsLastBefore(ring: Ring, p: Point)
    requires Valid(ring)
    ensures IsLastBefore(ring, Serving(ring, p), p)
  {
    BelowIs(ring, p);
  }

  // In particular an entry's own start is the entry's.
  lemma StartIsOwned(ring: Ring, i: nat)
    requires Valid(ring) && i < |ring|
    ensures Serving(ring, ring[i].start) == i
  {
    BelowUnique(ring, ring[i].start, i + 1);
  }

  method AssignPoint(ring: Ring, p: Point) returns (shard: int)
    requires Valid(ring)
    ensures exists i :: 0 <= i < |ring| && IsLastBefore(ring, i, p) && ring[i].shard == shard
    ensures shard == ring[Serving(ring, p)].shard
    ensures exists i :: 0 <= i < |ring| && Owns(ring, i, p) && ring[i].shard == shard
  {
    BelowIs(ring, p);
    ServingIsOnlyOwner(ring, p, Serving(ring, p));
    ServingIsLastBefore(ring, p);
    var lo, hi := 0, |ring|;
    while lo < hi
      invariant 0 <= lo <= Below(ring, p) <= hi <= |ring|
    {
      var mid := (lo + hi) / 2;
      if ring[mid].start > p {
        hi := mid;
      } else {
        lo := mid + 1;
      }
    }
    if lo == 0 {
      return ring[|ring| - 1].shard;
    }
    return ring[lo - 1].shard;
  }

  /******* Building *******/

  // Evenly spaced starts, truncated to 32 bits; a partition exactly up to 2^32
  // shards.
  method NewRing(n: nat) returns (ring: Ring)
    requires n >= 1
    ensures |ring| == n
    ensures forall i :: 0 <= i < n ==> ring[i] == Entry((i * (Top / n)) % Top, i + 1)
    ensures Valid(ring) <==> n <= Top
  {
    var width := Top / n;
    ring := [];
    for i := 0 to n
      invariant |ring| == i
      invariant forall j :: 0 <= j < i ==> ring[j] == Entry((j * width) % Top, j + 1)
    {
      ring := ring + [Entry((i * width) % Top, i + 1)];
    }
    EvenRing(n, ring);
  }

  lemma Monotone(a: nat, b: nat, w: nat)
    requires a <= b
    ensures a * w <= b * w
  {
    assert b * w == a * w + (b - a) * w;
  }

  lemma Spaced(i: nat, j: nat, w: nat)
    requires i < j && w >= 1
    ensures i * w < j * w
  {
    Monotone(i + 1, j, w);
    assert (i + 1) * w == i * w + w;
  }

  lemma EvenStarts(n: nat, i: nat)
    requires 1 <= n <= Top && i < n
    ensures (i * (Top / n)) % Top == i * (Top / n) && Top / n >= 1
  {
    var width := Top / n;
    Monotone(i + 1, n, width);
    assert i * width + width == (i + 1) * width;
    assert n * width <= Top;
  }

  lemma EvenRing(n: nat, ring: Ring)
    requires n >= 1 && |ring| == n
    requires forall i :: 0 <= i < n ==> ring[i] == Entry((i * (Top / n)) % Top, i + 1)
    ensures Valid(ring) <==> n <= Top
  {
    if n <= Top {
      forall i, j | 0 <= i < j < n ensures ring[i].start < ring[j].start {
        EvenStarts(n, i);
        EvenStarts(n, j);
        Spaced(i, j, Top / n);
      }
    } else {
      assert Top / n == 0;
      assert ring[0].start == 0 && ring[1].start == 0;
    }
  }

  /******* Splitting *******/

  function MaxShard(ring: Ring): int {
    if ring == [] then 0
    else
      var m := MaxShard(ring[..|ring| - 1]);
      if ring[|ring| - 1].shard > m then ring[|ring| - 1].shard else m
  }

  method NextShardID(ring: Ring) returns (id: int)
    ensures id == MaxShard(ring) + 1
    ensures forall i :: 0 <= i < |ring| ==> ring[i].shard < id
  {
    var max := 0;
    for i := 0 to |ring|
      invariant max == MaxShard(ring[..i]) && forall j :: 0 <= j < i ==> ring[j].shard <= max
    {
      assert ring[..i + 1][..i] == ring[..i];
      if ring[i].shard > max {
        max := ring[i].shard;
      }
    }
    assert ring[..|ring|] == ring;
    return max + 1;
  }

  lemma {:induction false} MaxShardIs(ring: Ring)
    ensures forall i :: 0 <= i < |ring| ==> ring[i].shard <= MaxShard(ring)
  {
    if ring != [] {
      MaxShardIs(ring[..|ring| - 1]);
      assert forall i :: 0 <= i < |ring| - 1 ==> ring[..|ring| - 1][i] == ring[i];
    }
  }

  // The position of a shard's (first) entry, or the length if it has none.
  function Position(ring: Ring, shard: int): (i: nat)
    ensures i <= |ring|
    ensures i < |ring| ==> ring[i].shard == shard
    ensures i == |ring| ==> forall j :: 0 <= j < |ring| ==> ring[j].shard != shard
  {
    if ring == [] then 0
    else if ring[0].shard == shard then 0
    else
      var i := Position(ring[1..], shard);
      assert i == |ring| - 1 ==> forall j :: 0 < j < |ring| ==> ring[1..][j - 1] == ring[j];
      i + 1
  }

  // Appending e and sorting by start puts it here.
  function Inserted(ring: Ring, e: Entry): Ring {
    ring[..Below(ring, e.start)] + [e] + ring[Below(ring, e.start)..]
  }

  // That is the one sorted arrangement of the old entries and the new one.
  lemma InsertedIsSort(ring: Ring, e: Entry)
    requires Sorted(ring) && forall i :: 0 <= i < |ring| ==> ring[i].start != e.start
    ensures Sorted(Inserted(ring, e)) && multiset(Inserted(ring, e)) == multiset(ring + [e])
  {
    BelowIs(ring, e.start);
    var k := Below(ring, e.start);
    assert ring == ring[..k] + ring[k..];
  }

  predicate Splittable(ring: Ring, shard: int, p: Point) {
    var i := Position(ring, shard);
    i < |ring| && p != ring[i].start && Owns(ring, i, p)
  }

  // A point splits a shard exactly if the shard serves it and it starts no range.
  lemma SplittableIff(ring: Ring, shard: int, p: Point)
    requires Valid(ring)
    ensures Splittable(ring, shard, p) <==>
              ring[Serving(ring, p)].shard == shard && forall i :: 0 <= i < |ring| ==> ring[i].start != p
  {
    var i, k := Position(ring, shard), Serving(ring, p);
    if i < |ring| {
      ServingIsOnlyOwner(ring, p, i);
      assert i != k ==> ring[i].shard != ring[k].shard;
    }
    if Splittable(ring, shard, p) {
      SplitPlace(ring, shard, p);
    }
  }

  function Split(ring: Ring, shard: int, p: Point): Result<(Ring, int)> {
    if Splittable(ring, shard, p) then Ok((Inserted(ring, Entry(p, MaxShard(ring) + 1)), MaxShard(ring) + 1))
    else Err
  }

  method FindShard(ring: Ring, shard: int) returns (i: nat)
    ensures i == Position(ring, shard)
  {
    i := 0;
    while i < |ring|
      invariant i <= |ring| && Position(ring, shard) == i + Position(ring[i..], shard)
    {
      if ring[i].shard == shard {
        return;
      }
      assert ring[i..][1..] == ring[i + 1..];
      i := i + 1;
    }
  }

  // Find the shard, check the point, append the new entry and sort.
  method SplitRing(ring: Ring, shard: int, p: Point) returns (r: Result<(Ring, int)>)
    requires Valid(ring)
    ensures r == Split(ring, shard, p)
    ensures r.Ok? ==> Valid(r.value.0)
  {
    var i := FindShard(ring, shard);
    if i == |ring| {
      return Err;
    }
    if p == ring[i].start || !Owns(ring, i, p) {
      return Err;
    }
    SplitKeepsValid(ring, shard, p);
    SplitPlace(ring, shard, p);
    var id := NextShardID(ring);
    var k := SortPosition(ring, p);
    return Ok((ring[..k] + [Entry(p, id)] + ring[k..], id));
  }

  // Where sorting leaves an appended entry that starts at p.
  method SortPosition(ring: Ring, p: Point) returns (k: nat)
    requires Sorted(ring) && forall i :: 0 <= i < |ring| ==> ring[i].start != p
    ensures k == Below(ring, p)
  {
    BelowIs(ring, p);
    k := 0;
    while k < |ring| && ring[k].start < p
      invariant k <= Below(ring, p)
    {
      k := k + 1;
    }
  }

  lemma SplitPlace(ring: Ring, shard: int, p: Point)
    requires Valid(ring) && Splittable(ring, shard, p)
    ensures Serving(ring, p) == Position(ring, shard)
    ensures forall i :: 0 <= i < |ring| ==> ring[i].start != p
  {
    ServingIsOnlyOwner(ring, p, Position(ring, shard));
    BelowIs(ring, p);
  }

  // A split ring is valid, with one fresh shard.
  lemma SplitKeepsValid(ring: Ring, shard: int, p: Point)
    requires Valid(ring) && Splittable(ring, shard, p)
    ensures Valid(Split(ring, shard, p).value.0)
    ensures forall i :: 0 <= i < |ring| ==> ring[i].shard != Split(ring, shard, p).value.1
  {
    var e := Entry(p, MaxShard(ring) + 1);
    SplitPlace(ring, shard, p);
    InsertedIsSort(ring, e);
    MaxShardIs(ring);
    InsertedDistinct(ring, e, Below(ring, p));
  }

  lemma InsertedDistinct(ring: Ring, e: Entry, k: nat)
    requires DistinctShards(ring) && k <= |ring| && forall i :: 0 <= i < |ring| ==> ring[i].shard != e.shard
    ensures DistinctShards(ring[..k] + [e] + ring[k..])
  {
    var r := ring[..k] + [e] + ring[k..];
    forall i, j | 0 <= i < j < |r| ensures r[i].shard != r[j].shard {
      assert r[i] == (if i < k then ring[i] else if i == k then e else ring[i - 1]);
      assert r[j] == (if j < k then ring[j] else if j == k then e else ring[j - 1]);
    }
  }

  ghost predicate IsBelow(ring: Ring, p: Point, k: nat) {
    k <= |ring| && forall i :: 0 <= i < |ring| ==> (ring[i].start <= p <==> i < k)
  }

  lemma BelowUnique(ring: Ring, q: Point, m: nat)
    requires Sorted(ring) && IsBelow(ring, q, m)
    ensures Below(ring, q) == m
  {
    BelowIs(ring, q);
    var b := Below(ring, q);
    assert b < |ring| ==> !(ring[b].start <= q);
    assert m < |ring| ==> !(ring[m].start <= q);
  }

  lemma InsertedIsBelow(ring: Ring, e: Entry, q: Point, k: nat, m: nat)
    requires IsBelow(ring, e.start, k) && IsBelow(ring, q, m)
    requires forall i :: 0 <= i < |ring| ==> ring[i].start != e.start
    ensures IsBelow(ring[..k] + [e] + ring[k..], q, m + if e.start <= q then 1 else 0)
  {
    var r := ring[..k] + [e] + ring[k..];
    assert k > 0 ==> ring[k - 1].start < e.start;
    assert k < |ring| ==> e.start < ring[k].start;
    forall i | 0 <= i < |r| ensures r[i].start <= q <==> i < m + if e.start <= q then 1 else 0 {
      if i < k {
        assert r[i] == ring[i];
      } else if i == k {
        assert r[i] == e;
      } else {
        assert r[i] == ring[i - 1];
      }
    }
  }

  lemma BelowInserted(ring: Ring, e: Entry, q: Point)
    requires Sorted(ring) && forall i :: 0 <= i < |ring| ==> ring[i].start != e.start
    ensures Below(Inserted(ring, e), q) == Below(ring, q) + if e.start <= q then 1 else 0
  {
    InsertedIsSort(ring, e);
    BelowIs(ring, q);
    BelowIs(ring, e.start);
    InsertedIsBelow(ring, e, q, Below(ring, e.start), Below(ring, q));
    BelowUnique(Inserted(ring, e), q, Below(ring, q) + if e.start <= q then 1 else 0);
  }

  // Where q falls relative to the split point tells which half it is in.
  lemma UpperHalf(ring: Ring, p: Point, q: Point, k: nat, m: nat)
    requires Sorted(ring) && ring != [] && IsBelow(ring, p, k) && IsBelow(ring, q, m)
    ensures (p <= q ==> k <= m) && (q < p ==> m <= k)
    ensures InRange(p, if k < |ring| then ring[k].start else ring[0].start, q) <==>
              (p <= q && m == k) || (q < p && m == 0 && k == |ring|)
  {
    assert k < |ring| ==> p < ring[k].start;
    assert m < |ring| ==> q < ring[m].start;
  }

  lemma SplitEnd(ring: Ring, shard: int, p: Point)
    requires Valid(ring) && Splittable(ring, shard, p)
    ensures RangeEnd(ring, Position(ring, shard))
         == if Below(ring, p) < |ring| then ring[Below(ring, p)].start else ring[0].start
  {
    SplitPlace(ring, shard, p);
    RangeEndIs(ring, Serving(ring, p));
  }

  // Which entry of r, the old ring with e at k, is at sv, where the lookup of q
  // ends when m old entries start at or before q.
  lemma Picked(ring: Ring, e: Entry, q: Point, r: Ring, k: nat, m: nat, sv: nat)
    requires ring != [] && k <= |ring| && m <= |ring| && r == ring[..k] + [e] + ring[k..]
    requires sv == if m == 0 && q < e.start then |ring| else if e.start <= q then m else m - 1
    ensures e.start <= q && k == m ==> r[sv] == e
    ensures e.start <= q && k < m ==> r[sv] == ring[m - 1]
    ensures q < e.start && 0 < m <= k ==> r[sv] == ring[m - 1]
    ensures q < e.start && m == 0 ==> r[sv] == if k == |ring| then e else ring[|ring| - 1]
  {}

  lemma ServingIndex(ring: Ring, e: Entry, q: Point)
    requires Sorted(ring) && forall i :: 0 <= i < |ring| ==> ring[i].start != e.start
    ensures
      var b := Below(ring, q) + if e.start <= q then 1 else 0;
      |Inserted(ring, e)| == |ring| + 1 && Serving(Inserted(ring, e), q) == if b == 0 then |ring| else b - 1
  {
    BelowInserted(ring, e, q);
  }

  // Only the points from the split point to the end of the old range change
  // shard, and they all go to the new one.
  lemma SplitMovesUpperHalf(ring: Ring, shard: int, p: Point, q: Point)
    requires Valid(ring) && Splittable(ring, shard, p)
    ensures
      var (r, id) := Split(ring, shard, p).value;
      r != [] &&
      r[Serving(r, q)].shard ==
        if InRange(p, RangeEnd(ring, Position(ring, shard)), q) then id else ring[Serving(ring, q)].shard
  {
    SplitPlace(ring, shard, p);
    SplitEnd(ring, shard, p);
    BelowIs(ring, p);
    BelowIs(ring, q);
    UpperHalf(ring, p, q, Below(ring, p), Below(ring, q));
    var e := Entry(p, MaxShard(ring) + 1);
    ServingIndex(ring, e, q);
    Picked(ring, e, q, Inserted(ring, e), Below(ring, p), Below(ring, q), Serving(Inserted(ring, e), q));
  }

  // The upper half lies within the range that was split.
  lemma UpperHalfWasShards(ring: Ring, shard: int, p: Point, q: Point)
    requires Valid(ring) && Splittable(ring, shard, p)
    requires InRange(p, RangeEnd(ring, Position(ring, shard)), q)
    ensures ring[Serving(ring, q)].shard == shard
  {
    var i := Position(ring, shard);
    ServingIsOnlyOwner(ring, p, i);
    ServingIsOnlyOwner(ring, q, i);
  }

  /******* The midpoint *******/

  function Width(ring: Ring, i: nat): nat
    requires i < |ring|
  {
    if RangeEnd(ring, i) <= ring[i].start then RangeEnd(ring, i) + Top - ring[i].start
    else RangeEnd(ring, i) - ring[i].start
  }

  function Midpoint(ring: Ring, shard: int): Result<Point> {
    var i := Position(ring, shard);
    if i == |ring| || Width(ring, i) < 2 then Err
    else Ok((ring[i].start + Width(ring, i) / 2) % Top)
  }

  // A midpoint is always an accepted split point, wrapping and one-shard rings
  // included, and there is none only if no point could split the shard.
  lemma MidpointSplits(ring: Ring, shard: int)
    requires Valid(ring)
    ensures Midpoint(ring, shard).Ok? ==> Splittable(ring, shard, Midpoint(ring, shard).value)
    ensures Midpoint(ring, shard).Err? ==> forall p :: !Splittable(ring, shard, p)
  {
    var i := Position(ring, shard);
    if i < |ring| {
      var start, end, width := ring[i].start, RangeEnd(ring, i), Width(ring, i);
      if width >= 2 {
        var mid := start + width / 2;
        assert mid % Top == if mid < Top then mid else mid - Top;
      }
    }
  }

  // How far it is clockwise from a to b, all the way round if they are one point.
  function Clockwise(a: Point, b: Point): nat {
    if a < b then b - a else b + Top - a
  }

  // How many points an entry's range has.
  function Points(ring: Ring, i: nat): nat
    requires i < |ring|
  {
    Clockwise(ring[i].start, RangeEnd(ring, i))
  }

  // Splitting at the midpoint halves a range: the old shard keeps half its points,
  // the new one gets the other half and, of an odd number, one more.
  lemma MidpointHalves(ring: Ring, shard: int)
    requires Valid(ring) && Midpoint(ring, shard).Ok?
    ensures
      var split := Split(ring, shard, Midpoint(ring, shard).value);
      && split.Ok?
      && var (r, id) := split.value;
         var lower, upper := Position(r, shard), Position(r, id);
         && lower < |r| && upper < |r|
         && Points(r, lower) + Points(r, upper) == Points(ring, Position(ring, shard))
         && Points(r, lower) <= Points(r, upper) <= Points(r, lower) + 1
  {
    var p := Midpoint(ring, shard).value;
    MidpointSplits(ring, shard);
    SplitKeepsValid(ring, shard, p);
    SplitRanges(ring, shard, p);
    MidpointIsHalfway(ring, shard);
  }

  lemma MidpointIsHalfway(ring: Ring, shard: int)
    requires Valid(ring) && Midpoint(ring, shard).Ok?
    ensures
      var i, p := Position(ring, shard), Midpoint(ring, shard).value;
      var below, above := Clockwise(ring[i].start, p), Clockwise(p, RangeEnd(ring, i));
      below + above == Points(ring, i) && below <= above <= below + 1
  {
    var i := Position(ring, shard);
    Halfway(ring[i].start, RangeEnd(ring, i), Width(ring, i));
  }

  lemma Halfway(start: Point, end: Point, width: nat)
    requires width >= 2 && width == Clockwise(start, end)
    ensures
      var p := (start + width / 2) % Top;
      Clockwise(start, p) == width / 2 && Clockwise(p, end) == width - width / 2
  {
    var mid := start + width / 2;
    if mid < Top {
      assert mid % Top == mid;
    } else {
      assert mid % Top == mid - Top;
    }
  }

  // A split leaves the old shard the range up to the point and the new one the
  // range from it to the old end.
  lemma SplitRanges(ring: Ring, shard: int, p: Point)
    requires Valid(ring) && Splittable(ring, shard, p)
    ensures
      var (r, id) := Split(ring, shard, p).value;
      var i, lower, upper := Position(ring, shard), Position(r, shard), Position(r, id);
      && lower < |r| && r[lower].start == ring[i].start && RangeEnd(r, lower) == p
      && upper < |r| && r[upper].start == p && RangeEnd(r, upper) == RangeEnd(ring, i)
  {
    var e := Entry(p, MaxShard(ring) + 1);
    var k, i, r := Below(ring, p), Position(ring, shard), Inserted(ring, e);
    SplitPlace(ring, shard, p);
    SplitKeepsValid(ring, shard, p);
    var at := if i < k then i else i + 1;
    assert r[k] == e && r[at] == ring[i];
    PositionIs(r, k);
    PositionIs(r, at);
    RangeEndIs(r, k);
    RangeEndIs(r, at);
    RangeEndIs(ring, i);
    InsertedStarts(ring, e, k);
  }

  lemma InsertedStarts(ring: Ring, e: Entry, k: nat)
    requires k <= |ring| && ring != []
    ensures
      var r := ring[..k] + [e] + ring[k..];
      && r[k] == e && (k > 0 ==> r[k - 1] == ring[k - 1] && r[0] == ring[0])
      && (k < |ring| ==> r[k + 1] == ring[k] && r[|ring|] == ring[|ring| - 1])
  {}

  lemma PositionIs(ring: Ring, i: nat)
    requires DistinctShards(ring) && i < |ring|
    ensures Position(ring, ring[i].shard) == i
  {
    var j := Position(ring, ring[i].shard);
    assert j < |ring| ==> ring[j].shard == ring[i].shard;
  }

  // The point found is halfway through the shard's range, rounding down.
  method FindMidpoint(ring: Ring, shard: int) returns (r: Result<Point>)
    requires Valid(ring)
    ensures r == Midpoint(ring, shard)
    ensures r.Ok? ==> Splittable(ring, shard, r.value)
    ensures r.Ok? <==> exists i :: 0 <= i < |ring| && ring[i].shard == shard && Points(ring, i) >= 2
    ensures r.Ok? ==>
              exists i :: 0 <= i < |ring| && ring[i].shard == shard
                          && Clockwise(ring[i].start, r.value) == Points(ring, i) / 2
  {
    MidpointSplits(ring, shard);
    if Midpoint(ring, shard).Ok? {
      MidpointIsHalfway(ring, shard);
    }
    forall j | 0 <= j < |ring| && ring[j].shard == shard ensures j == Position(ring, shard) {
      PositionIs(ring, j);
    }
    var i := FindShard(ring, shard);
    if i == |ring| {
      return Err;
    }
    var start, end := ring[i].start, RangeEnd(ring, i);
    var width := end - start;
    if end <= start {
      width := width + Top;
    }
    if width < 2 {
      return Err;
    }
    return Ok((start + width / 2) % Top);
  }

  /******* Validate *******/

  method Validate(ring: Ring) returns (ok: bool)
    ensures ok <==> Valid(ring)
  {
    if |ring| == 0 {
      return false;
    }
    var seen: set<int> := {};
    for i := 0 to |ring|
      invariant seen == set j | 0 <= j < i :: ring[j].shard
      invariant forall a, b :: 0 <= a < b < i ==> ring[a].shard != ring[b].shard && ring[a].start < ring[b].start
    {
      if ring[i].shard in seen {
        return false;
      }
      seen := seen + {ring[i].shard};
      if i > 0 && ring[i - 1].start >= ring[i].start {
        return false;
      }
    }
    return true;
  }
}
