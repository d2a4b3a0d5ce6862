// The cache's recency list as a value: a hit, an insertion, an invalidation, and
// what a whole sequential trace of reads and writes does to it.
module Lru {

  // expires is the deadline; a cache without TTL never looks at it.
  datatype Entry = Entry(key: string, value: string, expires: int)

  // Most recently used first.
  type Order = seq<Entry>

  function Keys(order: Order): set<string> {
    set e | e in order :: e.key
  }

  ghost predicate Unique(order: Order) {
    forall i, j :: 0 <= i < j < |order| ==> order[i].key != order[j].key
  }

  function Remove(order: Order, key: string): Order {
    if order == [] then []
    else if order[0].key == key then order[1..]
    else [order[0]] + Remove(order[1..], key)
  }

  // The entry of a key, if there is one.
  function Find(order: Order, key: string): (r: seq<Entry>)
    ensures |r| <= 1
  {
    if order == [] then []
    else if order[0].key == key then [order[0]]
    else Find(order[1..], key)
  }

  function Touch(order: Order, key: string): Order {
    Find(order, key) + Remove(order, key)
  }

  // As the most recently used; the last entry goes if that makes one too many.
  function Insert(order: Order, capacity: nat, e: Entry): Order {
    var longer := [e] + Remove(order, e.key);
    if Find(order, e.key) == [] && |longer| > capacity then longer[..|longer| - 1] else longer
  }

  ghost predicate Within(order: Order, capacity: nat) {
    Unique(order) && |order| <= capacity
  }

  /******* Finding and removing *******/

  lemma {:induction false} FindIs(order: Order, key: string)
    ensures Find(order, key) == [] <==> key !in Keys(order)
    ensures Find(order, key) != [] ==> Find(order, key)[0] in order && Find(order, key)[0].key == key
  {
    if order != [] {
      FindIs(order[1..], key);
      if order[0].key != key {
        assert Keys(order) == Keys(order[1..]) + {order[0].key};
      } else {
        assert order[0] in order;
      }
    }
  }

  lemma FindAt(order: Order, i: nat)
    requires Unique(order) && i < |order|
    ensures Find(order, order[i].key) == [order[i]]
  {
    if i > 0 {
      assert order[1..][i - 1] == order[i];
      FindAt(order[1..], i - 1);
    }
  }

  lemma {:induction false} RemoveIs(order: Order, key: string)
    requires Unique(order)
    ensures Unique(Remove(order, key)) && key !in Keys(Remove(order, key))
    ensures forall e :: e in Remove(order, key) <==> e in order && e.key != key
    ensures |Remove(order, key)| == |order| - |Find(order, key)|
  {
    if order != [] {
      var tail := order[1..];
      assert forall e :: e in order <==> e == order[0] || e in tail;
      forall e | e in tail ensures e.key != order[0].key {
        var i :| 0 <= i < |tail| && tail[i] == e;
        assert order[i + 1] == e;
      }
      if order[0].key != key {
        RemoveIs(tail, key);
        UniqueCons(order[0], Remove(tail, key));
      }
    }
  }

  lemma UniqueCons(e: Entry, order: Order)
    requires Unique(order) && forall x :: x in order ==> x.key != e.key
    ensures Unique([e] + order)
  {
    forall i, j | 0 <= i < j < |order| + 1 ensures ([e] + order)[i].key != ([e] + order)[j].key {
      assert ([e] + order)[j] == order[j - 1];
      assert order[j - 1] in order;
    }
  }

  lemma UniquePrefix(order: Order, n: nat)
    requires Unique(order) && n <= |order|
    ensures Unique(order[..n])
  {}

  // Removing takes out one entry and leaves the others in their order.
  lemma {:induction false} RemoveAt(order: Order, key: string) returns (i: nat)
    requires key in Keys(order)
    ensures i < |order| && order[i].key == key && Remove(order, key) == order[..i] + order[i + 1..]
  {
    if order[0].key == key {
      i := 0;
    } else {
      var j := RemoveAt(order[1..], key);
      i := j + 1;
      var tail := order[1..];
      assert order[..i] == [order[0]] + tail[..j] && order[i + 1..] == tail[j + 1..];
    }
  }

  lemma {:induction false} RemoveAbsent(order: Order, key: string)
    requires key !in Keys(order)
    ensures Remove(order, key) == order
  {
    if order != [] {
      assert order[0] in order;
      assert Keys(order[1..]) <= Keys(order);
      RemoveAbsent(order[1..], key);
    }
  }

  lemma TouchIs(order: Order, key: string)
    requires Unique(order)
    ensures Unique(Touch(order, key)) && |Touch(order, key)| == |order|
    ensures forall e :: e in Touch(order, key) <==> e in order
  {
    RemoveIs(order, key);
    FindIs(order, key);
    var found, rest := Find(order, key), Remove(order, key);
    if found == [] {
      assert Touch(order, key) == rest;
    } else {
      UniqueCons(found[0], rest);
      assert Touch(order, key) == [found[0]] + rest;
      forall e | e in order && e.key == key ensures e == found[0] {
        var i :| 0 <= i < |order| && order[i] == e;
        FindAt(order, i);
      }
    }
  }

  // An insertion keeps the bound, puts e first and drops at most one entry, and
  // that only from a full list without the key.
  lemma InsertIs(order: Order, capacity: nat, e: Entry)
    requires Within(order, capacity) && capacity > 0
    ensures Within(Insert(order, capacity, e), capacity)
    ensures Insert(order, capacity, e) != [] && Insert(order, capacity, e)[0] == e
    ensures forall x :: x in Insert(order, capacity, e) ==> x == e || (x in order && x.key != e.key)
    ensures |order| < capacity || e.key in Keys(order) ==>
              forall x :: x in order && x.key != e.key ==> x in Insert(order, capacity, e)
  {
    RemoveIs(order, e.key);
    FindIs(order, e.key);
    var rest := Remove(order, e.key);
    UniqueCons(e, rest);
    UniquePrefix([e] + rest, |rest|);
  }

  // A hit puts its entry first and leaves the others in their order.
  lemma TouchMovesFront(order: Order, key: string) returns (i: nat)
    requires Unique(order) && key in Keys(order)
    ensures i < |order| && order[i].key == key
    ensures Touch(order, key) == [order[i]] + order[..i] + order[i + 1..]
  {
    i := RemoveAt(order, key);
    FindAt(order, i);
  }

  // An insertion leaves the others in their order; what goes is the oldest.
  lemma InsertKeepsOrder(order: Order, capacity: nat, e: Entry)
    requires Within(order, capacity) && capacity > 0
    ensures e.key !in Keys(order) ==>
              Insert(order, capacity, e) == [e] + if |order| < capacity then order else order[..|order| - 1]
    ensures e.key in Keys(order) ==>
              exists i :: 0 <= i < |order| && order[i].key == e.key
                          && Insert(order, capacity, e) == [e] + (order[..i] + order[i + 1..])
  {
    FindIs(order, e.key);
    if e.key in Keys(order) {
      var i := RemoveAt(order, e.key);
    } else {
      RemoveAbsent(order, e.key);
      if |order| == capacity {
        assert ([e] + order)[..|order|] == [e] + order[..|order| - 1];
      }
    }
  }

  /******* Sequential traces *******/

  datatype Policy = WriteInvalidate | WriteThrough

  datatype Op = Get(key: string) | Put(key: string, value: string) | Append(key: string, value: string)

  function Stored(store: map<string, string>, key: string): string {
    if key in store then store[key] else ""
  }

  // The backing store and the cache in front of it, without TTL.
  datatype Sys = Sys(store: map<string, string>, order: Order, hits: nat)

  function Do(s: Sys, capacity: nat, policy: Policy, op: Op): Sys {
    match op
    case Get(key) =>
      if Find(s.order, key) != [] then s.(order := Touch(s.order, key), hits := s.hits + 1)
      else s.(order := Insert(s.order, capacity, Entry(key, Stored(s.store, key), 0)))
    case Put(key, value) =>
      var store := s.store[key := value];
      if policy == WriteThrough then s.(store := store, order := Insert(s.order, capacity, Entry(key, value, 0)))
      else s.(store := store, order := Remove(s.order, key))
    case Append(key, value) =>
      s.(store := s.store[key := Stored(s.store, key) + value], order := Remove(s.order, key))
  }

  function DoAll(capacity: nat, policy: Policy, ops: seq<Op>): Sys {
    if ops == [] then Sys(map[], [], 0)
    else Do(DoAll(capacity, policy, ops[..|ops| - 1]), capacity, policy, ops[|ops| - 1])
  }

  // Every cached value is the store's.
  ghost predicate Coherent(s: Sys) {
    forall e :: e in s.order ==> e.value == Stored(s.store, e.key) && e.expires == 0
  }

  lemma DoKeeps(s: Sys, capacity: nat, policy: Policy, op: Op)
    requires capacity > 0 && Within(s.order, capacity) && Coherent(s)
    ensures Within(Do(s, capacity, policy, op).order, capacity) && Coherent(Do(s, capacity, policy, op))
  {
    TouchIs(s.order, op.key);
    RemoveIs(s.order, op.key);
    match op
    case Get(key) =>
      InsertIs(s.order, capacity, Entry(key, Stored(s.store, key), 0));
    case Put(key, value) =>
      InsertIs(s.order, capacity, Entry(key, value, 0));
    case Append(_, _) =>
  }

  // In sequence the list stays duplicate-free and within capacity, and a read,
  // hit or miss, leaves the store's value at its front.
  lemma {:induction false} SequentialReads(capacity: nat, policy: Policy, ops: seq<Op>)
    requires capacity > 0
    ensures Within(DoAll(capacity, policy, ops).order, capacity) && Coherent(DoAll(capacity, policy, ops))
    ensures ops != [] && ops[|ops| - 1].Get? ==>
              var s, key := DoAll(capacity, policy, ops), ops[|ops| - 1].key;
              s.order != [] && s.order[0] == Entry(key, Stored(s.store, key), 0)
  {
    if ops != [] {
      var before, op := DoAll(capacity, policy, ops[..|ops| - 1]), ops[|ops| - 1];
      SequentialReads(capacity, policy, ops[..|ops| - 1]);
      DoKeeps(before, capacity, policy, op);
      if op.Get? {
        FindIs(before.order, op.key);
        InsertIs(before.order, capacity, Entry(op.key, Stored(before.store, op.key), 0));
      }
    }
  }

  // A write-through Put leaves its value first in the cache; other writes leave
  // nothing of their key.
  lemma WritesMean(s: Sys, capacity: nat, policy: Policy, op: Op)
    requires capacity > 0 && Within(s.order, capacity) && !op.Get?
    ensures
      var order := Do(s, capacity, policy, op).order;
      if op.Put? && policy == WriteThrough then order != [] && order[0] == Entry(op.key, op.value, 0)
      else op.key !in Keys(order)
    ensures Do(s, capacity, policy, op).hits == s.hits
  {
    RemoveIs(s.order, op.key);
    if op.Put? {
      InsertIs(s.order, capacity, Entry(op.key, op.value, 0));
    }
  }

  // A read counts as a hit exactly if its key was cached.
  lemma ReadsMean(s: Sys, capacity: nat, policy: Policy, key: string)
    requires capacity > 0 && Within(s.order, capacity)
    ensures Do(s, capacity, policy, Get(key)).hits == s.hits + if key in Keys(s.order) then 1 else 0
    ensures Do(s, capacity, policy, Get(key)).store == s.store
  {
    FindIs(s.order, key);
  }

  /******* Stack inclusion *******/

  lemma {:induction false} RemovePrefix(small: Order, large: Order, key: string)
    requires small <= large && Unique(large)
    ensures Remove(small, key) <= Remove(large, key)
    ensures Find(small, key) != [] ==> Find(small, key) == Find(large, key)
  {
    if small != [] && small[0].key != key {
      assert small[1..] <= large[1..];
      RemovePrefix(small[1..], large[1..], key);
    } else if small == [] {
    } else {
      assert small[1..] <= large[1..];
    }
  }

  lemma InsertPrefix(small: Order, large: Order, c: nat, d: nat, e: Entry)
    requires small <= large && 0 < c <= d && Within(small, c) && Within(large, d)
    ensures Insert(small, c, e) <= Insert(large, d, e)
  {
    RemovePrefix(small, large, e.key);
    RemoveIs(small, e.key);
    RemoveIs(large, e.key);
    InsertIs(small, c, e);
    var s, l := [e] + Remove(small, e.key), [e] + Remove(large, e.key);
    assert s <= l;
    assert Insert(small, c, e) <= s;
    assert Insert(large, d, e) == l || Insert(large, d, e) == l[..d];
  }

  // A read that the larger cache hits and the smaller misses ends the same way.
  lemma MissMeetsHit(small: Order, large: Order, c: nat, key: string, e: Entry)
    requires small <= large && 0 < c && Within(small, c) && Unique(large)
    requires Find(small, key) == [] && Find(large, key) == [e] && e.key == key
    ensures Insert(small, c, e) <= Touch(large, key)
  {
    RemovePrefix(small, large, key);
    var s, l := [e] + Remove(small, key), [e] + Remove(large, key);
    assert s <= l;
    assert Touch(large, key) == l;
  }

  lemma DoInclusion(s: Sys, l: Sys, c: nat, d: nat, policy: Policy, op: Op)
    requires 0 < c <= d && s.store == l.store && s.order <= l.order && s.hits <= l.hits
    requires Within(s.order, c) && Within(l.order, d) && Coherent(s) && Coherent(l)
    ensures
      var s', l' := Do(s, c, policy, op), Do(l, d, policy, op);
      s'.store == l'.store && s'.order <= l'.order && s'.hits <= l'.hits
  {
    RemovePrefix(s.order, l.order, op.key);
    match op
    case Get(key) =>
      var e := Entry(key, Stored(s.store, key), 0);
      FindIs(l.order, key);
      if Find(s.order, key) != [] {
        assert Touch(s.order, key) <= Touch(l.order, key);
      } else if Find(l.order, key) != [] {
        assert Find(l.order, key) == [e];
        MissMeetsHit(s.order, l.order, c, key, e);
      } else {
        InsertPrefix(s.order, l.order, c, d, e);
      }
    case Put(key, value) =>
      InsertPrefix(s.order, l.order, c, d, Entry(key, value, 0));
    case Append(_, _) =>
  }

  // For every trace, a smaller cache's list is a prefix of a larger one's, so it
  // never has more hits.
  lemma {:induction false} StackInclusion(c: nat, d: nat, policy: Policy, ops: seq<Op>)
    requires 0 < c <= d
    ensures DoAll(c, policy, ops).order <= DoAll(d, policy, ops).order
    ensures DoAll(c, policy, ops).hits <= DoAll(d, policy, ops).hits
    ensures DoAll(c, policy, ops).store == DoAll(d, policy, ops).store
  {
    if ops != [] {
      var before := ops[..|ops| - 1];
      StackInclusion(c, d, policy, before);
      SequentialReads(c, policy, before);
      SequentialReads(d, policy, before);
      DoInclusion(DoAll(c, policy, before), DoAll(d, policy, before), c, d, policy, ops[|ops| - 1]);
    }
  }
}
