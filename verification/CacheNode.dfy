// The cache's map and recency list, updated in place under its lock: the map
// always indexes exactly the list, and each operation is the list function of
// the same name.
module CacheNode {
  import opened Lru

  // A list element; the entry it holds is overwritten in place.
  class Node {
    const key: string
    var value: string
    var expires: int

    constructor (key: string, value: string, expires: int)
      ensures this.key == key && this.value == value && this.expires == expires
    {
      this.key, this.value, this.expires := key, value, expires;
    }
  }

  ghost function Listed(nodes: seq<Node>): (r: Order)
    reads nodes
    ensures |r| == |nodes|
  {
    if nodes == [] then []
    else [Entry(nodes[0].key, nodes[0].value, nodes[0].expires)] + Listed(nodes[1..])
  }

  lemma {:induction false} ListedButLast(nodes: seq<Node>)
    requires nodes != []
    ensures Listed(nodes[..|nodes| - 1]) == Listed(nodes)[..|nodes| - 1]
  {
    if |nodes| > 1 {
      ListedButLast(nodes[1..]);
      assert nodes[1..][..|nodes| - 2] == nodes[..|nodes| - 1][1..];
    }
  }

  // list.Remove: the list without one element.
  function Without(nodes: seq<Node>, n: Node): seq<Node> {
    if nodes == [] then [] else if nodes[0] == n then nodes[1..] else [nodes[0]] + Without(nodes[1..], n)
  }

  ghost predicate Distinct(nodes: seq<Node>) {
    forall i, j :: 0 <= i < j < |nodes| ==> nodes[i].key != nodes[j].key
  }

  lemma {:induction false} WithoutIs(nodes: seq<Node>, n: Node)
    requires Distinct(nodes) && n in nodes
    ensures |Without(nodes, n)| == |nodes| - 1 && Distinct(Without(nodes, n))
    ensures forall i :: 0 <= i < |nodes| - 1 ==> Without(nodes, n)[i] in nodes && Without(nodes, n)[i] != n
    ensures forall i :: 0 <= i < |nodes| && nodes[i] != n ==> nodes[i] in Without(nodes, n)
  {
    var head, tail := nodes[0], nodes[1..];
    DistinctTail(nodes);
    if head != n {
      WithoutIs(tail, n);
      DistinctCons(head, Without(tail, n));
      forall i | 0 <= i < |nodes| && nodes[i] != n ensures nodes[i] in Without(nodes, n) {
        assert i > 0 ==> nodes[i] == tail[i - 1];
      }
    } else {
      forall i | 0 <= i < |nodes| && nodes[i] != n ensures nodes[i] in Without(nodes, n) {
        assert nodes[i] == tail[i - 1];
      }
    }
  }

  lemma DistinctTail(nodes: seq<Node>)
    requires Distinct(nodes) && nodes != []
    ensures Distinct(nodes[1..])
    ensures forall i :: 0 <= i < |nodes| - 1 ==> nodes[1..][i].key != nodes[0].key
  {}

  lemma {:induction false} ListedWithout(nodes: seq<Node>, n: Node)
    requires Distinct(nodes) && n in nodes
    ensures Listed(Without(nodes, n)) == Remove(Listed(nodes), n.key)
    ensures Find(Listed(nodes), n.key) == [Entry(n.key, n.value, n.expires)]
  {
    DistinctTail(nodes);
    ListedCons(nodes[0], nodes[1..]);
    assert nodes == [nodes[0]] + nodes[1..];
    assert Listed(nodes)[1..] == Listed(nodes[1..]);
    if nodes[0] != n {
      assert n in nodes[1..];
      ListedWithout(nodes[1..], n);
      ListedCons(nodes[0], Without(nodes[1..], n));
    }
  }

  lemma ListedCons(n: Node, nodes: seq<Node>)
    ensures Listed([n] + nodes) == [Entry(n.key, n.value, n.expires)] + Listed(nodes)
  {
    assert ([n] + nodes)[1..] == nodes;
  }

  lemma DistinctCons(n: Node, nodes: seq<Node>)
    requires Distinct(nodes) && forall i :: 0 <= i < |nodes| ==> nodes[i].key != n.key
    ensures Distinct([n] + nodes)
  {
    forall i, j | 0 <= i < j < |nodes| + 1 ensures ([n] + nodes)[i].key != ([n] + nodes)[j].key {
      assert ([n] + nodes)[j] == nodes[j - 1];
    }
  }

  lemma ListedAbsent(nodes: seq<Node>, key: string)
    requires forall i :: 0 <= i < |nodes| ==> nodes[i].key != key
    ensures Find(Listed(nodes), key) == [] && Remove(Listed(nodes), key) == Listed(nodes)
  {
    if nodes != [] {
      ListedAbsent(nodes[1..], key);
      assert Listed(nodes)[1..] == Listed(nodes[1..]);
    }
  }

  // The map holds exactly the list's elements, each under its own key.
  ghost predicate Indexes(entries: map<string, Node>, order: seq<Node>) {
    && Distinct(order)
    && (forall i :: 0 <= i < |order| ==> order[i].key in entries && entries[order[i].key] == order[i])
    && (forall k :: k in entries ==> entries[k] in order && entries[k].key == k)
  }

  lemma IndexRemove(entries: map<string, Node>, order: seq<Node>, n: Node)
    requires Indexes(entries, order) && n in order
    ensures Indexes(entries - {n.key}, Without(order, n)) && |Without(order, n)| == |order| - 1
  {
    WithoutIs(order, n);
    var rest, fewer := Without(order, n), entries - {n.key};
    forall i | 0 <= i < |rest| ensures rest[i].key in fewer && fewer[rest[i].key] == rest[i] {
      assert rest[i] in order && rest[i] != n;
    }
    forall k | k in fewer ensures fewer[k] in rest && fewer[k].key == k {
      assert entries[k] in order;
    }
  }

  lemma IndexAdd(entries: map<string, Node>, order: seq<Node>, n: Node)
    requires Indexes(entries, order) && n.key !in entries
    ensures Indexes(entries[n.key := n], [n] + order)
  {
    DistinctCons(n, order);
  }

  lemma IndexTouch(entries: map<string, Node>, order: seq<Node>, n: Node)
    requires Indexes(entries, order) && n in order
    ensures Indexes(entries, [n] + Without(order, n)) && |Without(order, n)| == |order| - 1
  {
    IndexRemove(entries, order, n);
    IndexAdd(entries - {n.key}, Without(order, n), n);
    assert (entries - {n.key})[n.key := n] == entries;
  }

  lemma {:induction false} WithoutLast(order: seq<Node>)
    requires Distinct(order) && order != []
    ensures Without(order, order[|order| - 1]) == order[..|order| - 1]
  {
    if |order| > 1 {
      DistinctTail(order);
      WithoutLast(order[1..]);
    }
  }

  lemma IndexDropLast(entries: map<string, Node>, order: seq<Node>)
    requires Indexes(entries, order) && order != []
    ensures Indexes(entries - {order[|order| - 1].key}, order[..|order| - 1])
  {
    IndexRemove(entries, order, order[|order| - 1]);
    WithoutLast(order);
  }

  class Cache {
    const capacity: nat
    const ttl: nat
    var entries: map<string, Node>
    var order: seq<Node>

    ghost predicate Valid()
      reads this
    {
      0 < capacity && |order| <= capacity && Indexes(entries, order)
    }

    ghost function Contents(): Order
      reads this, order
    {
      Listed(order)
    }

    constructor (capacity: nat, ttl: nat)
      requires capacity >= 1
      ensures Valid() && Contents() == [] && order == []
      ensures this.capacity == capacity && this.ttl == ttl
    {
      this.capacity, this.ttl := capacity, ttl;
      entries, order := map[], [];
    }

    // The locked part of a read: a live entry is a hit and becomes the most
    // recently used; one at or past its deadline is dropped.
    method Lookup(key: string, now: int) returns (hit: bool, value: string)
      requires Valid()
      modifies this`entries, this`order
      ensures Valid() && forall i :: 0 <= i < |order| ==> order[i] in old(order)
      ensures
        var was := old(Contents());
        var found := Find(was, key);
        && (hit <==> found != [] && (ttl == 0 || now < found[0].expires))
        && (hit ==> value == found[0].value)
        && Contents() == if hit then Touch(was, key) else Remove(was, key)
    {
      if key !in entries {
        ListedAbsent(order, key);
        return false, "";
      }
      var el := entries[key];
      if ttl == 0 || now < el.expires {
        MoveToFront(el);
        return true, el.value;
      }
      ListedWithout(order, el);
      Invalidate(key);
      return false, "";
    }

    method MoveToFront(el: Node)
      requires Valid() && el in order
      modifies this`order
      ensures Valid() && order == [el] + Without(old(order), el)
      ensures Find(old(Contents()), el.key) == [Entry(el.key, el.value, el.expires)]
      ensures Contents() == Touch(old(Contents()), el.key)
      ensures forall i :: 0 <= i < |order| ==> order[i] in old(order)
    {
      ListedWithout(order, el);
      WithoutIs(order, el);
      IndexTouch(entries, order, el);
      ListedCons(el, Without(order, el));
      order := [el] + Without(order, el);
    }

    method Insert(key: string, value: string, fetchStart: int)
      requires Valid()
      modifies this`entries, this`order, order
      ensures Valid() && forall i :: 0 <= i < |order| ==> order[i] in old(order) || fresh(order[i])
      ensures Contents() ==
                Lru.Insert(old(Contents()), capacity, Entry(key, value, if ttl > 0 then fetchStart + ttl else 0))
    {
      var expires := if ttl > 0 then fetchStart + ttl else 0;
      if key in entries {
        InsertPresent(key, value, expires);
      } else {
        InsertAbsent(key, value, expires);
        assert forall i :: 0 < i < |order| ==> order[i] == order[1..][i - 1];
      }
    }

    // Overwrites the existing element rather than adding a second one.
    method InsertPresent(key: string, value: string, expires: int)
      requires Valid() && key in entries
      modifies this`order, entries[key]
      ensures Valid() && forall i :: 0 <= i < |order| ==> order[i] in old(order)
      ensures Contents() == Lru.Insert(old(Contents()), capacity, Entry(key, value, expires))
    {
      var el := entries[key];
      ghost var was := Contents();
      ghost var rest := Without(order, el);
      ListedWithout(order, el);
      WithoutIs(order, el);
      IndexTouch(entries, order, el);
      Overwrite(el, value, expires, rest);
      order := [el] + Without(order, el);
      assert Contents() == [Entry(key, value, expires)] + Remove(was, key);
    }

    method Overwrite(el: Node, value: string, expires: int, ghost rest: seq<Node>)
      requires el !in rest
      modifies el
      ensures el.value == value && el.expires == expires && Listed(rest) == old(Listed(rest))
      ensures Listed([el] + rest) == [Entry(el.key, value, expires)] + old(Listed(rest))
    {
      el.value, el.expires := value, expires;
      ListedCons(el, rest);
    }

    method InsertAbsent(key: string, value: string, expires: int)
      requires Valid() && key !in entries
      modifies this`order, this`entries
      ensures Valid() && order != [] && fresh(order[0]) && order[1..] <= old(order)
      ensures Contents() == Lru.Insert(old(Contents()), capacity, Entry(key, value, expires))
    {
      ListedAbsent(order, key);
      PushFront(key, value, expires);
      if |order| > capacity {
        DropLast();
      }
    }

    method PushFront(key: string, value: string, expires: int)
      requires Indexes(entries, order) && key !in entries
      modifies this`order, this`entries
      ensures Indexes(entries, order) && Contents() == [Entry(key, value, expires)] + old(Contents())
      ensures |order| == |old(order)| + 1 && order[1..] == old(order) && fresh(order[0])
    {
      ghost var nodes, was := order, Contents();
      var el := new Node(key, value, expires);
      assert Listed(nodes) == was;
      ListedCons(el, nodes);
      IndexAdd(entries, nodes, el);
      order := [el] + order;
      entries := entries[key := el];
      assert order[1..] == nodes;
    }

    // Evict the least recently used.
    method DropLast()
      requires 0 < capacity && |order| == capacity + 1 && Indexes(entries, order)
      modifies this`order, this`entries
      ensures Valid() && order == old(order)[..|old(order)| - 1]
      ensures Contents() == old(Contents())[..|old(Contents())| - 1]
    {
      var oldest := order[|order| - 1];
      IndexDropLast(entries, order);
      ListedButLast(order);
      order := order[..|order| - 1];
      entries := entries - {oldest.key};
    }

    method Invalidate(key: string)
      requires Valid()
      modifies this`entries, this`order
      ensures Valid() && forall i :: 0 <= i < |order| ==> order[i] in old(order)
      ensures Contents() == Remove(old(Contents()), key)
    {
      if key in entries {
        var el := entries[key];
        ListedWithout(order, el);
        WithoutIs(order, el);
        IndexRemove(entries, order, el);
        order := Without(order, el);
        entries := entries - {key};
      } else {
        ListedAbsent(order, key);
      }
    }
  }
}
