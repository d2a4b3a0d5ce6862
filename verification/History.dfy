// What it means for a recorded history to be linearizable, and the locality
// theorem behind checking it one key at a time.
module History {
  import opened Register

  datatype Kind = Get | Put | Append

  // One completed client operation over the real-time interval [invoke, return].
  datatype Entry = Entry(key: string, kind: Kind, arg: string, result: string, inv: int, ret: int)

  // a returned at or before the instant b was invoked.
  predicate HappensBefore(a: Entry, b: Entry) {
    a.ret <= b.inv
  }

  // No entry is placed ahead of one that real time forces before it.
  ghost predicate RealTime(order: seq<Entry>) {
    forall i, j :: 0 <= i < j < |order| ==> !HappensBefore(order[j], order[i])
  }

  function NextValue(value: string, e: Entry): string {
    match e.kind
    case Get => value
    case Put => e.arg
    case Append => value + e.arg
  }

  predicate ResultOk(value: string, e: Entry) {
    e.kind == Get ==> e.result == value
  }

  /******* One key *******/

  // The register after the given operations, in order.
  function ValueAfter(value: string, ops: seq<Entry>): string {
    if ops == [] then value else NextValue(ValueAfter(value, ops[..|ops| - 1]), ops[|ops| - 1])
  }

  // Every Get returned what the operations ahead of it left in the register.
  ghost predicate Explained(value: string, order: seq<Entry>) {
    forall i :: 0 <= i < |order| ==> ResultOk(ValueAfter(value, order[..i]), order[i])
  }

  ghost predicate IsKeyOrder(entries: seq<Entry>, order: seq<Entry>) {
    multiset(order) == multiset(entries) && RealTime(order) && Explained("", order)
  }

  ghost predicate KeyLinearizable(entries: seq<Entry>) {
    exists order :: IsKeyOrder(entries, order)
  }

  /******* The whole history *******/

  function Lookup(store: map<string, string>, key: string): string {
    if key in store then store[key] else ""
  }

  function StoreAfter(store: map<string, string>, ops: seq<Entry>): map<string, string> {
    if ops == [] then store
    else
      var before, e := StoreAfter(store, ops[..|ops| - 1]), ops[|ops| - 1];
      before[e.key := NextValue(Lookup(before, e.key), e)]
  }

  ghost predicate StoreExplained(store: map<string, string>, order: seq<Entry>) {
    forall i :: 0 <= i < |order| ==> ResultOk(Lookup(StoreAfter(store, order[..i]), order[i].key), order[i])
  }

  ghost predicate IsGlobalOrder(entries: seq<Entry>, order: seq<Entry>) {
    multiset(order) == multiset(entries) && RealTime(order) && StoreExplained(map[], order)
  }

  ghost predicate Linearizable(entries: seq<Entry>) {
    exists order :: IsGlobalOrder(entries, order)
  }

  // The sub-history of one key.
  function Sub(entries: seq<Entry>, key: string): seq<Entry> {
    if entries == [] then []
    else
      var rest, e := Sub(entries[..|entries| - 1], key), entries[|entries| - 1];
      if e.key == key then rest + [e] else rest
  }

  ghost predicate EveryKeyLinearizable(entries: seq<Entry>) {
    forall key :: KeyLinearizable(Sub(entries, key))
  }

  // Two operations that each took no time, at the same instant: each must come
  // before the other.
  predicate Coincide(a: Entry, b: Entry) {
    a.inv == a.ret == b.inv == b.ret
  }

  ghost predicate NoneCoincide(entries: seq<Entry>) {
    forall i, j :: 0 <= i < j < |entries| ==> !Coincide(entries[i], entries[j])
  }

  ghost predicate WellFormed(entries: seq<Entry>) {
    forall e :: e in entries ==> e.inv <= e.ret
  }

  /******* Peeling off the first operation *******/

  lemma ValueAfterHead(value: string, ops: seq<Entry>)
    requires ops != []
    ensures ValueAfter(value, ops) == ValueAfter(NextValue(value, ops[0]), ops[1..])
    decreases |ops|
  {
    var last := |ops| - 1;
    if last > 0 {
      ValueAfterHead(value, ops[..last]);
      assert ops[..last][1..] == ops[1..][..last - 1];
    } else {
      assert ops[..last] == [];
    }
  }

  lemma StoreAfterHead(store: map<string, string>, ops: seq<Entry>)
    requires ops != []
    ensures StoreAfter(store, ops) == StoreAfter(StoreAfter(store, ops[..1]), ops[1..])
    decreases |ops|
  {
    var last := |ops| - 1;
    if last > 0 {
      StoreAfterHead(store, ops[..last]);
      assert ops[..last][..1] == ops[..1];
      assert ops[..last][1..] == ops[1..][..last - 1];
    } else {
      assert ops[..1] == ops;
    }
  }

  lemma ExplainedHead(value: string, order: seq<Entry>)
    requires order != []
    ensures Explained(value, order) <==>
              ResultOk(value, order[0]) && Explained(NextValue(value, order[0]), order[1..])
  {
    var next, tail := NextValue(value, order[0]), order[1..];
    assert order[..0] == [];
    forall i | 0 < i < |order|
      ensures order[i] == tail[i - 1] && ValueAfter(value, order[..i]) == ValueAfter(next, tail[..i - 1])
    {
      ValueAfterHead(value, order[..i]);
      assert order[..i][1..] == tail[..i - 1];
    }
    if ResultOk(value, order[0]) && Explained(next, tail) {
      forall i | 0 <= i < |order|
        ensures ResultOk(ValueAfter(value, order[..i]), order[i])
      {}
    }
    if Explained(value, order) {
      forall i | 0 <= i < |tail|
        ensures ResultOk(ValueAfter(next, tail[..i]), tail[i])
      {
        assert order[i + 1] == tail[i];
      }
    }
  }

  lemma StoreExplainedHead(store: map<string, string>, order: seq<Entry>)
    requires order != []
    ensures StoreExplained(store, order) <==>
              && ResultOk(Lookup(store, order[0].key), order[0])
              && StoreExplained(StoreAfter(store, order[..1]), order[1..])
  {
    var next, tail := StoreAfter(store, order[..1]), order[1..];
    assert order[..0] == [];
    forall i | 0 < i < |order|
      ensures order[i] == tail[i - 1] && StoreAfter(store, order[..i]) == StoreAfter(next, tail[..i - 1])
    {
      StoreAfterHead(store, order[..i]);
      assert order[..i][..1] == order[..1];
      assert order[..i][1..] == tail[..i - 1];
    }
    if ResultOk(Lookup(store, order[0].key), order[0]) && StoreExplained(next, tail) {
      forall i | 0 <= i < |order|
        ensures ResultOk(Lookup(StoreAfter(store, order[..i]), order[i].key), order[i])
      {}
    }
    if StoreExplained(store, order) {
      forall i | 0 <= i < |tail|
        ensures ResultOk(Lookup(StoreAfter(next, tail[..i]), tail[i].key), tail[i])
      {
        assert order[i + 1] == tail[i];
      }
    }
  }

  lemma StoreAfterOne(store: map<string, string>, ops: seq<Entry>)
    requires |ops| == 1
    ensures StoreAfter(store, ops) == store[ops[0].key := NextValue(Lookup(store, ops[0].key), ops[0])]
  {
    assert ops[..0] == [];
  }

  lemma RealTimeHead(order: seq<Entry>)
    requires order != []
    ensures RealTime(order) <==>
              (forall e :: e in order[1..] ==> !HappensBefore(e, order[0])) && RealTime(order[1..])
  {
    if RealTime(order[1..]) && forall e :: e in order[1..] ==> !HappensBefore(e, order[0]) {
      forall i, j | 0 <= i < j < |order|
        ensures !HappensBefore(order[j], order[i])
      {
        assert order[j] == order[1..][j - 1];
        if i > 0 {
          assert order[i] == order[1..][i - 1];
        }
      }
    }
  }

  /******* Locality: from the whole to each key *******/

  lemma SubCounts(s: seq<Entry>, key: string, e: Entry)
    ensures multiset(Sub(s, key))[e] == if e.key == key then multiset(s)[e] else 0
  {
    if s != [] {
      SubCounts(s[..|s| - 1], key, e);
      assert s == s[..|s| - 1] + [s[|s| - 1]];
    }
  }

  lemma SubSameEntries(s: seq<Entry>, t: seq<Entry>, key: string)
    requires multiset(s) == multiset(t)
    ensures multiset(Sub(s, key)) == multiset(Sub(t, key))
  {
    forall e: Entry ensures multiset(Sub(s, key))[e] == multiset(Sub(t, key))[e] {
      SubCounts(s, key, e);
      SubCounts(t, key, e);
    }
  }

  lemma InSub(s: seq<Entry>, key: string, e: Entry)
    ensures e in Sub(s, key) <==> e in s && e.key == key
  {
    SubCounts(s, key, e);
    assert e in Sub(s, key) <==> e in multiset(Sub(s, key));
    assert e in s <==> e in multiset(s);
  }

  lemma SubHead(s: seq<Entry>, key: string)
    requires s != []
    ensures Sub(s, key) == (if s[0].key == key then [s[0]] else []) + Sub(s[1..], key)
    decreases |s|
  {
    var last := |s| - 1;
    if last > 0 {
      SubHead(s[..last], key);
      assert s[..last][1..] == s[1..][..last - 1];
    } else {
      assert s[..last] == [] && s[1..] == [];
    }
  }

  lemma {:induction false} SubRealTime(order: seq<Entry>, key: string)
    requires RealTime(order)
    ensures RealTime(Sub(order, key))
    decreases |order|
  {
    if order != [] {
      RealTimeHead(order);
      SubRealTime(order[1..], key);
      SubHead(order, key);
      if order[0].key == key {
        var sub := Sub(order, key);
        assert sub[1..] == Sub(order[1..], key);
        forall e | e in sub[1..] ensures !HappensBefore(e, sub[0]) {
          InSub(order[1..], key, e);
        }
        RealTimeHead(sub);
      }
    }
  }

  lemma LookupAfterHead(store: map<string, string>, order: seq<Entry>, key: string)
    requires order != []
    ensures Lookup(StoreAfter(store, order[..1]), key)
         == if order[0].key == key then NextValue(Lookup(store, key), order[0]) else Lookup(store, key)
  {
    StoreAfterOne(store, order[..1]);
  }

  lemma {:induction false} SubExplained(store: map<string, string>, order: seq<Entry>, key: string)
    requires StoreExplained(store, order)
    ensures Explained(Lookup(store, key), Sub(order, key))
    decreases |order|
  {
    if order != [] {
      var next := StoreAfter(store, order[..1]);
      StoreExplainedHead(store, order);
      SubExplained(next, order[1..], key);
      LookupAfterHead(store, order, key);
      SubHead(order, key);
      var sub, tail := Sub(order, key), Sub(order[1..], key);
      if order[0].key == key {
        assert sub[1..] == tail && sub[0] == order[0];
        ExplainedHead(Lookup(store, key), sub);
      } else {
        assert sub == tail;
      }
    }
  }

  lemma GlobalGivesEveryKey(entries: seq<Entry>)
    requires Linearizable(entries)
    ensures EveryKeyLinearizable(entries)
  {
    var order :| IsGlobalOrder(entries, order);
    forall key ensures KeyLinearizable(Sub(entries, key)) {
      SubSameEntries(order, entries, key);
      SubRealTime(order, key);
      SubExplained(map[], order, key);
      assert IsKeyOrder(Sub(entries, key), Sub(order, key));
    }
  }

  // Taking one occurrence out of a sequence leaves the others.
  lemma OtherOccurrence(s: seq<Entry>, i: nat, e: Entry) returns (j: nat)
    requires i < |s| && e in multiset(s) - multiset{s[i]}
    ensures j < |s| && j != i && s[j] == e
  {
    var others := s[..i] + s[i + 1..];
    assert s == s[..i] + [s[i]] + s[i + 1..];
    assert multiset(others) == multiset(s) - multiset{s[i]};
    assert e in others;
    var k :| 0 <= k < |others| && others[k] == e;
    j := if k < i then k else k + 1;
  }

  lemma PairInMultiset(s: seq<Entry>, i: nat, j: nat)
    requires i < j < |s|
    ensures s[j] in multiset(s) - multiset{s[i]}
  {
    assert s == s[..i] + [s[i]] + s[i + 1..];
    assert s[j] == s[i + 1..][j - i - 1];
    assert multiset(s) - multiset{s[i]} == multiset(s[..i]) + multiset(s[i + 1..]);
  }

  lemma OrderedNoneCoincide(entries: seq<Entry>, order: seq<Entry>)
    requires multiset(order) == multiset(entries) && RealTime(order)
    ensures NoneCoincide(entries)
  {
    forall i, j | 0 <= i < j < |entries| ensures !Coincide(entries[i], entries[j]) {
      PairInMultiset(entries, i, j);
      assert entries[i] in multiset(order);
      var p :| 0 <= p < |order| && order[p] == entries[i];
      var q := OtherOccurrence(order, p, entries[j]);
      if p < q {
        assert !HappensBefore(order[q], order[p]);
      } else {
        assert !HappensBefore(order[p], order[q]);
      }
    }
  }

  /******* Locality: from each key to the whole *******/

  type Rests = map<string, seq<Entry>>

  function Rest(rests: Rests, key: string): seq<Entry> {
    if key in rests then rests[key] else []
  }

  // rests splits the entries still to be placed, key by key.
  ghost predicate Splits(left: multiset<Entry>, rests: Rests) {
    && (forall key, e | key in rests && e in rests[key] :: e.key == key)
    && (forall e :: left[e] == multiset(Rest(rests, e.key))[e])
  }

  ghost predicate Placeable(left: multiset<Entry>, rests: Rests, store: map<string, string>) {
    && Splits(left, rests)
    && (forall key :: key in rests ==> RealTime(rests[key]) && Explained(Lookup(store, key), rests[key]))
    && Apart(left)
  }

  ghost predicate Apart(left: multiset<Entry>) {
    && (forall a :: a in left ==> a.inv <= a.ret)
    && (forall a, b {:trigger Coincide(a, b)} :: a in left && b in left - multiset{a} ==> !Coincide(a, b))
  }

  predicate Earlier(a: Entry, b: Entry) {
    a.ret < b.ret || (a.ret == b.ret && a.inv <= b.inv)
  }

  // The entry that returned first (and of those, the one invoked first).
  lemma {:induction false} Earliest(left: multiset<Entry>) returns (m: Entry)
    requires left != multiset{}
    ensures m in left && forall e :: e in left ==> Earlier(m, e)
    decreases |left|
  {
    var first: Entry :| first in left;
    var others := left - multiset{first};
    m := first;
    if others != multiset{} {
      var m' := Earliest(others);
      if Earlier(m', first) {
        m := m';
      }
    }
    forall e | e in left ensures Earlier(m, e) {
      assert e == first || e in others;
    }
  }

  // The head of the earliest-returning entry's key may go first.
  lemma HeadIsReady(left: multiset<Entry>, rests: Rests, store: map<string, string>, m: Entry)
    requires Placeable(left, rests, store)
    requires m in left && forall e :: e in left ==> Earlier(m, e)
    ensures Rest(rests, m.key) != [] && rests[m.key][0] in left
    ensures forall e :: e in left - multiset{rests[m.key][0]} ==> !HappensBefore(e, rests[m.key][0])
  {
    assert left[m] == multiset(Rest(rests, m.key))[m];
    var rest := Rest(rests, m.key);
    assert m in multiset(rest);
    var h := rest[0];
    assert h in multiset(rest);
    assert left[h] == multiset(Rest(rests, h.key))[h];
    forall e | e in left - multiset{h} ensures !HappensBefore(e, h) {
      assert e in left && Earlier(m, e);
      if h == m {
        assert !Coincide(h, e);
      } else {
        var p :| 0 <= p < |rest| && rest[p] == m;
        assert !HappensBefore(rest[p], rest[0]);
      }
    }
  }

  lemma SplitsTail(left: multiset<Entry>, rests: Rests, key: string)
    requires Splits(left, rests) && key in rests && rests[key] != [] && rests[key][0] in left
    ensures Splits(left - multiset{rests[key][0]}, rests[key := rests[key][1..]])
  {
    var rest := rests[key];
    var h := rest[0];
    assert h in rests[key] && h.key == key;
    var left', rests' := left - multiset{h}, rests[key := rest[1..]];
    assert rest == [h] + rest[1..];
    forall e: Entry ensures left'[e] == multiset(Rest(rests', e.key))[e] {
      assert left[e] == multiset(Rest(rests, e.key))[e];
      if e.key == key {
        assert multiset(rest) == multiset{h} + multiset(rest[1..]);
      }
    }
    forall k: string, e: Entry | k in rests' && e in rests'[k] ensures e.key == k {
      assert e in rests[k];
    }
  }

  lemma RestsTail(rests: Rests, store: map<string, string>, key: string)
    requires key in rests && rests[key] != [] && rests[key][0].key == key
    requires forall k :: k in rests ==> RealTime(rests[k]) && Explained(Lookup(store, k), rests[k])
    ensures ResultOk(Lookup(store, key), rests[key][0])
    ensures
      var rests', store' := rests[key := rests[key][1..]], StoreAfter(store, [rests[key][0]]);
      forall k :: k in rests' ==> RealTime(rests'[k]) && Explained(Lookup(store', k), rests'[k])
  {
    var rest := rests[key];
    assert [rest[0]] == rest[..1];
    var rests', store' := rests[key := rest[1..]], StoreAfter(store, rest[..1]);
    RealTimeHead(rest);
    ExplainedHead(Lookup(store, key), rest);
    forall k | k in rests' ensures RealTime(rests'[k]) && Explained(Lookup(store', k), rests'[k]) {
      LookupAfterHead(store, rest, k);
    }
  }

  lemma DropHead(left: multiset<Entry>, rests: Rests, store: map<string, string>, key: string)
    requires Placeable(left, rests, store) && key in rests && rests[key] != []
    requires rests[key][0] in left
    ensures rests[key][0].key == key && ResultOk(Lookup(store, key), rests[key][0])
    ensures Placeable(left - multiset{rests[key][0]}, rests[key := rests[key][1..]],
                      StoreAfter(store, [rests[key][0]]))
  {
    var h := rests[key][0];
    assert h in rests[key];
    SplitsTail(left, rests, key);
    RestsTail(rests, store, key);
    ApartTail(left, h);
  }

  lemma ApartTail(left: multiset<Entry>, h: Entry)
    requires Apart(left)
    ensures Apart(left - multiset{h})
  {
    var left' := left - multiset{h};
    forall a, b | a in left' && b in left' - multiset{a} ensures !Coincide(a, b) {
      assert b in left - multiset{a};
    }
  }

  // Any such split can be merged into one order.
  lemma {:induction false} Merge(left: multiset<Entry>, rests: Rests, store: map<string, string>)
    returns (order: seq<Entry>)
    requires Placeable(left, rests, store)
    ensures multiset(order) == left && RealTime(order) && StoreExplained(store, order)
    decreases |left|
  {
    if left == multiset{} {
      order := [];
    } else {
      var m := Earliest(left);
      HeadIsReady(left, rests, store, m);
      var h := rests[m.key][0];
      DropHead(left, rests, store, m.key);
      var tail := Merge(left - multiset{h}, rests[m.key := rests[m.key][1..]], StoreAfter(store, [h]));
      order := [h] + tail;
      Prepend(left, store, h, tail);
    }
  }

  lemma Prepend(left: multiset<Entry>, store: map<string, string>, h: Entry, tail: seq<Entry>)
    requires h in left && multiset(tail) == left - multiset{h}
    requires forall e :: e in left - multiset{h} ==> !HappensBefore(e, h)
    requires RealTime(tail) && StoreExplained(StoreAfter(store, [h]), tail)
    requires ResultOk(Lookup(store, h.key), h)
    ensures multiset([h] + tail) == left && RealTime([h] + tail) && StoreExplained(store, [h] + tail)
  {
    var order := [h] + tail;
    assert order[1..] == tail && order[..1] == [h];
    forall e | e in tail ensures !HappensBefore(e, h) {
      assert e in multiset(tail);
    }
    RealTimeHead(order);
    StoreExplainedHead(store, order);
  }

  function Keys(entries: seq<Entry>): set<string> {
    set e | e in entries :: e.key
  }

  ghost function ChosenOrder(entries: seq<Entry>): (order: seq<Entry>)
    requires KeyLinearizable(entries)
    ensures IsKeyOrder(entries, order)
  {
    var order :| IsKeyOrder(entries, order); order
  }

  lemma EntriesApart(entries: seq<Entry>)
    requires WellFormed(entries) && NoneCoincide(entries)
    ensures Apart(multiset(entries))
  {
    var left := multiset(entries);
    forall a, b | a in left && b in left - multiset{a} ensures !Coincide(a, b) {
      var i :| 0 <= i < |entries| && entries[i] == a;
      var j := OtherOccurrence(entries, i, b);
      assert !Coincide(entries[if i < j then i else j], entries[if i < j then j else i]);
    }
  }

  lemma EntriesSplit(entries: seq<Entry>, rests: Rests)
    requires rests.Keys == Keys(entries)
    requires forall key :: key in rests ==> multiset(rests[key]) == multiset(Sub(entries, key))
    ensures Splits(multiset(entries), rests)
  {
    forall e: Entry ensures multiset(entries)[e] == multiset(Rest(rests, e.key))[e] {
      SubCounts(entries, e.key, e);
    }
    forall key, e | key in rests && e in rests[key] ensures e.key == key {
      assert e in multiset(rests[key]);
      InSub(entries, key, e);
    }
  }

  lemma EveryKeyGivesGlobal(entries: seq<Entry>)
    requires WellFormed(entries) && NoneCoincide(entries) && EveryKeyLinearizable(entries)
    ensures Linearizable(entries)
  {
    var rests: Rests := map key | key in Keys(entries) :: ChosenOrder(Sub(entries, key));
    EntriesSplit(entries, rests);
    EntriesApart(entries);
    var order := Merge(multiset(entries), rests, map[]);
    assert IsGlobalOrder(entries, order);
  }

  // Locality, exactly: the per-key split decides the whole history unless two
  // operations of zero duration fall on the same instant.
  lemma Locality(entries: seq<Entry>)
    requires WellFormed(entries)
    ensures Linearizable(entries) <==> EveryKeyLinearizable(entries) && NoneCoincide(entries)
  {
    if Linearizable(entries) {
      var order :| IsGlobalOrder(entries, order);
      GlobalGivesEveryKey(entries);
      OrderedNoneCoincide(entries, order);
    }
    if EveryKeyLinearizable(entries) && NoneCoincide(entries) {
      EveryKeyGivesGlobal(entries);
    }
  }

  // With intervals of positive length the split is exact, as documented.
  lemma LocalityOfProperIntervals(entries: seq<Entry>)
    requires forall e :: e in entries ==> e.inv < e.ret
    ensures Linearizable(entries) <==> EveryKeyLinearizable(entries)
  {
    Locality(entries);
    forall i, j | 0 <= i < j < |entries| ensures !Coincide(entries[i], entries[j]) {
      assert entries[i] in entries;
    }
  }

  // The documented equivalence fails on two instantaneous writes to two keys.
  lemma LocalityCounterexample()
    ensures
      var entries := [Entry("a", Put, "1", "", 5, 5), Entry("b", Put, "2", "", 5, 5)];
      WellFormed(entries) && EveryKeyLinearizable(entries) && !Linearizable(entries)
  {
    var a, b := Entry("a", Put, "1", "", 5, 5), Entry("b", Put, "2", "", 5, 5);
    var entries := [a, b];
    assert "a"[0] != "b"[0];
    assert a.key == "a" && b.key == "b";
    forall key ensures KeyLinearizable(Sub(entries, key)) {
      SubHead(entries, key);
      SubHead([b], key);
      assert entries[1..] == [b] && [b][1..] == [];
      assert |Sub(entries, key)| <= 1;
      var sub := Sub(entries, key);
      forall i | 0 <= i < |sub| ensures ResultOk(ValueAfter("", sub[..i]), sub[i]) {
        InSub(entries, key, sub[i]);
      }
      assert IsKeyOrder(sub, sub);
    }
    assert Coincide(entries[0], entries[1]);
    Locality(entries);
  }

  /******* What these definitions mean, said without replaying *******/

  // The changes the operations make, reads left out.
  function ChangesOf(ops: seq<Entry>): seq<Change> {
    if ops == [] then []
    else
      var rest, e := ChangesOf(ops[..|ops| - 1]), ops[|ops| - 1];
      match e.kind
      case Get => rest
      case Put => rest + [Set(e.arg)]
      case Append => rest + [Add(e.arg)]
  }

  lemma {:induction false} ValueIsContent(ops: seq<Entry>)
    ensures ValueAfter("", ops) == Content(ChangesOf(ops))
  {
    if ops == [] {
      assert Joined([]) == "";
    } else {
      var rest, e := ops[..|ops| - 1], ops[|ops| - 1];
      ValueIsContent(rest);
      ContentAppend(ChangesOf(rest), if e.kind == Put then Set(e.arg) else Add(e.arg));
    }
  }

  lemma {:induction false} StoreIsContent(ops: seq<Entry>, key: string)
    ensures Lookup(StoreAfter(map[], ops), key) == Content(ChangesOf(Sub(ops, key)))
  {
    if ops == [] {
      assert Joined([]) == "";
    } else {
      var rest, e := ops[..|ops| - 1], ops[|ops| - 1];
      StoreIsContent(rest, key);
      var sub := Sub(rest, key);
      if e.key == key {
        assert (sub + [e])[..|sub|] == sub;
        ContentAppend(ChangesOf(sub), if e.kind == Put then Set(e.arg) else Add(e.arg));
      }
    }
  }

  // A legal order of one key's operations: none is placed before one that had
  // returned by the time it was invoked, and every Get returned the last Put
  // before it with the Appends after that Put.
  ghost predicate LegalOrder(entries: seq<Entry>, order: seq<Entry>) {
    && multiset(order) == multiset(entries)
    && (forall i, j :: 0 <= i < j < |order| ==> order[i].inv < order[j].ret)
    && (forall i :: 0 <= i < |order| && order[i].kind == Get ==> order[i].result == Content(ChangesOf(order[..i])))
  }

  lemma KeyLinearizableMeans(entries: seq<Entry>)
    ensures KeyLinearizable(entries) <==> exists order :: LegalOrder(entries, order)
  {
    forall order: seq<Entry> ensures IsKeyOrder(entries, order) <==> LegalOrder(entries, order) {
      LegalIsKeyOrder(entries, order);
    }
  }

  lemma LegalIsKeyOrder(entries: seq<Entry>, order: seq<Entry>)
    ensures IsKeyOrder(entries, order) <==> LegalOrder(entries, order)
  {
    forall i | 0 <= i < |order| ensures ValueAfter("", order[..i]) == Content(ChangesOf(order[..i])) {
      ValueIsContent(order[..i]);
    }
  }

  // The same for the whole history, key by key within one order.
  ghost predicate LegalHistoryOrder(entries: seq<Entry>, order: seq<Entry>) {
    && multiset(order) == multiset(entries)
    && (forall i, j :: 0 <= i < j < |order| ==> order[i].inv < order[j].ret)
    && (forall i :: 0 <= i < |order| && order[i].kind == Get ==>
          order[i].result == Content(ChangesOf(Sub(order[..i], order[i].key))))
  }

  lemma LinearizableMeans(entries: seq<Entry>)
    ensures Linearizable(entries) <==> exists order :: LegalHistoryOrder(entries, order)
  {
    forall order: seq<Entry> ensures IsGlobalOrder(entries, order) <==> LegalHistoryOrder(entries, order) {
      forall i | 0 <= i < |order|
        ensures Lookup(StoreAfter(map[], order[..i]), order[i].key) == Content(ChangesOf(Sub(order[..i], order[i].key)))
      {
        StoreIsContent(order[..i], order[i].key);
      }
    }
  }

  // Operations that never overlap have only the order they happened in.
  lemma {:induction false} SequentialHistory(entries: seq<Entry>, order: seq<Entry>)
    requires forall i, j :: 0 <= i < j < |entries| ==> entries[i].ret <= entries[j].inv
    requires multiset(order) == multiset(entries) && RealTime(order)
    ensures order == entries
    decreases |entries|
  {
    assert |multiset(order)| == |order| && |multiset(entries)| == |entries|;
    if entries != [] {
      FirstIsFirst(entries, order);
      assert order == [order[0]] + order[1..] && entries == [entries[0]] + entries[1..];
      assert multiset(order[1..]) == multiset(order) - multiset{order[0]};
      assert multiset(entries[1..]) == multiset(entries) - multiset{entries[0]};
      RealTimeHead(order);
      SequentialHistory(entries[1..], order[1..]);
    }
  }

  lemma FirstIsFirst(entries: seq<Entry>, order: seq<Entry>)
    requires entries != [] && |order| == |entries|
    requires forall i, j :: 0 <= i < j < |entries| ==> entries[i].ret <= entries[j].inv
    requires multiset(order) == multiset(entries) && RealTime(order)
    ensures order[0] == entries[0]
  {
    assert order[0] in multiset(entries) && entries[0] in multiset(order);
    var j :| 0 <= j < |entries| && entries[j] == order[0];
    var p :| 0 <= p < |order| && order[p] == entries[0];
    assert p > 0 ==> !HappensBefore(order[p], order[0]);
  }
}
