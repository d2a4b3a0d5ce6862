// A run in which reads do go back: two Gets, one after the other, see a write and
// then not, because the first one's fetch was detached by an earlier write and
// the second one's fill was not yet marked by this one.
module CacheInversion {
  import opened Lru
  import opened CacheCoherence
  import opened CacheMonotone
  import Paths

  const P := Params(1, 0, WriteInvalidate)

  // Reader 1 leads a fetch that the first write detaches.
  function Detached(): World {
    World(map["k" := ["", "a"]], [], map[],
          map[1 := Flight("k", 0, Started, true, false)],
          map[1 := Leading("k", 0, 1)], Idle, map["k" := 1])
  }

  // Reader 2 has fetched the first value, and the second write has landed.
  function SecondLanded(): World {
    World(map["k" := ["", "a", "b"]], [], map["k" := 2],
          map[1 := Flight("k", 0, Started, true, false), 2 := Flight("k", 0, Fetched("a", 1), false, false)],
          map[1 := Leading("k", 0, 1), 2 := Leading("k", 1, 2)], Landed(Write.Put("k", "b"), 0), map["k" := 1])
  }

  // Reader 1 has returned the second value.
  function FirstReturned(): World {
    World(map["k" := ["", "a", "b"]], [], map["k" := 2],
          map[1 := Flight("k", 0, Recorded("b", 2), true, true), 2 := Flight("k", 0, Fetched("a", 1), false, false)],
          map[1 := Returned("k", 0, "b"), 2 := Leading("k", 1, 2)], Landed(Write.Put("k", "b"), 0), map["k" := 1])
  }

  // Reader 3, begun after that, has returned the first value.
  function SecondReturned(): World {
    World(map["k" := ["", "a", "b"]], [Entry("k", "a", 0)], map["k" := 2],
          map[1 := Flight("k", 0, Recorded("b", 2), true, true), 2 := Flight("k", 0, Recorded("a", 1), false, false)],
          map[1 := Returned("k", 0, "b"), 2 := Leading("k", 1, 2), 3 := Returned("k", 1, "a")],
          Landed(Write.Put("k", "b"), 0), map["k" := 1])
  }

  lemma ToDetached()
    ensures Later(P, Initial, Detached())
  {
    Paths.Here(Next(P), Initial);
    var w1 := DoLook(Initial, P, 1, "k", 0, 1);
    assert w1.flights == map[1 := Flight("k", 0, Started, false, false)] && w1.inflight == map["k" := 1];
    assert w1.order == [] && w1.readers == map[1 := Leading("k", 0, 1)];
    Then(P, Initial, Initial, Look(1, "k", 0, 1));
    var w2 := w1.(writer := Calling(Write.Put("k", "a"), 0));
    Then(P, Initial, w1, BeginWrite(Write.Put("k", "a"), 0));
    var w3 := w2.(writer := Landed(Write.Put("k", "a"), 0), store := map["k" := ["", "a"]]);
    assert [""] + ["a"] == ["", "a"];
    assert w2.store["k" := ["", "a"]] == map["k" := ["", "a"]];
    assert Take(w2, P, LandWrite) == w3;
    Then(P, Initial, w2, LandWrite);
    assert DoTouch(w3, P) == Detached();
    Then(P, Initial, w3, TouchCache);
  }

  lemma ToSecondLanded()
    ensures Later(P, Initial, SecondLanded())
  {
    ToDetached();
    var w0 := Detached();
    var w1 := DoLook(w0, P, 2, "k", 0, 2);
    assert w1.flights == w0.flights[2 := Flight("k", 0, Started, false, false)] && w1.inflight == map["k" := 2];
    assert w1.order == [] && w1.readers == w0.readers[2 := Leading("k", 1, 2)];
    Then(P, Initial, w0, Look(2, "k", 0, 2));
    var w2 := w1.(flights := w0.flights[2 := Flight("k", 0, Fetched("a", 1), false, false)]);
    assert Take(w1, P, Fetch(2)) == w2;
    Then(P, Initial, w1, Fetch(2));
    var w3 := w2.(writer := Calling(Write.Put("k", "b"), 0));
    Then(P, Initial, w2, BeginWrite(Write.Put("k", "b"), 0));
    assert ["", "a"] + ["b"] == ["", "a", "b"];
    assert w3.store["k" := ["", "a", "b"]] == SecondLanded().store;
    assert w3.flights == SecondLanded().flights && w3.readers == SecondLanded().readers;
    assert Take(w3, P, LandWrite) == SecondLanded();
    Then(P, Initial, w3, LandWrite);
  }

  lemma ToFirstReturned()
    ensures Later(P, Initial, FirstReturned())
  {
    ToSecondLanded();
    var w0 := SecondLanded();
    var w1 := w0.(flights := w0.flights[1 := Flight("k", 0, Fetched("b", 2), true, false)]);
    assert Take(w0, P, Fetch(1)) == w1;
    Then(P, Initial, w0, Fetch(1));
    var w2 := w0.(flights := w0.flights[1 := Flight("k", 0, Recorded("b", 2), true, false)]);
    assert DoRecord(w1, P, 1) == w2;
    Then(P, Initial, w1, Record(1));
    var w3 := w0.(flights := FirstReturned().flights);
    assert DoClose(w2, 1) == w3;
    Then(P, Initial, w2, Close(1));
    assert DoWake(w3, 1) == FirstReturned();
    Then(P, Initial, w3, Wake(1));
  }

  lemma ToSecondReturned()
    ensures Later(P, FirstReturned(), SecondReturned())
  {
    var w0 := FirstReturned();
    Paths.Here(Next(P), w0);
    var e := Entry("k", "a", 0);
    var w1 := w0.(flights := SecondReturned().flights, order := [e]);
    assert Insert([], 1, e) == [e];
    assert DoRecord(w0, P, 2) == w1;
    Then(P, w0, w0, Record(2));
    assert Find([e], "k") == [e] && Remove([e], "k") == [] && Touch([e], "k") == [e];
    assert DoLook(w1, P, 3, "k", 0, 3) == SecondReturned();
    Then(P, w0, w1, Look(3, "k", 0, 3));
  }

  // Reader 1 has returned "b" and reader 3 has not begun; later it returns "a",
  // the older value: the write of "b" was pending, and so an older value around.
  lemma GetsMayGoBack()
    ensures Later(P, Initial, FirstReturned()) && Later(P, FirstReturned(), SecondReturned())
    ensures FirstReturned().readers[1] == Returned("k", 0, "b")
    ensures SecondReturned().readers[3] == Returned("k", 1, "a")
    ensures WentBack(FirstReturned(), SecondReturned(), "k", 3)
    ensures Pending(FirstReturned(), "k") && OlderAround(FirstReturned(), "k")
  {
    ToFirstReturned();
    ToSecondReturned();
    NotCurrentIsOld(FirstReturned(), SecondReturned(), "k", "a");
  }
}
