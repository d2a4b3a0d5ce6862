// When reads never go back: a Get begun after some moment is at least as new as
// the store was then, exactly unless an older value could still be hit or joined.
module CacheMonotone {
  import opened Lru
  import opened CacheCoherence
  import Paths

  // An older value of the key is cached, or held by a fetch a Get could join.
  ghost predicate OlderAround(w: World, key: string) {
    || (exists e :: e in w.order && e.key == key && e.value != Current(w, key))
    || (key in w.inflight && w.inflight[key] in w.flights && HasValue(w.flights[w.inflight[key]])
        && w.flights[w.inflight[key]].phase.value != Current(w, key))
  }

  /******* Nothing older around: every later Get is recent *******/

  // What the cache can still serve or hand over is a version from v on.
  ghost predicate PlacesSince(w: World, key: string, v: nat) {
    && v <= Version(w, key)
    && (forall e :: e in w.order && e.key == key ==> Recent(w, key, v, e.value))
    && (key in w.inflight && w.inflight[key] in w.flights && HasValue(w.flights[w.inflight[key]]) ==>
          Recent(w, key, v, w.flights[w.inflight[key]].phase.value))
  }

  // And so is what a Get not in `prior` has returned or is waiting for.
  ghost predicate ReadersSince(w: World, key: string, v: nat, prior: set<nat>) {
    forall r :: r in w.readers && r !in prior && w.readers[r].key == key ==> ReaderSince(w, v, w.readers[r])
  }

  ghost predicate Since(w: World, key: string, v: nat, prior: set<nat>) {
    PlacesSince(w, key, v) && ReadersSince(w, key, v, prior)
  }

  ghost predicate ReaderSince(w: World, v: nat, rd: Reader) {
    match rd
    case Returned(key, _, value) => Recent(w, key, v, value)
    case Retrying(_, _) => true
    case _ =>
      && rd.flight in w.flights
      && (HasValue(w.flights[rd.flight]) ==> Recent(w, rd.key, v, w.flights[rd.flight].phase.value))
  }

  lemma RecentGrows(w: World, w': World, key: string, v: nat, value: string)
    requires Recent(w, key, v, value) && History(w, key) <= History(w', key)
    ensures Recent(w', key, v, value)
  {
    var n: nat :| v <= n <= Version(w, key) && History(w, key)[n] == value;
    assert History(w', key)[n] == value;
  }

  lemma CurrentIsRecent(w: World, key: string, v: nat)
    requires v <= Version(w, key)
    ensures Recent(w, key, v, Current(w, key))
  {}

  // A reader whose flight keeps its value, or reads the current one, stays recent.
  lemma ReaderKeeps(w: World, w': World, v: nat, rd: Reader)
    requires ReaderSince(w, v, rd) && History(w, rd.key) <= History(w', rd.key) && v <= Version(w', rd.key)
    requires !rd.Returned? && !rd.Retrying? ==>
               && rd.flight in w'.flights
               && (HasValue(w'.flights[rd.flight]) ==>
                     || (&& HasValue(w.flights[rd.flight])
                         && w'.flights[rd.flight].phase.value == w.flights[rd.flight].phase.value)
                     || w'.flights[rd.flight].phase.value == Current(w', rd.key))
    ensures ReaderSince(w', v, rd)
  {
    CurrentIsRecent(w', rd.key, v);
    if rd.Returned? {
      RecentGrows(w, w', rd.key, v, rd.value);
    } else if !rd.Retrying? && HasValue(w.flights[rd.flight]) {
      RecentGrows(w, w', rd.key, v, w.flights[rd.flight].phase.value);
    }
  }

  // The Get that looks: it hits, joins or leads, and is recent in each case.
  lemma LookNew(w: World, p: Params, r: nat, k: string, now: int, f: nat, v: nat)
    requires FlightsOK(w) && PlacesSince(w, k, v) && f !in w.flights
    ensures ReaderSince(DoLook(w, p, r, k, now, f), v, DoLook(w, p, r, k, now, f).readers[r])
  {
    var w' := DoLook(w, p, r, k, now, f);
    var found := Find(w.order, k);
    FindIs(w.order, k);
    assert History(w', k) == History(w, k);
    if found != [] && Live(p, found[0], now) {
      RecentGrows(w, w', k, v, found[0].value);
    } else if k in w.inflight {
      assert w'.flights == w.flights;
      if HasValue(w.flights[w.inflight[k]]) {
        RecentGrows(w, w', k, v, w.flights[w.inflight[k]].phase.value);
      }
    }
  }

  lemma LookOthersSince(
    w: World, p: Params, r: nat, k: string, now: int, f: nat, key: string, v: nat, prior: set<nat>, x: nat)
    requires ReadersSince(w, key, v, prior) && v <= Version(w, key) && f !in w.flights
    requires x in w.readers && x !in prior && w.readers[x].key == key && x != r
    ensures ReaderSince(DoLook(w, p, r, k, now, f), v, w.readers[x])
  {
    var w' := DoLook(w, p, r, k, now, f);
    LookPlaces(w, p, r, k, now, f);
    assert History(w', key) == History(w, key);
    ReaderKeeps(w, w', v, w.readers[x]);
  }

  lemma LookPlacesSince(w: World, p: Params, r: nat, k: string, now: int, f: nat, key: string, v: nat)
    requires Within(w.order, p.capacity) && FlightsOK(w) && PlacesSince(w, key, v) && f !in w.flights
    ensures PlacesSince(DoLook(w, p, r, k, now, f), key, v)
  {
    var w' := DoLook(w, p, r, k, now, f);
    LookOrder(w, p, r, k, now, f);
    LookPlaces(w, p, r, k, now, f);
    assert History(w', key) == History(w, key);
    forall e | e in w'.order && e.key == key ensures Recent(w', key, v, e.value) {
      RecentGrows(w, w', key, v, e.value);
    }
    if key in w'.inflight && key in w.inflight && HasValue(w.flights[w.inflight[key]]) {
      RecentGrows(w, w', key, v, w.flights[w.inflight[key]].phase.value);
    }
  }

  lemma LookSince(w: World, p: Params, r: nat, k: string, now: int, f: nat, key: string, v: nat, prior: set<nat>)
    requires Within(w.order, p.capacity) && FlightsOK(w) && Since(w, key, v, prior)
    requires Enabled(w, Look(r, k, now, f))
    ensures Since(DoLook(w, p, r, k, now, f), key, v, prior)
  {
    var w' := DoLook(w, p, r, k, now, f);
    LookPlacesSince(w, p, r, k, now, f, key, v);
    if k == key {
      LookNew(w, p, r, k, now, f, v);
    }
    forall x | x in w'.readers && x !in prior && w'.readers[x].key == key ensures ReaderSince(w', v, w'.readers[x]) {
      if x != r {
        LookOthersSince(w, p, r, k, now, f, key, v, prior, x);
      }
    }
  }

  // Steps on one flight: it keeps its value or reads the current one.
  ghost predicate FlightTurns(w: World, w': World, f: nat) {
    && FlightMoves(w, w', f)
    && (HasValue(w'.flights[f]) ==>
          || (HasValue(w.flights[f]) && w'.flights[f].phase.value == w.flights[f].phase.value)
          || w'.flights[f].phase.value == Current(w, w.flights[f].key))
    && (forall key :: key in w'.inflight ==> key in w.inflight && w'.inflight[key] == w.inflight[key])
  }

  lemma FlightSince(w: World, p: Params, w': World, f: nat, key: string, v: nat, prior: set<nat>)
    requires Inv(w, p) && Since(w, key, v, prior) && FlightTurns(w, w', f)
    requires forall e :: e in w'.order && e.key == key ==>
               e in w.order || Recent(w, key, v, e.value)
    ensures Since(w', key, v, prior)
  {
    Alike(w, w');
    CurrentIsRecent(w', key, v);
    forall e | e in w'.order && e.key == key ensures Recent(w', key, v, e.value) {
      RecentGrows(w, w', key, v, e.value);
    }
    if key in w'.inflight && HasValue(w'.flights[w'.inflight[key]]) && HasValue(w.flights[w.inflight[key]]) {
      RecentGrows(w, w', key, v, w.flights[w.inflight[key]].phase.value);
    }
    forall x | x in w'.readers && x !in prior && w'.readers[x].key == key ensures ReaderSince(w', v, w'.readers[x]) {
      assert ReaderOK(w, w.readers[x]);
      ReaderKeeps(w, w', v, w.readers[x]);
    }
  }

  lemma RecordSince(w: World, p: Params, f: nat, key: string, v: nat, prior: set<nat>)
    requires Inv(w, p) && Since(w, key, v, prior) && Enabled(w, Record(f))
    ensures Since(DoRecord(w, p, f), key, v, prior)
  {
    var fl := w.flights[f];
    assert FlightOK(w, f, fl);
    InsertIs(w.order, p.capacity, Entry(fl.key, fl.phase.value, Expires(p, fl.start)));
    FlightSince(w, p, DoRecord(w, p, f), f, key, v, prior);
  }

  lemma WakeSince(w: World, p: Params, r: nat, key: string, v: nat, prior: set<nat>)
    requires Since(w, key, v, prior) && Enabled(w, Wake(r))
    ensures Since(DoWake(w, r), key, v, prior)
  {
    var w' := DoWake(w, r);
    assert History(w', key) == History(w, key);
    SamePlacesSince(w, w', key, v);
    forall x | x in w'.readers && x !in prior && w'.readers[x].key == key ensures ReaderSince(w', v, w'.readers[x]) {
      if x == r {
        WokenSince(w, r, v);
      } else {
        ReaderKeeps(w, w', v, w.readers[x]);
      }
    }
  }

  // A woken Get returns its flight's value, or tries again.
  lemma WokenSince(w: World, r: nat, v: nat)
    requires Enabled(w, Wake(r)) && ReaderSince(w, v, w.readers[r]) && r in DoWake(w, r).readers
    ensures ReaderSince(DoWake(w, r), v, DoWake(w, r).readers[r])
  {
    var rd := w.readers[r];
    var fl := w.flights[rd.flight];
    assert History(DoWake(w, r), rd.key) == History(w, rd.key);
    if fl.phase.Recorded? {
      RecentGrows(w, DoWake(w, r), rd.key, v, fl.phase.value);
    }
  }

  lemma SamePlacesSince(w: World, w': World, key: string, v: nat)
    requires PlacesSince(w, key, v) && History(w', key) == History(w, key)
    requires w'.order == w.order && w'.inflight == w.inflight && w'.flights == w.flights
    ensures PlacesSince(w', key, v)
  {
    forall e | e in w'.order && e.key == key ensures Recent(w', key, v, e.value) {
      RecentGrows(w, w', key, v, e.value);
    }
    if key in w.inflight && w.inflight[key] in w.flights && HasValue(w.flights[w.inflight[key]]) {
      RecentGrows(w, w', key, v, w.flights[w.inflight[key]].phase.value);
    }
  }

  // Steps of the writer: histories grow, and what is filled in is current.
  lemma WriterSince(w: World, p: Params, w': World, key: string, v: nat, prior: set<nat>)
    requires Inv(w, p) && Since(w, key, v, prior) && History(w, key) <= History(w', key)
    requires w'.readers == w.readers && w'.flights.Keys == w.flights.Keys
    requires forall f :: f in w.flights ==> w'.flights[f].phase == w.flights[f].phase
    requires key in w'.inflight ==> key in w.inflight && w'.inflight[key] == w.inflight[key]
    requires forall e :: e in w'.order && e.key == key ==> e in w.order || e.value == Current(w', key)
    ensures Since(w', key, v, prior)
  {
    CurrentIsRecent(w', key, v);
    forall e | e in w'.order && e.key == key ensures Recent(w', key, v, e.value) {
      if e in w.order {
        RecentGrows(w, w', key, v, e.value);
      }
    }
    if key in w'.inflight && HasValue(w.flights[w.inflight[key]]) {
      RecentGrows(w, w', key, v, w.flights[w.inflight[key]].phase.value);
    }
    forall x | x in w'.readers && x !in prior && w'.readers[x].key == key ensures ReaderSince(w', v, w'.readers[x]) {
      assert ReaderOK(w, w.readers[x]);
      ReaderKeeps(w, w', v, w.readers[x]);
    }
  }

  lemma TouchSince(w: World, p: Params, key: string, v: nat, prior: set<nat>)
    requires Inv(w, p) && Since(w, key, v, prior) && Enabled(w, TouchCache)
    ensures Since(DoTouch(w, p), key, v, prior)
  {
    var w', x := DoTouch(w, p), w.writer.write;
    TouchStore(w, p);
    AllMarked(w, x.key);
    RemoveIs(w.order, x.key);
    InsertIs(w.order, p.capacity, Entry(x.key, x.value, Expires(p, w.writer.start)));
    WriterSince(w, p, w', key, v, prior);
  }

  lemma SinceStep(w: World, p: Params, step: Step, key: string, v: nat, prior: set<nat>)
    requires Inv(w, p) && Since(w, key, v, prior) && Enabled(w, step)
    ensures Since(Take(w, p, step), key, v, prior)
  {
    match step
    case Look(r, k, now, f) => LookSince(w, p, r, k, now, f, key, v, prior);
    case Fetch(f) => FlightSince(w, p, Take(w, p, step), f, key, v, prior);
    case Fail(f) => FlightSince(w, p, Take(w, p, step), f, key, v, prior);
    case Record(f) => RecordSince(w, p, f, key, v, prior);
    case Close(f) => FlightSince(w, p, DoClose(w, f), f, key, v, prior);
    case Wake(r) => WakeSince(w, p, r, key, v, prior);
    case BeginWrite(_, _) => WriterSince(w, p, Take(w, p, step), key, v, prior);
    case LandWrite =>
      LandGrows(w, p);
      WriterSince(w, p, Take(w, p, step), key, v, prior);
    case TouchCache => TouchSince(w, p, key, v, prior);
  }

  lemma NothingOlder(w: World, p: Params, key: string)
    requires Inv(w, p) && !OlderAround(w, key)
    ensures Since(w, key, Version(w, key), w.readers.Keys)
  {
    CurrentIsRecent(w, key, Version(w, key));
  }

  /******* Something older around: some later Get goes back *******/

  // A fetch that could be joined has its key uncached until it is recorded, and
  // then any cached value of the key is its own.
  ghost predicate Attached(w: World) {
    forall key {:trigger w.inflight[key]} :: key in w.inflight && w.inflight[key] in w.flights ==>
      AttachedAt(w, key, w.flights[w.inflight[key]].phase)
  }

  ghost predicate AttachedAt(w: World, key: string, phase: Phase) {
    forall e :: e in w.order && e.key == key ==> phase.Recorded? && e.value == phase.value
  }

  lemma AttachedLook(w: World, p: Params, r: nat, k: string, now: int, f: nat)
    requires Inv(w, p) && Attached(w) && Enabled(w, Look(r, k, now, f))
    ensures Attached(DoLook(w, p, r, k, now, f))
  {
    var w' := DoLook(w, p, r, k, now, f);
    LookOrder(w, p, r, k, now, f);
    LookPlaces(w, p, r, k, now, f);
    RemoveIs(w.order, k);
    forall key | key in w'.inflight && w'.inflight[key] in w'.flights
      ensures AttachedAt(w', key, w'.flights[w'.inflight[key]].phase)
    {
      if key in w.inflight {
        assert AttachedAt(w, key, w.flights[w.inflight[key]].phase);
      }
    }
  }

  lemma AttachedRecord(w: World, p: Params, f: nat)
    requires Inv(w, p) && Attached(w) && Enabled(w, Record(f))
    ensures Attached(DoRecord(w, p, f))
  {
    var w', fl := DoRecord(w, p, f), w.flights[f];
    assert FlightOK(w, f, fl);
    InsertIs(w.order, p.capacity, Entry(fl.key, fl.phase.value, Expires(p, fl.start)));
    forall key | key in w'.inflight && w'.inflight[key] in w'.flights
      ensures AttachedAt(w', key, w'.flights[w'.inflight[key]].phase)
    {
      assert AttachedAt(w, key, w.flights[w.inflight[key]].phase);
    }
  }

  lemma AttachedTouch(w: World, p: Params)
    requires Inv(w, p) && Attached(w) && Enabled(w, TouchCache)
    ensures Attached(DoTouch(w, p))
  {
    var w', x := DoTouch(w, p), w.writer.write;
    AllMarked(w, x.key);
    RemoveIs(w.order, x.key);
    InsertIs(w.order, p.capacity, Entry(x.key, x.value, Expires(p, w.writer.start)));
    forall key | key in w'.inflight && w'.inflight[key] in w'.flights
      ensures AttachedAt(w', key, w'.flights[w'.inflight[key]].phase)
    {
      assert AttachedAt(w, key, w.flights[w.inflight[key]].phase);
    }
  }

  // The other steps leave the cache alone and attach nothing.
  lemma AttachedElse(w: World, p: Params, step: Step)
    requires Inv(w, p) && Attached(w) && Enabled(w, step)
    requires !step.Look? && !step.Record? && !step.TouchCache?
    ensures Attached(Take(w, p, step))
  {
    AttachesNothing(w, p, step);
    var w' := Take(w, p, step);
    forall key | key in w'.inflight && w'.inflight[key] in w'.flights
      ensures AttachedAt(w', key, w'.flights[w'.inflight[key]].phase)
    {
      assert AttachedAt(w, key, w.flights[w.inflight[key]].phase);
    }
  }

  lemma AttachesNothing(w: World, p: Params, step: Step)
    requires Enabled(w, step) && !step.Look? && !step.Record? && !step.TouchCache?
    ensures
      var w' := Take(w, p, step);
      && w'.order == w.order && w'.flights.Keys == w.flights.Keys
      && (forall key :: key in w'.inflight ==> key in w.inflight && w'.inflight[key] == w.inflight[key])
      && (forall f :: f in w.flights && w.flights[f].phase.Recorded? ==> w'.flights[f].phase == w.flights[f].phase)
  {}

  lemma AttachedStep(w: World, p: Params, step: Step)
    requires Inv(w, p) && Attached(w) && Enabled(w, step)
    ensures Attached(Take(w, p, step))
  {
    match step
    case Look(r, k, now, f) => AttachedLook(w, p, r, k, now, f);
    case Record(f) => AttachedRecord(w, p, f);
    case TouchCache => AttachedTouch(w, p);
    case _ => AttachedElse(w, p, step);
  }

  lemma {:induction false} RunAttached(run: seq<World>, p: Params, i: nat)
    requires IsRun(run, p) && i < |run|
    ensures Attached(run[i])
  {
    if i > 0 {
      RunAttached(run, p, i - 1);
      RunInv(run, p, i - 1);
      assert StepAt(run, p, i);
      FollowsAttached(run[i - 1], p, run[i]);
    }
  }

  lemma FollowsAttached(w: World, p: Params, w': World)
    requires Inv(w, p) && Attached(w) && Follows(w, p, w')
    ensures Attached(w')
  {
    var step :| Enabled(w, step) && w' == Take(w, p, step);
    AttachedStep(w, p, step);
  }

  ghost function Next(p: Params): (World, World) -> bool { (w, w') => Follows(w, p, w') }

  ghost predicate Later(p: Params, w: World, w': World) { Paths.Reaches(Next(p), w, w') }

  lemma Then(p: Params, a: World, w: World, step: Step)
    requires Later(p, a, w) && Enabled(w, step)
    ensures Later(p, a, Take(w, p, step))
  {
    assert Follows(w, p, Take(w, p, step));
    Paths.Then(Next(p), a, w, Take(w, p, step));
  }

  // In w', a Get of the key not begun at w has returned a value older than any
  // the store has had since.
  ghost predicate WentBack(w: World, w': World, key: string, r: nat) {
    && r !in w.readers && r in w'.readers && w'.readers[r].Returned? && w'.readers[r].key == key
    && !Recent(w', key, Version(w, key), w'.readers[r].value)
  }

  lemma NotCurrentIsOld(w: World, w': World, key: string, value: string)
    requires History(w', key) == History(w, key) && value != Current(w, key)
    ensures !Recent(w', key, Version(w, key), value)
  {}

  lemma FreshId(used: set<nat>) returns (n: nat)
    ensures n !in used
  {
    n := Bound(used);
  }

  lemma {:induction false} Bound(used: set<nat>) returns (n: nat)
    ensures forall x :: x in used ==> x < n
  {
    n := 0;
    if used != {} {
      var m :| m in used;
      var k := Bound(used - {m});
      n := if k > m then k else m + 1;
      forall x | x in used ensures x < n {
        assert x == m || x in used - {m};
      }
    }
  }

  // An older cached value: a Get hits it.
  lemma HitGoesBack(w: World, p: Params, key: string, e: Entry) returns (w': World, r: nat)
    requires Inv(w, p) && e in w.order && e.key == key && e.value != Current(w, key)
    ensures Later(p, w, w') && WentBack(w, w', key, r)
  {
    r := FreshId(w.readers.Keys);
    var f := FreshId(w.flights.Keys);
    var i :| 0 <= i < |w.order| && w.order[i] == e;
    FindAt(w.order, i);
    var step := Look(r, key, e.expires - 1, f);
    Paths.Here(Next(p), w);
    Then(p, w, w, step);
    w' := DoLook(w, p, r, key, e.expires - 1, f);
    NotCurrentIsOld(w, w', key, e.value);
  }

  // An older value in a fetch that can be joined: a Get joins and is woken with it.
  lemma JoinGoesBack(w: World, p: Params, key: string) returns (w': World, r: nat)
    requires Inv(w, p) && Attached(w) && key !in Keys(w.order)
    requires key in w.inflight && HasValue(w.flights[w.inflight[key]])
    requires w.flights[w.inflight[key]].phase.value != Current(w, key)
    ensures Later(p, w, w') && WentBack(w, w', key, r)
  {
    r := FreshId(w.readers.Keys);
    var f := w.inflight[key];
    var g := FreshId(w.flights.Keys);
    var value := w.flights[f].phase.value;
    FindIs(w.order, key);
    Paths.Here(Next(p), w);
    Then(p, w, w, Look(r, key, 0, g));
    var w1 := DoLook(w, p, r, key, 0, g);
    assert w1.readers[r] == Waiting(key, Floor(w, key), f) && w1.flights == w.flights;
    var w2 := w1;
    if w1.flights[f].phase.Fetched? {
      Then(p, w, w1, Record(f));
      w2 := DoRecord(w1, p, f);
    }
    assert w2.flights[f].phase.Recorded? && w2.flights[f].phase.value == value && !w2.flights[f].closed;
    assert w2.readers == w1.readers;
    Then(p, w, w2, Close(f));
    var w3 := DoClose(w2, f);
    assert w3.readers == w1.readers && w3.flights[f] == w2.flights[f].(closed := true);
    Then(p, w, w3, Wake(r));
    w' := DoWake(w3, r);
    assert w'.store == w.store;
    NotCurrentIsOld(w, w', key, value);
  }

  lemma OlderGoesBack(w: World, p: Params, key: string) returns (w': World, r: nat)
    requires Inv(w, p) && Attached(w) && OlderAround(w, key)
    ensures Later(p, w, w') && WentBack(w, w', key, r)
  {
    if e :| e in w.order && e.key == key && e.value != Current(w, key) {
      w', r := HitGoesBack(w, p, key, e);
    } else {
      assert AttachedAt(w, key, w.flights[w.inflight[key]].phase);
      assert key !in Keys(w.order);
      w', r := JoinGoesBack(w, p, key);
    }
  }

  /******* Theorems *******/

  lemma {:induction false} PathSince(path: seq<World>, p: Params, i: nat, key: string, v: nat, prior: set<nat>)
    requires Paths.IsPath(Next(p), path) && i < |path|
    requires Inv(path[0], p) && Since(path[0], key, v, prior)
    ensures Inv(path[i], p) && Since(path[i], key, v, prior)
  {
    if i > 0 {
      PathSince(path, p, i - 1, key, v, prior);
      assert Paths.StepOf(Next(p), path, i);
      FollowsSince(path[i - 1], p, path[i], key, v, prior);
    }
  }

  lemma FollowsSince(w: World, p: Params, w': World, key: string, v: nat, prior: set<nat>)
    requires Inv(w, p) && Since(w, key, v, prior) && Follows(w, p, w')
    ensures Inv(w', p) && Since(w', key, v, prior)
  {
    var step :| Enabled(w, step) && w' == Take(w, p, step);
    SinceStep(w, p, step, key, v, prior);
    TakeInv(w, p, step);
  }

  lemma NeverOlder(w: World, p: Params, w': World, key: string, r: nat)
    requires Inv(w, p) && !OlderAround(w, key) && Later(p, w, w')
    ensures !WentBack(w, w', key, r)
  {
    var path :| Paths.IsPath(Next(p), path) && path[0] == w && path[|path| - 1] == w';
    NothingOlder(w, p, key);
    PathSince(path, p, |path| - 1, key, Version(w, key), w.readers.Keys);
  }

  // From any reachable state: no Get begun later ever goes back behind what the
  // store holds now, exactly if no older value can be hit or joined now.
  lemma NeverBackIff(run: seq<World>, p: Params, j: nat, key: string)
    requires IsRun(run, p) && j < |run|
    ensures (forall w', r {:trigger WentBack(run[j], w', key, r)} ::
               Later(p, run[j], w') ==> !WentBack(run[j], w', key, r))
            <==> !OlderAround(run[j], key)
  {
    RunInv(run, p, j);
    RunAttached(run, p, j);
    if OlderAround(run[j], key) {
      var w', r := OlderGoesBack(run[j], p, key);
    } else {
      forall w', r | Later(p, run[j], w') ensures !WentBack(run[j], w', key, r) {
        NeverOlder(run[j], p, w', key, r);
      }
    }
  }

  // An older value is around only while a write to the key has landed and not
  // returned.
  lemma OlderOnlyWhilePending(w: World, p: Params, key: string)
    requires Inv(w, p) && OlderAround(w, key)
    ensures Pending(w, key)
  {
    if e :| e in w.order && e.key == key && e.value != Current(w, key) {
      assert FreshValue(w, key, e.value);
    } else {
      var f := w.inflight[key];
      assert FlightOK(w, f, w.flights[f]);
    }
  }

  // So two Gets of a key, one after the other: with no write pending when the
  // first has returned, the second is at least as new as the store was then, and
  // with one pending it is at most that one version older.
  lemma SecondReadIsNewer(run: seq<World>, p: Params, j: nat, k: nat, r: nat)
    requires IsRun(run, p) && j <= k < |run| && r !in run[j].readers
    requires r in run[k].readers && run[k].readers[r].Returned?
    ensures
      var key, value := run[k].readers[r].key, run[k].readers[r].value;
      && (!Pending(run[j], key) ==> Recent(run[k], key, Version(run[j], key), value))
      && (Pending(run[j], key) ==>
            Version(run[j], key) > 0 && Recent(run[k], key, Version(run[j], key) - 1, value))
  {
    ReadsSeeReturnedWrites(run, p, j, k, r);
    assert WriterOK(run[j]) by { RunInv(run, p, j); }
  }
}
