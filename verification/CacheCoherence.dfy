// The cache under concurrency: readers, coalesced fetches and one writer at a
// time, interleaving at every point where the code drops its lock or calls the
// store.  The store is atomic and all writes go through this cache.
module CacheCoherence {
  import opened Lru
  import Register

  datatype Phase = Started | Fetched(value: string, ver: nat) | Recorded(value: string, ver: nat) | Failed

  // One store fetch.  ver is the store version it read: how many writes to the
  // key had landed.
  datatype Flight = Flight(key: string, start: int, phase: Phase, stale: bool, closed: bool)

  // `floor` is how many writes to the key had returned when the Get began.
  datatype Reader =
    | Leading(key: string, floor: nat, flight: nat)
    | Waiting(key: string, floor: nat, flight: nat)
    | Retrying(key: string, floor: nat)
    | Returned(key: string, floor: nat, value: string)

  datatype Write = Put(key: string, value: string) | Append(key: string, value: string)

  // The holder of writeMu, before and after its store call.
  datatype Writer = Idle | Calling(write: Write, start: int) | Landed(write: Write, start: int)

  datatype World = World(
    store: map<string, seq<string>>,  // key -> every value it has had
    order: Order,
    inflight: map<string, nat>,
    flights: map<nat, Flight>,
    readers: map<nat, Reader>,
    writer: Writer,
    returned: map<string, nat>)       // key -> writes that have returned

  datatype Params = Params(capacity: nat, ttl: nat, policy: Policy)

  function History(w: World, key: string): (h: seq<string>)
    ensures h != []
  {
    if key in w.store && w.store[key] != [] then w.store[key] else [""]
  }

  // Versions count landed writes; version 0 is the absent key's "".
  function Version(w: World, key: string): nat { |History(w, key)| - 1 }

  function Current(w: World, key: string): string { History(w, key)[Version(w, key)] }

  function Floor(w: World, key: string): nat {
    if key in w.returned then w.returned[key] else 0
  }

  datatype Step =
    | Look(reader: nat, key: string, now: int, flight: nat)
    | Fetch(flight: nat)
    | Fail(flight: nat)
    | Record(flight: nat)
    | Close(flight: nat)
    | Wake(reader: nat)
    | BeginWrite(write: Write, start: int)
    | LandWrite
    | TouchCache

  const Initial := World(map[], [], map[], map[], map[], Idle, map[])

  predicate Enabled(w: World, step: Step) {
    match step
    case Look(r, key, _, f) =>
      f !in w.flights && (r !in w.readers || (w.readers[r].Retrying? && w.readers[r].key == key))
    case Fetch(f) => f in w.flights && w.flights[f].phase.Started?
    case Fail(f) => f in w.flights && w.flights[f].phase.Started?
    case Record(f) => f in w.flights && w.flights[f].phase.Fetched?
    case Close(f) =>
      f in w.flights && !w.flights[f].closed && (w.flights[f].phase.Recorded? || w.flights[f].phase.Failed?)
    case Wake(r) =>
      r in w.readers && !w.readers[r].Retrying? && !w.readers[r].Returned?
      && w.readers[r].flight in w.flights && w.flights[w.readers[r].flight].closed
    case BeginWrite(_, _) => w.writer.Idle?
    case LandWrite => w.writer.Calling?
    case TouchCache => w.writer.Landed?
  }

  function Expires(p: Params, start: int): int { if p.ttl > 0 then start + p.ttl else 0 }

  predicate Live(p: Params, e: Entry, now: int) { p.ttl == 0 || now < e.expires }

  // The locked section of Get: hit, join, or lead a new fetch.
  function DoLook(w: World, p: Params, r: nat, key: string, now: int, f: nat): World {
    var floor := if r in w.readers then w.readers[r].floor else Floor(w, key);
    var found := Find(w.order, key);
    if found != [] && Live(p, found[0], now) then
      w.(order := Touch(w.order, key), readers := w.readers[r := Returned(key, floor, found[0].value)])
    else if key in w.inflight then
      w.(order := Remove(w.order, key), readers := w.readers[r := Waiting(key, floor, w.inflight[key])])
    else
      w.(order := Remove(w.order, key),
         inflight := w.inflight[key := f],
         flights := w.flights[f := Flight(key, now, Started, false, false)],
         readers := w.readers[r := Leading(key, floor, f)])
  }

  // Record the value and, unless a write marked the fetch stale, cache it.
  function DoRecord(w: World, p: Params, f: nat): World
    requires f in w.flights && w.flights[f].phase.Fetched?
  {
    var fl := w.flights[f];
    var v := fl.phase.value;
    w.(flights := w.flights[f := fl.(phase := Recorded(v, fl.phase.ver))],
       order := if fl.stale then w.order else Insert(w.order, p.capacity, Entry(fl.key, v, Expires(p, fl.start))))
  }

  // A write may already have detached the flight.
  function DoClose(w: World, f: nat): World
    requires f in w.flights
  {
    var fl := w.flights[f];
    w.(inflight := if fl.key in w.inflight && w.inflight[fl.key] == f then w.inflight - {fl.key} else w.inflight,
       flights := w.flights[f := fl.(closed := true)])
  }

  // The leader returns or dies with the panic; a waiter returns or tries again.
  function DoWake(w: World, r: nat): World
    requires Enabled(w, Wake(r))
  {
    var rd := w.readers[r];
    var fl := w.flights[rd.flight];
    if fl.phase.Recorded? then w.(readers := w.readers[r := Returned(rd.key, rd.floor, fl.phase.value)])
    else if rd.Waiting? then w.(readers := w.readers[r := Retrying(rd.key, rd.floor)])
    else w.(readers := w.readers - {r})
  }

  function NewValue(w: World, x: Write): string {
    match x
    case Put(_, value) => value
    case Append(key, value) => Current(w, key) + value
  }

  // After the store call: mark and detach any fetch, then fill or invalidate.
  function DoTouch(w: World, p: Params): World
    requires w.writer.Landed?
  {
    var x := w.writer.write;
    MarkStale(w, x.key).(
      writer := Idle,
      returned := w.returned[x.key := Version(w, x.key)],
      order := if x.Put? && p.policy == WriteThrough
               then Insert(w.order, p.capacity, Entry(x.key, x.value, Expires(p, w.writer.start)))
               else Remove(w.order, x.key))
  }

  // An attached fetch may have read the old value: not to be cached, nor joined.
  function MarkStale(w: World, key: string): World {
    if key in w.inflight && w.inflight[key] in w.flights then
      var f := w.inflight[key];
      w.(inflight := w.inflight - {key}, flights := w.flights[f := w.flights[f].(stale := true)])
    else w
  }

  function Take(w: World, p: Params, step: Step): World
    requires Enabled(w, step)
  {
    match step
    case Look(r, key, now, f) => DoLook(w, p, r, key, now, f)
    case Fetch(f) =>
      var fl := w.flights[f];
      w.(flights := w.flights[f := fl.(phase := Fetched(Current(w, fl.key), Version(w, fl.key)))])
    case Fail(f) => w.(flights := w.flights[f := w.flights[f].(phase := Failed)])
    case Record(f) => DoRecord(w, p, f)
    case Close(f) => DoClose(w, f)
    case Wake(r) => DoWake(w, r)
    case BeginWrite(x, start) => w.(writer := Calling(x, start))
    case LandWrite =>
      var x := w.writer.write;
      w.(writer := Landed(x, w.writer.start), store := w.store[x.key := History(w, x.key) + [NewValue(w, x)]])
    case TouchCache => DoTouch(w, p)
  }

  ghost predicate IsRun(run: seq<World>, p: Params) {
    && p.capacity > 0 && run != [] && run[0] == Initial
    && forall i {:trigger StepAt(run, p, i)} :: 0 < i < |run| ==> StepAt(run, p, i)
  }

  ghost predicate StepAt(run: seq<World>, p: Params, i: nat)
    requires 0 < i < |run|
  {
    Follows(run[i - 1], p, run[i])
  }

  ghost predicate Follows(w: World, p: Params, w': World) {
    exists step :: Enabled(w, step) && w' == Take(w, p, step)
  }

  /******* The invariant *******/

  // A write to the key has landed in the store but not yet touched the cache.
  predicate Pending(w: World, key: string) {
    w.writer.Landed? && w.writer.write.key == key
  }

  // Version v of the key is the store's, or the one just before a pending write.
  predicate Fresh(w: World, key: string, v: nat) {
    v == Version(w, key) || (Pending(w, key) && v + 1 == Version(w, key))
  }

  ghost predicate FreshValue(w: World, key: string, value: string) {
    exists v: nat :: v <= Version(w, key) && Fresh(w, key, v) && History(w, key)[v] == value
  }

  // Some version between floor and now.
  ghost predicate Recent(w: World, key: string, floor: nat, value: string) {
    exists v: nat :: floor <= v <= Version(w, key) && History(w, key)[v] == value
  }

  // Writes are one at a time: all that have landed have returned, but for one.
  ghost predicate WriterOK(w: World) {
    && (forall key :: Version(w, key) == Floor(w, key) + if Pending(w, key) then 1 else 0)
    && (w.writer.Landed? && w.writer.write.Put? ==> w.writer.write.value == Current(w, w.writer.write.key))
  }

  ghost predicate EntriesOK(w: World, p: Params) {
    Within(w.order, p.capacity) && forall e :: e in w.order ==> FreshValue(w, e.key, e.value)
  }

  predicate HasValue(fl: Flight) { fl.phase.Fetched? || fl.phase.Recorded? }

  ghost predicate FlightOK(w: World, f: nat, fl: Flight) {
    && (HasValue(fl) ==> fl.phase.ver <= Version(w, fl.key) && History(w, fl.key)[fl.phase.ver] == fl.phase.value)
    && (fl.closed ==> fl.phase.Recorded? || fl.phase.Failed?)
    && (!fl.closed && !fl.stale ==> fl.key in w.inflight && w.inflight[fl.key] == f)
    && (!fl.stale && !fl.closed && HasValue(fl) ==> Fresh(w, fl.key, fl.phase.ver))
  }

  ghost predicate FlightsOK(w: World) {
    && (forall f :: f in w.flights ==> FlightOK(w, f, w.flights[f]))
    && (forall key :: key in w.inflight ==>
          && w.inflight[key] in w.flights && w.flights[w.inflight[key]].key == key
          && !w.flights[w.inflight[key]].stale && !w.flights[w.inflight[key]].closed)
  }

  ghost predicate ReaderOK(w: World, rd: Reader) {
    match rd
    case Returned(key, floor, value) => Recent(w, key, floor, value)
    case Retrying(key, floor) => floor <= Floor(w, key)
    case _ =>
      && rd.flight in w.flights && w.flights[rd.flight].key == rd.key && rd.floor <= Floor(w, rd.key)
      && (HasValue(w.flights[rd.flight]) ==> rd.floor <= w.flights[rd.flight].phase.ver)
  }

  ghost predicate ReadersOK(w: World) {
    forall r :: r in w.readers ==> ReaderOK(w, w.readers[r])
  }

  ghost predicate Inv(w: World, p: Params) {
    p.capacity > 0 && WriterOK(w) && EntriesOK(w, p) && FlightsOK(w) && ReadersOK(w)
  }

  /******* Steps *******/

  // Nothing the store or the writer is concerned with moved.
  ghost predicate StoreAlike(w: World, w': World) {
    w'.store == w.store && w'.writer == w.writer && w'.returned == w.returned
  }

  lemma Alike(w: World, w': World)
    requires StoreAlike(w, w')
    ensures forall key :: History(w', key) == History(w, key) && Floor(w', key) == Floor(w, key)
    ensures forall key, v :: Fresh(w', key, v) <==> Fresh(w, key, v)
    ensures forall key, value :: FreshValue(w', key, value) <==> FreshValue(w, key, value)
    ensures WriterOK(w) ==> WriterOK(w')
  {
    assert forall key :: History(w', key) == History(w, key) && Floor(w', key) == Floor(w, key);
    forall key, value ensures FreshValue(w', key, value) <==> FreshValue(w, key, value) {
      if FreshValue(w, key, value) {
        var v: nat :| v <= Version(w, key) && Fresh(w, key, v) && History(w, key)[v] == value;
        assert Fresh(w', key, v);
      }
      if FreshValue(w', key, value) {
        var v: nat :| v <= Version(w', key) && Fresh(w', key, v) && History(w', key)[v] == value;
        assert Fresh(w, key, v);
      }
    }
  }

  // The floor of a read is never above a fresh version.
  lemma FreshIsRecent(w: World, key: string, floor: nat, value: string)
    requires WriterOK(w) && floor <= Floor(w, key) && FreshValue(w, key, value)
    ensures Recent(w, key, floor, value)
  {
    var v: nat :| v <= Version(w, key) && Fresh(w, key, v) && History(w, key)[v] == value;
    assert floor <= v;
  }

  lemma ReaderStays(w: World, w': World, rd: Reader)
    requires StoreAlike(w, w') && ReaderOK(w, rd)
    requires !rd.Returned? && !rd.Retrying? ==>
               && rd.flight in w'.flights && w'.flights[rd.flight].key == rd.key
               && (HasValue(w'.flights[rd.flight]) ==> rd.floor <= w'.flights[rd.flight].phase.ver)
    ensures ReaderOK(w', rd)
  {
    Alike(w, w');
    if rd.Returned? {
      var v: nat :| rd.floor <= v <= Version(w, rd.key) && History(w, rd.key)[v] == rd.value;
      assert v <= Version(w', rd.key) && History(w', rd.key)[v] == rd.value;
    }
  }

  lemma FlightStays(w: World, w': World, f: nat, fl: Flight)
    requires FlightOK(w, f, fl) && History(w', fl.key) == History(w, fl.key)
    requires forall v :: Fresh(w, fl.key, v) ==> Fresh(w', fl.key, v)
    requires !fl.closed && !fl.stale ==> fl.key in w'.inflight && w'.inflight[fl.key] == f
    ensures FlightOK(w', f, fl)
  {}

  lemma LookEntries(w: World, p: Params, r: nat, key: string, now: int, f: nat)
    requires EntriesOK(w, p) && WriterOK(w)
    ensures EntriesOK(DoLook(w, p, r, key, now, f), p) && WriterOK(DoLook(w, p, r, key, now, f))
    ensures StoreAlike(w, DoLook(w, p, r, key, now, f))
  {
    var w' := DoLook(w, p, r, key, now, f);
    Alike(w, w');
    LookOrder(w, p, r, key, now, f);
  }

  lemma LookOrder(w: World, p: Params, r: nat, key: string, now: int, f: nat)
    requires Within(w.order, p.capacity)
    ensures Within(DoLook(w, p, r, key, now, f).order, p.capacity)
    ensures forall e :: e in DoLook(w, p, r, key, now, f).order ==> e in w.order
  {
    TouchIs(w.order, key);
    RemoveIs(w.order, key);
  }

  // A look registers at most one new fetch, and only where none is attached.
  lemma LookPlaces(w: World, p: Params, r: nat, key: string, now: int, f: nat)
    ensures
      var w' := DoLook(w, p, r, key, now, f);
      || (w'.flights == w.flights && w'.inflight == w.inflight)
      || (&& key !in w.inflight && w'.inflight == w.inflight[key := f]
          && w'.flights == w.flights[f := Flight(key, now, Started, false, false)])
  {}

  lemma LookFlights(w: World, p: Params, r: nat, key: string, now: int, f: nat)
    requires FlightsOK(w) && f !in w.flights
    ensures FlightsOK(DoLook(w, p, r, key, now, f))
  {
    var w' := DoLook(w, p, r, key, now, f);
    Alike(w, w');
    LookPlaces(w, p, r, key, now, f);
    forall x | x in w'.flights ensures FlightOK(w', x, w'.flights[x]) {
      if x in w.flights {
        FlightStays(w, w', x, w.flights[x]);
      }
    }
  }

  lemma LookOthers(w: World, p: Params, r: nat, key: string, now: int, f: nat)
    requires ReadersOK(w) && f !in w.flights
    ensures forall x :: x in w.readers && x != r ==> ReaderOK(DoLook(w, p, r, key, now, f), w.readers[x])
  {
    var w' := DoLook(w, p, r, key, now, f);
    forall x | x in w.readers && x != r ensures ReaderOK(w', w.readers[x]) {
      assert ReaderOK(w, w.readers[x]);
      ReaderStays(w, w', w.readers[x]);
    }
  }

  // What a reader learns from an attached fetch is no older than its floor.
  lemma JoinedIsFresh(w: World, key: string, floor: nat)
    requires WriterOK(w) && FlightsOK(w) && floor <= Floor(w, key) && key in w.inflight
    ensures ReaderOK(w, Waiting(key, floor, w.inflight[key]))
  {
    assert FlightOK(w, w.inflight[key], w.flights[w.inflight[key]]);
  }

  lemma LookReader(w: World, p: Params, r: nat, key: string, now: int, f: nat)
    requires WriterOK(w) && EntriesOK(w, p) && FlightsOK(w) && f !in w.flights
    requires r in w.readers ==> w.readers[r].floor <= Floor(w, key)
    ensures ReaderOK(DoLook(w, p, r, key, now, f), DoLook(w, p, r, key, now, f).readers[r])
  {
    var w' := DoLook(w, p, r, key, now, f);
    var found := Find(w.order, key);
    FindIs(w.order, key);
    var floor := if r in w.readers then w.readers[r].floor else Floor(w, key);
    if found != [] && Live(p, found[0], now) {
      FreshIsRecent(w, key, floor, found[0].value);
      ReaderStays(w, w', Returned(key, floor, found[0].value));
    } else if key in w.inflight {
      JoinedIsFresh(w, key, floor);
      ReaderStays(w, w', Waiting(key, floor, w.inflight[key]));
    }
  }

  lemma LookReaders(w: World, p: Params, r: nat, key: string, now: int, f: nat)
    requires WriterOK(w) && EntriesOK(w, p) && FlightsOK(w) && ReadersOK(w) && Enabled(w, Look(r, key, now, f))
    ensures ReadersOK(DoLook(w, p, r, key, now, f))
  {
    assert r in w.readers ==> ReaderOK(w, w.readers[r]);
    LookOthers(w, p, r, key, now, f);
    LookReader(w, p, r, key, now, f);
  }

  // A step on one flight that keeps its key, marks and place.
  ghost predicate FlightMoves(w: World, w': World, f: nat) {
    && f in w.flights && StoreAlike(w, w') && w'.readers == w.readers
    && w'.flights.Keys == w.flights.Keys && w'.flights[f].key == w.flights[f].key
    && (forall x :: x in w.flights && x != f ==> w'.flights[x] == w.flights[x])
  }

  lemma FlightReaders(w: World, w': World, f: nat)
    requires FlightMoves(w, w', f) && ReadersOK(w)
    requires HasValue(w'.flights[f]) ==>
               if HasValue(w.flights[f]) then w'.flights[f].phase.ver == w.flights[f].phase.ver
               else Floor(w, w.flights[f].key) <= w'.flights[f].phase.ver
    ensures ReadersOK(w')
  {
    forall r | r in w'.readers ensures ReaderOK(w', w'.readers[r]) {
      assert ReaderOK(w, w.readers[r]);
      ReaderStays(w, w', w.readers[r]);
    }
  }

  lemma OtherFlights(w: World, w': World, f: nat)
    requires FlightMoves(w, w', f) && FlightsOK(w)
    requires forall key :: key in w.inflight && w.inflight[key] != f ==>
               key in w'.inflight && w'.inflight[key] == w.inflight[key]
    ensures forall x :: x in w.flights && x != f ==> FlightOK(w', x, w'.flights[x])
  {
    Alike(w, w');
    forall x | x in w.flights && x != f ensures FlightOK(w', x, w'.flights[x]) {
      FlightStays(w, w', x, w.flights[x]);
    }
  }

  lemma FetchInv(w: World, p: Params, f: nat)
    requires Inv(w, p) && Enabled(w, Fetch(f))
    ensures Inv(Take(w, p, Fetch(f)), p)
  {
    var w' := Take(w, p, Fetch(f));
    Alike(w, w');
    assert FlightOK(w, f, w.flights[f]);
    OtherFlights(w, w', f);
    FlightReaders(w, w', f);
  }

  lemma FailInv(w: World, p: Params, f: nat)
    requires Inv(w, p) && Enabled(w, Fail(f))
    ensures Inv(Take(w, p, Fail(f)), p)
  {
    var w' := Take(w, p, Fail(f));
    Alike(w, w');
    assert FlightOK(w, f, w.flights[f]);
    OtherFlights(w, w', f);
    FlightReaders(w, w', f);
  }

  lemma RecordEntries(w: World, p: Params, f: nat)
    requires p.capacity > 0 && EntriesOK(w, p) && FlightsOK(w) && Enabled(w, Record(f))
    ensures EntriesOK(DoRecord(w, p, f), p)
  {
    var w', fl := DoRecord(w, p, f), w.flights[f];
    Alike(w, w');
    assert FlightOK(w, f, fl);
    if !fl.stale {
      var e := Entry(fl.key, fl.phase.value, Expires(p, fl.start));
      InsertIs(w.order, p.capacity, e);
      assert FreshValue(w, fl.key, fl.phase.value) by {
        assert Fresh(w, fl.key, fl.phase.ver);
      }
    }
  }

  lemma RecordInv(w: World, p: Params, f: nat)
    requires Inv(w, p) && Enabled(w, Record(f))
    ensures Inv(Take(w, p, Record(f)), p)
  {
    var w' := DoRecord(w, p, f);
    Alike(w, w');
    RecordEntries(w, p, f);
    assert FlightOK(w, f, w.flights[f]);
    OtherFlights(w, w', f);
    FlightReaders(w, w', f);
  }

  lemma CloseInv(w: World, p: Params, f: nat)
    requires Inv(w, p) && Enabled(w, Close(f))
    ensures Inv(Take(w, p, Close(f)), p)
  {
    var w' := DoClose(w, f);
    Alike(w, w');
    assert FlightOK(w, f, w.flights[f]);
    OtherFlights(w, w', f);
    FlightReaders(w, w', f);
  }

  lemma WakeReaders(w: World, p: Params, r: nat)
    requires FlightsOK(w) && ReadersOK(w) && Enabled(w, Wake(r))
    ensures ReadersOK(DoWake(w, r))
  {
    var w', rd := DoWake(w, r), w.readers[r];
    Alike(w, w');
    assert ReaderOK(w, rd);
    var fl := w.flights[rd.flight];
    assert FlightOK(w, rd.flight, fl);
    if fl.phase.Recorded? {
      assert Recent(w', rd.key, rd.floor, fl.phase.value) by {
        assert History(w', rd.key)[fl.phase.ver] == fl.phase.value;
      }
    }
    forall x | x in w'.readers && x != r ensures ReaderOK(w', w'.readers[x]) {
      assert ReaderOK(w, w.readers[x]);
      ReaderStays(w, w', w.readers[x]);
    }
  }

  lemma WakeInv(w: World, p: Params, r: nat)
    requires Inv(w, p) && Enabled(w, Wake(r))
    ensures Inv(Take(w, p, Wake(r)), p)
  {
    var w' := DoWake(w, r);
    Alike(w, w');
    WakeReaders(w, p, r);
    SameFlights(w, w');
  }

  lemma SameFlights(w: World, w': World)
    requires FlightsOK(w) && StoreAlike(w, w') && w'.flights == w.flights && w'.inflight == w.inflight
    ensures FlightsOK(w')
  {
    Alike(w, w');
    forall x | x in w'.flights ensures FlightOK(w', x, w'.flights[x]) {
      FlightStays(w, w', x, w.flights[x]);
    }
  }

  lemma BeginInv(w: World, p: Params, x: Write, start: int)
    requires Inv(w, p) && Enabled(w, BeginWrite(x, start))
    ensures Inv(Take(w, p, BeginWrite(x, start)), p)
  {
    var w' := Take(w, p, BeginWrite(x, start));
    SameStore(w, w');
    assert forall key, v :: Fresh(w', key, v) <==> Fresh(w, key, v);
    MarksStay(w, w');
    forall e | e in w'.order ensures FreshValue(w', e.key, e.value) {
      assert FreshValue(w, e.key, e.value);
      FreshStays(w, w', e.key, e.value);
    }
  }

  lemma SameStore(w: World, w': World)
    requires w'.store == w.store && w'.returned == w.returned
    ensures forall key :: History(w', key) == History(w, key) && Floor(w', key) == Floor(w, key)
  {}

  // Histories only grow; what a flight or a finished read saw stays in them.
  ghost predicate Grows(w: World, w': World) {
    && (forall key :: History(w, key) <= History(w', key) && Floor(w, key) <= Floor(w', key))
    && (forall key, v :: Fresh(w, key, v) ==> Fresh(w', key, v))
  }

  lemma FreshStays(w: World, w': World, key: string, value: string)
    requires History(w, key) <= History(w', key) && FreshValue(w, key, value)
    requires forall v :: Fresh(w, key, v) ==> Fresh(w', key, v)
    ensures FreshValue(w', key, value)
  {
    var v: nat :| v <= Version(w, key) && Fresh(w, key, v) && History(w, key)[v] == value;
    assert Fresh(w', key, v) && History(w', key)[v] == value;
  }

  lemma MarksStay(w: World, w': World)
    requires Grows(w, w') && FlightsOK(w) && ReadersOK(w)
    requires w'.flights == w.flights && w'.inflight == w.inflight && w'.readers == w.readers
    ensures FlightsOK(w') && ReadersOK(w')
  {
    forall f | f in w'.flights ensures FlightOK(w', f, w'.flights[f]) {
      assert FlightOK(w, f, w.flights[f]);
    }
    ReadersGrow(w, w');
  }

  lemma ReadersGrow(w: World, w': World)
    requires forall key :: History(w, key) <= History(w', key) && Floor(w, key) <= Floor(w', key)
    requires ReadersOK(w) && w'.readers == w.readers && w'.flights.Keys == w.flights.Keys
    requires forall f :: f in w.flights ==>
               w'.flights[f].key == w.flights[f].key && w'.flights[f].phase == w.flights[f].phase
    ensures ReadersOK(w')
  {
    forall r | r in w'.readers ensures ReaderOK(w', w'.readers[r]) {
      var rd := w.readers[r];
      assert ReaderOK(w, rd);
      if rd.Returned? {
        var v: nat :| rd.floor <= v <= Version(w, rd.key) && History(w, rd.key)[v] == rd.value;
        assert History(w', rd.key)[v] == rd.value;
      }
    }
  }

  lemma LandGrows(w: World, p: Params)
    requires WriterOK(w) && Enabled(w, LandWrite)
    ensures Grows(w, Take(w, p, LandWrite)) && WriterOK(Take(w, p, LandWrite))
  {
    var w', x := Take(w, p, LandWrite), w.writer.write;
    forall key
      ensures History(w', key) == if key == x.key then History(w, key) + [NewValue(w, x)] else History(w, key)
    {}
    forall key ensures Floor(w', key) == Floor(w, key) {}
  }

  lemma LandInv(w: World, p: Params)
    requires Inv(w, p) && Enabled(w, LandWrite)
    ensures Inv(Take(w, p, LandWrite), p)
  {
    var w' := Take(w, p, LandWrite);
    LandGrows(w, p);
    MarksStay(w, w');
    forall e | e in w'.order ensures FreshValue(w', e.key, e.value) {
      assert FreshValue(w, e.key, e.value);
      FreshStays(w, w', e.key, e.value);
    }
  }

  lemma TouchStore(w: World, p: Params)
    requires WriterOK(w) && Enabled(w, TouchCache)
    ensures WriterOK(DoTouch(w, p)) && DoTouch(w, p).readers == w.readers
    ensures forall key :: History(DoTouch(w, p), key) == History(w, key)
    ensures forall key :: Floor(w, key) <= Floor(DoTouch(w, p), key)
    ensures forall key, v :: key != w.writer.write.key && Fresh(w, key, v) ==> Fresh(DoTouch(w, p), key, v)
  {
    var w' := DoTouch(w, p);
    var x := w.writer.write;
    assert w'.store == w.store && w'.writer == Idle;
    forall key ensures History(w', key) == History(w, key) {}
    forall key ensures Floor(w', key) == if key == x.key then Version(w, key) else Floor(w, key) {}
  }

  // Once the write has touched the cache, nothing old can be served or filled.
  lemma TouchEntries(w: World, p: Params)
    requires p.capacity > 0 && WriterOK(w) && EntriesOK(w, p) && Enabled(w, TouchCache)
    ensures EntriesOK(DoTouch(w, p), p)
  {
    var w', x := DoTouch(w, p), w.writer.write;
    TouchStore(w, p);
    RemoveIs(w.order, x.key);
    var filled := Entry(x.key, Current(w, x.key), Expires(p, w.writer.start));
    InsertIs(w.order, p.capacity, filled);
    assert w'.order == Remove(w.order, x.key) || w'.order == Insert(w.order, p.capacity, filled);
    forall e | e in w'.order ensures FreshValue(w', e.key, e.value) {
      if e == filled {
        assert Fresh(w', e.key, Version(w', e.key));
      } else {
        assert e in w.order && e.key != x.key;
        FreshStays(w, w', e.key, e.value);
      }
    }
  }

  lemma TouchFlights(w: World, p: Params)
    requires WriterOK(w) && FlightsOK(w) && Enabled(w, TouchCache)
    ensures FlightsOK(DoTouch(w, p))
  {
    var w', x := DoTouch(w, p), w.writer.write;
    TouchStore(w, p);
    AllMarked(w, x.key);
    forall f | f in w'.flights ensures FlightOK(w', f, w'.flights[f]) {
      var fl := w.flights[f];
      assert FlightOK(w, f, fl);
      if fl.key != x.key {
        FlightStays(w, w', f, fl);
      }
    }
  }

  // The written key's fetches are all marked and detached; the others are as before.
  lemma AllMarked(w: World, key: string)
    requires FlightsOK(w)
    ensures
      var w' := MarkStale(w, key);
      && w'.inflight == w.inflight - {key} && w'.flights.Keys == w.flights.Keys
      && (forall f :: f in w.flights && w.flights[f].key != key ==> w'.flights[f] == w.flights[f])
      && (forall f :: f in w.flights && w.flights[f].key == key ==>
            && (w'.flights[f].stale || w'.flights[f].closed)
            && w'.flights[f] == w.flights[f].(stale := w'.flights[f].stale))
  {
    var w' := MarkStale(w, key);
    forall f | f in w.flights && w.flights[f].key == key ensures w'.flights[f].stale || w'.flights[f].closed {
      assert FlightOK(w, f, w.flights[f]);
    }
  }

  lemma TouchInv(w: World, p: Params)
    requires Inv(w, p) && Enabled(w, TouchCache)
    ensures Inv(Take(w, p, TouchCache), p)
  {
    var w' := DoTouch(w, p);
    TouchStore(w, p);
    TouchEntries(w, p);
    TouchFlights(w, p);
    ReadersGrow(w, w');
  }

  // Every interleaved step keeps the cache coherent.
  lemma TakeInv(w: World, p: Params, step: Step)
    requires Inv(w, p) && Enabled(w, step)
    ensures Inv(Take(w, p, step), p)
  {
    match step
    case Look(r, key, now, f) =>
      LookEntries(w, p, r, key, now, f);
      LookFlights(w, p, r, key, now, f);
      LookReaders(w, p, r, key, now, f);
    case Fetch(f) => FetchInv(w, p, f);
    case Fail(f) => FailInv(w, p, f);
    case Record(f) => RecordInv(w, p, f);
    case Close(f) => CloseInv(w, p, f);
    case Wake(r) => WakeInv(w, p, r);
    case BeginWrite(x, start) => BeginInv(w, p, x, start);
    case LandWrite => LandInv(w, p);
    case TouchCache => TouchInv(w, p);
  }

  lemma {:induction false} RunInv(run: seq<World>, p: Params, i: nat)
    requires IsRun(run, p) && i < |run|
    ensures Inv(run[i], p)
  {
    if i > 0 {
      RunInv(run, p, i - 1);
      assert StepAt(run, p, i);
      FollowsInv(run[i - 1], p, run[i]);
    }
  }

  lemma FollowsInv(w: World, p: Params, w': World)
    requires Inv(w, p) && Follows(w, p, w')
    ensures Inv(w', p)
  {
    var step :| Enabled(w, step) && w' == Take(w, p, step);
    TakeInv(w, p, step);
  }

  /******* Theorems *******/

  // Every cached value, and every fetched value that may still be cached, is the
  // store's, unless the key's one pending write has landed and not yet touched
  // the cache; then it may also be the value just before.
  lemma CacheIsCoherent(run: seq<World>, p: Params, i: nat)
    requires IsRun(run, p) && i < |run|
    ensures Within(run[i].order, p.capacity)
    ensures forall e :: e in run[i].order && !Pending(run[i], e.key) ==> e.value == Current(run[i], e.key)
    ensures forall e :: e in run[i].order ==> FreshValue(run[i], e.key, e.value)
    ensures forall f :: f in run[i].flights && run[i].flights[f].phase.Fetched? && !run[i].flights[f].stale ==>
              FreshValue(run[i], run[i].flights[f].key, run[i].flights[f].phase.value)
  {
    RunInv(run, p, i);
    var w := run[i];
    forall e | e in w.order && !Pending(w, e.key) ensures e.value == Current(w, e.key) {
      assert FreshValue(w, e.key, e.value);
    }
    forall f | f in w.flights && w.flights[f].phase.Fetched? && !w.flights[f].stale
      ensures FreshValue(w, w.flights[f].key, w.flights[f].phase.value)
    {
      assert FlightOK(w, f, w.flights[f]);
      assert Fresh(w, w.flights[f].key, w.flights[f].phase.ver);
    }
  }

  lemma FloorStep(w: World, p: Params, step: Step, key: string)
    requires WriterOK(w) && Enabled(w, step)
    ensures Floor(w, key) <= Floor(Take(w, p, step), key)
  {
    if step.TouchCache? {
      TouchStore(w, p);
    } else {
      assert Take(w, p, step).returned == w.returned;
    }
  }

  // A Get keeps its key and floor to the end, and takes them at its start.
  ghost predicate SameGet(w: World, w': World, r: nat) {
    r in w'.readers ==>
      if r in w.readers
      then w'.readers[r].key == w.readers[r].key && w'.readers[r].floor == w.readers[r].floor
      else w'.readers[r].floor == Floor(w, w'.readers[r].key)
  }

  lemma LookSameGet(w: World, p: Params, x: nat, key: string, now: int, f: nat, r: nat)
    requires Enabled(w, Look(x, key, now, f))
    ensures SameGet(w, DoLook(w, p, x, key, now, f), r)
  {}

  lemma WakeSameGet(w: World, x: nat, r: nat)
    requires Enabled(w, Wake(x))
    ensures SameGet(w, DoWake(w, x), r)
  {}

  lemma ReaderStep(w: World, p: Params, step: Step, r: nat)
    requires Enabled(w, step)
    ensures SameGet(w, Take(w, p, step), r)
  {
    match step
    case Look(x, key, now, f) => LookSameGet(w, p, x, key, now, f, r);
    case Wake(x) => WakeSameGet(w, x, r);
    case _ => assert Take(w, p, step).readers == w.readers;
  }

  // What one step does to a Get and to the floor of a key.
  lemma GetStep(w: World, p: Params, w': World, r: nat, key: string)
    requires Inv(w, p) && Follows(w, p, w')
    ensures Inv(w', p) && SameGet(w, w', r) && Floor(w, key) <= Floor(w', key)
  {
    var step :| Enabled(w, step) && w' == Take(w, p, step);
    TakeInv(w, p, step);
    ReaderStep(w, p, step, r);
    FloorStep(w, p, step, key);
  }

  lemma RunStep(run: seq<World>, p: Params, k: nat, r: nat, key: string)
    requires IsRun(run, p) && 0 < k < |run|
    ensures SameGet(run[k - 1], run[k], r) && Floor(run[k - 1], key) <= Floor(run[k], key)
  {
    RunInv(run, p, k - 1);
    assert StepAt(run, p, k);
    GetStep(run[k - 1], p, run[k], r, key);
  }

  lemma {:induction false} FloorsGrow(run: seq<World>, p: Params, j: nat, k: nat, key: string)
    requires IsRun(run, p) && j <= k < |run|
    ensures Floor(run[j], key) <= Floor(run[k], key)
  {
    if j < k {
      FloorsGrow(run, p, j, k - 1, key);
      RunStep(run, p, k, 0, key);
    }
  }

  lemma {:induction false} FloorsSince(run: seq<World>, p: Params, j: nat, k: nat, r: nat)
    requires IsRun(run, p) && j <= k < |run| && r !in run[j].readers
    ensures r in run[k].readers ==> Floor(run[j], run[k].readers[r].key) <= run[k].readers[r].floor
  {
    if j < k && r in run[k].readers {
      FloorsGrow(run, p, j, k - 1, run[k].readers[r].key);
      FloorsSince(run, p, j, k - 1, r);
      RunStep(run, p, k, r, "");
    }
  }

  // A Get not yet begun at j never yields a value older than any write that had
  // returned by then, whether it hits, joins a fetch or leads one.
  lemma ReadsSeeReturnedWrites(run: seq<World>, p: Params, j: nat, k: nat, r: nat)
    requires IsRun(run, p) && j <= k < |run| && r !in run[j].readers
    requires r in run[k].readers && run[k].readers[r].Returned?
    ensures
      var rd := run[k].readers[r];
      Recent(run[k], rd.key, Floor(run[j], rd.key), rd.value)
  {
    RunInv(run, p, k);
    FloorsSince(run, p, j, k, r);
    var rd := run[k].readers[r];
    assert ReaderOK(run[k], rd);
    var v: nat :| rd.floor <= v <= Version(run[k], rd.key) && History(run[k], rd.key)[v] == rd.value;
    assert Floor(run[j], rd.key) <= v;
  }

  // A returning write raises the floor to its own version and leaves no older
  // value of its key in the cache.
  lemma WriteReturns(w: World, p: Params)
    requires WriterOK(w) && EntriesOK(w, p) && p.capacity > 0 && Enabled(w, TouchCache)
    ensures
      var key, w' := w.writer.write.key, DoTouch(w, p);
      && Floor(w', key) == Version(w, key) > Floor(w, key)
      && forall e :: e in w'.order && e.key == key ==> e.value == Current(w, key)
  {
    var key, w' := w.writer.write.key, DoTouch(w, p);
    TouchStore(w, p);
    TouchEntries(w, p);
    forall e | e in w'.order && e.key == key ensures e.value == Current(w, key) {
      assert FreshValue(w', e.key, e.value);
    }
  }

  /******* Deadlines and fills *******/

  // Under a TTL an entry is served for less than that long after the fetch or the
  // write that filled it began; without one, always.
  lemma ServedWithinTtl(w: World, p: Params, r: nat, key: string, now: int, f: nat, start: int)
    requires Unique(w.order) && Enabled(w, Look(r, key, now, f))
    requires exists e :: e in w.order && e.key == key && e.expires == Expires(p, start)
    ensures DoLook(w, p, r, key, now, f).readers[r].Returned? <==> p.ttl == 0 || now - start < p.ttl
  {
    var e :| e in w.order && e.key == key && e.expires == Expires(p, start);
    var i :| 0 <= i < |w.order| && w.order[i] == e;
    FindAt(w.order, i);
  }

  // A fetch no write has marked fills the cache with what it read, counted from
  // its start; a marked one leaves the cache alone.
  lemma FillMeans(w: World, p: Params, f: nat)
    requires p.capacity > 0 && Within(w.order, p.capacity) && Enabled(w, Record(f))
    ensures
      var fl, order := w.flights[f], DoRecord(w, p, f).order;
      if fl.stale then order == w.order
      else order != [] && order[0] == Entry(fl.key, fl.phase.value, Expires(p, fl.start))
  {
    InsertIs(w.order, p.capacity, Entry(w.flights[f].key, w.flights[f].phase.value, Expires(p, w.flights[f].start)));
  }

  // A write-through Put leaves its value first in the cache, counted from its
  // start; every other write leaves nothing of its key.
  lemma TouchMeans(w: World, p: Params)
    requires p.capacity > 0 && Within(w.order, p.capacity) && Enabled(w, TouchCache)
    ensures
      var x, order := w.writer.write, DoTouch(w, p).order;
      if x.Put? && p.policy == WriteThrough
      then order != [] && order[0] == Entry(x.key, x.value, Expires(p, w.writer.start))
      else x.key !in Keys(order)
  {
    RemoveIs(w.order, w.writer.write.key);
    InsertIs(w.order, p.capacity, Entry(w.writer.write.key, w.writer.write.value, Expires(p, w.writer.start)));
  }

  // A Get that misses waits for the fetch under way, if one can be joined, and
  // otherwise starts the only one.
  lemma MissMeans(w: World, p: Params, r: nat, key: string, now: int, f: nat)
    requires Enabled(w, Look(r, key, now, f)) && !DoLook(w, p, r, key, now, f).readers[r].Returned?
    ensures
      var w' := DoLook(w, p, r, key, now, f);
      if key in w.inflight
      then w'.readers[r].Waiting? && w'.readers[r].flight == w.inflight[key] && w'.flights == w.flights
      else w'.readers[r].Leading? && w'.readers[r].flight == f && w'.inflight == w.inflight[key := f]
  {}

  // Once a fetch is closed, whoever led or joined it returns its value; if it
  // failed, those who joined try again and the one who led is gone.
  lemma WakeMeans(w: World, r: nat)
    requires Enabled(w, Wake(r))
    ensures
      var rd, w' := w.readers[r], DoWake(w, r);
      var fl := w.flights[rd.flight];
      if fl.phase.Recorded? then r in w'.readers && w'.readers[r] == Returned(rd.key, rd.floor, fl.phase.value)
      else if rd.Waiting? then r in w'.readers && w'.readers[r] == Retrying(rd.key, rd.floor)
      else r !in w'.readers
  {}

  function ChangeOf(x: Write): Register.Change {
    match x
    case Put(_, value) => Register.Set(value)
    case Append(_, value) => Register.Add(value)
  }

  lemma LandHistory(w: World, p: Params, key: string)
    requires Enabled(w, LandWrite)
    ensures
      var x := w.writer.write;
      History(Take(w, p, LandWrite), key) ==
        if key == x.key then History(w, key) + [NewValue(w, x)] else History(w, key)
  {}

  lemma ChangeIsNewValue(w: World, x: Write, cs: seq<Register.Change>)
    requires Current(w, x.key) == Register.Content(cs)
    ensures NewValue(w, x) == Register.Content(cs + [ChangeOf(x)])
  {
    Register.ContentAppend(cs, ChangeOf(x));
  }

  // A landing write is one more change to its key, and to no other.
  lemma LandMeans(w: World, p: Params, key: string, cs: seq<Register.Change>)
    requires Enabled(w, LandWrite) && Current(w, key) == Register.Content(cs)
    ensures
      Current(Take(w, p, LandWrite), key) ==
        Register.Content(if key == w.writer.write.key then cs + [ChangeOf(w.writer.write)] else cs)
  {
    LandHistory(w, p, key);
    if key == w.writer.write.key { ChangeIsNewValue(w, w.writer.write, cs); }
  }
}
