// The elastic connection pool: callers, redialers and the idle evictor interleave
// between any two accesses to the count or the free channel.
module Pool {

  // An idle connection and when it was returned.
  datatype Idle = Idle(conn: nat, at: int)

  datatype Phase =
    // a call
    | Wanting                        // about to try the free list
    | Deciding                       // nothing idle; about to reserve growth
    | Growing                        // slot reserved, dialing
    | GrowFailed                     // dial failed, slot not yet released
    | Waiting                        // until something is free or the timeout
    | Using(conn: nat)
    | Returning(conn: nat)           // about to send into the free list
    | Breaking(conn: nat)            // call failed, about to close
    | Broken                         // closed, still counted
    | Evicted                        // no longer counted
    | Restoring                      // slot reserved for the minimum, dialing
    | RestoreFailed
    | Restored(conn: nat)            // about to send
    | Finished
    // a redialer left behind by a failed restore
    | Ticking
    | Redialing
    | RedialFailed
    | Redialed(conn: nat)            // about to send, or stop
    | Abandoning(conn: nat)
    | Abandoned(conn: nat)           // slot released, not yet closed
    // the idle evictor
    | Resting
    | Sweeping(left: nat)
    | InHand(idle: Idle, left: nat)
    | PuttingBack(idle: Idle, left: nat)
    | Discarding(conn: nat, left: nat)  // no longer counted, not yet closed

  datatype World = World(
    free: seq<Idle>,
    count: nat,
    agents: map<nat, Phase>,
    live: set<nat>,      // connections open right now
    ever: set<nat>,    // connections ever opened
    stopped: bool)

  datatype Options = Options(min: nat, max: nat, idleTimeout: int)

  // Is one unit of count this agent's?
  predicate Counted(ph: Phase) {
    match ph
    case Growing => true
    case GrowFailed => true
    case Using(_) => true
    case Returning(_) => true
    case Breaking(_) => true
    case Broken => true
    case Restoring => true
    case RestoreFailed => true
    case Restored(_) => true
    case Redialing => true
    case RedialFailed => true
    case Redialed(_) => true
    case Abandoning(_) => true
    case InHand(_, _) => true
    case PuttingBack(_, _) => true
    case _ => false
  }

  // The connection this agent holds, if any.
  function Held(ph: Phase): set<nat> {
    match ph
    case Using(c) => {c}
    case Returning(c) => {c}
    case Breaking(c) => {c}
    case Restored(c) => {c}
    case Redialed(c) => {c}
    case Abandoning(c) => {c}
    case Abandoned(c) => {c}
    case InHand(idle, _) => {idle.conn}
    case PuttingBack(idle, _) => {idle.conn}
    case Discarding(c, _) => {c}
    case _ => {}
  }

  // Its next move is a send into the free list.
  predicate Sending(ph: Phase) {
    ph.Returning? || ph.Restored? || ph.Redialed? || ph.PuttingBack?
  }

  // How a step turns out: did the dial, call or wait succeed; which connection a
  // dial gave; what the clock says.
  datatype Luck = Luck(ok: bool, conn: nat, now: int)

  datatype Step = Spawn(agent: nat) | Stop | Move(agent: nat, luck: Luck)

  predicate BelowMin(w: World, o: Options) { w.count < o.min && w.count < o.max }

  predicate Enabled(w: World, o: Options, step: Step) {
    match step
    case Spawn(a) => a !in w.agents
    case Stop => true
    case Move(a, luck) =>
      a in w.agents && (match w.agents[a]
        case Growing => luck.ok ==> luck.conn !in w.ever
        case Restoring => luck.ok ==> luck.conn !in w.ever
        case Redialing => luck.ok ==> luck.conn !in w.ever
        case Waiting => luck.ok ==> w.free != []
        case Returning(_) => |w.free| < o.max
        case Restored(_) => |w.free| < o.max
        case PuttingBack(_, _) => |w.free| < o.max
        case Redialed(_) => if luck.ok then |w.free| < o.max else w.stopped
        case Finished => false
        case _ => true)
  }

  function Goto(w: World, a: nat, ph: Phase): World { w.(agents := w.agents[a := ph]) }

  function Receive(w: World, a: nat): World
    requires w.free != []
  {
    Goto(w.(free := w.free[1..]), a, Using(w.free[0].conn))
  }

  function Send(w: World, a: nat, idle: Idle, ph: Phase): World {
    Goto(w.(free := w.free + [idle]), a, ph)
  }

  function Reserve(w: World, a: nat, ph: Phase): World { Goto(w.(count := w.count + 1), a, ph) }

  function Release(w: World, a: nat, ph: Phase): World {
    Goto(w.(count := if w.count == 0 then 0 else w.count - 1), a, ph)
  }

  function Dialed(w: World, a: nat, c: nat, ph: Phase): World {
    Goto(w.(live := w.live + {c}, ever := w.ever + {c}), a, ph)
  }

  function Close(w: World, a: nat, c: nat, ph: Phase): World { Goto(w.(live := w.live - {c}), a, ph) }

  function Go(w: World, o: Options, a: nat, luck: Luck): World
    requires Enabled(w, o, Move(a, luck))
  {
    match w.agents[a]
    case Wanting => if w.free != [] then Receive(w, a) else Goto(w, a, Deciding)
    case Deciding => if w.count < o.max then Reserve(w, a, Growing) else Goto(w, a, Waiting)
    case Growing => if luck.ok then Dialed(w, a, luck.conn, Using(luck.conn)) else Goto(w, a, GrowFailed)
    case GrowFailed => Release(w, a, Waiting)
    case Waiting => if luck.ok then Receive(w, a) else Goto(w, a, Finished)
    case Using(c) => Goto(w, a, if luck.ok then Returning(c) else Breaking(c))
    case Returning(c) => Send(w, a, Idle(c, luck.now), Finished)
    case Breaking(c) => Close(w, a, c, Broken)
    case Broken => Release(w, a, Evicted)
    case Evicted => if BelowMin(w, o) then Reserve(w, a, Restoring) else Goto(w, a, Finished)
    case Restoring => if luck.ok then Dialed(w, a, luck.conn, Restored(luck.conn)) else Goto(w, a, RestoreFailed)
    case RestoreFailed => Release(w, a, Ticking)
    case Restored(c) => Send(w, a, Idle(c, luck.now), Finished)
    case Ticking =>
      if w.stopped && !luck.ok then Goto(w, a, Finished)
      else if BelowMin(w, o) then Reserve(w, a, Redialing) else Goto(w, a, Finished)
    case Redialing => if luck.ok then Dialed(w, a, luck.conn, Redialed(luck.conn)) else Goto(w, a, RedialFailed)
    case RedialFailed => Release(w, a, Ticking)
    case Redialed(c) => if luck.ok then Send(w, a, Idle(c, luck.now), Finished) else Goto(w, a, Abandoning(c))
    case Abandoning(c) => Release(w, a, Abandoned(c))
    case Abandoned(c) => Close(w, a, c, Finished)
    case Resting => Goto(w, a, if w.stopped && !luck.ok then Finished else Sweeping(|w.free|))
    case Sweeping(left) =>
      if left == 0 || w.free == [] then Goto(w, a, Resting)
      else Goto(w.(free := w.free[1..]), a, InHand(w.free[0], left - 1))
    case InHand(idle, left) =>
      if w.count > o.min && luck.now - idle.at > o.idleTimeout then Release(w, a, Discarding(idle.conn, left))
      else Goto(w, a, PuttingBack(idle, left))
    case PuttingBack(idle, left) => Send(w, a, idle, Sweeping(left))
    case Discarding(c, left) => Close(w, a, c, Sweeping(left))
    case Finished => w
  }

  function Take(w: World, o: Options, step: Step): World
    requires Enabled(w, o, step)
  {
    match step
    case Spawn(a) => Goto(w, a, Wanting)
    case Stop => w.(stopped := true)
    case Move(a, luck) => Go(w, o, a, luck)
  }

  // NewPool has dialed the minimum and started the evictor.
  ghost predicate Initial(w: World, o: Options) {
    && 1 <= o.max && o.min <= o.max
    && |w.free| == o.min == w.count && Distinct(w.free)
    && w.live == w.ever == Conns(w.free)
    && w.agents == map[0 := Resting] && !w.stopped
  }

  ghost predicate IsRun(run: seq<World>, o: Options) {
    && run != [] && Initial(run[0], o)
    && forall i {:trigger StepAt(run, o, i)} :: 0 < i < |run| ==> StepAt(run, o, i)
  }

  ghost predicate StepAt(run: seq<World>, o: Options, i: nat)
    requires 0 < i < |run|
  {
    Follows(run[i - 1], o, run[i])
  }

  ghost predicate Follows(w: World, o: Options, w': World) {
    exists step :: Enabled(w, o, step) && w' == Take(w, o, step)
  }

  /******* The invariant *******/

  function Conns(free: seq<Idle>): set<nat> { set i | i in free :: i.conn }

  ghost predicate Distinct(free: seq<Idle>) {
    forall i, j :: 0 <= i < j < |free| ==> free[i].conn != free[j].conn
  }

  function Holders(agents: map<nat, Phase>): set<nat> { set a | a in agents && Counted(agents[a]) }

  // Everything counted is free or some agent's.
  ghost predicate Conserved(w: World, o: Options) {
    1 <= o.max && o.min <= o.max && w.count == |w.free| + |Holders(w.agents)| <= o.max
  }

  // Every open connection is in exactly one place.
  ghost predicate OnePlace(w: World) {
    && Distinct(w.free) && Conns(w.free) <= w.live <= w.ever
    && (forall a {:trigger HeldBy(w, a)} :: HeldBy(w, a) <= w.live && HeldBy(w, a) !! Conns(w.free))
    && (forall a, b {:trigger HeldBy(w, a), HeldBy(w, b)} :: a != b ==> HeldBy(w, a) !! HeldBy(w, b))
    && (forall c {:trigger c in w.live} :: c in w.live ==> Somewhere(w, c))
  }

  function HeldBy(w: World, a: nat): set<nat> {
    if a in w.agents then Held(w.agents[a]) else {}
  }

  ghost predicate Somewhere(w: World, c: nat) {
    c in Conns(w.free) || exists a :: c in HeldBy(w, a)
  }

  ghost predicate Inv(w: World, o: Options) { Conserved(w, o) && OnePlace(w) }

  /******* The primitives *******/

  lemma HoldersUpdate(agents: map<nat, Phase>, a: nat, ph: Phase)
    ensures
      var was := a in agents && Counted(agents[a]);
      |Holders(agents[a := ph])| ==
        |Holders(agents)| + (if Counted(ph) then 1 else 0) - (if was then 1 else 0)
  {
    var h, h' := Holders(agents), Holders(agents[a := ph]);
    if Counted(ph) {
      assert h' == h + {a};
    } else {
      assert h' == h - {a};
    }
  }

  predicate CountedBy(w: World, a: nat) { a in w.agents && Counted(w.agents[a]) }

  lemma GotoInv(w: World, o: Options, a: nat, ph: Phase)
    requires Inv(w, o) && Held(ph) == HeldBy(w, a) && Counted(ph) == CountedBy(w, a)
    ensures Inv(Goto(w, a, ph), o)
  {
    HoldersUpdate(w.agents, a, ph);
    SamePlaces(w, Goto(w, a, ph));
  }

  // Nothing changed hands.
  lemma SamePlaces(w: World, w': World)
    requires OnePlace(w) && w'.free == w.free && w'.live == w.live && w'.ever == w.ever
    requires forall b :: HeldBy(w', b) == HeldBy(w, b)
    ensures OnePlace(w')
  {
    forall c | c in w'.live ensures Somewhere(w', c) {
      if c !in Conns(w.free) {
        var b :| c in HeldBy(w, b);
        assert c in HeldBy(w', b);
      }
    }
  }

  // Agents other than a hold what they held.
  ghost predicate OthersKeep(w: World, w': World, a: nat) {
    forall b {:trigger HeldBy(w', b)} {:trigger HeldBy(w, b)} :: b != a ==> HeldBy(w', b) == HeldBy(w, b)
  }

  lemma StillHeld(w: World, w': World, a: nat, c: nat)
    requires OthersKeep(w, w', a) && c !in Conns(w.free) && Somewhere(w, c) && c !in HeldBy(w, a)
    ensures Somewhere(w', c)
  {
    var b :| c in HeldBy(w, b);
    assert c in HeldBy(w', b);
  }

  lemma ConnsTail(free: seq<Idle>)
    requires Distinct(free) && free != []
    ensures Distinct(free[1..]) && Conns(free) == Conns(free[1..]) + {free[0].conn}
    ensures free[0].conn !in Conns(free[1..])
  {
    assert free == [free[0]] + free[1..];
    forall i | i in free[1..] ensures i.conn != free[0].conn {
      var k :| 0 <= k < |free[1..]| && free[1..][k] == i;
      assert free[k + 1] == i;
    }
    forall c | c in Conns(free) ensures c in Conns(free[1..]) + {free[0].conn} {
      var i :| i in free && i.conn == c;
      assert i == free[0] || i in free[1..];
    }
  }

  lemma ConnsSend(free: seq<Idle>, idle: Idle)
    requires Distinct(free) && idle.conn !in Conns(free)
    ensures Distinct(free + [idle]) && Conns(free + [idle]) == Conns(free) + {idle.conn}
  {
    var longer := free + [idle];
    forall i, j | 0 <= i < j < |longer| ensures longer[i].conn != longer[j].conn {
      if j == |free| {
        assert free[i] in free;
      }
    }
    assert idle in longer;
    forall c | c in Conns(free) ensures c in Conns(longer) {
      var i :| i in free && i.conn == c;
      assert i in longer;
    }
  }

  // An idle connection goes from the free list into an agent's hands.
  lemma ReceiveInv(w: World, o: Options, a: nat, ph: Phase)
    requires Inv(w, o) && w.free != [] && HeldBy(w, a) == {} && !CountedBy(w, a)
    requires Held(ph) == {w.free[0].conn} && Counted(ph)
    ensures Inv(Goto(w.(free := w.free[1..]), a, ph), o)
  {
    var w' := Goto(w.(free := w.free[1..]), a, ph);
    HoldersUpdate(w.agents, a, ph);
    ConnsTail(w.free);
    PickedUp(w, w', a, w.free[0].conn);
  }

  lemma PickedUp(w: World, w': World, a: nat, c: nat)
    requires OnePlace(w) && c in Conns(w.free) && HeldBy(w, a) == {} && HeldBy(w', a) == {c}
    requires w'.live == w.live && w'.ever == w.ever && Distinct(w'.free)
    requires Conns(w'.free) == Conns(w.free) - {c} && OthersKeep(w, w', a)
    ensures OnePlace(w')
  {
    forall x | x in w'.live ensures Somewhere(w', x) {
      if x == c {
        assert x in HeldBy(w', a);
      } else if x !in Conns(w.free) {
        StillHeld(w, w', a, x);
      }
    }
  }

  // And back.
  lemma SendInv(w: World, o: Options, a: nat, idle: Idle, ph: Phase)
    requires Inv(w, o) && HeldBy(w, a) == {idle.conn} && CountedBy(w, a) && Held(ph) == {} && !Counted(ph)
    ensures Inv(Send(w, a, idle, ph), o)
  {
    var w' := Send(w, a, idle, ph);
    HoldersUpdate(w.agents, a, ph);
    assert idle.conn in HeldBy(w, a);
    ConnsSend(w.free, idle);
    PutDown(w, w', a, idle.conn);
  }

  lemma PutDown(w: World, w': World, a: nat, c: nat)
    requires OnePlace(w) && HeldBy(w, a) == {c} && HeldBy(w', a) == {}
    requires w'.live == w.live && w'.ever == w.ever && Distinct(w'.free)
    requires Conns(w'.free) == Conns(w.free) + {c} && OthersKeep(w, w', a)
    ensures OnePlace(w')
  {
    forall b ensures HeldBy(w', b) <= w'.live && HeldBy(w', b) !! Conns(w'.free) {
      assert b != a ==> HeldBy(w, a) !! HeldBy(w, b);
    }
    forall x | x in w'.live ensures Somewhere(w', x) {
      if x != c && x !in Conns(w.free) {
        StillHeld(w, w', a, x);
      }
    }
  }

  lemma ReserveInv(w: World, o: Options, a: nat, ph: Phase)
    requires Inv(w, o) && w.count < o.max && !CountedBy(w, a) && Counted(ph) && Held(ph) == HeldBy(w, a)
    ensures Inv(Reserve(w, a, ph), o)
  {
    HoldersUpdate(w.agents, a, ph);
    SamePlaces(w, Reserve(w, a, ph));
  }

  lemma ReleaseInv(w: World, o: Options, a: nat, ph: Phase)
    requires Inv(w, o) && CountedBy(w, a) && !Counted(ph) && Held(ph) == HeldBy(w, a)
    ensures Inv(Release(w, a, ph), o) && Release(w, a, ph).count == w.count - 1
  {
    HoldersUpdate(w.agents, a, ph);
    assert a in Holders(w.agents);
    SamePlaces(w, Release(w, a, ph));
  }

  lemma DialedInv(w: World, o: Options, a: nat, c: nat, ph: Phase)
    requires Inv(w, o) && c !in w.ever && HeldBy(w, a) == {} && Held(ph) == {c} && Counted(ph) == CountedBy(w, a)
    ensures Inv(Dialed(w, a, c, ph), o)
  {
    var w' := Dialed(w, a, c, ph);
    HoldersUpdate(w.agents, a, ph);
    assert OthersKeep(w, w', a);
    forall b, d | b != d ensures HeldBy(w', b) !! HeldBy(w', d) {
      assert HeldBy(w, b) <= w.live && HeldBy(w, d) <= w.live;
    }
    forall x | x in w'.live ensures Somewhere(w', x) {
      if x == c {
        assert x in HeldBy(w', a);
      } else if x !in Conns(w.free) {
        StillHeld(w, w', a, x);
      }
    }
  }

  lemma CloseInv(w: World, o: Options, a: nat, c: nat, ph: Phase)
    requires Inv(w, o) && HeldBy(w, a) == {c} && Held(ph) == {} && Counted(ph) == CountedBy(w, a)
    ensures Inv(Close(w, a, c, ph), o)
  {
    var w' := Close(w, a, c, ph);
    HoldersUpdate(w.agents, a, ph);
    assert OthersKeep(w, w', a);
    assert c in HeldBy(w, a);
    forall b ensures HeldBy(w', b) <= w'.live && HeldBy(w', b) !! Conns(w'.free) {
      assert b != a ==> HeldBy(w, a) !! HeldBy(w, b);
    }
    forall x | x in w'.live ensures Somewhere(w', x) {
      if x !in Conns(w.free) {
        StillHeld(w, w', a, x);
      }
    }
  }

  /******* Every step *******/

  lemma CallInv(w: World, o: Options, a: nat, luck: Luck)
    requires Inv(w, o) && Enabled(w, o, Move(a, luck))
    requires var ph := w.agents[a];
             ph.Wanting? || ph.Deciding? || ph.Growing? || ph.GrowFailed? || ph.Waiting? || ph.Using? || ph.Returning?
    ensures Inv(Go(w, o, a, luck), o)
  {
    match w.agents[a]
    case Wanting => if w.free != [] { ReceiveInv(w, o, a, Using(w.free[0].conn)); } else { GotoInv(w, o, a, Deciding); }
    case Deciding => if w.count < o.max { ReserveInv(w, o, a, Growing); } else { GotoInv(w, o, a, Waiting); }
    case Growing =>
      if luck.ok { DialedInv(w, o, a, luck.conn, Using(luck.conn)); } else { GotoInv(w, o, a, GrowFailed); }
    case GrowFailed => ReleaseInv(w, o, a, Waiting);
    case Waiting => if luck.ok { ReceiveInv(w, o, a, Using(w.free[0].conn)); } else { GotoInv(w, o, a, Finished); }
    case Using(c) => GotoInv(w, o, a, if luck.ok then Returning(c) else Breaking(c));
    case Returning(c) => SendInv(w, o, a, Idle(c, luck.now), Finished);
  }

  lemma ReplaceInv(w: World, o: Options, a: nat, luck: Luck)
    requires Inv(w, o) && Enabled(w, o, Move(a, luck))
    requires var ph := w.agents[a];
             ph.Breaking? || ph.Broken? || ph.Evicted? || ph.Restoring? || ph.RestoreFailed? || ph.Restored?
    ensures Inv(Go(w, o, a, luck), o)
  {
    match w.agents[a]
    case Breaking(c) => CloseInv(w, o, a, c, Broken);
    case Broken => ReleaseInv(w, o, a, Evicted);
    case Evicted => if BelowMin(w, o) { ReserveInv(w, o, a, Restoring); } else { GotoInv(w, o, a, Finished); }
    case Restoring =>
      if luck.ok { DialedInv(w, o, a, luck.conn, Restored(luck.conn)); } else { GotoInv(w, o, a, RestoreFailed); }
    case RestoreFailed => ReleaseInv(w, o, a, Ticking);
    case Restored(c) => SendInv(w, o, a, Idle(c, luck.now), Finished);
  }

  lemma RedialInv(w: World, o: Options, a: nat, luck: Luck)
    requires Inv(w, o) && Enabled(w, o, Move(a, luck))
    requires var ph := w.agents[a]; ph.Ticking? || ph.Redialing? || ph.RedialFailed?
    ensures Inv(Go(w, o, a, luck), o)
  {
    match w.agents[a]
    case Ticking =>
      if !(w.stopped && !luck.ok) && BelowMin(w, o) { ReserveInv(w, o, a, Redialing); }
      else { GotoInv(w, o, a, Finished); }
    case Redialing =>
      if luck.ok { DialedInv(w, o, a, luck.conn, Redialed(luck.conn)); } else { GotoInv(w, o, a, RedialFailed); }
    case RedialFailed => ReleaseInv(w, o, a, Ticking);
  }

  lemma RedialedInv(w: World, o: Options, a: nat, luck: Luck)
    requires Inv(w, o) && Enabled(w, o, Move(a, luck))
    requires var ph := w.agents[a]; ph.Redialed? || ph.Abandoning? || ph.Abandoned?
    ensures Inv(Go(w, o, a, luck), o)
  {
    match w.agents[a]
    case Redialed(c) =>
      if luck.ok { SendInv(w, o, a, Idle(c, luck.now), Finished); } else { GotoInv(w, o, a, Abandoning(c)); }
    case Abandoning(c) => ReleaseInv(w, o, a, Abandoned(c));
    case Abandoned(c) => CloseInv(w, o, a, c, Finished);
  }

  lemma SweepInv(w: World, o: Options, a: nat, luck: Luck)
    requires Inv(w, o) && Enabled(w, o, Move(a, luck))
    requires var ph := w.agents[a]; ph.Resting? || ph.Sweeping?
    ensures Inv(Go(w, o, a, luck), o)
  {
    match w.agents[a]
    case Resting => GotoInv(w, o, a, if w.stopped && !luck.ok then Finished else Sweeping(|w.free|));
    case Sweeping(left) =>
      if left == 0 || w.free == [] { GotoInv(w, o, a, Resting); }
      else { ReceiveInv(w, o, a, InHand(w.free[0], left - 1)); }
  }

  lemma InHandInv(w: World, o: Options, a: nat, luck: Luck)
    requires Inv(w, o) && Enabled(w, o, Move(a, luck))
    requires var ph := w.agents[a]; ph.InHand? || ph.PuttingBack? || ph.Discarding?
    ensures Inv(Go(w, o, a, luck), o)
  {
    match w.agents[a]
    case InHand(idle, left) =>
      if w.count > o.min && luck.now - idle.at > o.idleTimeout { ReleaseInv(w, o, a, Discarding(idle.conn, left)); }
      else { GotoInv(w, o, a, PuttingBack(idle, left)); }
    case PuttingBack(idle, left) => SendInv(w, o, a, idle, Sweeping(left));
    case Discarding(c, left) => CloseInv(w, o, a, c, Sweeping(left));
  }

  // Every interleaved step keeps the accounts.
  lemma TakeInv(w: World, o: Options, step: Step)
    requires Inv(w, o) && Enabled(w, o, step)
    ensures Inv(Take(w, o, step), o)
  {
    match step
    case Spawn(a) => GotoInv(w, o, a, Wanting);
    case Stop => StopInv(w, o);
    case Move(a, luck) =>
      var ph := w.agents[a];
      if ph.Wanting? || ph.Deciding? || ph.Growing? || ph.GrowFailed? || ph.Waiting? || ph.Using? || ph.Returning? {
        CallInv(w, o, a, luck);
      } else if ph.Breaking? || ph.Broken? || ph.Evicted? || ph.Restoring? || ph.RestoreFailed? || ph.Restored? {
        ReplaceInv(w, o, a, luck);
      } else if ph.Ticking? || ph.Redialing? || ph.RedialFailed? {
        RedialInv(w, o, a, luck);
      } else if ph.Redialed? || ph.Abandoning? || ph.Abandoned? {
        RedialedInv(w, o, a, luck);
      } else if ph.Resting? || ph.Sweeping? {
        SweepInv(w, o, a, luck);
      } else {
        InHandInv(w, o, a, luck);
      }
  }

  lemma StopInv(w: World, o: Options)
    requires Inv(w, o)
    ensures Inv(w.(stopped := true), o)
  {
    SamePlaces(w, w.(stopped := true));
  }

  lemma InitialInv(w: World, o: Options)
    requires Initial(w, o)
    ensures Inv(w, o)
  {
    assert Holders(w.agents) == {};
  }

  lemma {:induction false} RunInv(run: seq<World>, o: Options, i: nat)
    requires IsRun(run, o) && i < |run|
    ensures Inv(run[i], o)
  {
    if i == 0 {
      InitialInv(run[0], o);
    } else {
      RunInv(run, o, i - 1);
      assert StepAt(run, o, i);
      var step :| Enabled(run[i - 1], o, step) && run[i] == Take(run[i - 1], o, step);
      TakeInv(run[i - 1], o, step);
    }
  }

  /******* Theorems *******/

  // The count is what is free plus what agents account for, never above the
  // maximum, and each open connection is free or held by exactly one agent.
  lemma Accounting(run: seq<World>, o: Options, i: nat)
    requires IsRun(run, o) && i < |run|
    ensures run[i].count == |run[i].free| + |Holders(run[i].agents)| <= o.max
    ensures OnePlace(run[i])
  {
    RunInv(run, o, i);
  }

  // No send into the free list can block.
  lemma SendsNeverBlock(run: seq<World>, o: Options, i: nat, a: nat, luck: Luck)
    requires IsRun(run, o) && i < |run| && a in run[i].agents && Sending(run[i].agents[a]) && luck.ok
    ensures |run[i].free| < o.max && Enabled(run[i], o, Move(a, luck))
  {
    RunInv(run, o, i);
    assert a in Holders(run[i].agents);
  }

  // An idle eviction leaves at least the minimum.
  lemma IdleEvictionKeepsMin(run: seq<World>, o: Options, i: nat, a: nat, luck: Luck)
    requires IsRun(run, o) && i < |run| && Enabled(run[i], o, Move(a, luck)) && run[i].agents[a].InHand?
    ensures
      var w' := Go(run[i], o, a, luck);
      w'.count >= Min(run[i].count, o.min) && (w'.agents[a].Discarding? ==> w'.count == run[i].count - 1 >= o.min)
  {
    RunInv(run, o, i);
  }

  function Min(a: nat, b: nat): nat { if a < b then a else b }

  // Once no agent holds anything, the free list is every open connection, so
  // draining it closes them all.
  lemma NothingLeaks(run: seq<World>, o: Options, i: nat)
    requires IsRun(run, o) && i < |run|
    requires forall a :: a in run[i].agents ==> Held(run[i].agents[a]) == {} && !Counted(run[i].agents[a])
    ensures run[i].live == Conns(run[i].free) && run[i].count == |run[i].free|
  {
    RunInv(run, o, i);
    assert Holders(run[i].agents) == {};
    forall c | c in run[i].live ensures c in Conns(run[i].free) {
      assert Somewhere(run[i], c);
    }
  }

  /******* When agents take, dial, wait and evict *******/

  // A call takes an idle connection if there is one, dials if there is room, and
  // waits only on a full pool.
  lemma CheckoutMeans(w: World, o: Options, a: nat, luck: Luck)
    requires Enabled(w, o, Move(a, luck)) && (w.agents[a].Wanting? || w.agents[a].Deciding?)
    ensures
      var ph' := Go(w, o, a, luck).agents[a];
      && (w.agents[a].Wanting? ==> (ph'.Using? <==> w.free != []))
      && (w.agents[a].Wanting? && w.free != [] ==> ph'.conn in Conns(w.free))
      && (w.agents[a].Deciding? ==>
            && (ph'.Waiting? <==> w.count >= o.max)
            && (w.count < o.max ==> ph'.Growing? && Go(w, o, a, luck).count == w.count + 1))
  {
    if w.free != [] {
      assert w.free[0] in w.free;
    }
  }

  // A call that has a connection gives it back if the call went through and closes
  // it otherwise; one that waits takes the first idle connection or times out; one
  // that dials uses what it dialed or gives back its slot and waits.
  lemma CallMeans(w: World, o: Options, a: nat, luck: Luck)
    requires Inv(w, o) && Enabled(w, o, Move(a, luck))
    requires var ph := w.agents[a]; ph.Using? || ph.Waiting? || ph.Growing? || ph.GrowFailed?
    ensures
      var w' := Go(w, o, a, luck);
      var ph, ph' := w.agents[a], w'.agents[a];
      && (ph.Using? ==> ph' == if luck.ok then Returning(ph.conn) else Breaking(ph.conn))
      && (ph.Waiting? ==> if luck.ok then ph' == Using(w.free[0].conn) && w'.free == w.free[1..] else ph'.Finished?)
      && (ph.Growing? ==> if luck.ok then ph' == Using(luck.conn) && luck.conn in w'.live else ph'.GrowFailed?)
      && (ph.GrowFailed? ==> ph'.Waiting? && w'.count == w.count - 1)
  {
    assert CountedBy(w, a) ==> a in Holders(w.agents);
  }

  // The evictor closes a connection exactly if the pool is above its minimum and
  // the connection has been idle for longer than the timeout.
  lemma EvictsIff(w: World, o: Options, a: nat, luck: Luck)
    requires Enabled(w, o, Move(a, luck)) && w.agents[a].InHand?
    ensures
      var ph' := Go(w, o, a, luck).agents[a];
      && (ph'.Discarding? <==> w.count > o.min && luck.now > w.agents[a].idle.at + o.idleTimeout)
      && (!ph'.Discarding? ==> ph' == PuttingBack(w.agents[a].idle, w.agents[a].left))
  {}

  // How long it has been idle is counted from when it was last returned.
  lemma ReturnedAt(w: World, o: Options, a: nat, luck: Luck)
    requires Enabled(w, o, Move(a, luck)) && w.agents[a].Returning?
    ensures Go(w, o, a, luck).free == w.free + [Idle(w.agents[a].conn, luck.now)]
  {}
}
