// Restoring the minimum: when the pool keeps enough connections or agents that
// will dial them, and the one kind of step that loses count of them.
module PoolMinimum {
  import opened Pool
  import Paths

  // Its next move, unless the pool is stopped, dials if the count is short.
  predicate Repairs(ph: Phase) { ph.Evicted? || ph.Ticking? }

  function Repairers(agents: map<nat, Phase>): set<nat> { set a | a in agents && Repairs(agents[a]) }

  // Every connection short of the minimum has an agent due to dial it.
  ghost predicate Covered(w: World, o: Options) {
    w.stopped || o.min <= w.count + |Repairers(w.agents)|
  }

  // Redialers abandon a connection only because the pool is stopped.
  ghost predicate AbandonsOnlyStopped(w: World) {
    w.stopped || forall a :: a in w.agents ==> !w.agents[a].Abandoning?
  }

  // A failed growth gives back a slot some redialer may have counted on.
  predicate ShortRelease(w: World, o: Options, step: Step) {
    && step.Move? && step.agent in w.agents && w.agents[step.agent].GrowFailed?
    && !w.stopped && w.count + |Repairers(w.agents)| <= o.min
  }

  lemma RepairersUpdate(agents: map<nat, Phase>, a: nat, ph: Phase)
    ensures
      var was := a in agents && Repairs(agents[a]);
      |Repairers(agents[a := ph])| ==
        |Repairers(agents)| + (if Repairs(ph) then 1 else 0) - (if was then 1 else 0)
  {
    var r, r' := Repairers(agents), Repairers(agents[a := ph]);
    if Repairs(ph) {
      assert r' == r + {a};
    } else {
      assert r' == r - {a};
    }
  }

  // What a step changes: one agent, the count, perhaps the stop flag.
  lemma MoveChanges(w: World, o: Options, a: nat, luck: Luck)
    requires Inv(w, o) && Enabled(w, o, Move(a, luck))
    ensures
      var w' := Go(w, o, a, luck);
      && a in w'.agents && w'.agents == w.agents[a := w'.agents[a]] && w'.stopped == w.stopped
  {}

  // An agent's move leaves the sum alone, or the minimum was met, or it is the
  // release of a failed growth.
  lemma MoveSum(w: World, o: Options, a: nat, luck: Luck)
    requires Inv(w, o) && Enabled(w, o, Move(a, luck)) && !w.stopped && AbandonsOnlyStopped(w)
    ensures
      var w' := Go(w, o, a, luck);
      var ph, ph' := w.agents[a], w'.agents[a];
      var gain := (if Repairs(ph') then 1 else 0) - (if Repairs(ph) then 1 else 0);
      && (ph.GrowFailed? ==> w'.count == w.count - 1 && gain == 0)
      && (!ph.GrowFailed? ==> w'.count + gain >= w.count || w'.count >= o.min)
      && !ph'.Abandoning?
  {
    assert CountedBy(w, a) ==> a in Holders(w.agents);
  }

  // From a covered state a step keeps it covered exactly when it is not such a
  // release.
  lemma StepCoveredIff(w: World, o: Options, step: Step)
    requires Inv(w, o) && Covered(w, o) && AbandonsOnlyStopped(w) && Enabled(w, o, step)
    ensures Covered(Take(w, o, step), o) <==> !ShortRelease(w, o, step)
    ensures AbandonsOnlyStopped(Take(w, o, step))
  {
    var w' := Take(w, o, step);
    match step
    case Spawn(a) => RepairersUpdate(w.agents, a, Wanting);
    case Stop =>
    case Move(a, luck) =>
      MoveChanges(w, o, a, luck);
      RepairersUpdate(w.agents, a, w'.agents[a]);
      if !w.stopped {
        MoveSum(w, o, a, luck);
      }
  }

  /******* Runs *******/

  ghost predicate ShortAt(w: World, o: Options, w': World) {
    exists step :: Enabled(w, o, step) && ShortRelease(w, o, step) && w' == Take(w, o, step)
  }

  // One step of a run from a covered state.
  lemma FollowCovered(w: World, o: Options, w': World)
    requires Inv(w, o) && Covered(w, o) && AbandonsOnlyStopped(w) && Follows(w, o, w')
    ensures Covered(w', o) <==> !ShortAt(w, o, w')
    ensures AbandonsOnlyStopped(w')
  {
    var step :| Enabled(w, o, step) && w' == Take(w, o, step);
    StepCoveredIff(w, o, step);
    if short :| Enabled(w, o, short) && ShortRelease(w, o, short) && w' == Take(w, o, short) {
      StepCoveredIff(w, o, short);
    }
  }

  ghost predicate CoveredUpto(run: seq<World>, o: Options, i: nat)
    requires i < |run|
  {
    forall k :: 0 <= k <= i ==> Covered(run[k], o)
  }

  ghost predicate NoShortUpto(run: seq<World>, o: Options, i: nat)
    requires i < |run|
  {
    forall k {:trigger run[k]} :: 0 < k <= i ==> !ShortAt(run[k - 1], o, run[k])
  }

  // A run stays covered exactly as long as no growth fails while the count and
  // the repairers together are no more than the minimum.
  lemma {:induction false} RunCoveredIff(run: seq<World>, o: Options, i: nat)
    requires IsRun(run, o) && i < |run|
    ensures CoveredUpto(run, o, i) <==> NoShortUpto(run, o, i)
    ensures CoveredUpto(run, o, i) ==> AbandonsOnlyStopped(run[i])
  {
    if i == 0 {
      assert Repairers(run[0].agents) == {};
    } else {
      RunCoveredIff(run, o, i - 1);
      if CoveredUpto(run, o, i - 1) {
        LastStep(run, o, i);
      }
      assert CoveredUpto(run, o, i) ==> CoveredUpto(run, o, i - 1);
      assert NoShortUpto(run, o, i) ==> NoShortUpto(run, o, i - 1);
      assert CoveredUpto(run, o, i) <==> CoveredUpto(run, o, i - 1) && Covered(run[i], o);
      assert NoShortUpto(run, o, i) <==> NoShortUpto(run, o, i - 1) && !ShortAt(run[i - 1], o, run[i]);
    }
  }

  lemma LastStep(run: seq<World>, o: Options, i: nat)
    requires IsRun(run, o) && 0 < i < |run| && Covered(run[i - 1], o) && AbandonsOnlyStopped(run[i - 1])
    ensures Covered(run[i], o) <==> !ShortAt(run[i - 1], o, run[i])
    ensures AbandonsOnlyStopped(run[i])
  {
    RunInv(run, o, i - 1);
    assert StepAt(run, o, i);
    FollowCovered(run[i - 1], o, run[i]);
  }

  // Then, as long as the pool is not stopped, a count below the minimum always
  // leaves some agent about to redial.
  lemma RetriesUntilRestored(run: seq<World>, o: Options, i: nat)
    requires IsRun(run, o) && i < |run| && NoShortUpto(run, o, i)
    requires !run[i].stopped && run[i].count < o.min
    ensures exists a :: a in run[i].agents && Repairs(run[i].agents[a])
    ensures o.min - run[i].count <= |Repairers(run[i].agents)|
  {
    RunCoveredIff(run, o, i);
    assert Covered(run[i], o);
    assert Repairers(run[i].agents) != {};
    var a :| a in Repairers(run[i].agents);
  }

  // And such an agent dials at its next move exactly if the count is short.
  lemma RepairerDialsIff(w: World, o: Options, a: nat, luck: Luck)
    requires Inv(w, o) && Enabled(w, o, Move(a, luck)) && Repairs(w.agents[a]) && !w.stopped
    ensures
      var w' := Go(w, o, a, luck);
      if w.count < o.min then (w'.agents[a].Restoring? || w'.agents[a].Redialing?) && w'.count == w.count + 1
      else w'.agents[a].Finished? && w'.count == w.count
  {}

  /******* Without the condition *******/

  const O := Options(1, 1, 0)

  ghost function Next(): (World, World) -> bool { (w, w') => Follows(w, O, w') }

  ghost predicate Reached(w: World) { Paths.Reaches(Next(), Begin(), w) }

  lemma Then(w: World, step: Step, w': World)
    requires Reached(w) && Enabled(w, O, step) && w' == Take(w, O, step)
    ensures Reached(w')
  {
    assert Follows(w, O, w');
    Paths.Then(Next(), Begin(), w, w');
  }

  // A pool of one connection, 7, and no traffic yet.
  function Begin(): World { World([Idle(7, 0)], 1, map[0 := Resting], {7}, {7}, false) }

  function State(count: nat, one: Phase, two: Phase): World {
    World([], count, map[0 := Resting, 1 := one, 2 := two], {}, {7}, false)
  }

  const Bad := Luck(false, 0, 0)

  // Caller 1's connection breaks.
  lemma Breaks()
    ensures Reached(State(1, Broken, Wanting))
  {
    Paths.Here(Next(), Begin());
    var w1 := Goto(Begin(), 1, Wanting);
    Then(Begin(), Spawn(1), w1);
    var w2 := Receive(w1, 1);
    Then(w1, Move(1, Bad), w2);
    var w3 := Goto(w2, 1, Breaking(7));
    Then(w2, Move(1, Bad), w3);
    var w4 := Close(w3, 1, 7, Broken);
    Then(w3, Move(1, Bad), w4);
    var w5 := Goto(w4, 2, Wanting);
    Then(w4, Spawn(2), w5);
    assert w5 == State(1, Broken, Wanting);
  }

  // Its restore fails and leaves a redialer; caller 2 reserves growth meanwhile.
  lemma Reserves()
    ensures Reached(State(1, Ticking, Growing))
  {
    Breaks();
    Then(State(1, Broken, Wanting), Move(1, Bad), State(0, Evicted, Wanting));
    Then(State(0, Evicted, Wanting), Move(1, Bad), State(1, Restoring, Wanting));
    Then(State(1, Restoring, Wanting), Move(1, Bad), State(1, RestoreFailed, Wanting));
    Then(State(1, RestoreFailed, Wanting), Move(1, Bad), State(0, Ticking, Wanting));
    Then(State(0, Ticking, Wanting), Move(2, Bad), State(0, Ticking, Deciding));
    Then(State(0, Ticking, Deciding), Move(2, Bad), State(1, Ticking, Growing));
  }

  // The redialer sees the minimum met and exits, then the growth fails: nothing
  // is counted, nothing is open, and no agent is left that would dial.
  lemma MinimumNotRestored()
    ensures Initial(Begin(), O) && Reached(State(0, Finished, Finished))
    ensures
      var w := State(0, Finished, Finished);
      && w.count < O.min && w.live == {} && !w.stopped && !Covered(w, O)
      && forall a :: a in w.agents ==> w.agents[a].Finished? || w.agents[a].Resting?
  {
    Reserves();
    Then(State(1, Ticking, Growing), Move(1, Bad), State(1, Finished, Growing));
    Then(State(1, Finished, Growing), Move(2, Bad), State(1, Finished, GrowFailed));
    Then(State(1, Finished, GrowFailed), Move(2, Bad), State(0, Finished, Waiting));
    Then(State(0, Finished, Waiting), Move(2, Bad), State(0, Finished, Finished));
    assert Conns([Idle(7, 0)]) == {7} by {
      assert Idle(7, 0) in [Idle(7, 0)];
    }
    assert Repairers(State(0, Finished, Finished).agents) == {};
  }
}
