// The safety theorems of Raft, over every run: elections, lost and late
// messages, crashes and restarts, log compaction and snapshot installation.
module RaftSafety {
  import opened RaftCore
  import opened RaftProtocol
  import opened RaftInvariant
  import opened RaftSteps
  import opened RaftElection
  import opened RaftReplication
  import opened RaftAccept
  import opened RaftSnapshot

  /******* Every step keeps the invariant *******/

  lemma AppliedChange(s: Cluster, i: nat, index: nat)
    requires i < |s.nodes| && NodeOK(s, i)
    ensures NodeChange(s, SetNode(s, i, ApplyOne(s.nodes[i])), i)
    ensures NodeChange(s, SetNode(s, i, Compact(s.nodes[i], index)), i)
  {
    var a, b := SetNode(s, i, ApplyOne(s.nodes[i])), SetNode(s, i, Compact(s.nodes[i], index));
    assert a.hist == s.hist.(votes := a.hist.votes) && b.hist == s.hist.(votes := b.hist.votes);
    assert s.nodes[i].role == Leader ==> LeaderOK(a, i) && LeaderOK(b, i);
  }

  lemma ActInv(s: Cluster, i: nat, action: Action)
    requires Inv(s) && i < |s.nodes|
    ensures Inv(Act(s, i, action))
  {
    assert NodeOK(s, i);
    match action
    case Timeout => TimeoutInv(s, i);
    case StartElection => StartInv(s, i);
    case ProposeAt(command) => ProposeInv(s, i, command);
    case SendAppend(p) => SendAppendInv(s, i, p);
    case SendSnapshot(p) => SendSnapshotInv(s, i, p);
    case Crash => CrashInv(s, i);
    case ObserveTerm(t) => StepDownInv(s, i, t);
    case ApplyEntry =>
      AppliedChange(s, i, 0);
      NodeChangeInv(s, Act(s, i, action), i);
    case TakeSnapshot(index) =>
      AppliedChange(s, i, index);
      NodeChangeInv(s, Act(s, i, action), i);
  }

  lemma TakeInv(s: Cluster, step: Step)
    requires Inv(s)
    ensures Inv(Take(s, step))
  {
    match step
    case Local(i, action) => if i < |s.nodes| { ActInv(s, i, action); }
    case AskVote(r, p) => AskVoteInv(s, r, p);
    case CountVote(r, p) => CountVoteInv(s, r, p);
    case Deliver(t, p) => DeliverInv(s, t, p);
    case Receive(t, p) => ReceiveInv(s, t, p);
  }

  lemma {:induction false} RunInv(run: seq<Cluster>, i: nat)
    requires IsRun(run) && i < |run|
    ensures Inv(run[i])
  {
    if i == 0 {
      var n: nat :| run[0] == Initial(n);
      InitialInv(n);
    } else {
      RunInv(run, i - 1);
      assert Follows(run[i - 1], run[i - 1 + 1]);
      var step :| run[i] == Take(run[i - 1], step);
      TakeInv(run[i - 1], step);
    }
  }

  /******* Nothing confirmed is ever unsaid *******/

  lemma MonoRefl(s: Cluster)
    ensures Mono(s, s)
  {}

  lemma MonoTrans(a: Cluster, b: Cluster, c: Cluster)
    requires Mono(a, b) && Mono(b, c)
    ensures Mono(a, c)
  {
    forall t | t in a.hist.reigns
      ensures a.hist.reigns[t].ledger <= c.hist.reigns[t].ledger
    {
      assert a.hist.reigns[t].ledger <= b.hist.reigns[t].ledger <= c.hist.reigns[t].ledger;
    }
  }

  lemma ProposeMono(s: Cluster, i: nat, command: Command)
    requires i < |s.nodes| && NodeOK(s, i) && ReignsOK(s)
    ensures Mono(s, DoPropose(s, i, command))
  {
    if s.nodes[i].role == Leader {
      assert ReignOK(s, s.nodes[i].currentTerm);
      ExtendMono(s, i, command);
      var s' := DoPropose(s, i, command);
      assert s'.hist == Extend(s, i, command).hist;
      assert s'.nodes[i].currentTerm == s.nodes[i].currentTerm;
    }
  }

  lemma ActMono(s: Cluster, i: nat, action: Action)
    requires i < |s.nodes| && NodeOK(s, i) && VotesOK(s) && ReignsOK(s)
    ensures Mono(s, Act(s, i, action))
  {
    match action
    case ProposeAt(command) => ProposeMono(s, i, command);
    case Timeout =>
    case _ =>
      var s' := Act(s, i, action);
      assert s'.hist == s.hist;
  }

  lemma AskVoteMono(s: Cluster, r: nat, p: nat)
    requires NodesOK(s) && VotesOK(s)
    ensures Mono(s, DoAskVote(s, r, p))
  {
    if r < |s.runs| && p < |s.nodes| && p != s.runs[r].args.candidate && p !in s.runs[r].ballots {
      assert NodeOK(s, p);
      VoterChange(s, p, s.runs[r].args);
      NodeChangeQuiet(s, Voter(s, p, s.runs[r].args), p);
    }
  }

  lemma CountVoteMono(s: Cluster, r: nat, p: nat)
    requires Inv(s)
    ensures Mono(s, DoCountVote(s, r, p))
  {
    if r < |s.runs| && s.runs[r].args.candidate < |s.nodes|
       && p in s.runs[r].ballots && p !in s.runs[r].counted {
      var run := s.runs[r];
      var c := run.args.candidate;
      var s' := DoCountVote(s, r, p);
      var s1 := s.(runs := s'.runs);
      assert RunOK(s, run) && NodeOK(s, c) && AckOK(s, c, s.nodes[c].currentTerm);
      if s'.nodes[c].role == Leader && s.nodes[c].role == Candidate {
        CountedRun(s, run, p, s'.runs[r].votes);
        RunChangeInv(s, s1, r);
        assert NodeOK(s1, c) && RunOK(s1, s1.runs[r]) && AckOK(s1, c, s.nodes[c].currentTerm);
        FreshTerm(s1, r, c);
        CrownMono(s1, r, c);
        assert s' == Crown(s1, r, c);
      }
    }
  }

  lemma DeliverMono(s: Cluster, t: nat, p: nat)
    requires RpcsOK(s)
    ensures Mono(s, DoDeliver(s, t, p))
  {
    if (t, p) in s.rpcs {
      assert RpcOK(s, t, p, s.rpcs[(t, p)]);
    }
  }

  lemma TakeMono(s: Cluster, step: Step)
    requires Inv(s)
    ensures Mono(s, Take(s, step))
  {
    match step
    case Local(i, action) =>
      if i < |s.nodes| {
        assert NodeOK(s, i);
        ActMono(s, i, action);
      }
    case AskVote(r, p) => AskVoteMono(s, r, p);
    case CountVote(r, p) => CountVoteMono(s, r, p);
    case Deliver(t, p) => DeliverMono(s, t, p);
    case Receive(t, p) =>
  }

  lemma FollowsMono(s: Cluster, s': Cluster)
    requires Inv(s) && Follows(s, s')
    ensures Mono(s, s')
  {
    var step :| s' == Take(s, step);
    TakeMono(s, step);
  }

  lemma RunStepMono(run: seq<Cluster>, j: nat)
    requires IsRun(run) && j + 1 < |run|
    ensures Mono(run[j], run[j + 1])
  {
    RunInv(run, j);
    FollowsMono(run[j], run[j + 1]);
  }

  lemma {:induction false} RunMono(run: seq<Cluster>, i: nat, j: nat)
    requires IsRun(run) && i <= j < |run|
    ensures Mono(run[i], run[j])
  {
    if i == j {
      MonoRefl(run[i]);
    } else {
      var k := j - 1;
      RunMono(run, i, k);
      RunStepMono(run, k);
      MonoTrans(run[i], run[k], run[j]);
    }
  }

  /******* Election safety (section 5.2) *******/

  // At most one node is ever leader of a term, at any two moments of a run.
  lemma ElectionSafety(run: seq<Cluster>, i: nat, j: nat, a: nat, b: nat)
    requires IsRun(run) && i <= j < |run| && a < |run[i].nodes| && b < |run[j].nodes|
    requires run[i].nodes[a].role == Leader && run[j].nodes[b].role == Leader
    requires run[i].nodes[a].currentTerm == run[j].nodes[b].currentTerm
    ensures a == b
  {
    RunInv(run, i);
    RunInv(run, j);
    RunMono(run, i, j);
    assert NodeOK(run[i], a) && NodeOK(run[j], b);
  }

  /******* Log matching (section 5.3) *******/

  // Logs of any nodes at any moments that agree on the term at an index agree on
  // everything up to it, and terms never decrease along a log.
  lemma LogsMatch(run: seq<Cluster>, i: nat, j: nat, a: nat, b: nat, index: nat)
    requires IsRun(run) && i <= j < |run| && a < |run[i].nodes| && b < |run[j].nodes|
    requires index <= |run[i].nodes[a].log| && index <= |run[j].nodes[b].log|
    requires TermOf(run[i].nodes[a].log, index) == TermOf(run[j].nodes[b].log, index)
    ensures run[i].nodes[a].log[..index] == run[j].nodes[b].log[..index]
    ensures forall x, y :: 0 <= x <= y < |run[i].nodes[a].log| ==>
              run[i].nodes[a].log[x].term <= run[i].nodes[a].log[y].term
  {
    RunInv(run, i);
    RunInv(run, j);
    RunMono(run, i, j);
    assert NodeOK(run[i], a) && NodeOK(run[j], b);
    MonoLog(run[i], run[j], run[i].nodes[a].log);
    LogMatching(run[j].hist, run[i].nodes[a].log, run[j].nodes[b].log, index);
  }

  /******* Leader completeness (section 5.4) *******/

  // What node a held as committed, seen at a later or equal moment s.
  lemma CommittedPrefix(run: seq<Cluster>, i: nat, m: nat, a: nat) returns (t: nat, k: nat)
    requires IsRun(run) && i <= m < |run| && a < |run[i].nodes| && run[i].nodes[a].commitIndex > 0
    ensures run[i].nodes[a].commitIndex <= |run[i].nodes[a].log|
    ensures Covered(run[m], run[i].nodes[a].log, run[i].nodes[a].commitIndex, run[i].nodes[a].currentTerm, t, k)
  {
    RunInv(run, i);
    RunMono(run, i, m);
    var s, nd := run[i], run[i].nodes[a];
    assert NodeOK(s, a);
    t, k :| CommitWitness(s, a, nd.commitIndex, t, k);
    MonoCovered(s, run[m], nd.log, nd.commitIndex, nd.currentTerm, t, k);
  }

  // A leader's log contains the log it was elected with, at any later moment too.
  lemma ElectedLog(run: seq<Cluster>, j: nat, m: nat, b: nat)
    requires IsRun(run) && j <= m < |run| && b < |run[j].nodes| && run[j].nodes[b].role == Leader
    ensures run[j].nodes[b].currentTerm in run[m].hist.reigns
    ensures run[m].hist.reigns[run[j].nodes[b].currentTerm].elog <= run[j].nodes[b].log
    ensures forall x :: 0 <= x < |run[j].nodes[b].log| && run[j].nodes[b].log[x].term == run[j].nodes[b].currentTerm ==>
              |run[m].hist.reigns[run[j].nodes[b].currentTerm].elog| <= x
  {
    RunInv(run, j);
    RunMono(run, j, m);
    var t := run[j].nodes[b].currentTerm;
    assert NodeOK(run[j], b) && ReignOK(run[j], t);
    var g := run[j].hist.reigns[t];
    assert forall x :: 0 <= x < |g.elog| ==> g.ledger[x] == g.elog[x];
  }

  // Everything any node ever held as committed in an earlier term is in the log
  // of every leader of a later term, whichever of the two came first in time.
  lemma LeaderCompleteness(run: seq<Cluster>, i: nat, j: nat, a: nat, b: nat)
    requires IsRun(run) && i < |run| && j < |run| && a < |run[i].nodes| && b < |run[j].nodes|
    requires run[j].nodes[b].role == Leader && run[i].nodes[a].currentTerm < run[j].nodes[b].currentTerm
    ensures run[i].nodes[a].commitIndex <= |run[i].nodes[a].log|
    ensures run[i].nodes[a].log[..run[i].nodes[a].commitIndex] <= run[j].nodes[b].log
    ensures forall x :: 0 <= x < |run[j].nodes[b].log| && run[j].nodes[b].log[x].term == run[j].nodes[b].currentTerm ==>
              run[i].nodes[a].commitIndex <= x
  {
    var c := run[i].nodes[a].commitIndex;
    if c > 0 {
      var m := Max(i, j);
      var t, k := CommittedPrefix(run, i, m, a);
      ElectedLog(run, j, m, b);
      assert Completeness(run[m]) by { RunInv(run, m); }
      CommittedChoosable(run[m], t, k);
      var elog := run[m].hist.reigns[run[j].nodes[b].currentTerm].elog;
      assert Promise(run[m], t, k, elog);
      assert run[i].nodes[a].log[..c] <= run[m].hist.reigns[t].ledger[..k];
    } else {
      RunInv(run, i);
      assert NodeOK(run[i], a);
    }
  }

  /******* State machine safety (section 5.4.3) *******/

  // No two nodes, at any two moments, hold different committed entries at an index.
  lemma StateMachineSafety(run: seq<Cluster>, i: nat, j: nat, a: nat, b: nat, x: nat)
    requires IsRun(run) && i < |run| && j < |run| && a < |run[i].nodes| && b < |run[j].nodes|
    requires x < run[i].nodes[a].commitIndex && x < run[j].nodes[b].commitIndex
    ensures x < |run[i].nodes[a].log| && x < |run[j].nodes[b].log|
    ensures run[i].nodes[a].log[x] == run[j].nodes[b].log[x]
  {
    var m := Max(i, j);
    var t, k := CommittedPrefix(run, i, m, a);
    var t', k' := CommittedPrefix(run, j, m, b);
    RunInv(run, m);
    if t < t' {
      CommittedInLater(run[m], t, k, t', x);
    } else if t' < t {
      CommittedInLater(run[m], t', k', t, x);
    }
    assert run[i].nodes[a].log[..run[i].nodes[a].commitIndex][x] == run[m].hist.reigns[t].ledger[x];
    assert run[j].nodes[b].log[..run[j].nodes[b].commitIndex][x] == run[m].hist.reigns[t'].ledger[x];
  }

  lemma CommittedInLater(s: Cluster, t: nat, k: nat, t': nat, x: nat)
    requires ReignsOK(s) && Completeness(s) && Committed(s, t, k) && t < t' && t' in s.hist.reigns && x < k
    ensures x < |s.hist.reigns[t'].ledger| && s.hist.reigns[t].ledger[x] == s.hist.reigns[t'].ledger[x]
  {
    CommittedChoosable(s, t, k);
    assert ReignOK(s, t');
    assert Promise(s, t, k, s.hist.reigns[t'].elog);
    assert s.hist.reigns[t].ledger[..k][x] == s.hist.reigns[t'].elog[x] == s.hist.reigns[t'].ledger[x];
  }

  /******* Compaction, application and reads *******/

  // The indices of a node stay in order through every run.
  lemma IndicesOrdered(run: seq<Cluster>, i: nat, a: nat)
    requires IsRun(run) && i < |run| && a < |run[i].nodes|
    ensures run[i].nodes[a].base <= run[i].nodes[a].lastApplied <= run[i].nodes[a].commitIndex <= |run[i].nodes[a].log|
  {
    RunInv(run, i);
    assert NodeOK(run[i], a);
  }

  // Section 8: a leader's state machine that is past an entry of the leader's own
  // term is past everything any node ever held as committed in an earlier term.
  lemma OwnTermRead(run: seq<Cluster>, i: nat, j: nat, a: nat, b: nat, x: nat, n: nat)
    requires IsRun(run) && i < |run| && j < |run| && a < |run[i].nodes| && b < |run[j].nodes|
    requires run[j].nodes[b].role == Leader && run[i].nodes[a].currentTerm < run[j].nodes[b].currentTerm
    requires x < n <= |run[j].nodes[b].log| && n <= run[j].nodes[b].lastApplied
    requires run[j].nodes[b].log[x].term == run[j].nodes[b].currentTerm
    ensures run[i].nodes[a].commitIndex <= n && run[i].nodes[a].commitIndex <= |run[i].nodes[a].log|
    ensures run[i].nodes[a].log[..run[i].nodes[a].commitIndex] <= run[j].nodes[b].log[..n]
  {
    LeaderCompleteness(run, i, j, a, b);
    var c := run[i].nodes[a].commitIndex;
    assert run[j].nodes[b].log[..n][..c] == run[j].nodes[b].log[..c];
  }

  // Delivering an AppendEntries never moves the follower's commit index past the
  // part of its log that now equals the sending leader's log.
  lemma FollowerCommitVerified(run: seq<Cluster>, i: nat, t: nat, p: nat)
    requires IsRun(run) && i < |run| && (t, p) in run[i].rpcs && run[i].rpcs[(t, p)].AppendSent? && p < |run[i].nodes|
    ensures
      var a := run[i].rpcs[(t, p)].a;
      var before, after := run[i].nodes[p], DoDeliver(run[i], t, p).nodes[p];
      after.commitIndex > before.commitIndex ==>
        && t in run[i].hist.reigns
        && after.commitIndex <= a.prevIndex + |a.entries| <= |run[i].hist.reigns[t].ledger|
        && after.commitIndex <= |after.log|
        && after.log[..after.commitIndex] == run[i].hist.reigns[t].ledger[..after.commitIndex]
  {
    RunInv(run, i);
    VerifiedStep(run[i], t, p);
  }

  lemma VerifiedStep(s: Cluster, t: nat, p: nat)
    requires Inv(s) && (t, p) in s.rpcs && s.rpcs[(t, p)].AppendSent? && p < |s.nodes|
    ensures
      var a := s.rpcs[(t, p)].a;
      var before, after := s.nodes[p], DoDeliver(s, t, p).nodes[p];
      after.commitIndex > before.commitIndex ==>
        && t in s.hist.reigns
        && after.commitIndex <= a.prevIndex + |a.entries| <= |s.hist.reigns[t].ledger|
        && after.commitIndex <= |after.log|
        && after.log[..after.commitIndex] == s.hist.reigns[t].ledger[..after.commitIndex]
  {
    var a := s.rpcs[(t, p)].a;
    var before, after := s.nodes[p], DoDeliver(s, t, p).nodes[p];
    assert RpcOK(s, t, p, s.rpcs[(t, p)]) && NodeOK(s, p) && ReignOK(s, t);
    RaisedCommit(before, a);
    if after.commitIndex > before.commitIndex {
      assert after == HandleAppend(before, a).node;
      var s1 := SetNode(s, p, BecomeFollower(before, a.term));
      assert s1.hist == s.hist;
      VerifiedLog(s, s1, t, p, a);
      var ledger := s.hist.reigns[t].ledger;
      assert after.log[..after.commitIndex] == ledger[..a.prevIndex + |a.entries|][..after.commitIndex];
    }
  }

  // A handler that raises the commit index checked the log and overwrote it.
  lemma RaisedCommit(nd: Node, a: AppendArgs)
    requires nd.base <= nd.commitIndex
    ensures HandleAppend(nd, a).Panicked? ==> Restart(HandleAppend(nd, a).node).commitIndex <= nd.commitIndex
    ensures HandleAppend(nd, a).node.commitIndex > nd.commitIndex ==>
              && nd.currentTerm <= a.term && PrevMatches(BecomeFollower(nd, a.term), a)
              && a.prevIndex <= |nd.log| && HandleAppend(nd, a).node.log == Overwrite(nd.log, a)
              && HandleAppend(nd, a).node.commitIndex <= a.leaderCommit
              && HandleAppend(nd, a).node.commitIndex <= |Overwrite(nd.log, a)|
  {}

  lemma VerifiedLog(s: Cluster, s1: Cluster, t: nat, p: nat, a: AppendArgs)
    requires p < |s.nodes| && NodeShape(s, p) && AppendOK(s, t, p, a) && t in s.hist.reigns && ReignOK(s, t)
    requires s.nodes[p].currentTerm <= t && s1 == SetNode(s, p, BecomeFollower(s.nodes[p], a.term))
    requires PrevMatches(s1.nodes[p], a)
    ensures a.prevIndex <= |s.nodes[p].log|
    ensures s.hist.reigns[t].ledger[..a.prevIndex + |a.entries|] <= Overwrite(s.nodes[p].log, a)
  {
    var log, ledger := s.nodes[p].log, s.hist.reigns[t].ledger;
    LogMatching(s.hist, log, ledger, a.prevIndex);
    assert ledger[..a.prevIndex + |a.entries|] == ledger[..a.prevIndex] + a.entries;
  }
}
