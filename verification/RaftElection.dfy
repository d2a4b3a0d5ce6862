// Winning an election: the term is new, the voters form a quorum, and the
// winner's log holds every entry that is or may become committed.
module RaftElection {
  import opened RaftCore
  import opened RaftProtocol
  import opened RaftInvariant
  import opened RaftSteps

  // Run r of candidate c, still a candidate in the run's term, has a majority.
  ghost predicate Wins(s: Cluster, r: nat, c: nat) {
    && r < |s.runs| && c < |s.nodes| && s.runs[r].args.candidate == c
    && s.nodes[c].role == Candidate && s.nodes[c].currentTerm == s.runs[r].args.term
    && s.runs[r].votes >= Majority(|s.nodes|)
  }

  function Crown(s: Cluster, r: nat, c: nat): Cluster
    requires r < |s.runs| && c < |s.nodes|
  {
    var nd := BecomeLeader(s.nodes[c], Peers(|s.nodes|, c));
    SetNode(s, c, nd).(hist := AddAck(s.hist.(reigns := s.hist.reigns[nd.currentTerm :=
      Reign(c, s.runs[r].supporters + {c}, nd.log, nd.log)]), c, nd.currentTerm, |nd.log|))
  }

  lemma WinnerQuorum(s: Cluster, r: nat, c: nat)
    requires Wins(s, r, c) && RunOK(s, s.runs[r]) && NodeVote(s, c)
    ensures IsQuorum(|s.nodes|, s.runs[r].supporters + {c})
    ensures forall v :: v in s.runs[r].supporters + {c} ==>
              (v, s.nodes[c].currentTerm) in s.hist.votes && s.hist.votes[(v, s.nodes[c].currentTerm)] == c
  {
    var run := s.runs[r];
    assert forall p :: p in run.supporters ==> BallotOK(s, run.args, p, run.ballots[p]);
    assert c !in run.supporters;
    assert |run.supporters + {c}| == |run.supporters| + 1;
  }

  // Election safety: the term has had no leader.
  lemma FreshTerm(s: Cluster, r: nat, c: nat)
    requires Wins(s, r, c) && RunOK(s, s.runs[r]) && NodeVote(s, c) && NodeRole(s, c) && ReignsOK(s)
    ensures s.nodes[c].currentTerm !in s.hist.reigns
  {
    var t := s.nodes[c].currentTerm;
    if t in s.hist.reigns {
      WinnerQuorum(s, r, c);
      assert ReignOK(s, t);
      var x := QuorumsMeet(|s.nodes|, s.runs[r].supporters + {c}, s.hist.reigns[t].voters);
      assert false;
    }
  }

  lemma WholePrefix(h: History, log: Log)
    requires LogOK(h, log) && log != []
    ensures LastTerm(log) in h.reigns && log <= h.reigns[LastTerm(log)].ledger
  {
    assert EntryOK(h, log, |log| - 1);
    assert log[..|log| - 1 + 1] == log;
  }

  // A candidate whose log is at least as up to date as a log holding a
  // choosable entry holds that entry too.
  lemma UpToDateHolds(s: Cluster, t: nat, k: nat, mine: Log, theirs: Log)
    requires ReignsOK(s) && Completeness(s) && Own(s.hist, t, k) && Choosable(s, t, k)
    requires LogOK(s.hist, mine) && LogOK(s.hist, theirs)
    requires UpToDate(|mine|, LastTerm(mine), theirs)
    requires s.hist.reigns[t].ledger[..k] <= theirs
    ensures s.hist.reigns[t].ledger[..k] <= mine
  {
    var g := s.hist.reigns[t];
    assert ReignOK(s, t);
    assert theirs[k - 1] == g.ledger[..k][k - 1] == g.ledger[k - 1];
    WholePrefix(s.hist, theirs);
    var u := LastTerm(mine);
    assert t <= LastTerm(theirs) <= u;
    assert mine != [];
    WholePrefix(s.hist, mine);
    if u > LastTerm(theirs) {
      assert ReignOK(s, u);
      var elog := s.hist.reigns[u].elog;
      assert |elog| < |mine| by {
        assert mine[|mine| - 1] == s.hist.reigns[u].ledger[|mine| - 1];
        assert forall i :: 0 <= i < |elog| ==> s.hist.reigns[u].ledger[i] == elog[i];
      }
      assert Promise(s, t, k, elog);
      assert elog <= mine;
    }
  }

  // Leader completeness at the moment of election.
  lemma WinnerComplete(s: Cluster, r: nat, c: nat, t: nat, k: nat)
    requires Wins(s, r, c) && RunOK(s, s.runs[r]) && NodeVote(s, c) && LogOK(s.hist, s.nodes[c].log)
    requires ReignsOK(s) && Completeness(s) && Retention(s) && t < s.nodes[c].currentTerm
    ensures Promise(s, t, k, s.nodes[c].log)
  {
    if Own(s.hist, t, k) && Choosable(s, t, k) {
      var run := s.runs[r];
      var q :| IsQuorum(|s.nodes|, q) && Backs(s, q, t, k);
      WinnerQuorum(s, r, c);
      var x := QuorumsMeet(|s.nodes|, q, run.supporters + {c});
      if x == c {
        assert Promise(s, t, k, s.nodes[c].log);
      } else {
        var b := run.ballots[x];
        assert BallotOK(s, run.args, x, b);
        assert Promise(s, t, k, b.voterLog);
        UpToDateHolds(s, t, k, s.nodes[c].log, b.voterLog);
      }
    }
  }

  lemma CrownMono(s: Cluster, r: nat, c: nat)
    requires Wins(s, r, c) && AckOK(s, c, s.nodes[c].currentTerm)
    requires s.nodes[c].currentTerm !in s.hist.reigns
    ensures Mono(s, Crown(s, r, c))
    ensures forall q: nat, t: nat :: !(q == c && t == s.nodes[c].currentTerm) ==>
              Acks(Crown(s, r, c).hist, q, t) == Acks(s.hist, q, t)
    ensures Acks(s.hist, c, s.nodes[c].currentTerm) == 0
    ensures Acks(Crown(s, r, c).hist, c, s.nodes[c].currentTerm) == |s.nodes[c].log|
  {}

  lemma CrownNode(s: Cluster, r: nat, c: nat)
    requires Wins(s, r, c) && NodeOK(s, c) && s.nodes[c].currentTerm !in s.hist.reigns
    requires Mono(s, Crown(s, r, c))
    ensures NodeOK(Crown(s, r, c), c)
  {
    var s' := Crown(s, r, c);
    var nd := s.nodes[c];
    MonoLog(s, s', nd.log);
    assert NodeShape(s', c);
    assert LeaderOK(s', c);
    if nd.commitIndex > 0 {
      var t: nat, k: nat :| CommitWitness(s, c, nd.commitIndex, t, k);
      MonoCovered(s, s', nd.log, nd.commitIndex, nd.currentTerm, t, k);
      assert CommitWitness(s', c, nd.commitIndex, t, k);
    }
  }

  lemma CrownReign(s: Cluster, s': Cluster, voters: set<nat>, c: nat)
    requires c < |s.nodes| && NodeShape(s, c) && 1 <= s.nodes[c].currentTerm
    requires Mono(s, s') && s.nodes[c].currentTerm !in s.hist.reigns && s.nodes[c].currentTerm in s'.hist.reigns
    requires s'.hist.reigns[s.nodes[c].currentTerm] == Reign(c, voters, s.nodes[c].log, s.nodes[c].log)
    requires IsQuorum(|s.nodes|, voters)
    requires forall v :: v in voters ==>
               (v, s.nodes[c].currentTerm) in s.hist.votes && s.hist.votes[(v, s.nodes[c].currentTerm)] == c
    requires Acks(s'.hist, c, s.nodes[c].currentTerm) == |s.nodes[c].log|
    ensures ReignOK(s', s.nodes[c].currentTerm)
  {
    var log := s.nodes[c].log;
    MonoLog(s, s', log);
    forall i: nat | i < |log|
      ensures log[i].term < s.nodes[c].currentTerm
    {
      assert EntryOK(s.hist, log, i);
    }
  }

  lemma CrownReigns(s: Cluster, r: nat, c: nat)
    requires Wins(s, r, c) && NodeOK(s, c) && RunOK(s, s.runs[r]) && s.nodes[c].currentTerm !in s.hist.reigns
    requires AcksOK(s) && ReignsOK(s)
    ensures ReignsOK(Crown(s, r, c)) && AcksOK(Crown(s, r, c))
  {
    var s' := Crown(s, r, c);
    var term := s.nodes[c].currentTerm;
    assert AckOK(s, c, term);
    CrownMono(s, r, c);
    WinnerQuorum(s, r, c);
    CrownReign(s, s', s.runs[r].supporters + {c}, c);
    forall t | t in s'.hist.reigns
      ensures ReignOK(s', t)
    {
      if t != term {
        assert ReignOK(s, t);
        MonoLog(s, s', s.hist.reigns[t].ledger);
      }
    }
    forall q: nat, t: nat
      ensures AckOK(s', q, t)
    {
      assert AckOK(s, q, t);
    }
  }

  lemma CrownPromises(s: Cluster, r: nat, c: nat)
    requires Wins(s, r, c) && NodeOK(s, c) && RunOK(s, s.runs[r]) && s.nodes[c].currentTerm !in s.hist.reigns
    requires AcksOK(s) && ReignsOK(s) && Completeness(s) && Retention(s)
    ensures Completeness(Crown(s, r, c)) && Retention(Crown(s, r, c))
  {
    var s' := Crown(s, r, c);
    var term := s.nodes[c].currentTerm;
    assert AckOK(s, c, term);
    CrownMono(s, r, c);
    forall t: nat, t': nat, k: nat | t in s'.hist.reigns && t' in s'.hist.reigns && t < t'
      ensures Promise(s', t, k, s'.hist.reigns[t'].elog)
    {
      if Own(s'.hist, t, k) {
        if t' == term {
          WinnerComplete(s, r, c, t, k);
        }
        MonoPromise(s, s', t, k, s'.hist.reigns[t'].elog);
      }
    }
    forall q: nat, t: nat, k: nat | q < |s'.nodes| && k <= Acks(s'.hist, q, t)
      ensures Promise(s', t, k, s'.nodes[q].log)
    {
      if t != term {
        assert AckOK(s, q, t);
        CarryRetention(s, s', q, t, k);
      }
    }
  }

  lemma CrownNodes(s: Cluster, r: nat, c: nat)
    requires Wins(s, r, c) && NodesOK(s) && s.nodes[c].currentTerm !in s.hist.reigns
    requires Mono(s, Crown(s, r, c))
    ensures NodesOK(Crown(s, r, c))
  {
    var s' := Crown(s, r, c);
    forall j: nat | j < |s.nodes|
      ensures NodeOK(s', j)
    {
      assert NodeOK(s, j);
      if j == c {
        CrownNode(s, r, c);
      } else {
        CarryNode(s, s', j);
      }
    }
  }

  lemma CrownMessages(s: Cluster, r: nat, c: nat)
    requires Wins(s, r, c) && AcksOK(s) && RunsOK(s) && RpcsOK(s) && s.nodes[c].currentTerm !in s.hist.reigns
    ensures RunsOK(Crown(s, r, c)) && RpcsOK(Crown(s, r, c))
  {
    var s' := Crown(s, r, c);
    assert AckOK(s, c, s.nodes[c].currentTerm);
    CrownMono(s, r, c);
    CarryRuns(s, s');
    forall t: nat, p: nat | (t, p) in s'.rpcs
      ensures RpcOK(s', t, p, s'.rpcs[(t, p)])
    {
      assert RpcOK(s, t, p, s.rpcs[(t, p)]);
      CarryRpc(s, s', t, p, s.rpcs[(t, p)]);
    }
  }

  lemma CrownInv(s: Cluster, r: nat, c: nat)
    requires Inv(s) && Wins(s, r, c)
    ensures Inv(Crown(s, r, c))
  {
    assert NodeOK(s, c) && RunOK(s, s.runs[r]) && AckOK(s, c, s.nodes[c].currentTerm);
    FreshTerm(s, r, c);
    CrownMono(s, r, c);
    CrownNodes(s, r, c);
    CrownReigns(s, r, c);
    CrownPromises(s, r, c);
    CrownMessages(s, r, c);
  }

  // Counting one answer keeps the run in order.
  lemma CountedRun(s: Cluster, run: Run, p: nat, votes: nat)
    requires RunOK(s, run) && p in run.ballots && p !in run.counted
    requires votes == run.votes || (votes == run.votes + 1 && run.ballots[p].reply.granted)
    ensures RunOK(s, run.(counted := run.counted + {p}, votes := votes,
                          supporters := if votes > run.votes then run.supporters + {p} else run.supporters))
  {
    assert p !in run.supporters;
  }

  lemma CountVoteInv(s: Cluster, r: nat, p: nat)
    requires Inv(s)
    ensures Inv(DoCountVote(s, r, p))
  {
    if r < |s.runs| && s.runs[r].args.candidate < |s.nodes|
       && p in s.runs[r].ballots && p !in s.runs[r].counted {
      var run := s.runs[r];
      var c := run.args.candidate;
      var s' := DoCountVote(s, r, p);
      var s1 := s.(runs := s'.runs);
      var votes := OnVoteReply(s.nodes[c], Peers(|s.nodes|, c), run.args.term, run.votes, run.ballots[p].reply).1;
      assert RunOK(s, run);
      CountedRun(s, run, p, votes);
      RunChangeInv(s, s1, r);
      CountedNodeInv(s, s1, r, p);
    }
  }

  // The candidate's side of one counted answer.
  lemma CountedNodeInv(s: Cluster, s1: Cluster, r: nat, p: nat)
    requires r < |s.runs| && s.runs[r].args.candidate < |s.nodes|
    requires p in s.runs[r].ballots && p !in s.runs[r].counted
    requires s1 == s.(runs := DoCountVote(s, r, p).runs) && Inv(s1)
    ensures Inv(DoCountVote(s, r, p))
  {
    var run := s.runs[r];
    var c := run.args.candidate;
    var s' := DoCountVote(s, r, p);
    if s'.nodes[c] == s.nodes[c] {
      assert s' == s1;
    } else if s'.nodes[c].role == Leader {
      CrownInv(s1, r, c);
      assert s' == Crown(s1, r, c);
    } else {
      assert NodeOK(s1, c) && VotesOK(s1);
      StepDownChange(s1, c, run.ballots[p].reply.term);
      NodeChangeInv(s1, s', c);
    }
  }
}
