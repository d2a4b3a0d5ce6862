// Every step of the cluster keeps the invariant.  Steps are taken apart into a
// few kinds of change, each with its own lemma.
module RaftSteps {
  import opened RaftCore
  import opened RaftProtocol
  import opened RaftInvariant

  /******* Parts of the state that a change does not touch *******/

  // A change that wins no election and extends no ledger.
  ghost predicate Quiet(s: Cluster, s': Cluster) {
    Mono(s, s') && s'.hist.reigns == s.hist.reigns
  }

  lemma QuietCompleteness(s: Cluster, s': Cluster)
    requires Completeness(s) && Quiet(s, s')
    ensures Completeness(s')
  {
    forall t: nat, t': nat, k: nat | t in s'.hist.reigns && t' in s'.hist.reigns && t < t'
      ensures Promise(s', t, k, s'.hist.reigns[t'].elog)
    {
      if Own(s'.hist, t, k) {
        MonoPromise(s, s', t, k, s.hist.reigns[t'].elog);
      }
    }
  }

  // Retention for a node whose log and confirmations did not change.
  lemma CarryRetention(s: Cluster, s': Cluster, q: nat, t: nat, k: nat)
    requires AckOK(s, q, t) && Retention(s) && Mono(s, s') && q < |s.nodes| && s'.nodes[q].log == s.nodes[q].log
    requires k <= Acks(s.hist, q, t)
    ensures Promise(s', t, k, s'.nodes[q].log)
  {
    assert Promise(s, t, k, s.nodes[q].log);
    if t in s.hist.reigns && k > 0 {
      MonoPromise(s, s', t, k, s.nodes[q].log);
    }
  }

  lemma CarryNode(s: Cluster, s': Cluster, j: nat)
    requires Mono(s, s')
    requires j < |s.nodes| && NodeOK(s, j) && s'.nodes[j] == s.nodes[j]
    requires (j, s.nodes[j].currentTerm) in s'.hist.votes ==> (j, s.nodes[j].currentTerm) in s.hist.votes
    requires s.nodes[j].role == Leader ==>
               LeaderOK(s, j) && s'.hist.reigns[s.nodes[j].currentTerm] == s.hist.reigns[s.nodes[j].currentTerm]
    requires s.nodes[j].role == Candidate && s.nodes[j].currentTerm in s'.hist.reigns ==>
               s'.hist.reigns[s.nodes[j].currentTerm].leader != j
    ensures NodeOK(s', j)
  {
    var nd := s.nodes[j];
    MonoLog(s, s', nd.log);
    if nd.commitIndex > 0 {
      var t: nat, k: nat :| CommitWitness(s, j, nd.commitIndex, t, k);
      MonoCovered(s, s', nd.log, nd.commitIndex, nd.currentTerm, t, k);
      assert CommitWitness(s', j, nd.commitIndex, t, k);
    }
  }

  lemma CarryBallot(s: Cluster, s': Cluster, args: VoteArgs, p: nat, b: Ballot)
    requires AcksOK(s) && Mono(s, s') && BallotOK(s, args, p, b)
    ensures BallotOK(s', args, p, b)
  {
    if b.reply.granted {
      MonoLog(s, s', b.voterLog);
      forall t: nat, k: nat | t < args.term && k <= Acks(s'.hist, p, t)
        ensures Promise(s', t, k, b.voterLog)
      {
        assert Acks(s.hist, p, t) == Acks(s'.hist, p, t);
        assert AckOK(s, p, t);
        assert Promise(s, t, k, b.voterLog);
        if t in s.hist.reigns && k > 0 {
          MonoPromise(s, s', t, k, b.voterLog);
        }
      }
    }
  }

  // A candidacy in s' at a term its node already had in s is the same candidacy.
  ghost predicate SameCandidacy(s: Cluster, s': Cluster, c: nat)
    requires c < |s.nodes| && |s'.nodes| == |s.nodes|
  {
    s'.nodes[c].role == Candidate && s'.nodes[c].currentTerm == s.nodes[c].currentTerm ==>
      s.nodes[c].role == Candidate && s'.nodes[c].log == s.nodes[c].log
  }

  lemma CarryRun(s: Cluster, s': Cluster, run: Run)
    requires AcksOK(s) && Mono(s, s') && RunOK(s, run)
    requires SameCandidacy(s, s', run.args.candidate)
    ensures RunOK(s', run)
  {
    forall p | p in run.ballots
      ensures BallotOK(s', run.args, p, run.ballots[p])
    {
      CarryBallot(s, s', run.args, p, run.ballots[p]);
    }
  }

  lemma CarryRuns(s: Cluster, s': Cluster)
    requires AcksOK(s) && RunsOK(s) && Mono(s, s') && s'.runs == s.runs
    requires forall c: nat :: c < |s.nodes| ==> SameCandidacy(s, s', c)
    ensures RunsOK(s')
  {
    forall r: nat | r < |s'.runs|
      ensures RunOK(s', s'.runs[r])
    {
      CarryRun(s, s', s.runs[r]);
    }
  }

  lemma CarryAppend(s: Cluster, s': Cluster, t: nat, p: nat, a: AppendArgs)
    requires Mono(s, s') && AppendOK(s, t, p, a)
    ensures AppendOK(s', t, p, a)
  {
    MonoAnnounced(s, s', t, a.leaderCommit);
    var g, g' := s.hist.reigns[t], s'.hist.reigns[t];
    var m := a.prevIndex + |a.entries|;
    assert g'.ledger[a.prevIndex..m] == g.ledger[a.prevIndex..m];
  }

  lemma CarrySnap(s: Cluster, s': Cluster, t: nat, p: nat, sn: SnapshotArgs, prefix: Log)
    requires Mono(s, s') && SnapOK(s, t, p, sn, prefix)
    ensures SnapOK(s', t, p, sn, prefix)
  {
    MonoAnnounced(s, s', t, sn.lastIndex);
    assert s'.hist.reigns[t].ledger[..sn.lastIndex] == s.hist.reigns[t].ledger[..sn.lastIndex];
  }

  lemma CarryRpc(s: Cluster, s': Cluster, t: nat, p: nat, rpc: Rpc)
    requires Mono(s, s') && RpcOK(s, t, p, rpc)
    requires rpc.AppendSent? ==> Acks(s'.hist, p, t) == Acks(s.hist, p, t)
    ensures RpcOK(s', t, p, rpc)
  {
    match rpc
    case AppendSent(a) => CarryAppend(s, s', t, p, a);
    case AppendDone(a, _) => CarryAppend(s, s', t, p, a);
    case SnapSent(sn, prefix) => CarrySnap(s, s', t, p, sn, prefix);
    case SnapDone(sn, prefix, _) => CarrySnap(s, s', t, p, sn, prefix);
  }

  lemma CarryRpcs(s: Cluster, s': Cluster)
    requires RpcsOK(s) && Mono(s, s') && s'.hist.acks == s.hist.acks
    requires forall t: nat, p: nat :: (t, p) in s'.rpcs ==> (t, p) in s.rpcs && s'.rpcs[(t, p)] == s.rpcs[(t, p)]
    ensures RpcsOK(s')
  {
    forall t: nat, p: nat | (t, p) in s'.rpcs
      ensures RpcOK(s', t, p, s'.rpcs[(t, p)])
    {
      CarryRpc(s, s', t, p, s.rpcs[(t, p)]);
    }
  }

  /******* Role, term, vote and index changes of one node *******/

  // Node i changes role, term, vote or bookkeeping but not its log; it becomes
  // leader by no such change, and a fresh candidacy comes with a fresh term.
  ghost predicate NodeChange(s: Cluster, s': Cluster, i: nat)
    requires i < |s.nodes|
  {
    && |s'.nodes| == |s.nodes|
    && var nd := s.nodes[i];
       var nd' := s'.nodes[i];
    && s' == s.(nodes := s.nodes[i := nd'], rpcs := s'.rpcs, hist := s.hist.(votes := s'.hist.votes))
    && (forall t: nat, p: nat :: (t, p) in s'.rpcs ==> (t, p) in s.rpcs && s'.rpcs[(t, p)] == s.rpcs[(t, p)])
    && nd'.log == nd.log && nd.currentTerm <= nd'.currentTerm
    && nd'.base <= nd'.lastApplied <= nd'.commitIndex <= |nd.log|
    && (nd'.commitIndex <= nd.commitIndex || NodeCommit(s', i))
    && (nd'.role == Leader ==> nd.role == Leader && nd'.currentTerm == nd.currentTerm && LeaderOK(s', i))
    && (nd'.role == Candidate ==>
          nd.currentTerm < nd'.currentTerm || (nd.role == Candidate && nd'.currentTerm == nd.currentTerm))
    && (forall v: nat, t: nat :: (v, t) in s.hist.votes ==>
          (v, t) in s'.hist.votes && s'.hist.votes[(v, t)] == s.hist.votes[(v, t)])
    && (forall v: nat, t: nat :: (v, t) in s'.hist.votes ==>
          (v, t) in s.hist.votes || (v == i && t == nd'.currentTerm))
    && NodeVote(s', i)
  }

  lemma NodeChangeQuiet(s: Cluster, s': Cluster, i: nat)
    requires i < |s.nodes| && NodeChange(s, s', i)
    ensures Quiet(s, s')
    ensures forall q: nat, t: nat :: Acks(s'.hist, q, t) == Acks(s.hist, q, t)
    ensures forall j: nat :: j < |s.nodes| && j != i ==> s'.nodes[j] == s.nodes[j]
  {}

  lemma NodeChangeCommit(s: Cluster, s': Cluster, i: nat)
    requires i < |s.nodes| && NodeOK(s, i) && NodeChange(s, s', i)
    ensures NodeCommit(s', i)
  {
    var c, c' := s.nodes[i].commitIndex, s'.nodes[i].commitIndex;
    NodeChangeQuiet(s, s', i);
    if 0 < c' <= c {
      var t: nat, k: nat :| CommitWitness(s, i, c, t, k);
      MonoCommitted(s, s', t, k);
      assert s.nodes[i].log[..c'] == s.nodes[i].log[..c][..c'];
      assert CommitWitness(s', i, c', t, k);
    }
  }

  lemma NodeChangeSelf(s: Cluster, s': Cluster, i: nat)
    requires i < |s.nodes| && NodeOK(s, i) && ReignsOK(s) && NodeChange(s, s', i)
    ensures NodeOK(s', i)
  {
    NodeChangeQuiet(s, s', i);
    NodeChangeCommit(s, s', i);
    MonoLog(s, s', s.nodes[i].log);
    assert NodeShape(s', i);
    assert s'.nodes[i].currentTerm in s.hist.reigns ==> ReignOK(s, s'.nodes[i].currentTerm);
  }

  // Reigns and confirmations survive a change that only raises terms.
  lemma CarryReigns(s: Cluster, s': Cluster)
    requires ReignsOK(s) && AcksOK(s) && Completeness(s) && Retention(s) && Quiet(s, s')
    requires forall q: nat, t: nat :: Acks(s'.hist, q, t) == Acks(s.hist, q, t)
    requires forall q: nat :: q < |s.nodes| ==> s'.nodes[q].log == s.nodes[q].log
    ensures ReignsOK(s') && AcksOK(s')
    ensures Completeness(s') && Retention(s')
  {
    forall t | t in s'.hist.reigns
      ensures ReignOK(s', t)
    {
      assert ReignOK(s, t);
      MonoLog(s, s', s.hist.reigns[t].ledger);
    }
    forall q: nat, t: nat
      ensures AckOK(s', q, t)
    {
      assert AckOK(s, q, t);
    }
    QuietCompleteness(s, s');
    forall q: nat, t: nat, k: nat | q < |s'.nodes| && k <= Acks(s'.hist, q, t)
      ensures Promise(s', t, k, s'.nodes[q].log)
    {
      assert AckOK(s, q, t);
      CarryRetention(s, s', q, t, k);
    }
  }

  lemma NodeChangeInv(s: Cluster, s': Cluster, i: nat)
    requires Inv(s) && i < |s.nodes| && NodeChange(s, s', i)
    ensures Inv(s')
  {
    NodeChangeQuiet(s, s', i);
    forall j: nat | j < |s.nodes|
      ensures NodeOK(s', j)
    {
      if j == i {
        NodeChangeSelf(s, s', i);
      } else {
        assert NodeOK(s, j);
        CarryNode(s, s', j);
      }
    }
    CarryReigns(s, s');
    CarryRuns(s, s');
    CarryRpcs(s, s');
  }

  // Stepping down to a term at least as high as the node's own.
  lemma StepDownChange(s: Cluster, i: nat, t: nat)
    requires i < |s.nodes| && NodeOK(s, i) && VotesOK(s)
    ensures NodeChange(s, SetNode(s, i, BecomeFollower(s.nodes[i], t)), i)
  {
    var s' := SetNode(s, i, BecomeFollower(s.nodes[i], t));
    assert s'.hist == s.hist.(votes := s'.hist.votes);
    assert NodeVote(s', i);
  }

  /******* Messages *******/

  lemma MessagesInv(s: Cluster, s': Cluster)
    requires Inv(s) && s' == s.(runs := s'.runs, rpcs := s'.rpcs)
    requires RunsOK(s') && RpcsOK(s')
    ensures Inv(s')
  {
    assert Quiet(s, s');
    forall j: nat | j < |s.nodes|
      ensures NodeOK(s', j)
    {
      assert NodeOK(s, j);
      CarryNode(s, s', j);
    }
    CarryReigns(s, s');
  }

  lemma RunChangeInv(s: Cluster, s': Cluster, r: nat)
    requires Inv(s) && s' == s.(runs := s'.runs) && r < |s'.runs|
    requires forall j: nat :: j < |s'.runs| && j != r ==> j < |s.runs| && s'.runs[j] == s.runs[j]
    requires RunOK(s, s'.runs[r])
    ensures Inv(s')
  {
    assert Mono(s, s');
    forall j: nat | j < |s'.runs|
      ensures RunOK(s', s'.runs[j])
    {
      assert RunOK(s, s'.runs[j]);
      CarryRun(s, s', s'.runs[j]);
    }
    CarryRpcs(s, s');
    MessagesInv(s, s');
  }

  lemma RpcChangeInv(s: Cluster, s': Cluster, t: nat, p: nat)
    requires Inv(s) && (t, p) in s'.rpcs && s' == s.(rpcs := s.rpcs[(t, p) := s'.rpcs[(t, p)]])
    requires RpcOK(s, t, p, s'.rpcs[(t, p)])
    ensures Inv(s')
  {
    assert Mono(s, s');
    CarryRuns(s, s');
    forall t1: nat, p1: nat | (t1, p1) in s'.rpcs
      ensures RpcOK(s', t1, p1, s'.rpcs[(t1, p1)])
    {
      CarryRpc(s, s', t1, p1, s'.rpcs[(t1, p1)]);
    }
    MessagesInv(s, s');
  }

  /******* Elections *******/

  lemma TimeoutChange(s: Cluster, i: nat)
    requires i < |s.nodes| && NodeOK(s, i) && VotesOK(s) && s.nodes[i].role != Leader
    ensures NodeChange(s, DoTimeout(s, i), i)
  {}

  lemma TimeoutInv(s: Cluster, i: nat)
    requires Inv(s) && i < |s.nodes|
    ensures Inv(DoTimeout(s, i))
  {
    if s.nodes[i].role != Leader {
      assert NodeOK(s, i);
      TimeoutChange(s, i);
      NodeChangeInv(s, DoTimeout(s, i), i);
    }
  }

  lemma StartInv(s: Cluster, i: nat)
    requires Inv(s) && i < |s.nodes|
    ensures Inv(DoStart(s, i))
  {
    RunChangeInv(s, DoStart(s, i), |s.runs|);
  }

  // The voter's side of a vote request, before its answer is recorded.
  function Voter(s: Cluster, p: nat, args: VoteArgs): Cluster
    requires p < |s.nodes|
  {
    var (nd, reply) := HandleVote(s.nodes[p], args);
    SetNode(s, p, nd).(hist :=
      if reply.granted then s.hist.(votes := s.hist.votes[(p, args.term) := args.candidate]) else s.hist)
  }

  lemma VoterChange(s: Cluster, p: nat, args: VoteArgs)
    requires p < |s.nodes| && p != args.candidate && NodeOK(s, p) && VotesOK(s)
    ensures NodeChange(s, Voter(s, p, args), p)
  {
    var s' := Voter(s, p, args);
    if s'.nodes[p].role == Leader {
      assert LeaderOK(s', p);
    }
    assert NodeVote(s', p);
  }

  // A granted vote comes with a log no better than the candidate's and with
  // every entry the voter had confirmed before this term.
  lemma VoterBallot(s: Cluster, p: nat, args: VoteArgs)
    requires p < |s.nodes| && p != args.candidate
    requires Inv(s) && Inv(Voter(s, p, args))
    ensures BallotOK(Voter(s, p, args), args, p, Ballot(HandleVote(s.nodes[p], args).1, s.nodes[p].log))
  {
    var s1 := Voter(s, p, args);
    assert NodeOK(s1, p);
    assert s1.nodes[p].log == s.nodes[p].log;
    forall t: nat, k: nat | t < args.term && k <= Acks(s1.hist, p, t)
      ensures Promise(s1, t, k, s.nodes[p].log)
    {
      assert Promise(s1, t, k, s1.nodes[p].log);
    }
  }

  lemma AskVoteInv(s: Cluster, r: nat, p: nat)
    requires Inv(s)
    ensures Inv(DoAskVote(s, r, p))
  {
    if r < |s.runs| && p < |s.nodes| && p != s.runs[r].args.candidate && p !in s.runs[r].ballots {
      var run := s.runs[r];
      var s' := DoAskVote(s, r, p);
      var s1 := Voter(s, p, run.args);
      assert NodeOK(s, p);
      VoterChange(s, p, run.args);
      NodeChangeInv(s, s1, p);
      VoterBallot(s, p, run.args);
      assert RunOK(s1, s1.runs[r]);
      assert RunOK(s1, s'.runs[r]);
      RunChangeInv(s1, s', r);
    }
  }
}
