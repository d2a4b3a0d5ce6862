// A follower accepting part of the leader's ledger, and the leader extending it.
module RaftAccept {
  import opened RaftCore
  import opened RaftProtocol
  import opened RaftInvariant
  import opened RaftSteps
  import opened RaftReplication

  /******* What a follower knows about the ledger of its own term *******/

  // The committed prefix of a node in term t is a prefix of the ledger of t, and
  // within what that term's leader had when elected or the node has confirmed.
  lemma CommitInLedger(s: Cluster, p: nat, t: nat)
    requires p < |s.nodes| && s.nodes[p].currentTerm == t && t in s.hist.reigns
    requires NodeShape(s, p) && NodeCommit(s, p) && ReignsOK(s) && Completeness(s) && AckOK(s, p, t)
    ensures s.nodes[p].log[..s.nodes[p].commitIndex] <= s.hist.reigns[t].ledger
    ensures s.nodes[p].commitIndex <= |s.hist.reigns[t].elog| || s.nodes[p].commitIndex <= Acks(s.hist, p, t)
  {
    var nd := s.nodes[p];
    var c := nd.commitIndex;
    if c > 0 {
      var t1: nat, k: nat :| CommitWitness(s, p, c, t1, k);
      if t1 < t {
        CommittedChoosable(s, t1, k);
        assert ReignOK(s, t);
        assert Promise(s, t1, k, s.hist.reigns[t].elog);
        assert nd.log[..c] <= s.hist.reigns[t1].ledger[..k];
      }
    }
  }

  /******* Accepting *******/

  // Follower p, in term t, replaces its log by one that agrees with the ledger
  // of t up to m, confirms m, and loses nothing it had confirmed earlier.
  ghost predicate Accepts(s: Cluster, s': Cluster, p: nat, t: nat, m: nat) {
    && p < |s.nodes| && |s'.nodes| == |s.nodes| && t in s.hist.reigns && p != s.hist.reigns[t].leader
    && var nd := s.nodes[p];
       var nd' := s'.nodes[p];
       var ledger := s.hist.reigns[t].ledger;
    && s' == s.(nodes := s.nodes[p := nd'], rpcs := s'.rpcs, hist := AddAck(s.hist, p, t, m))
    && nd.currentTerm == t && nd.role == Follower
    && nd' == nd.(log := nd'.log, base := nd'.base, commitIndex := nd'.commitIndex, lastApplied := nd'.lastApplied)
    && nd'.base <= nd'.lastApplied <= nd'.commitIndex <= |nd'.log|
    && LogOK(s.hist, nd'.log) && (forall j :: 0 <= j < |nd'.log| ==> nd'.log[j].term <= t)
    && Max(Acks(s.hist, p, t), m) <= |ledger|
    && ledger[..Max(Acks(s.hist, p, t), m)] <= nd'.log
    && NodeCommit(s', p)
    && (forall t0: nat, k: nat :: t0 < t && k <= Acks(s.hist, p, t0) ==> Promise(s, t0, k, nd'.log))
  }

  lemma AcceptMono(s: Cluster, s': Cluster, p: nat, t: nat, m: nat)
    requires Accepts(s, s', p, t, m)
    ensures Quiet(s, s')
    ensures forall q: nat, t0: nat :: !(q == p && t0 == t) ==> Acks(s'.hist, q, t0) == Acks(s.hist, q, t0)
    ensures Acks(s'.hist, p, t) == Max(Acks(s.hist, p, t), m)
  {}

  lemma AcceptNodes(s: Cluster, s': Cluster, p: nat, t: nat, m: nat)
    requires NodesOK(s) && Accepts(s, s', p, t, m)
    ensures NodesOK(s')
  {
    AcceptMono(s, s', p, t, m);
    forall j: nat | j < |s.nodes|
      ensures NodeOK(s', j)
    {
      assert NodeOK(s, j);
      if j == p {
        MonoLog(s, s', s'.nodes[p].log);
      } else {
        CarryNode(s, s', j);
      }
    }
  }

  lemma AcceptReigns(s: Cluster, s': Cluster, p: nat, t: nat, m: nat)
    requires ReignsOK(s) && AcksOK(s) && Accepts(s, s', p, t, m)
    ensures ReignsOK(s') && AcksOK(s')
  {
    AcceptMono(s, s', p, t, m);
    forall t0 | t0 in s'.hist.reigns
      ensures ReignOK(s', t0)
    {
      assert ReignOK(s, t0);
      MonoLog(s, s', s.hist.reigns[t0].ledger);
    }
    forall q: nat, t0: nat
      ensures AckOK(s', q, t0)
    {
      assert AckOK(s, q, t0);
    }
  }

  lemma AcceptRetention(s: Cluster, s': Cluster, p: nat, t: nat, m: nat)
    requires AcksOK(s) && Retention(s) && Accepts(s, s', p, t, m)
    ensures Retention(s')
  {
    AcceptMono(s, s', p, t, m);
    forall q: nat, t0: nat, k: nat | q < |s'.nodes| && k <= Acks(s'.hist, q, t0)
      ensures Promise(s', t0, k, s'.nodes[q].log)
    {
      assert AckOK(s, q, t0);
      if q != p {
        CarryRetention(s, s', q, t0, k);
      } else if t0 == t {
        assert s.hist.reigns[t].ledger[..k] <= s'.nodes[p].log;
      } else if t0 < t && t0 in s.hist.reigns && k > 0 {
        assert Promise(s, t0, k, s'.nodes[p].log);
        MonoPromise(s, s', t0, k, s'.nodes[p].log);
      }
    }
  }

  lemma AcceptInv(s: Cluster, s': Cluster, p: nat, t: nat, m: nat)
    requires Inv(s) && Accepts(s, s', p, t, m)
    requires (t, p) in s'.rpcs && !s'.rpcs[(t, p)].AppendSent? && RpcOK(s', t, p, s'.rpcs[(t, p)])
    requires s'.rpcs == s.rpcs[(t, p) := s'.rpcs[(t, p)]]
    ensures Inv(s')
  {
    AcceptMono(s, s', p, t, m);
    AcceptNodes(s, s', p, t, m);
    AcceptReigns(s, s', p, t, m);
    QuietCompleteness(s, s');
    AcceptRetention(s, s', p, t, m);
    CarryRuns(s, s');
    forall t1: nat, p1: nat | (t1, p1) in s'.rpcs
      ensures RpcOK(s', t1, p1, s'.rpcs[(t1, p1)])
    {
      if !(t1 == t && p1 == p) {
        assert RpcOK(s, t1, p1, s.rpcs[(t1, p1)]);
        CarryRpc(s, s', t1, p1, s.rpcs[(t1, p1)]);
      }
    }
  }

  /******* AppendEntries *******/

  // A request whose check passes makes the log agree with the ledger up to the
  // request's end; with entries the result is exactly that ledger prefix.
  lemma AppendAgrees(s: Cluster, p: nat, t: nat, a: AppendArgs)
    requires p < |s.nodes| && s.nodes[p].currentTerm == t && NodeShape(s, p)
    requires AppendOK(s, t, p, a) && ReignOK(s, t) && PrevMatches(s.nodes[p], a)
    ensures a.prevIndex <= |s.nodes[p].log|
    ensures s.hist.reigns[t].ledger[..a.prevIndex + |a.entries|] <= Overwrite(s.nodes[p].log, a)
    ensures a.entries != [] ==>
              Overwrite(s.nodes[p].log, a) == s.hist.reigns[t].ledger[..a.prevIndex + |a.entries|]
  {
    var log, ledger := s.nodes[p].log, s.hist.reigns[t].ledger;
    LogMatching(s.hist, log, ledger, a.prevIndex);
    var m := a.prevIndex + |a.entries|;
    assert ledger[..m] == ledger[..a.prevIndex] + ledger[a.prevIndex..m];
  }

  // A commit index a follower adopts from its leader is covered.
  lemma AdoptCommit(s: Cluster, s': Cluster, p: nat, t: nat, c: nat, announced: nat)
    requires p < |s.nodes| && Mono(s, s') && s'.nodes[p].currentTerm == t
    requires Announced(s, t, announced) && 0 < c <= announced && c <= Acks(s'.hist, p, t)
    requires c <= |s'.nodes[p].log| && s'.nodes[p].log[..c] == s.hist.reigns[t].ledger[..c]
    ensures exists t1: nat, k: nat :: CommitWitness(s', p, c, t1, k)
  {
    var ledger := s.hist.reigns[t].ledger;
    var t1: nat, k: nat :| Covered(s, ledger, announced, t, t1, k);
    MonoCovered(s, s', ledger, announced, t, t1, k);
    assert ledger[..c] == ledger[..announced][..c];
    assert CommitWitness(s', p, c, t1, k);
  }

  // A commit index a follower keeps stays covered while its log keeps the prefix.
  lemma KeepCommit(s: Cluster, s': Cluster, p: nat)
    requires p < |s.nodes| && Mono(s, s') && NodeCommit(s, p) && s'.nodes[p].currentTerm == s.nodes[p].currentTerm
    requires s.nodes[p].commitIndex <= |s.nodes[p].log| && s.nodes[p].commitIndex <= |s'.nodes[p].log|
    requires s'.nodes[p].log[..s.nodes[p].commitIndex] == s.nodes[p].log[..s.nodes[p].commitIndex]
    requires 0 < s.nodes[p].commitIndex
    ensures exists t1: nat, k: nat :: CommitWitness(s', p, s.nodes[p].commitIndex, t1, k)
  {
    var nd, c := s.nodes[p], s.nodes[p].commitIndex;
    var t1: nat, k: nat :| CommitWitness(s, p, c, t1, k);
    MonoCovered(s, s', nd.log, c, nd.currentTerm, t1, k);
    assert CommitWitness(s', p, c, t1, k);
  }

  // The commit index after an accepted AppendEntries is covered: it never passes
  // what was verified, although it is capped by the follower's own last index.
  lemma AppendCommit(s: Cluster, s': Cluster, p: nat, t: nat, a: AppendArgs)
    requires p < |s.nodes| && |s'.nodes| == |s.nodes| && s.nodes[p].currentTerm == t
    requires NodeShape(s, p) && NodeCommit(s, p)
    requires ReignsOK(s) && Completeness(s) && AckOK(s, p, t)
    requires AppendOK(s, t, p, a) && PrevMatches(s.nodes[p], a) && Acks(s.hist, p, t) <= a.prevIndex + |a.entries|
    requires a.prevIndex <= |s.nodes[p].log|
    requires Mono(s, s') && s'.nodes[p].currentTerm == t && s'.nodes[p].log == Overwrite(s.nodes[p].log, a)
    requires Acks(s'.hist, p, t) == a.prevIndex + |a.entries|
    requires s'.nodes[p].commitIndex ==
               if a.leaderCommit > s.nodes[p].commitIndex then Min(a.leaderCommit, |s'.nodes[p].log|)
               else s.nodes[p].commitIndex
    ensures NodeCommit(s', p) && s.nodes[p].commitIndex <= s'.nodes[p].commitIndex <= |s'.nodes[p].log|
    ensures s'.nodes[p].commitIndex != s.nodes[p].commitIndex ==> s'.nodes[p].commitIndex <= a.prevIndex + |a.entries|
  {
    var nd, log', ledger := s.nodes[p], s'.nodes[p].log, s.hist.reigns[t].ledger;
    var c, c', m := nd.commitIndex, s'.nodes[p].commitIndex, a.prevIndex + |a.entries|;
    assert ReignOK(s, t);
    AppendAgrees(s, p, t, a);
    CommitInLedger(s, p, t);
    assert c <= |log'| && log'[..c] == nd.log[..c] by {
      if a.entries != [] {
        assert c <= m && nd.log[..c] == ledger[..c];
      }
    }
    if a.leaderCommit > c {
      assert log'[..c'] == ledger[..c'];
      AdoptCommit(s, s', p, t, c', a.leaderCommit);
    } else if c > 0 {
      KeepCommit(s, s', p);
    }
  }

  // Nothing confirmed to an earlier leader is lost to a whole-suffix overwrite.
  lemma AppendRetains(s: Cluster, p: nat, t: nat, a: AppendArgs, t0: nat, k: nat)
    requires p < |s.nodes| && s.nodes[p].currentTerm == t && NodeShape(s, p)
    requires AppendOK(s, t, p, a) && ReignOK(s, t) && PrevMatches(s.nodes[p], a) && a.prevIndex <= |s.nodes[p].log|
    requires Completeness(s) && Retention(s) && t0 < t && k <= Acks(s.hist, p, t0)
    ensures Promise(s, t0, k, Overwrite(s.nodes[p].log, a))
  {
    if a.entries == [] {
      assert Promise(s, t0, k, s.nodes[p].log);
    } else if t0 in s.hist.reigns {
      AppendAgrees(s, p, t, a);
      assert Promise(s, t0, k, s.hist.reigns[t].elog);
    }
  }

  function CommitAfter(nd: Node, a: AppendArgs, log: Log): nat {
    if a.leaderCommit > nd.commitIndex then Min(a.leaderCommit, |log|) else nd.commitIndex
  }

  // What a successful AppendEntries does to a follower already in its term.
  lemma AppendEffect(nd: Node, a: AppendArgs)
    requires a.term == nd.currentTerm && nd.role == Follower
    requires HandleAppend(nd, a).Answered? && HandleAppend(nd, a).reply.success
    ensures PrevMatches(nd, a) && a.prevIndex <= |nd.log|
    ensures HandleAppend(nd, a).node ==
              nd.(log := Overwrite(nd.log, a), commitIndex := CommitAfter(nd, a, Overwrite(nd.log, a)))
  {}

  lemma LedgerPrefixOK(s: Cluster, t: nat, m: nat)
    requires t in s.hist.reigns && ReignOK(s, t) && m <= |s.hist.reigns[t].ledger|
    ensures LogOK(s.hist, s.hist.reigns[t].ledger[..m])
    ensures forall j :: 0 <= j < m ==> s.hist.reigns[t].ledger[..m][j].term <= t
  {
    var g := s.hist.reigns[t];
    LogPrefixOK(s.hist, g.ledger, m);
    forall j | 0 <= j < m
      ensures g.ledger[j].term <= t
    {
      assert j < |g.elog| ==> g.ledger[j] == g.elog[j];
    }
  }

  lemma AppendLogOK(s: Cluster, p: nat, t: nat, a: AppendArgs)
    requires p < |s.nodes| && s.nodes[p].currentTerm == t && NodeShape(s, p)
    requires AppendOK(s, t, p, a) && ReignOK(s, t) && PrevMatches(s.nodes[p], a) && a.prevIndex <= |s.nodes[p].log|
    ensures LogOK(s.hist, Overwrite(s.nodes[p].log, a))
    ensures forall j :: 0 <= j < |Overwrite(s.nodes[p].log, a)| ==> Overwrite(s.nodes[p].log, a)[j].term <= t
  {
    if a.entries != [] {
      AppendAgrees(s, p, t, a);
      LedgerPrefixOK(s, t, a.prevIndex + |a.entries|);
    }
  }

  lemma AppendAccepts(s: Cluster, s': Cluster, t: nat, p: nat, a: AppendArgs)
    requires p < |s.nodes| && NodeOK(s, p) && s.nodes[p].currentTerm == t && s.nodes[p].role == Follower
    requires ReignsOK(s) && AckOK(s, p, t) && Completeness(s) && Retention(s)
    requires AppendOK(s, t, p, a) && Acks(s.hist, p, t) <= a.prevIndex + |a.entries|
    requires PrevMatches(s.nodes[p], a) && a.prevIndex <= |s.nodes[p].log|
    requires
      var log := Overwrite(s.nodes[p].log, a);
      s' == SetNode(s, p, s.nodes[p].(log := log, commitIndex := CommitAfter(s.nodes[p], a, log)))
            .(rpcs := s'.rpcs, hist := AddAck(s.hist, p, t, a.prevIndex + |a.entries|))
    ensures Accepts(s, s', p, t, a.prevIndex + |a.entries|)
  {
    assert ReignOK(s, t);
    AppendAgrees(s, p, t, a);
    assert Mono(s, s');
    AppendCommit(s, s', p, t, a);
    AppendLogOK(s, p, t, a);
    forall t0: nat, k: nat | t0 < t && k <= Acks(s.hist, p, t0)
      ensures Promise(s, t0, k, s'.nodes[p].log)
    {
      AppendRetains(s, p, t, a, t0, k);
    }
  }

  lemma AcceptAppendInv(s: Cluster, s': Cluster, t: nat, p: nat, a: AppendArgs)
    requires Inv(s) && (t, p) in s.rpcs && s.rpcs[(t, p)] == AppendSent(a) && p < |s.nodes|
    requires s.nodes[p].currentTerm == a.term && s.nodes[p].role == Follower
    requires HandleAppend(s.nodes[p], a).Answered? && HandleAppend(s.nodes[p], a).reply.success
    requires s' == SetNode(s, p, HandleAppend(s.nodes[p], a).node).(
                     rpcs := s.rpcs[(t, p) := AppendDone(a, HandleAppend(s.nodes[p], a).reply)],
                     hist := AddAck(s.hist, p, a.term, a.prevIndex + |a.entries|))
    ensures Inv(s')
  {
    AppendEffect(s.nodes[p], a);
    assert RpcOK(s, t, p, s.rpcs[(t, p)]) && NodeOK(s, p) && AckOK(s, p, t);
    AppendAccepts(s, s', t, p, a);
    AcceptMono(s, s', p, t, a.prevIndex + |a.entries|);
    CarryAppend(s, s', t, p, a);
    AcceptInv(s, s', p, t, a.prevIndex + |a.entries|);
  }

  lemma DeliverAppendInv(s: Cluster, t: nat, p: nat, a: AppendArgs)
    requires Inv(s) && (t, p) in s.rpcs && s.rpcs[(t, p)] == AppendSent(a) && p < |s.nodes|
    ensures Inv(DoDeliver(s, t, p))
  {
    var s' := DoDeliver(s, t, p);
    var out := HandleAppend(s.nodes[p], a);
    if a.term < s.nodes[p].currentTerm {
      RejectInv(s, t, p, a, out.reply);
      assert s' == s.(rpcs := s.rpcs[(t, p) := AppendDone(a, out.reply)]);
    } else {
      var n1 := BecomeFollower(s.nodes[p], a.term);
      var s1 := SetNode(s, p, n1);
      StepDownInv(s, p, a.term);
      assert s'.nodes == s1.nodes[p := s'.nodes[p]];
      if out.Panicked? {
        var s2 := s1.(rpcs := s.rpcs - {(t, p)});
        DropRpcInv(s1, s2);
        CrashInv(s2, p);
        assert s' == SetNode(s2, p, Restart(n1));
      } else if !out.reply.success {
        RejectInv(s1, t, p, a, out.reply);
        assert s' == s1.(rpcs := s1.rpcs[(t, p) := AppendDone(a, out.reply)]);
      } else {
        assert HandleAppend(n1, a) == out;
        AcceptAppendInv(s1, s', t, p, a);
      }
    }
  }

  lemma RejectInv(s: Cluster, t: nat, p: nat, a: AppendArgs, reply: AppendReply)
    requires Inv(s) && (t, p) in s.rpcs && s.rpcs[(t, p)] == AppendSent(a) && !reply.success
    ensures Inv(s.(rpcs := s.rpcs[(t, p) := AppendDone(a, reply)]))
  {
    assert RpcOK(s, t, p, s.rpcs[(t, p)]);
    assert RpcOK(s, t, p, AppendDone(a, reply));
    RpcChangeInv(s, s.(rpcs := s.rpcs[(t, p) := AppendDone(a, reply)]), t, p);
  }

  lemma CrashInv(s: Cluster, i: nat)
    requires Inv(s) && i < |s.nodes|
    ensures Inv(SetNode(s, i, Restart(s.nodes[i])))
  {
    assert NodeOK(s, i);
    RestartChange(s, i);
    NodeChangeInv(s, SetNode(s, i, Restart(s.nodes[i])), i);
  }

  lemma RestartChange(s: Cluster, i: nat)
    requires i < |s.nodes| && NodeOK(s, i)
    ensures NodeChange(s, SetNode(s, i, Restart(s.nodes[i])), i)
  {
    var s' := SetNode(s, i, Restart(s.nodes[i]));
    assert s'.hist == s.hist.(votes := s'.hist.votes);
  }
}
