// Replication: the leader extends its ledger, followers accept suffixes and
// snapshots of it, and the leader advances its commit index.
module RaftReplication {
  import opened RaftCore
  import opened RaftProtocol
  import opened RaftInvariant
  import opened RaftCommit
  import opened RaftSteps

  /******* Committing *******/

  ghost function Matchers(nd: Node, ps: seq<nat>, m: nat): set<nat> {
    set p | p in ps && Get(nd.matchIndex, p) >= m
  }

  lemma {:induction false} MatchersCount(nd: Node, ps: seq<nat>, m: nat)
    requires forall i, j :: 0 <= i < j < |ps| ==> ps[i] != ps[j]
    ensures |Matchers(nd, ps, m)| ==
              CountAtLeast(seq(|ps|, i requires 0 <= i < |ps| => Get(nd.matchIndex, ps[i])), m)
  {
    var ms := seq(|ps|, i requires 0 <= i < |ps| => Get(nd.matchIndex, ps[i]));
    if ps == [] {
      assert Matchers(nd, ps, m) == {};
    } else {
      MatchersCount(nd, ps[1..], m);
      assert ms[1..] == seq(|ps[1..]|, i requires 0 <= i < |ps[1..]| => Get(nd.matchIndex, ps[1..][i]));
      assert ps[0] !in ps[1..];
      var rest := Matchers(nd, ps[1..], m);
      if Get(nd.matchIndex, ps[0]) >= m {
        assert Matchers(nd, ps, m) == {ps[0]} + rest;
      } else {
        assert Matchers(nd, ps, m) == rest;
      }
    }
  }

  // A leader that advances its commit index has a majority behind an own entry.
  lemma AdvanceCommits(s: Cluster, i: nat, nd: Node)
    requires i < |s.nodes| && s.nodes[i] == nd && nd.role == Leader && LeaderOK(s, i) && ReignsOK(s)
    requires AdvanceCommit(nd, Peers(|s.nodes|, i)) != nd
    ensures
      var m := AdvanceCommit(nd, Peers(|s.nodes|, i)).commitIndex;
      AdvanceCommit(nd, Peers(|s.nodes|, i)) == nd.(commitIndex := m)
      && nd.commitIndex < m <= |nd.log| && Committed(s, nd.currentTerm, m)
  {
    var n, ps := |s.nodes|, Peers(|s.nodes|, i);
    var m := MajorityMatch(Matches(nd, ps));
    var ms := Matches(nd, ps);
    MajorityMatchIs(ms, m);
    MatchersCount(nd, ps, m);
    assert ms[1..] == seq(|ps|, i requires 0 <= i < |ps| => Get(nd.matchIndex, ps[i]));
    var q := Matchers(nd, ps, m) + {i};
    assert ReignOK(s, nd.currentTerm);
    assert |q| == |Matchers(nd, ps, m)| + 1;
    assert IsQuorum(n, q) && Confirms(s, q, nd.currentTerm, m);
  }

  lemma CommitStepInv(s: Cluster, i: nat)
    requires Inv(s) && i < |s.nodes| && s.nodes[i].role == Leader
    ensures Inv(SetNode(s, i, AdvanceCommit(s.nodes[i], Peers(|s.nodes|, i))))
  {
    var nd := s.nodes[i];
    var s' := SetNode(s, i, AdvanceCommit(nd, Peers(|s.nodes|, i)));
    if AdvanceCommit(nd, Peers(|s.nodes|, i)) == nd {
      assert s' == s;
    } else {
      assert NodeOK(s, i) && ReignOK(s, nd.currentTerm);
      AdvanceCommits(s, i, nd);
      CommitChange(s, s', i);
      NodeChangeInv(s, s', i);
    }
  }

  lemma UpdateLeaderOK(s: Cluster, i: nat, p: nat, match': nat, next: nat)
    requires i < |s.nodes| && LeaderOK(s, i) && p < |s.nodes| && p != i
    requires match' <= Acks(s.hist, p, s.nodes[i].currentTerm) && 1 <= next <= |s.nodes[i].log| + 1
    ensures LeaderOK(SetNode(s, i, s.nodes[i].(matchIndex := s.nodes[i].matchIndex[p := match'],
                                               nextIndex := s.nodes[i].nextIndex[p := next])), i)
  {}

  // New bookkeeping for one peer, followed by the commit rule.
  lemma LeaderUpdateInv(s: Cluster, i: nat, p: nat, match': nat, next: nat)
    requires Inv(s) && i < |s.nodes| && s.nodes[i].role == Leader && p < |s.nodes| && p != i
    requires match' <= Acks(s.hist, p, s.nodes[i].currentTerm) && 1 <= next <= |s.nodes[i].log| + 1
    ensures Inv(SetNode(s, i, AdvanceCommit(
              s.nodes[i].(matchIndex := s.nodes[i].matchIndex[p := match'],
                          nextIndex := s.nodes[i].nextIndex[p := next]), Peers(|s.nodes|, i))))
  {
    var nd := s.nodes[i].(matchIndex := s.nodes[i].matchIndex[p := match'],
                          nextIndex := s.nodes[i].nextIndex[p := next]);
    var s1 := SetNode(s, i, nd);
    assert NodeOK(s, i);
    UpdateLeaderOK(s, i, p, match', next);
    UpdateChange(s, s1, i, nd);
    NodeChangeInv(s, s1, i);
    CommitStepInv(s1, i);
    assert SetNode(s1, i, AdvanceCommit(nd, Peers(|s.nodes|, i)))
        == SetNode(s, i, AdvanceCommit(nd, Peers(|s.nodes|, i)));
  }

  lemma UpdateChange(s: Cluster, s': Cluster, i: nat, nd: Node)
    requires i < |s.nodes| && NodeOK(s, i) && s.nodes[i].role == Leader
    requires nd == s.nodes[i].(matchIndex := nd.matchIndex, nextIndex := nd.nextIndex)
    requires LeaderOK(SetNode(s, i, nd), i)
    requires s' == SetNode(s, i, nd).(rpcs := s'.rpcs)
    requires forall t: nat, p: nat :: (t, p) in s'.rpcs ==> (t, p) in s.rpcs && s'.rpcs[(t, p)] == s.rpcs[(t, p)]
    ensures NodeChange(s, s', i)
  {
    assert LeaderOK(s', i);
    assert s'.hist == s.hist.(votes := s'.hist.votes);
  }

  lemma CommitChange(s: Cluster, s': Cluster, i: nat)
    requires i < |s.nodes| && NodeOK(s, i) && s.nodes[i].role == Leader && ReignOK(s, s.nodes[i].currentTerm)
    requires |s'.nodes| == |s.nodes| && s' == SetNode(s, i, s.nodes[i].(commitIndex := s'.nodes[i].commitIndex))
    requires s.nodes[i].commitIndex < s'.nodes[i].commitIndex <= |s.nodes[i].log|
    requires Committed(s, s.nodes[i].currentTerm, s'.nodes[i].commitIndex)
    ensures NodeChange(s, s', i)
  {
    var m, t := s'.nodes[i].commitIndex, s.nodes[i].currentTerm;
    var q :| IsQuorum(|s.nodes|, q) && Confirms(s, q, t, m);
    assert Confirms(s', q, t, m);
    assert Committed(s', t, m);
    assert CommitWitness(s', i, m, t, m);
    assert LeaderOK(s', i);
    assert s'.hist == s.hist.(votes := s'.hist.votes);
  }

  /******* Sending *******/

  // What a leader has committed it may announce.
  lemma LeaderAnnounces(s: Cluster, i: nat, c: nat)
    requires i < |s.nodes| && NodeOK(s, i) && s.nodes[i].role == Leader && c <= s.nodes[i].commitIndex
    ensures Announced(s, s.nodes[i].currentTerm, c)
  {
    var nd := s.nodes[i];
    if c > 0 {
      var t: nat, k: nat :| CommitWitness(s, i, nd.commitIndex, t, k);
      assert nd.log[..c] == nd.log[..nd.commitIndex][..c];
      assert Covered(s, nd.log, c, nd.currentTerm, t, k);
    }
  }

  lemma SentOK(s: Cluster, i: nat, p: nat)
    requires i < |s.nodes| && p < |s.nodes| && p != i
    requires NodeOK(s, i) && s.nodes[i].role == Leader && ReignOK(s, s.nodes[i].currentTerm)
    requires Get(s.nodes[i].nextIndex, p) <= |s.nodes[i].log| + 1
    ensures 1 <= Get(s.nodes[i].nextIndex, p) && AppendOK(s, s.nodes[i].currentTerm, p, AppendFor(s.nodes[i], i, p))
  {
    LeaderAnnounces(s, i, s.nodes[i].commitIndex);
  }

  lemma SendAppendInv(s: Cluster, i: nat, p: nat)
    requires Inv(s) && i < |s.nodes|
    ensures Inv(DoSendAppend(s, i, p))
  {
    var nd := s.nodes[i];
    if nd.role == Leader && p < |s.nodes| && p != i && nd.base < Get(nd.nextIndex, p) <= |nd.log| + 1 {
      assert NodeOK(s, i) && ReignOK(s, nd.currentTerm) && AckOK(s, p, nd.currentTerm);
      SentOK(s, i, p);
      RpcChangeInv(s, DoSendAppend(s, i, p), nd.currentTerm, p);
    }
  }

  lemma SendSnapshotInv(s: Cluster, i: nat, p: nat)
    requires Inv(s) && i < |s.nodes|
    ensures Inv(DoSendSnapshot(s, i, p))
  {
    var nd := s.nodes[i];
    if nd.role == Leader && p < |s.nodes| && p != i && nd.base <= |nd.log| {
      assert NodeOK(s, i);
      LeaderAnnounces(s, i, nd.base);
      RpcChangeInv(s, DoSendSnapshot(s, i, p), nd.currentTerm, p);
    }
  }

  /******* Receiving answers *******/

  lemma DropRpcInv(s: Cluster, s': Cluster)
    requires Inv(s) && s' == s.(rpcs := s'.rpcs)
    requires forall t: nat, p: nat :: (t, p) in s'.rpcs ==> (t, p) in s.rpcs && s'.rpcs[(t, p)] == s.rpcs[(t, p)]
    ensures Inv(s')
  {
    assert Mono(s, s');
    CarryRuns(s, s');
    CarryRpcs(s, s');
    MessagesInv(s, s');
  }

  lemma StepDownInv(s: Cluster, i: nat, t: nat)
    requires Inv(s) && i < |s.nodes|
    ensures Inv(SetNode(s, i, BecomeFollower(s.nodes[i], t)))
  {
    assert NodeOK(s, i);
    StepDownChange(s, i, t);
    NodeChangeInv(s, SetNode(s, i, BecomeFollower(s.nodes[i], t)), i);
  }

  lemma BackOffInv(s: Cluster, i: nat, p: nat)
    requires Inv(s) && i < |s.nodes| && s.nodes[i].role == Leader && p < |s.nodes| && p != i
    requires Get(s.nodes[i].nextIndex, p) > 1
    ensures Inv(SetNode(s, i, s.nodes[i].(nextIndex := s.nodes[i].nextIndex[p := Get(s.nodes[i].nextIndex, p) - 1])))
  {
    var nd := s.nodes[i].(nextIndex := s.nodes[i].nextIndex[p := Get(s.nodes[i].nextIndex, p) - 1]);
    assert NodeOK(s, i);
    UpdateChange(s, SetNode(s, i, nd), i, nd);
    NodeChangeInv(s, SetNode(s, i, nd), i);
  }

  // The cases of OnAppendReply.
  lemma AppendReplyCases(nd: Node, peers: seq<nat>, p: nat, a: AppendArgs, reply: AppendReply)
    ensures
      var m := a.prevIndex + |a.entries|;
      OnAppendReply(nd, peers, p, a, reply) ==
        if reply.term > nd.currentTerm then BecomeFollower(nd, reply.term)
        else if nd.role == Leader && nd.currentTerm == a.term && reply.success then
          AdvanceCommit(nd.(matchIndex := nd.matchIndex[p := Max(Get(nd.matchIndex, p), m)],
                            nextIndex := nd.nextIndex[p := m + 1]), peers)
        else if nd.role == Leader && nd.currentTerm == a.term && Get(nd.nextIndex, p) > 1 then
          nd.(nextIndex := nd.nextIndex[p := Get(nd.nextIndex, p) - 1])
        else nd
  {}

  lemma AppendReplyInv(s: Cluster, p: nat, a: AppendArgs, reply: AppendReply)
    requires Inv(s) && a.leader < |s.nodes| && p < |s.nodes| && p != a.leader
    requires reply.success ==> a.prevIndex + |a.entries| <= Acks(s.hist, p, a.term)
    requires a.term in s.hist.reigns && a.prevIndex + |a.entries| <= |s.hist.reigns[a.term].ledger|
    ensures Inv(SetNode(s, a.leader, OnAppendReply(s.nodes[a.leader], Peers(|s.nodes|, a.leader), p, a, reply)))
  {
    var i := a.leader;
    var nd := s.nodes[i];
    AppendReplyCases(nd, Peers(|s.nodes|, i), p, a, reply);
    if reply.term > nd.currentTerm {
      StepDownInv(s, i, reply.term);
    } else if nd.role == Leader && nd.currentTerm == a.term && reply.success {
      var m := a.prevIndex + |a.entries|;
      assert NodeOK(s, i);
      LeaderUpdateInv(s, i, p, Max(Get(nd.matchIndex, p), m), m + 1);
    } else if nd.role == Leader && nd.currentTerm == a.term && Get(nd.nextIndex, p) > 1 {
      BackOffInv(s, i, p);
    } else {
      assert SetNode(s, i, nd) == s;
    }
  }

  lemma SnapReplyInv(s: Cluster, p: nat, sn: SnapshotArgs, replyTerm: nat) returns (nd': Node)
    requires Inv(s) && sn.leader < |s.nodes| && p < |s.nodes| && p != sn.leader
    requires sn.term <= replyTerm && (replyTerm == sn.term ==> sn.lastIndex <= Acks(s.hist, p, sn.term))
    requires sn.term in s.hist.reigns && sn.lastIndex <= |s.hist.reigns[sn.term].ledger|
    ensures nd' == OnSnapshotReply(s.nodes[sn.leader], Peers(|s.nodes|, sn.leader), p, sn, replyTerm)
    ensures Inv(SetNode(s, sn.leader, nd'))
  {
    var i := sn.leader;
    var nd := s.nodes[i];
    if replyTerm > nd.currentTerm {
      StepDownInv(s, i, replyTerm);
      nd' := BecomeFollower(nd, replyTerm);
    } else if nd.role != Leader || nd.currentTerm != sn.term {
      nd' := nd;
      assert SetNode(s, i, nd) == s;
    } else {
      assert NodeOK(s, i);
      var m, next := Max(Get(nd.matchIndex, p), sn.lastIndex), Max(Get(nd.nextIndex, p), sn.lastIndex + 1);
      LeaderUpdateInv(s, i, p, m, next);
      nd' := AdvanceCommit(nd.(matchIndex := nd.matchIndex[p := m], nextIndex := nd.nextIndex[p := next]),
                           Peers(|s.nodes|, i));
    }
  }

  lemma ReceiveInv(s: Cluster, t: nat, p: nat)
    requires Inv(s)
    ensures Inv(DoReceive(s, t, p))
  {
    if (t, p) in s.rpcs {
      var rpc := s.rpcs[(t, p)];
      var s' := DoReceive(s, t, p);
      var s1 := s.(nodes := s'.nodes);
      assert RpcOK(s, t, p, rpc);
      match rpc
      case AppendDone(a, reply) =>
        assert ReignOK(s, t);
        AppendReplyInv(s, p, a, reply);
        DropRpcInv(s1, s');
      case SnapDone(sn, prefix, replyTerm) =>
        assert ReignOK(s, t);
        var _ := SnapReplyInv(s, p, sn, replyTerm);
        DropRpcInv(s1, s');
      case _ =>
    }
  }
}
