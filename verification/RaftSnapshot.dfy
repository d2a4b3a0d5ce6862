// A follower installing the leader's snapshot, and the leader extending its ledger.
module RaftSnapshot {
  import opened RaftCore
  import opened RaftProtocol
  import opened RaftInvariant
  import opened RaftSteps
  import opened RaftReplication
  import opened RaftAccept

  /******* InstallSnapshot *******/

  // A follower whose log agrees with the ledger past the snapshot's last entry
  // keeps its log.
  lemma AgreementKeeps(s: Cluster, p: nat, t: nat, sn: SnapshotArgs, k: nat)
    requires p < |s.nodes| && t in s.hist.reigns && sn.lastIndex <= k <= |s.nodes[p].log|
    requires s.nodes[p].log[..k] <= s.hist.reigns[t].ledger
    requires sn.lastTerm == TermOf(s.hist.reigns[t].ledger, sn.lastIndex) && s.nodes[p].base < sn.lastIndex
    ensures TermAt(s.nodes[p], sn.lastIndex) == Some(sn.lastTerm)
  {
    assert s.nodes[p].log[..k][sn.lastIndex - 1] == s.hist.reigns[t].ledger[sn.lastIndex - 1];
  }

  // The log after HandleSnapshot, on a follower already in the snapshot's term.
  function Installed(nd: Node, sn: SnapshotArgs, prefix: Log): Log {
    if sn.lastIndex <= nd.base || TermAt(nd, sn.lastIndex) == Some(sn.lastTerm) then nd.log else prefix
  }

  lemma SnapAgrees(s: Cluster, p: nat, t: nat, sn: SnapshotArgs, prefix: Log)
    requires p < |s.nodes| && s.nodes[p].currentTerm == t && NodeShape(s, p) && NodeCommit(s, p)
    requires SnapOK(s, t, p, sn, prefix) && ReignsOK(s) && Completeness(s) && AckOK(s, p, t)
    ensures s.hist.reigns[t].ledger[..Max(Acks(s.hist, p, t), sn.lastIndex)] <= Installed(s.nodes[p], sn, prefix)
    ensures s.nodes[p].commitIndex <= |Installed(s.nodes[p], sn, prefix)|
    ensures Installed(s.nodes[p], sn, prefix)[..s.nodes[p].commitIndex] == s.nodes[p].log[..s.nodes[p].commitIndex]
  {
    var nd, ledger, log' := s.nodes[p], s.hist.reigns[t].ledger, Installed(s.nodes[p], sn, prefix);
    var acked, c := Acks(s.hist, p, t), s.nodes[p].commitIndex;
    assert ReignOK(s, t);
    CommitInLedger(s, p, t);
    if sn.lastIndex <= nd.base {
      assert nd.log[..c][..sn.lastIndex] == ledger[..sn.lastIndex];
    } else if log' == nd.log && TermAt(nd, sn.lastIndex) == Some(sn.lastTerm) {
      LogMatching(s.hist, nd.log, ledger, sn.lastIndex);
    } else {
      if sn.lastIndex <= c {
        AgreementKeeps(s, p, t, sn, c);
      }
      if sn.lastIndex <= acked {
        AgreementKeeps(s, p, t, sn, acked);
      }
      assert nd.log[..c] == ledger[..c];
    }
  }

  lemma SnapRetains(s: Cluster, p: nat, t: nat, sn: SnapshotArgs, prefix: Log, t0: nat, k: nat)
    requires p < |s.nodes| && s.nodes[p].currentTerm == t && NodeShape(s, p)
    requires SnapOK(s, t, p, sn, prefix) && ReignsOK(s) && Completeness(s) && Retention(s)
    requires t0 < t && k <= Acks(s.hist, p, t0)
    ensures Promise(s, t0, k, Installed(s.nodes[p], sn, prefix))
  {
    var nd, g := s.nodes[p], s.hist.reigns[t];
    assert Promise(s, t0, k, nd.log);
    if Installed(nd, sn, prefix) != nd.log && Own(s.hist, t0, k) && Choosable(s, t0, k) {
      assert ReignOK(s, t);
      assert Promise(s, t0, k, g.elog);
      var own := s.hist.reigns[t0].ledger[..k];
      assert own == nd.log[..k] == g.ledger[..k];
      if sn.lastIndex <= k {
        AgreementKeeps(s, p, t, sn, k);
      }
    }
  }

  lemma SnapCommit(s: Cluster, s': Cluster, p: nat, t: nat, sn: SnapshotArgs, prefix: Log)
    requires p < |s.nodes| && s.nodes[p].currentTerm == t && NodeShape(s, p) && NodeCommit(s, p)
    requires SnapOK(s, t, p, sn, prefix) && ReignsOK(s) && Completeness(s) && AckOK(s, p, t)
    requires Mono(s, s') && s'.nodes[p].currentTerm == t && s'.nodes[p].log == Installed(s.nodes[p], sn, prefix)
    requires sn.lastIndex <= Acks(s'.hist, p, t)
    requires s'.nodes[p].commitIndex == Max(s.nodes[p].commitIndex, sn.lastIndex)
    ensures NodeCommit(s', p) && s'.nodes[p].commitIndex <= |s'.nodes[p].log|
  {
    var c, c' := s.nodes[p].commitIndex, s'.nodes[p].commitIndex;
    SnapAgrees(s, p, t, sn, prefix);
    if c < sn.lastIndex {
      assert s'.nodes[p].log[..c'] == s.hist.reigns[t].ledger[..c'];
      AdoptCommit(s, s', p, t, c', sn.lastIndex);
    } else if c > 0 {
      KeepCommit(s, s', p);
    }
  }

  lemma SnapEffect(nd: Node, sn: SnapshotArgs, prefix: Log)
    requires sn.term == nd.currentTerm && nd.role == Follower
    requires nd.base <= nd.lastApplied <= nd.commitIndex
    ensures HandleSnapshot(nd, sn, prefix) ==
              (nd.(log := Installed(nd, sn, prefix), base := Max(nd.base, sn.lastIndex),
                   commitIndex := Max(nd.commitIndex, sn.lastIndex),
                   lastApplied := Max(nd.lastApplied, sn.lastIndex)), nd.currentTerm)
  {}

  lemma SnapAccepts(s: Cluster, s': Cluster, t: nat, p: nat, sn: SnapshotArgs, prefix: Log)
    requires p < |s.nodes| && NodeOK(s, p) && s.nodes[p].currentTerm == t && s.nodes[p].role == Follower
    requires ReignsOK(s) && AckOK(s, p, t) && Completeness(s) && Retention(s)
    requires SnapOK(s, t, p, sn, prefix)
    requires
      var nd := s.nodes[p];
      s' == SetNode(s, p, nd.(log := Installed(nd, sn, prefix), base := Max(nd.base, sn.lastIndex),
                              commitIndex := Max(nd.commitIndex, sn.lastIndex),
                              lastApplied := Max(nd.lastApplied, sn.lastIndex)))
            .(rpcs := s'.rpcs, hist := AddAck(s.hist, p, t, sn.lastIndex))
    ensures Accepts(s, s', p, t, sn.lastIndex)
  {
    assert ReignOK(s, t);
    SnapAgrees(s, p, t, sn, prefix);
    assert Mono(s, s');
    SnapCommit(s, s', p, t, sn, prefix);
    LedgerPrefixOK(s, t, sn.lastIndex);
    forall t0: nat, k: nat | t0 < t && k <= Acks(s.hist, p, t0)
      ensures Promise(s, t0, k, s'.nodes[p].log)
    {
      SnapRetains(s, p, t, sn, prefix, t0, k);
    }
  }

  lemma AcceptSnapInv(s: Cluster, s': Cluster, t: nat, p: nat, sn: SnapshotArgs, prefix: Log)
    requires Inv(s) && (t, p) in s.rpcs && s.rpcs[(t, p)] == SnapSent(sn, prefix) && p < |s.nodes|
    requires s.nodes[p].currentTerm == sn.term && s.nodes[p].role == Follower
    requires s' == SetNode(s, p, HandleSnapshot(s.nodes[p], sn, prefix).0).(
                     rpcs := s.rpcs[(t, p) := SnapDone(sn, prefix, sn.term)],
                     hist := AddAck(s.hist, p, sn.term, sn.lastIndex))
    ensures Inv(s')
  {
    assert RpcOK(s, t, p, s.rpcs[(t, p)]) && NodeOK(s, p) && AckOK(s, p, t);
    SnapEffect(s.nodes[p], sn, prefix);
    SnapAccepts(s, s', t, p, sn, prefix);
    AcceptMono(s, s', p, t, sn.lastIndex);
    CarrySnap(s, s', t, p, sn, prefix);
    AcceptInv(s, s', p, t, sn.lastIndex);
  }

  lemma RefuseSnapInv(s: Cluster, t: nat, p: nat, sn: SnapshotArgs, prefix: Log, replyTerm: nat)
    requires Inv(s) && (t, p) in s.rpcs && s.rpcs[(t, p)] == SnapSent(sn, prefix) && sn.term < replyTerm
    ensures Inv(s.(rpcs := s.rpcs[(t, p) := SnapDone(sn, prefix, replyTerm)]))
  {
    assert RpcOK(s, t, p, s.rpcs[(t, p)]);
    assert RpcOK(s, t, p, SnapDone(sn, prefix, replyTerm));
    RpcChangeInv(s, s.(rpcs := s.rpcs[(t, p) := SnapDone(sn, prefix, replyTerm)]), t, p);
  }

  lemma DeliverSnapInv(s: Cluster, t: nat, p: nat, sn: SnapshotArgs, prefix: Log)
    requires Inv(s) && (t, p) in s.rpcs && s.rpcs[(t, p)] == SnapSent(sn, prefix) && p < |s.nodes|
    ensures Inv(DoDeliver(s, t, p))
  {
    var s' := DoDeliver(s, t, p);
    if sn.term < s.nodes[p].currentTerm {
      RefuseSnapInv(s, t, p, sn, prefix, s.nodes[p].currentTerm);
      assert s' == s.(rpcs := s.rpcs[(t, p) := SnapDone(sn, prefix, s.nodes[p].currentTerm)]);
    } else {
      var n1 := BecomeFollower(s.nodes[p], sn.term);
      var s1 := SetNode(s, p, n1);
      StepDownInv(s, p, sn.term);
      assert HandleSnapshot(n1, sn, prefix) == HandleSnapshot(s.nodes[p], sn, prefix);
      assert s'.nodes == s1.nodes[p := s'.nodes[p]];
      AcceptSnapInv(s1, s', t, p, sn, prefix);
    }
  }

  lemma DeliverInv(s: Cluster, t: nat, p: nat)
    requires Inv(s)
    ensures Inv(DoDeliver(s, t, p))
  {
    if (t, p) in s.rpcs && p < |s.nodes| {
      match s.rpcs[(t, p)]
      case AppendSent(a) => DeliverAppendInv(s, t, p, a);
      case SnapSent(sn, prefix) => DeliverSnapInv(s, t, p, sn, prefix);
      case _ =>
    }
  }

  /******* Propose *******/

  // The leader's ledger grows by one entry, before the commit rule runs.
  function Extend(s: Cluster, i: nat, command: Command): Cluster
    requires i < |s.nodes| && s.nodes[i].currentTerm in s.hist.reigns
  {
    var nd := s.nodes[i];
    var log := nd.log + [LogEntry(nd.currentTerm, command)];
    SetNode(s, i, nd.(log := log)).(hist := AddAck(
      s.hist.(reigns := s.hist.reigns[nd.currentTerm := s.hist.reigns[nd.currentTerm].(ledger := log)]),
      i, nd.currentTerm, |log|))
  }

  lemma ExtendMono(s: Cluster, i: nat, command: Command)
    requires i < |s.nodes| && LeaderOK(s, i) && ReignOK(s, s.nodes[i].currentTerm)
    ensures Mono(s, Extend(s, i, command))
    ensures forall q: nat, t: nat :: !(q == i && t == s.nodes[i].currentTerm) ==>
              Acks(Extend(s, i, command).hist, q, t) == Acks(s.hist, q, t)
    ensures Acks(Extend(s, i, command).hist, i, s.nodes[i].currentTerm) == |s.nodes[i].log| + 1
  {}

  lemma ExtendLogOK(s: Cluster, s': Cluster, i: nat, command: Command)
    requires i < |s.nodes| && NodeShape(s, i) && LeaderOK(s, i)
    requires s' == Extend(s, i, command) && Mono(s, s')
    ensures LogOK(s'.hist, s'.nodes[i].log)
  {
    var log, log' := s.nodes[i].log, s'.nodes[i].log;
    MonoLog(s, s', log);
    forall j: nat | j < |log'|
      ensures EntryOK(s'.hist, log', j)
    {
      if j < |log| {
        assert EntryOK(s'.hist, log, j);
        assert log'[..j + 1] == log[..j + 1];
      } else {
        assert log'[..j + 1] == log';
      }
    }
  }

  lemma ExtendNode(s: Cluster, s': Cluster, i: nat, command: Command)
    requires i < |s.nodes| && NodeOK(s, i) && s.nodes[i].role == Leader && ReignOK(s, s.nodes[i].currentTerm)
    requires s' == Extend(s, i, command) && Mono(s, s')
    ensures NodeOK(s', i)
  {
    ExtendLogOK(s, s', i, command);
    ExtendMono(s, i, command);
    var nd, c := s.nodes[i], s.nodes[i].commitIndex;
    if c > 0 {
      assert s'.nodes[i].log[..c] == nd.log[..c];
      KeepCommit(s, s', i);
    }
    assert LeaderOK(s', i);
  }

  lemma ExtendReigns(s: Cluster, s': Cluster, i: nat, command: Command)
    requires i < |s.nodes| && NodeOK(s, i) && s.nodes[i].role == Leader
    requires ReignsOK(s) && AcksOK(s) && s' == Extend(s, i, command)
    ensures ReignsOK(s') && AcksOK(s')
  {
    var term := s.nodes[i].currentTerm;
    assert ReignOK(s, term);
    ExtendMono(s, i, command);
    ExtendLogOK(s, s', i, command);
    forall t | t in s'.hist.reigns
      ensures ReignOK(s', t)
    {
      assert ReignOK(s, t);
      if t != term {
        MonoLog(s, s', s.hist.reigns[t].ledger);
      } else {
        assert s'.hist.reigns[t].ledger == s'.nodes[i].log;
      }
    }
    ExtendAcks(s, s', i, command);
  }

  lemma ExtendAcks(s: Cluster, s': Cluster, i: nat, command: Command)
    requires i < |s.nodes| && LeaderOK(s, i) && ReignOK(s, s.nodes[i].currentTerm)
    requires AcksOK(s) && s' == Extend(s, i, command)
    ensures AcksOK(s')
  {
    ExtendMono(s, i, command);
    forall q: nat, t: nat
      ensures AckOK(s', q, t)
    {
      assert AckOK(s, q, t);
    }
  }

  // A new entry of a term some later leader was elected over cannot be chosen.
  lemma FreshNotChoosable(s: Cluster, s': Cluster, i: nat, command: Command, t': nat)
    requires i < |s.nodes| && NodeOK(s, i) && s.nodes[i].role == Leader
    requires ReignsOK(s) && AcksOK(s) && VotesOK(s) && s' == Extend(s, i, command)
    requires t' in s.hist.reigns && s.nodes[i].currentTerm < t'
    ensures !Choosable(s', s.nodes[i].currentTerm, |s.nodes[i].log| + 1)
  {
    var t, k := s.nodes[i].currentTerm, |s.nodes[i].log| + 1;
    if Choosable(s', t, k) {
      var q :| IsQuorum(|s'.nodes|, q) && Backs(s', q, t, k);
      assert ReignOK(s, t') && ReignOK(s, t);
      ExtendMono(s, i, command);
      forall x: nat ensures Acks(s.hist, x, t) < k {
        assert AckOK(s, x, t);
      }
      var x := QuorumsMeet(|s.nodes|, q, s.hist.reigns[t'].voters);
      assert false;
    }
  }

  lemma ExtendPromises(s: Cluster, s': Cluster, i: nat, command: Command)
    requires i < |s.nodes| && NodeOK(s, i) && s.nodes[i].role == Leader
    requires ReignsOK(s) && AcksOK(s) && VotesOK(s) && Completeness(s) && Retention(s) && s' == Extend(s, i, command)
    ensures Completeness(s') && Retention(s')
  {
    var term := s.nodes[i].currentTerm;
    assert ReignOK(s, term);
    ExtendMono(s, i, command);
    forall t: nat, t': nat, k: nat | t in s'.hist.reigns && t' in s'.hist.reigns && t < t'
      ensures Promise(s', t, k, s'.hist.reigns[t'].elog)
    {
      if t in s.hist.reigns && k <= |s.hist.reigns[t].ledger| {
        assert Promise(s, t, k, s.hist.reigns[t'].elog);
        MonoPromise(s, s', t, k, s.hist.reigns[t'].elog);
      } else if Own(s'.hist, t, k) {
        FreshNotChoosable(s, s', i, command, t');
      }
    }
    forall q: nat, t: nat, k: nat | q < |s'.nodes| && k <= Acks(s'.hist, q, t)
      ensures Promise(s', t, k, s'.nodes[q].log)
    {
      assert AckOK(s, q, t);
      if q == i && t == term {
        assert s'.hist.reigns[t].ledger == s'.nodes[i].log;
      } else if k > 0 {
        assert Promise(s, t, k, s.nodes[q].log);
        MonoPromise(s, s', t, k, s.nodes[q].log);
        assert s.nodes[q].log <= s'.nodes[q].log;
      }
    }
  }

  lemma ExtendMessages(s: Cluster, s': Cluster, i: nat, command: Command)
    requires i < |s.nodes| && NodeOK(s, i) && s.nodes[i].role == Leader && ReignOK(s, s.nodes[i].currentTerm)
    requires AcksOK(s) && RunsOK(s) && RpcsOK(s) && s' == Extend(s, i, command)
    ensures RunsOK(s') && RpcsOK(s')
  {
    ExtendMono(s, i, command);
    CarryRuns(s, s');
    forall t: nat, p: nat | (t, p) in s'.rpcs
      ensures RpcOK(s', t, p, s'.rpcs[(t, p)])
    {
      assert RpcOK(s, t, p, s.rpcs[(t, p)]);
      CarryRpc(s, s', t, p, s.rpcs[(t, p)]);
    }
  }

  lemma ExtendInv(s: Cluster, i: nat, command: Command)
    requires Inv(s) && i < |s.nodes| && s.nodes[i].role == Leader
    ensures s.nodes[i].currentTerm in s.hist.reigns && Inv(Extend(s, i, command))
  {
    assert NodeOK(s, i) && ReignOK(s, s.nodes[i].currentTerm);
    var s' := Extend(s, i, command);
    ExtendMono(s, i, command);
    forall j: nat | j < |s.nodes|
      ensures NodeOK(s', j)
    {
      assert NodeOK(s, j);
      if j == i {
        ExtendNode(s, s', i, command);
      } else {
        CarryNode(s, s', j);
      }
    }
    ExtendReigns(s, s', i, command);
    ExtendPromises(s, s', i, command);
    ExtendMessages(s, s', i, command);
  }

  lemma ProposeInv(s: Cluster, i: nat, command: Command)
    requires Inv(s) && i < |s.nodes|
    ensures Inv(DoPropose(s, i, command))
  {
    if s.nodes[i].role == Leader {
      ExtendInv(s, i, command);
      var s1 := Extend(s, i, command);
      CommitStepInv(s1, i);
      assert DoPropose(s, i, command) == SetNode(s1, i, AdvanceCommit(s1.nodes[i], Peers(|s1.nodes|, i)));
    }
  }
}
