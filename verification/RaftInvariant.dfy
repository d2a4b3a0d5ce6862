// The inductive invariant of the cluster and the facts every step preserves.
module RaftInvariant {
  import opened RaftCore
  import opened RaftProtocol

  /******* Quorums *******/

  ghost predicate IsQuorum(n: nat, q: set<nat>) {
    (forall x :: x in q ==> x < n) && |q| >= Majority(n)
  }

  lemma {:induction false} BelowCard(n: nat, q: set<nat>)
    requires forall x :: x in q ==> x < n
    ensures |q| <= n
  {
    if n > 0 {
      BelowCard(n - 1, q - {n - 1});
    } else {
      assert q == {};
    }
  }

  lemma QuorumsMeet(n: nat, a: set<nat>, b: set<nat>) returns (x: nat)
    requires IsQuorum(n, a) && IsQuorum(n, b)
    ensures x in a && x in b && x < n
  {
    if a * b == {} {
      BelowCard(n, a + b);
    }
    x :| x in a * b;
  }

  /******* Logs *******/

  ghost predicate EntryOK(h: History, log: Log, i: nat)
    requires i < |log|
  {
    log[i].term in h.reigns && log[..i + 1] <= h.reigns[log[i].term].ledger
  }

  // Every prefix of `log` ending in an entry of term t is a prefix of what the
  // leader of term t wrote, and terms never decrease along the log.
  ghost predicate LogOK(h: History, log: Log) {
    && (forall i: nat {:trigger EntryOK(h, log, i)} :: i < |log| ==> EntryOK(h, log, i))
    && (forall i, j :: 0 <= i <= j < |log| ==> log[i].term <= log[j].term)
  }

  // Two well-formed logs that agree on the term at an index agree up to it.
  lemma LogMatching(h: History, a: Log, b: Log, index: nat)
    requires LogOK(h, a) && LogOK(h, b)
    requires index <= |a| && index <= |b| && TermOf(a, index) == TermOf(b, index)
    ensures a[..index] == b[..index]
  {
    if index > 0 {
      assert EntryOK(h, a, index - 1) && EntryOK(h, b, index - 1);
    }
  }

  lemma LogPrefixOK(h: History, log: Log, k: nat)
    requires LogOK(h, log) && k <= |log|
    ensures LogOK(h, log[..k])
  {
    forall i: nat | i < k
      ensures EntryOK(h, log[..k], i)
    {
      assert EntryOK(h, log, i);
      assert log[..k][..i + 1] == log[..i + 1];
    }
  }

  /******* Committed and still committable entries *******/

  // k is the index of an entry the leader of term t appended itself.
  ghost predicate Own(h: History, t: nat, k: nat) {
    t in h.reigns && |h.reigns[t].elog| < k <= |h.reigns[t].ledger|
  }

  // Every member of q has confirmed term t up to k, or still may.
  ghost predicate Backs(s: Cluster, q: set<nat>, t: nat, k: nat) {
    forall x :: x in q && x < |s.nodes| ==> Acks(s.hist, x, t) >= k || s.nodes[x].currentTerm <= t
  }

  ghost predicate Choosable(s: Cluster, t: nat, k: nat) {
    exists q :: IsQuorum(|s.nodes|, q) && Backs(s, q, t, k)
  }

  ghost predicate Confirms(s: Cluster, q: set<nat>, t: nat, k: nat) {
    forall x :: x in q ==> Acks(s.hist, x, t) >= k
  }

  // A majority has confirmed an entry of the leader's own term.
  ghost predicate Committed(s: Cluster, t: nat, k: nat) {
    Own(s.hist, t, k) && exists q :: IsQuorum(|s.nodes|, q) && Confirms(s, q, t, k)
  }

  // If entry k of term t is or may become committed, `log` contains it.
  ghost predicate Promise(s: Cluster, t: nat, k: nat, log: Log) {
    Own(s.hist, t, k) && Choosable(s, t, k) ==> s.hist.reigns[t].ledger[..k] <= log
  }

  // log[..c] is covered by a commit of some term up to `term`, witnessed by (t, k).
  ghost predicate Covered(s: Cluster, log: Log, c: nat, term: nat, t: nat, k: nat) {
    t <= term && c <= k && c <= |log| && Committed(s, t, k) && log[..c] <= s.hist.reigns[t].ledger
  }

  /******* The invariant, piece by piece *******/

  ghost predicate NodeShape(s: Cluster, i: nat)
    requires i < |s.nodes|
  {
    var nd := s.nodes[i];
    && nd.base <= nd.lastApplied <= nd.commitIndex <= |nd.log|
    && LogOK(s.hist, nd.log)
    && (forall j :: 0 <= j < |nd.log| ==> nd.log[j].term <= nd.currentTerm)
  }

  ghost predicate NodeVote(s: Cluster, i: nat)
    requires i < |s.nodes|
  {
    var nd := s.nodes[i];
    && (nd.votedFor.Some? <==> (i, nd.currentTerm) in s.hist.votes)
    && (nd.votedFor.Some? ==> s.hist.votes[(i, nd.currentTerm)] == nd.votedFor.value)
    && (nd.role != Follower ==> nd.votedFor == Some(i) && 1 <= nd.currentTerm)
  }

  ghost predicate LeaderOK(s: Cluster, i: nat)
    requires i < |s.nodes|
  {
    var nd := s.nodes[i];
    && nd.currentTerm in s.hist.reigns
    && s.hist.reigns[nd.currentTerm].leader == i
    && s.hist.reigns[nd.currentTerm].ledger == nd.log
    && (forall p: nat :: p < |s.nodes| && p != i ==>
          && Get(nd.matchIndex, p) <= Acks(s.hist, p, nd.currentTerm)
          && 1 <= Get(nd.nextIndex, p) <= |nd.log| + 1)
  }

  ghost predicate NodeRole(s: Cluster, i: nat)
    requires i < |s.nodes|
  {
    var nd := s.nodes[i];
    && (nd.role == Leader ==> LeaderOK(s, i))
    && (nd.role == Candidate && nd.currentTerm in s.hist.reigns ==>
          s.hist.reigns[nd.currentTerm].leader != i)
  }

  // The committed prefix is covered; within the covering term it was confirmed.
  ghost predicate NodeCommit(s: Cluster, i: nat)
    requires i < |s.nodes|
  {
    var nd := s.nodes[i];
    nd.commitIndex == 0 ||
    exists t: nat, k: nat :: CommitWitness(s, i, nd.commitIndex, t, k)
  }

  ghost predicate CommitWitness(s: Cluster, i: nat, c: nat, t: nat, k: nat)
    requires i < |s.nodes|
  {
    var nd := s.nodes[i];
    && Covered(s, nd.log, c, nd.currentTerm, t, k)
    && (t == nd.currentTerm ==> c <= Acks(s.hist, i, t))
  }

  ghost predicate NodeOK(s: Cluster, i: nat)
    requires i < |s.nodes|
  {
    NodeShape(s, i) && NodeVote(s, i) && NodeRole(s, i) && NodeCommit(s, i)
  }

  ghost predicate ReignOK(s: Cluster, t: nat)
    requires t in s.hist.reigns
  {
    var g := s.hist.reigns[t];
    && 1 <= t && g.leader < |s.nodes| && t <= s.nodes[g.leader].currentTerm
    && IsQuorum(|s.nodes|, g.voters)
    && (forall v :: v in g.voters ==> (v, t) in s.hist.votes && s.hist.votes[(v, t)] == g.leader)
    && g.elog <= g.ledger
    && LogOK(s.hist, g.ledger)
    && (forall i :: 0 <= i < |g.elog| ==> g.elog[i].term < t)
    && (forall i :: |g.elog| <= i < |g.ledger| ==> g.ledger[i].term == t)
    && Acks(s.hist, g.leader, t) == |g.ledger|
  }

  ghost predicate VotesOK(s: Cluster) {
    forall v: nat, t: nat :: (v, t) in s.hist.votes ==> v < |s.nodes| && t <= s.nodes[v].currentTerm
  }

  ghost predicate AckOK(s: Cluster, q: nat, t: nat) {
    Acks(s.hist, q, t) > 0 ==>
      && q < |s.nodes| && t in s.hist.reigns && t <= s.nodes[q].currentTerm
      && Acks(s.hist, q, t) <= |s.hist.reigns[t].ledger|
      && (t == s.nodes[q].currentTerm ==>
            s.hist.reigns[t].ledger[..Acks(s.hist, q, t)] <= s.nodes[q].log)
  }

  // Leader completeness, for entries that may still become committed too.
  ghost predicate Completeness(s: Cluster) {
    forall t: nat, t': nat, k: nat {:trigger Promise(s, t, k, s.hist.reigns[t'].elog)} ::
      t in s.hist.reigns && t' in s.hist.reigns && t < t' ==>
      Promise(s, t, k, s.hist.reigns[t'].elog)
  }

  // No node drops an entry it has confirmed while that entry may be committed.
  ghost predicate Retention(s: Cluster) {
    forall q: nat, t: nat, k: nat {:trigger Promise(s, t, k, s.nodes[q].log)} ::
      q < |s.nodes| && k <= Acks(s.hist, q, t) ==> Promise(s, t, k, s.nodes[q].log)
  }

  ghost predicate BallotOK(s: Cluster, args: VoteArgs, p: nat, b: Ballot) {
    && p < |s.nodes| && p != args.candidate
    && (b.reply.granted ==>
          && args.term <= s.nodes[p].currentTerm
          && (p, args.term) in s.hist.votes && s.hist.votes[(p, args.term)] == args.candidate
          && LogOK(s.hist, b.voterLog)
          && UpToDate(args.lastIndex, args.lastTerm, b.voterLog)
          && (forall t: nat, k: nat {:trigger Promise(s, t, k, b.voterLog)} ::
                t < args.term && k <= Acks(s.hist, p, t) ==> Promise(s, t, k, b.voterLog)))
  }

  ghost predicate RunOK(s: Cluster, run: Run) {
    var args := run.args;
    && args.candidate < |s.nodes|
    && args.term <= s.nodes[args.candidate].currentTerm
    && (s.nodes[args.candidate].role == Candidate && s.nodes[args.candidate].currentTerm == args.term ==>
          args.lastIndex == |s.nodes[args.candidate].log|
          && args.lastTerm == LastTerm(s.nodes[args.candidate].log))
    && (forall p {:trigger BallotOK(s, args, p, run.ballots[p])} ::
          p in run.ballots ==> BallotOK(s, args, p, run.ballots[p]))
    && run.supporters <= run.counted
    && (forall p :: p in run.supporters ==> p in run.ballots && run.ballots[p].reply.granted)
    && run.votes == |run.supporters| + 1
  }

  // A commit index a leader of term t may announce.
  ghost predicate Announced(s: Cluster, t: nat, c: nat) {
    && t in s.hist.reigns && c <= |s.hist.reigns[t].ledger|
    && (c == 0 || exists t1: nat, k: nat :: Covered(s, s.hist.reigns[t].ledger, c, t, t1, k))
  }

  // An AppendEntries of term t carries the leader's log from prevIndex to its end.
  ghost predicate AppendOK(s: Cluster, t: nat, p: nat, a: AppendArgs) {
    && t in s.hist.reigns && p < |s.nodes| && p != s.hist.reigns[t].leader
    && a.term == t && a.leader == s.hist.reigns[t].leader
    && var g := s.hist.reigns[t];
       var m := a.prevIndex + |a.entries|;
    && |g.elog| <= m <= |g.ledger|
    && g.ledger[a.prevIndex..m] == a.entries
    && a.prevTerm == TermOf(g.ledger, a.prevIndex)
    && a.leaderCommit <= m
    && Announced(s, t, a.leaderCommit)
  }

  ghost predicate SnapOK(s: Cluster, t: nat, p: nat, sn: SnapshotArgs, prefix: Log) {
    && t in s.hist.reigns && p < |s.nodes| && p != s.hist.reigns[t].leader
    && sn.term == t && sn.leader == s.hist.reigns[t].leader
    && sn.lastIndex <= |s.hist.reigns[t].ledger|
    && prefix == s.hist.reigns[t].ledger[..sn.lastIndex]
    && sn.lastTerm == TermOf(s.hist.reigns[t].ledger, sn.lastIndex)
    && Announced(s, t, sn.lastIndex)
  }

  ghost predicate RpcOK(s: Cluster, t: nat, p: nat, rpc: Rpc) {
    match rpc
    case AppendSent(a) => AppendOK(s, t, p, a) && Acks(s.hist, p, t) <= a.prevIndex + |a.entries|
    case AppendDone(a, reply) =>
      AppendOK(s, t, p, a) && (reply.success ==> a.prevIndex + |a.entries| <= Acks(s.hist, p, t))
    case SnapSent(sn, prefix) => SnapOK(s, t, p, sn, prefix)
    case SnapDone(sn, prefix, replyTerm) =>
      SnapOK(s, t, p, sn, prefix) && t <= replyTerm
      && (replyTerm == t ==> sn.lastIndex <= Acks(s.hist, p, t))
  }

  ghost predicate NodesOK(s: Cluster) {
    forall i: nat {:trigger NodeOK(s, i)} :: i < |s.nodes| ==> NodeOK(s, i)
  }

  ghost predicate ReignsOK(s: Cluster) {
    forall t: nat {:trigger ReignOK(s, t)} :: t in s.hist.reigns ==> ReignOK(s, t)
  }

  ghost predicate AcksOK(s: Cluster) {
    forall q: nat, t: nat :: AckOK(s, q, t)
  }

  ghost predicate RunsOK(s: Cluster) {
    forall r: nat {:trigger RunOK(s, s.runs[r])} :: r < |s.runs| ==> RunOK(s, s.runs[r])
  }

  ghost predicate RpcsOK(s: Cluster) {
    forall t: nat, p: nat {:trigger RpcOK(s, t, p, s.rpcs[(t, p)])} ::
      (t, p) in s.rpcs ==> RpcOK(s, t, p, s.rpcs[(t, p)])
  }

  ghost predicate Inv(s: Cluster) {
    && NodesOK(s) && ReignsOK(s) && VotesOK(s) && AcksOK(s)
    && Completeness(s) && Retention(s)
    && RunsOK(s) && RpcsOK(s)
  }

  lemma InitialInv(n: nat)
    ensures Inv(Initial(n))
  {}

  /******* What every step leaves in place *******/

  // Terms only rise, won elections stay, ledgers and confirmations only grow,
  // and a node that has moved past a term never confirms it again.
  ghost predicate Mono(s: Cluster, s': Cluster) {
    && |s.nodes| == |s'.nodes|
    && (forall i: nat :: i < |s.nodes| ==> s.nodes[i].currentTerm <= s'.nodes[i].currentTerm)
    && (forall t :: t in s.hist.reigns ==>
          && t in s'.hist.reigns
          && s'.hist.reigns[t].leader == s.hist.reigns[t].leader
          && s'.hist.reigns[t].voters == s.hist.reigns[t].voters
          && s'.hist.reigns[t].elog == s.hist.reigns[t].elog
          && s.hist.reigns[t].ledger <= s'.hist.reigns[t].ledger)
    && (forall q: nat, t: nat :: Acks(s.hist, q, t) <= Acks(s'.hist, q, t))
    && (forall q: nat, t: nat ::
          q < |s.nodes| && t < s.nodes[q].currentTerm ==> Acks(s.hist, q, t) == Acks(s'.hist, q, t))
    && (forall v: nat, t: nat :: (v, t) in s.hist.votes ==>
          (v, t) in s'.hist.votes && s'.hist.votes[(v, t)] == s.hist.votes[(v, t)])
  }

  lemma MonoLog(s: Cluster, s': Cluster, log: Log)
    requires Mono(s, s') && LogOK(s.hist, log)
    ensures LogOK(s'.hist, log)
  {
    forall i: nat | i < |log|
      ensures EntryOK(s'.hist, log, i)
    {
      assert EntryOK(s.hist, log, i);
    }
  }

  lemma MonoPromise(s: Cluster, s': Cluster, t: nat, k: nat, log: Log)
    requires Mono(s, s') && Promise(s, t, k, log)
    requires t in s.hist.reigns && k <= |s.hist.reigns[t].ledger|
    ensures Promise(s', t, k, log)
  {
    if Own(s'.hist, t, k) && Choosable(s', t, k) {
      var q :| IsQuorum(|s'.nodes|, q) && Backs(s', q, t, k);
      assert Backs(s, q, t, k);
      assert s'.hist.reigns[t].ledger[..k] == s.hist.reigns[t].ledger[..k];
    }
  }

  lemma MonoCommitted(s: Cluster, s': Cluster, t: nat, k: nat)
    requires Mono(s, s') && Committed(s, t, k)
    ensures Committed(s', t, k)
    ensures s.hist.reigns[t].ledger[..k] == s'.hist.reigns[t].ledger[..k]
  {
    var q :| IsQuorum(|s.nodes|, q) && Confirms(s, q, t, k);
    assert Confirms(s', q, t, k);
  }

  lemma MonoCovered(s: Cluster, s': Cluster, log: Log, c: nat, term: nat, t: nat, k: nat)
    requires Mono(s, s') && Covered(s, log, c, term, t, k)
    ensures Covered(s', log, c, term, t, k)
  {
    MonoCommitted(s, s', t, k);
  }

  lemma CommittedChoosable(s: Cluster, t: nat, k: nat)
    requires Committed(s, t, k)
    ensures Choosable(s, t, k)
  {
    var q :| IsQuorum(|s.nodes|, q) && Confirms(s, q, t, k);
    assert Backs(s, q, t, k);
  }

  lemma MonoAnnounced(s: Cluster, s': Cluster, t: nat, c: nat)
    requires Mono(s, s') && Announced(s, t, c)
    ensures Announced(s', t, c)
  {
    if c > 0 {
      var t1, k :| Covered(s, s.hist.reigns[t].ledger, c, t, t1, k);
      MonoCovered(s, s', s.hist.reigns[t].ledger, c, t, t1, k);
      assert s'.hist.reigns[t].ledger[..c] == s.hist.reigns[t].ledger[..c];
      assert Covered(s', s'.hist.reigns[t].ledger, c, t, t1, k);
    }
  }
}
