// What the handlers answer, exactly, and what that gets done: some candidate can
// always win, a leader's log reaches every follower, and snapshots catch up.
module RaftAnswers {
  import opened RaftCore

  /******* Votes *******/

  // A log ending in (index, term) may lead the owner of `log`: a later last term,
  // or the same one and no fewer entries.
  predicate NotBehind(index: nat, term: nat, log: Log) {
    || log == []
    || term > log[|log| - 1].term
    || (term == log[|log| - 1].term && index >= |log|)
  }

  // No vote for anyone else stands in the candidate's term.
  predicate VoteFree(nd: Node, args: VoteArgs) {
    args.term > nd.currentTerm || (args.term == nd.currentTerm && nd.votedFor in {None, Some(args.candidate)})
  }

  // A vote is granted exactly when the term is not over, no other vote stands in
  // it and the candidate's log is not behind; a granted vote is recorded and
  // nothing but term, role and vote ever changes.
  lemma VoteGrantedIff(nd: Node, args: VoteArgs)
    ensures
      var (nd', reply) := HandleVote(nd, args);
      && (reply.granted <==> VoteFree(nd, args) && NotBehind(args.lastIndex, args.lastTerm, nd.log))
      && (reply.granted ==> nd'.votedFor == Some(args.candidate) && nd'.currentTerm == args.term)
      && reply.term == nd'.currentTerm == Max(nd.currentTerm, args.term)
      && nd' == nd.(role := nd'.role, currentTerm := nd'.currentTerm, votedFor := nd'.votedFor)
  {}

  function Last(log: Log): nat { if log == [] then 0 else log[|log| - 1].term }

  // Of any two logs, one is not behind the other.
  lemma NotBehindTotal(a: Log, b: Log)
    ensures NotBehind(|a|, Last(a), b) || NotBehind(|b|, Last(b), a)
  {}

  lemma NotBehindTransitive(a: Log, b: Log, c: Log)
    requires NotBehind(|a|, Last(a), b) && NotBehind(|b|, Last(b), c)
    requires forall i :: 0 <= i < |c| ==> c[i].term > 0
    ensures NotBehind(|a|, Last(a), c)
  {}

  lemma {:induction false} SomeLogLeads(nodes: seq<Node>) returns (i: nat)
    requires nodes != [] && forall p, x :: 0 <= p < |nodes| && 0 <= x < |nodes[p].log| ==> nodes[p].log[x].term > 0
    ensures i < |nodes|
    ensures forall p :: 0 <= p < |nodes| ==> NotBehind(|nodes[i].log|, Last(nodes[i].log), nodes[p].log)
  {
    var n := |nodes| - 1;
    i := n;
    if n > 0 {
      var j := SomeLogLeads(nodes[..n]);
      assert forall p :: 0 <= p < n ==> nodes[..n][p] == nodes[p];
      NotBehindTotal(nodes[n].log, nodes[j].log);
      if NotBehind(|nodes[j].log|, Last(nodes[j].log), nodes[n].log) {
        i := j;
      } else {
        forall p | 0 <= p < n ensures NotBehind(|nodes[n].log|, Last(nodes[n].log), nodes[p].log) {
          NotBehindTransitive(nodes[n].log, nodes[j].log, nodes[p].log);
        }
      }
    }
  }

  // In any cluster some node, standing in a new term, is voted for by every node.
  lemma SomeoneCanWin(nodes: seq<Node>, term: nat) returns (i: nat)
    requires nodes != [] && forall p, x :: 0 <= p < |nodes| && 0 <= x < |nodes[p].log| ==> nodes[p].log[x].term > 0
    requires forall p :: 0 <= p < |nodes| ==> nodes[p].currentTerm < term
    ensures i < |nodes|
    ensures forall p :: 0 <= p < |nodes| ==>
              HandleVote(nodes[p], VoteArgs(term, i, |nodes[i].log|, LastTerm(nodes[i].log))).1.granted
  {
    i := SomeLogLeads(nodes);
    forall p | 0 <= p < |nodes|
      ensures HandleVote(nodes[p], VoteArgs(term, i, |nodes[i].log|, LastTerm(nodes[i].log))).1.granted
    {
      VoteGrantedIff(nodes[p], VoteArgs(term, i, |nodes[i].log|, LastTerm(nodes[i].log)));
    }
  }

  // A reply makes a leader exactly when it is a vote for the standing candidacy
  // and completes a majority; the new leader starts every peer after its own log.
  lemma ElectionWonIff(nd: Node, peers: seq<nat>, term: nat, votes: nat, reply: VoteReply)
    requires nd.role != Leader
    ensures
      var (nd', votes') := OnVoteReply(nd, peers, term, votes, reply);
      var mine := nd.role == Candidate && nd.currentTerm == term && reply.term <= term && reply.granted;
      && (nd'.role == Leader <==> mine && 2 * (votes + 1) > |peers| + 1)
      && votes' == votes + (if mine then 1 else 0)
      && (nd'.role == Leader ==>
            && nd'.currentTerm == term && nd'.log == nd.log && nd'.commitIndex == nd.commitIndex
            && forall p :: p in peers ==> Get(nd'.nextIndex, p) == |nd.log| + 1 && Get(nd'.matchIndex, p) == 0)
  {}

  /******* Replication *******/

  // The follower has the entry before the new ones, not compacted away.
  predicate Fits(nd: Node, args: AppendArgs) {
    || args.prevIndex == 0
    || (nd.base <= args.prevIndex <= |nd.log| && nd.log[args.prevIndex - 1].term == args.prevTerm)
  }

  // AppendEntries succeeds exactly when its term is not over and it fits; then
  // the follower's log is the part before it and its entries, or what it was if
  // there are none, and the commit index rises to the leader's, within the log.
  lemma AppendAcceptedIff(nd: Node, args: AppendArgs)
    requires HandleAppend(nd, args).Answered?
    ensures
      var nd', reply := HandleAppend(nd, args).node, HandleAppend(nd, args).reply;
      && (reply.success <==> args.term >= nd.currentTerm && Fits(nd, args))
      && reply.term == nd'.currentTerm == Max(nd.currentTerm, args.term)
      && (reply.success ==>
            && args.prevIndex <= |nd.log|
            && nd'.log == (if args.entries == [] then nd.log else nd.log[..args.prevIndex] + args.entries)
            && (nd.commitIndex <= |nd'.log| ==>
                  nd'.commitIndex == Max(nd.commitIndex, Min(args.leaderCommit, |nd'.log|))))
      && (!reply.success ==> nd'.log == nd.log && nd'.commitIndex == nd.commitIndex)
  {}

  // A refusal moves the leader one entry back; a success records the match and
  // goes on after it; an answer to an older term is ignored.
  lemma ReplyMeans(nd: Node, peers: seq<nat>, peer: nat, args: AppendArgs, reply: AppendReply)
    requires nd.role == Leader && reply.term <= nd.currentTerm
    ensures
      var nd', end := OnAppendReply(nd, peers, peer, args, reply), args.prevIndex + |args.entries|;
      && nd'.role == Leader && nd'.log == nd.log && nd'.currentTerm == nd.currentTerm
      && (args.term != nd.currentTerm ==> nd' == nd)
      && (args.term == nd.currentTerm && !reply.success ==>
            && Get(nd'.nextIndex, peer) == (if Get(nd.nextIndex, peer) > 1 then Get(nd.nextIndex, peer) - 1
                                            else Get(nd.nextIndex, peer))
            && nd'.matchIndex == nd.matchIndex)
      && (args.term == nd.currentTerm && reply.success ==>
            Get(nd'.nextIndex, peer) == end + 1 && Get(nd'.matchIndex, peer) == Max(Get(nd.matchIndex, peer), end))
      && forall q :: q != peer ==> Get(nd'.nextIndex, q) == Get(nd.nextIndex, q)
                                   && Get(nd'.matchIndex, q) == Get(nd.matchIndex, q)
  {}

  // One undisturbed exchange between a leader and a follower.
  function Exchange(nd: Node, f: Node, self: nat, peers: seq<nat>, p: nat): (Node, Node)
    requires 1 <= Get(nd.nextIndex, p) <= |nd.log| + 1
  {
    var a := AppendFor(nd, self, p);
    match HandleAppend(f, a)
    case Answered(f', reply) => (OnAppendReply(nd, peers, p, a, reply), f')
    case Panicked(f') => (nd, f')
  }

  // The follower holds everything the leader does, and the leader knows it.
  predicate CaughtUp(nd: Node, f: Node, p: nat) {
    nd.log <= f.log && Get(nd.matchIndex, p) >= |nd.log| && Get(nd.nextIndex, p) == |nd.log| + 1
  }

  // Equal terms at an index mean equal logs up to it, as in every run.
  ghost predicate Matching(a: Log, b: Log) {
    forall i :: 0 < i <= |a| && i <= |b| && a[i - 1].term == b[i - 1].term ==> a[..i] == b[..i]
  }

  ghost predicate CanCatchUp(nd: Node, f: Node, p: nat) {
    && nd.role == Leader && f.currentTerm <= nd.currentTerm && Matching(nd.log, f.log)
    && nd.base <= f.base < Get(nd.nextIndex, p) <= |nd.log| + 1
    && f.base <= |f.log| && (f.base > 0 ==> f.log[f.base - 1].term == nd.log[f.base - 1].term)
  }

  ghost predicate CaughtUpWithin(nd: Node, f: Node, self: nat, peers: seq<nat>, p: nat, rounds: nat)
    decreases rounds
  {
    || CaughtUp(nd, f, p)
    || (rounds > 0 && 1 <= Get(nd.nextIndex, p) <= |nd.log| + 1
        && var (nd', f') := Exchange(nd, f, self, peers, p);
           nd'.log == nd.log && CaughtUpWithin(nd', f', self, peers, p, rounds - 1))
  }

  // From wherever nextIndex stands, no more exchanges than it is above the
  // follower's snapshot bring the follower's log to the leader's.
  lemma {:induction false} ReplicationConverges(nd: Node, f: Node, self: nat, peers: seq<nat>, p: nat)
    requires CanCatchUp(nd, f, p)
    ensures CaughtUpWithin(nd, f, self, peers, p, Get(nd.nextIndex, p) - f.base)
    decreases Get(nd.nextIndex, p)
  {
    var a := AppendFor(nd, self, p);
    PanicsNot(f, a);
    var (nd', f') := Exchange(nd, f, self, peers, p);
    if HandleAppend(f, a).reply.success {
      SuccessCatchesUp(nd, f, self, peers, p);
    } else {
      RefusalStepsBack(nd, f, self, peers, p);
      ReplicationConverges(nd', f', self, peers, p);
    }
  }

  lemma PanicsNot(f: Node, a: AppendArgs)
    requires a.prevIndex >= f.base
    ensures HandleAppend(f, a).Answered?
  {}

  lemma SuccessCatchesUp(nd: Node, f: Node, self: nat, peers: seq<nat>, p: nat)
    requires CanCatchUp(nd, f, p)
    requires HandleAppend(f, AppendFor(nd, self, p)).Answered?
    requires HandleAppend(f, AppendFor(nd, self, p)).reply.success
    ensures
      var (nd', f') := Exchange(nd, f, self, peers, p);
      nd'.log == nd.log && CaughtUp(nd', f', p)
  {
    var a := AppendFor(nd, self, p);
    AppendAcceptedIff(f, a);
    ReplyMeans(nd, peers, p, a, HandleAppend(f, a).reply);
    SpliceAgrees(nd.log, f.log, a.prevIndex);
  }

  // And has committed what the leader has.
  lemma SuccessCommits(nd: Node, f: Node, self: nat, peers: seq<nat>, p: nat)
    requires CanCatchUp(nd, f, p) && f.commitIndex <= nd.commitIndex <= |nd.log|
    requires HandleAppend(f, AppendFor(nd, self, p)).Answered?
    requires HandleAppend(f, AppendFor(nd, self, p)).reply.success
    ensures Exchange(nd, f, self, peers, p).1.commitIndex == nd.commitIndex
  {
    SuccessCatchesUp(nd, f, self, peers, p);
    AppendAcceptedIff(f, AppendFor(nd, self, p));
  }

  // Where the logs match, keeping one's prefix and taking the other's rest gives
  // the other.
  lemma SpliceAgrees(a: Log, b: Log, k: nat)
    requires Matching(a, b) && k <= |a| && k <= |b| && (k > 0 ==> a[k - 1].term == b[k - 1].term)
    ensures b[..k] + a[k..] == a && (a[k..] == [] ==> a <= b)
  {
    if k > 0 {
      assert a[..k] == b[..k];
    }
    assert a == a[..k] + a[k..];
  }

  lemma RefusalStepsBack(nd: Node, f: Node, self: nat, peers: seq<nat>, p: nat)
    requires CanCatchUp(nd, f, p)
    requires HandleAppend(f, AppendFor(nd, self, p)).Answered?
    requires !HandleAppend(f, AppendFor(nd, self, p)).reply.success
    ensures
      var (nd', f') := Exchange(nd, f, self, peers, p);
      && nd'.log == nd.log && f'.base == f.base && CanCatchUp(nd', f', p)
      && Get(nd'.nextIndex, p) == Get(nd.nextIndex, p) - 1
  {
    var a := AppendFor(nd, self, p);
    AppendAcceptedIff(f, a);
    ReplyMeans(nd, peers, p, a, HandleAppend(f, a).reply);
    assert a.prevIndex > f.base;
  }

  /******* Snapshots *******/

  // An installed snapshot brings the follower at least to it, and its answer moves
  // the leader on past it.
  lemma SnapshotCatchesUp(nd: Node, f: Node, self: nat, peers: seq<nat>, p: nat)
    requires nd.role == Leader && f.currentTerm <= nd.currentTerm && nd.base <= |nd.log|
    ensures
      var sn := SnapshotFor(nd, self);
      var (f', replyTerm) := HandleSnapshot(f, sn, nd.log[..nd.base]);
      var nd' := OnSnapshotReply(nd, peers, p, sn, replyTerm);
      && f'.base == Max(f.base, nd.base)
      && (f.base < nd.base ==> f'.commitIndex >= nd.base && f'.lastApplied >= nd.base)
      && nd'.role == Leader && Get(nd'.nextIndex, p) > nd.base && Get(nd'.matchIndex, p) >= nd.base
  {}

  // Installing a snapshot past its own compaction point, a follower keeps a log that
  // agrees with it and otherwise starts over from it; it never goes back in what it
  // has committed or applied.
  lemma SnapshotMeans(f: Node, sn: SnapshotArgs, prefix: Log)
    requires f.base <= |f.log| && |prefix| == sn.lastIndex
    ensures
      var (f', replyTerm) := HandleSnapshot(f, sn, prefix);
      var news := sn.term >= f.currentTerm && sn.lastIndex > f.base;
      var agrees := sn.lastIndex <= |f.log| && sn.lastIndex > 0 && f.log[sn.lastIndex - 1].term == sn.lastTerm;
      && replyTerm == f'.currentTerm == Max(f.currentTerm, sn.term)
      && (!news ==> f'.log == f.log && f'.base == f.base && f'.commitIndex == f.commitIndex)
      && (news ==> f'.base == sn.lastIndex && f'.log == (if agrees then f.log else prefix))
      && (news ==> f'.commitIndex == Max(f.commitIndex, sn.lastIndex))
      && (news ==> f'.lastApplied == Max(f.lastApplied, sn.lastIndex))
  {}

  /******* Roles *******/

  // Standing for election takes the very next term and the node's own vote; a
  // leader does not stand.
  lemma StandingMeans(nd: Node, self: nat)
    ensures
      var nd' := BecomeCandidate(nd, self);
      if nd.role == Leader then nd' == nd
      else
        && nd'.role == Candidate && nd'.currentTerm == nd.currentTerm + 1
        && nd'.votedFor == Some(self) && nd'.log == nd.log
  {}

  // Stepping down forgets the vote exactly when the term is new.
  lemma SteppingDownMeans(nd: Node, term: nat)
    ensures
      var nd' := BecomeFollower(nd, term);
      && nd'.role == Follower && nd'.log == nd.log && nd'.commitIndex == nd.commitIndex
      && nd'.currentTerm == Max(nd.currentTerm, term)
      && nd'.votedFor == (if term > nd.currentTerm then None else nd.votedFor)
  {}

  /******* The rest *******/

  // A leader's proposal is its last entry; anyone else's changes nothing.
  lemma ProposalMeans(nd: Node, peers: seq<nat>, command: Command)
    ensures
      var nd' := Propose(nd, peers, command);
      && (nd.role == Leader ==> nd'.log == nd.log + [LogEntry(nd.currentTerm, command)])
      && (nd.role != Leader ==> nd' == nd)
  {}

  // Committed entries are handed out one at a time until none is left, and what
  // has been handed out may be compacted, exactly.
  lemma ApplyAndCompactMean(nd: Node, index: nat)
    requires nd.base <= nd.lastApplied <= nd.commitIndex <= |nd.log|
    ensures ApplyOne(nd).lastApplied == (if nd.lastApplied < nd.commitIndex then nd.lastApplied + 1 else nd.commitIndex)
    ensures Compact(nd, index).base == (if nd.base < index <= nd.lastApplied then index else nd.base)
    ensures ApplyOne(nd).log == Compact(nd, index).log == nd.log
  {}

  // A crash loses neither term, vote, log nor compaction point, and keeps nothing
  // else.
  lemma CrashKeeps(nd: Node)
    ensures
      var nd' := Restart(nd);
      && nd'.currentTerm == nd.currentTerm && nd'.votedFor == nd.votedFor
      && nd'.log == nd.log && nd'.base == nd.base
      && nd'.role == Follower && nd'.commitIndex == nd'.lastApplied == nd.base
  {}
}
