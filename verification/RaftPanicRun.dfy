// A run of three nodes that ends at that panic: elect, propose, commit through the
// third node, deliver, apply and compact at the second, and resend.
module RaftPanicRun {
  import opened RaftCore
  import opened RaftProtocol
  import RaftCommit
  import RaftPanic
  import Paths

  ghost function Next(): (Cluster, Cluster) -> bool { (s, s') => Follows(s, s') }

  ghost predicate Reached(s: Cluster) { Paths.Reaches(Next(), Initial(3), s) && |s.nodes| == 3 }

  lemma Then(s: Cluster, step: Step)
    requires Reached(s)
    ensures Paths.Reaches(Next(), Initial(3), Take(s, step))
  {
    assert Follows(s, Take(s, step));
    Paths.Then(Next(), Initial(3), s, Take(s, step));
  }

  // The peers of node 0 in a cluster of three.
  lemma PeersOfZero()
    ensures Peers(3, 0) == [1, 2]
  {
    assert Peers(0, 0) == [];
    assert Peers(1, 0) == [];
    assert Peers(2, 0) == [1];
  }

  const Ask := VoteArgs(1, 0, 0, 0)

  const Standing := FreshNode.(role := Candidate, currentTerm := 1, votedFor := Some(0))

  lemma Candidacy() returns (s: Cluster)
    ensures Reached(s) && s.nodes == [Standing, FreshNode, FreshNode] && s.rpcs == map[]
    ensures s.runs == [Run(Ask, map[], {}, {}, 1)]
  {
    Paths.Here(Next(), Initial(3));
    var s1 := Take(Initial(3), Local(0, Timeout));
    Then(Initial(3), Local(0, Timeout));
    assert s1.nodes == [Standing, FreshNode, FreshNode];
    Then(s1, Local(0, StartElection));
    s := Take(s1, Local(0, StartElection));
  }

  // Node 1 votes.
  lemma Vote() returns (s: Cluster)
    ensures Reached(s) && s.nodes[0] == Standing && s.nodes[2] == FreshNode && s.rpcs == map[]
    ensures s.nodes[1] == FreshNode.(currentTerm := 1, votedFor := Some(0))
    ensures |s.runs| == 1 && s.runs[0].args == Ask && s.runs[0].votes == 1 && s.runs[0].counted == {}
    ensures 1 in s.runs[0].ballots && s.runs[0].ballots[1].reply == VoteReply(1, true)
  {
    var s0 := Candidacy();
    Then(s0, AskVote(0, 1));
    s := Take(s0, AskVote(0, 1));
    assert HandleVote(FreshNode, Ask) == (FreshNode.(currentTerm := 1, votedFor := Some(0)), VoteReply(1, true));
  }

  // What is known of node 0 once it leads: nothing in the snapshot, and the first
  // entry is still the next one for node 1.
  ghost predicate Leads(nd: Node) {
    && nd.role == Leader && nd.currentTerm == 1 && nd.base == 0
    && Get(nd.nextIndex, 1) == 1 && Get(nd.matchIndex, 1) == 0
  }

  lemma Elected() returns (s: Cluster)
    ensures Reached(s) && Leads(s.nodes[0]) && s.nodes[0].log == []
    ensures Get(s.nodes[0].nextIndex, 2) == 1 && Get(s.nodes[0].matchIndex, 2) == 0
    ensures s.nodes[0].commitIndex == 0 && s.nodes[2] == FreshNode && s.rpcs == map[] && 1 in s.hist.reigns
    ensures s.nodes[1] == FreshNode.(currentTerm := 1, votedFor := Some(0))
  {
    var s0 := Vote();
    PeersOfZero();
    Then(s0, CountVote(0, 1));
    s := Take(s0, CountVote(0, 1));
    assert OnVoteReply(Standing, [1, 2], 1, 1, VoteReply(1, true)) == (BecomeLeader(Standing, [1, 2]), 2);
  }

  lemma Proposed(command: Command) returns (s: Cluster)
    ensures Reached(s) && Leads(s.nodes[0]) && s.nodes[0].log == [LogEntry(1, command)]
    ensures Get(s.nodes[0].nextIndex, 2) == 1 && Get(s.nodes[0].matchIndex, 2) == 0
    ensures s.nodes[2] == FreshNode && s.rpcs == map[]
    ensures s.nodes[1] == FreshNode.(currentTerm := 1, votedFor := Some(0))
  {
    var s0 := Elected();
    Then(s0, Local(0, ProposeAt(command)));
    s := Take(s0, Local(0, ProposeAt(command)));
    assert [] + [LogEntry(1, command)] == [LogEntry(1, command)];
  }

  // Node 2 takes the entry.
  lemma Accepted(command: Command) returns (s: Cluster, a: AppendArgs)
    ensures Reached(s) && Leads(s.nodes[0]) && s.nodes[0].log == [LogEntry(1, command)]
    ensures s.nodes[1] == FreshNode.(currentTerm := 1, votedFor := Some(0))
    ensures s.rpcs == map[(1, 2) := AppendDone(a, AppendReply(1, true))] && Get(s.nodes[0].matchIndex, 2) == 0
    ensures a.term == 1 && a.leader == 0 && a.prevIndex == 0 && |a.entries| == 1
  {
    var s0 := Proposed(command);
    a := AppendFor(s0.nodes[0], 0, 2);
    Then(s0, Local(0, SendAppend(2)));
    var s1 := Take(s0, Local(0, SendAppend(2)));
    assert s1.nodes == s0.nodes && s1.rpcs == map[(1, 2) := AppendSent(a)];
    assert HandleAppend(FreshNode, a).Answered? && HandleAppend(FreshNode, a).reply == AppendReply(1, true);
    Then(s1, Deliver(1, 2));
    s := Take(s1, Deliver(1, 2));
  }

  // With its answer the leader has a majority.
  lemma MajorityCommits(nd: Node, command: Command)
    requires Leads(nd) && nd.log == [LogEntry(1, command)] && Get(nd.matchIndex, 2) == 1
    ensures AdvanceCommit(nd, [1, 2]).commitIndex >= 1
  {
    var ms := Matches(nd, [1, 2]);
    assert ms == [1, 0, 1];
    CountOfThree(1);
    CountOfThree(2);
    RaftCommit.MajorityMatchIs(ms, 1);
    RaftCommit.MajorityMatchIs(ms, 2);
  }

  lemma CountOfThree(x: nat)
    requires x > 0
    ensures RaftCommit.CountAtLeast([1, 0, 1], x) == if x == 1 then 2 else 0
  {
    var none: seq<nat> := [];
    var one: seq<nat> := [1];
    var two: seq<nat> := [0, 1];
    var three: seq<nat> := [1, 0, 1];
    assert one[1..] == none && two[1..] == one && three[1..] == two;
    assert RaftCommit.CountAtLeast(one, x) == if x == 1 then 1 else 0;
    assert RaftCommit.CountAtLeast(two, x) == RaftCommit.CountAtLeast(one, x);
  }

  lemma Committed(command: Command) returns (s: Cluster)
    ensures Reached(s) && Leads(s.nodes[0]) && s.nodes[0].log == [LogEntry(1, command)]
    ensures s.nodes[0].commitIndex >= 1 && s.rpcs == map[]
    ensures s.nodes[1] == FreshNode.(currentTerm := 1, votedFor := Some(0))
  {
    var s0, a := Accepted(command);
    PeersOfZero();
    Then(s0, Receive(1, 2));
    s := Take(s0, Receive(1, 2));
    var nd := s0.nodes[0];
    MajorityCommits(nd.(matchIndex := nd.matchIndex[2 := Max(Get(nd.matchIndex, 2), 1)],
                        nextIndex := nd.nextIndex[2 := 2]), command);
  }

  // Node 1 takes the committed entry; its answer is never received.
  lemma Delivered(command: Command) returns (s: Cluster, a: AppendArgs)
    ensures Reached(s) && Leads(s.nodes[0]) && s.nodes[0].log == [LogEntry(1, command)]
    ensures a == AppendFor(s.nodes[0], 0, 1) && s.nodes[0].commitIndex >= 1
    ensures s.nodes[1] == HandleAppend(FreshNode.(currentTerm := 1, votedFor := Some(0)), a).node
  {
    var s0 := Committed(command);
    a := AppendFor(s0.nodes[0], 0, 1);
    var nd := FreshNode.(currentTerm := 1, votedFor := Some(0));
    RaftPanic.ResentFirstEntryPanics(nd, s0.nodes[0], 0, 1);
    Then(s0, Local(0, SendAppend(1)));
    var s1 := Take(s0, Local(0, SendAppend(1)));
    assert s1.nodes == s0.nodes && s1.rpcs == map[(1, 1) := AppendSent(a)];
    Then(s1, Deliver(1, 1));
    s := Take(s1, Deliver(1, 1));
  }

  // It applies and compacts, and the leader sends the same request again.
  lemma PanicReached(command: Command)
    ensures exists run :: IsRun(run) && Panics(run[|run| - 1], 1, 1)
  {
    var s0, a := Delivered(command);
    Then(s0, Local(1, ApplyEntry));
    var s1 := Take(s0, Local(1, ApplyEntry));
    Then(s1, Local(1, TakeSnapshot(1)));
    var s2 := Take(s1, Local(1, TakeSnapshot(1)));
    assert s2.nodes[0] == s0.nodes[0] && s2.nodes[1] == Compact(ApplyOne(s0.nodes[1]), 1);
    Then(s2, Local(0, SendAppend(1)));
    var s := Take(s2, Local(0, SendAppend(1)));
    assert s.nodes == s2.nodes && (1, 1) in s.rpcs && s.rpcs[(1, 1)] == AppendSent(a);
    RaftPanic.ResentFirstEntryPanics(FreshNode.(currentTerm := 1, votedFor := Some(0)), s0.nodes[0], 0, 1);
    assert Panics(s, 1, 1);
    var run :| Paths.IsPath(Next(), run) && run[0] == Initial(3) && run[|run| - 1] == s;
    forall i | 0 <= i < |run| - 1 ensures Follows(run[i], run[i + 1]) {
      assert Paths.StepOf(Next(), run, i + 1);
    }
    assert IsRun(run);
  }

  // Delivering the request outstanding to p would kill it.
  predicate Panics(s: Cluster, t: nat, p: nat) {
    && (t, p) in s.rpcs && s.rpcs[(t, p)].AppendSent? && p < |s.nodes|
    && HandleAppend(s.nodes[p], s.rpcs[(t, p)].a).Panicked?
  }
}
