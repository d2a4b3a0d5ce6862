// A cluster of Raft nodes as a transition system.  Every step runs one handler
// of RaftCore on one node, under the node's lock.  A message that is never
// delivered is lost; a node may crash and restart at any point.  Requests from
// one leader term to one peer are delivered at most once and in order, because
// a leader has one outstanding RPC per peer: sending replaces what was there.
module RaftProtocol {
  import opened RaftCore

  // An outstanding replication RPC.  `prefix` is the log prefix a snapshot stands for.
  datatype Rpc =
    | AppendSent(a: AppendArgs)
    | AppendDone(a: AppendArgs, reply: AppendReply)
    | SnapSent(sn: SnapshotArgs, prefix: Log)
    | SnapDone(sn: SnapshotArgs, prefix: Log, replyTerm: nat)

  // A voter's answer, with the voter's log when it answered.
  datatype Ballot = Ballot(reply: VoteReply, voterLog: Log)

  // One startElection goroutine: its arguments, the answers given so far, the
  // answers it has counted and its tally.  A run outlives its candidacy.
  datatype Run = Run(args: VoteArgs, ballots: map<nat, Ballot>, counted: set<nat>, supporters: set<nat>, votes: nat)

  // A won election: `elog` is the winner's log at that moment, `ledger` that log
  // plus everything the winner appended while it led the term.
  datatype Reign = Reign(leader: nat, voters: set<nat>, elog: Log, ledger: Log)

  // What happened, kept for the proof: who voted for whom in which term, the won
  // elections, and how far each node has confirmed each term's leader.
  datatype History = History(votes: map<(nat, nat), nat>, reigns: map<nat, Reign>, acks: map<(nat, nat), nat>)

  datatype Cluster = Cluster(nodes: seq<Node>, runs: seq<Run>, rpcs: map<(nat, nat), Rpc>, hist: History)

  datatype Action =
    | Timeout
    | StartElection
    | ProposeAt(command: Command)
    | SendAppend(peer: nat)
    | SendSnapshot(peer: nat)
    | Crash
    | ObserveTerm(term: nat)
    | ApplyEntry
    | TakeSnapshot(index: nat)

  datatype Step =
    | Local(node: nat, action: Action)
    | AskVote(run: nat, peer: nat)
    | CountVote(run: nat, peer: nat)
    | Deliver(term: nat, peer: nat)
    | Receive(term: nat, peer: nat)

  function Peers(n: nat, self: nat): (ps: seq<nat>)
    ensures forall p: nat :: p in ps <==> p < n && p != self
    ensures |ps| == if self < n then n - 1 else n
    ensures forall i, j :: 0 <= i < j < |ps| ==> ps[i] != ps[j]
  {
    if n == 0 then []
    else
      var rest := Peers(n - 1, self);
      assert forall i :: 0 <= i < |rest| ==> rest[i] in rest;
      if n - 1 == self then rest else rest + [n - 1]
  }

  function Acks(h: History, q: nat, t: nat): nat {
    if (q, t) in h.acks then h.acks[(q, t)] else 0
  }

  function SetNode(s: Cluster, i: nat, nd: Node): Cluster
    requires i < |s.nodes|
  {
    s.(nodes := s.nodes[i := nd])
  }

  function AddAck(h: History, q: nat, t: nat, m: nat): History {
    h.(acks := h.acks[(q, t) := Max(Acks(h, q, t), m)])
  }

  /******* Steps.  A step that is not enabled leaves the cluster as it is. *******/

  function DoTimeout(s: Cluster, i: nat): Cluster
    requires i < |s.nodes|
  {
    var nd := BecomeCandidate(s.nodes[i], i);
    if s.nodes[i].role == Leader then s
    else SetNode(s, i, nd).(hist := s.hist.(votes := s.hist.votes[(i, nd.currentTerm) := i]))
  }

  // startElection reads whatever term and log the node has when it runs.
  function DoStart(s: Cluster, i: nat): Cluster
    requires i < |s.nodes|
  {
    var nd := s.nodes[i];
    s.(runs := s.runs + [Run(VoteArgs(nd.currentTerm, i, |nd.log|, LastTerm(nd.log)), map[], {}, {}, 1)])
  }

  function DoAskVote(s: Cluster, r: nat, p: nat): Cluster {
    if r < |s.runs| && p < |s.nodes| && p != s.runs[r].args.candidate && p !in s.runs[r].ballots then
      var run := s.runs[r];
      var (nd, reply) := HandleVote(s.nodes[p], run.args);
      SetNode(s, p, nd).(
        runs := s.runs[r := run.(ballots := run.ballots[p := Ballot(reply, s.nodes[p].log)])],
        hist := if reply.granted then s.hist.(votes := s.hist.votes[(p, run.args.term) := run.args.candidate])
                else s.hist)
    else s
  }

  function DoCountVote(s: Cluster, r: nat, p: nat): Cluster {
    if r < |s.runs| && s.runs[r].args.candidate < |s.nodes|
       && p in s.runs[r].ballots && p !in s.runs[r].counted then
      var run := s.runs[r];
      var c := run.args.candidate;
      var reply := run.ballots[p].reply;
      var (nd, votes) := OnVoteReply(s.nodes[c], Peers(|s.nodes|, c), run.args.term, run.votes, reply);
      var supporters := if votes > run.votes then run.supporters + {p} else run.supporters;
      var run' := run.(counted := run.counted + {p}, supporters := supporters, votes := votes);
      var s1 := SetNode(s, c, nd).(runs := s.runs[r := run']);
      if nd.role == Leader && s.nodes[c].role == Candidate then
        s1.(hist := AddAck(s.hist.(reigns := s.hist.reigns[nd.currentTerm :=
              Reign(c, supporters + {c}, nd.log, nd.log)]), c, nd.currentTerm, |nd.log|))
      else s1
    else s
  }

  function DoPropose(s: Cluster, i: nat, command: Command): Cluster
    requires i < |s.nodes|
  {
    var nd := Propose(s.nodes[i], Peers(|s.nodes|, i), command);
    if s.nodes[i].role == Leader && nd.currentTerm in s.hist.reigns then
      var reign := s.hist.reigns[nd.currentTerm];
      SetNode(s, i, nd).(hist := AddAck(
        s.hist.(reigns := s.hist.reigns[nd.currentTerm := reign.(ledger := nd.log)]),
        i, nd.currentTerm, |nd.log|))
    else s
  }

  function DoSendAppend(s: Cluster, i: nat, p: nat): Cluster
    requires i < |s.nodes|
  {
    var nd := s.nodes[i];
    if nd.role == Leader && p < |s.nodes| && p != i
       && nd.base < Get(nd.nextIndex, p) <= |nd.log| + 1 then
      s.(rpcs := s.rpcs[(nd.currentTerm, p) := AppendSent(AppendFor(nd, i, p))])
    else s
  }

  function DoSendSnapshot(s: Cluster, i: nat, p: nat): Cluster
    requires i < |s.nodes|
  {
    var nd := s.nodes[i];
    if nd.role == Leader && p < |s.nodes| && p != i && nd.base <= |nd.log| then
      s.(rpcs := s.rpcs[(nd.currentTerm, p) := SnapSent(SnapshotFor(nd, i), nd.log[..nd.base])])
    else s
  }

  // The peer handles the request and answers; a panic kills it instead.
  function DoDeliver(s: Cluster, t: nat, p: nat): Cluster {
    if (t, p) in s.rpcs && p < |s.nodes| then
      match s.rpcs[(t, p)]
      case AppendSent(a) =>
        (match HandleAppend(s.nodes[p], a)
         case Panicked(nd) => SetNode(s, p, Restart(nd)).(rpcs := s.rpcs - {(t, p)})
         case Answered(nd, reply) =>
           SetNode(s, p, nd).(
             rpcs := s.rpcs[(t, p) := AppendDone(a, reply)],
             hist := if reply.success then AddAck(s.hist, p, a.term, a.prevIndex + |a.entries|) else s.hist))
      case SnapSent(sn, prefix) =>
        var (nd, replyTerm) := HandleSnapshot(s.nodes[p], sn, prefix);
        SetNode(s, p, nd).(
          rpcs := s.rpcs[(t, p) := SnapDone(sn, prefix, replyTerm)],
          hist := if replyTerm == sn.term then AddAck(s.hist, p, sn.term, sn.lastIndex) else s.hist)
      case _ => s
    else s
  }

  // The leader that sent the request handles the answer.
  function DoReceive(s: Cluster, t: nat, p: nat): Cluster {
    if (t, p) in s.rpcs then
      match s.rpcs[(t, p)]
      case AppendDone(a, reply) =>
        if a.leader < |s.nodes| then
          SetNode(s, a.leader, OnAppendReply(s.nodes[a.leader], Peers(|s.nodes|, a.leader), p, a, reply))
          .(rpcs := s.rpcs - {(t, p)})
        else s
      case SnapDone(sn, _, replyTerm) =>
        if sn.leader < |s.nodes| then
          SetNode(s, sn.leader, OnSnapshotReply(s.nodes[sn.leader], Peers(|s.nodes|, sn.leader), p, sn, replyTerm))
          .(rpcs := s.rpcs - {(t, p)})
        else s
      case _ => s
    else s
  }

  function Act(s: Cluster, i: nat, action: Action): Cluster
    requires i < |s.nodes|
  {
    match action
    case Timeout => DoTimeout(s, i)
    case StartElection => DoStart(s, i)
    case ProposeAt(command) => DoPropose(s, i, command)
    case SendAppend(p) => DoSendAppend(s, i, p)
    case SendSnapshot(p) => DoSendSnapshot(s, i, p)
    case Crash => SetNode(s, i, Restart(s.nodes[i]))
    case ObserveTerm(t) => SetNode(s, i, BecomeFollower(s.nodes[i], t))
    case ApplyEntry => SetNode(s, i, ApplyOne(s.nodes[i]))
    case TakeSnapshot(index) => SetNode(s, i, Compact(s.nodes[i], index))
  }

  function Take(s: Cluster, step: Step): Cluster {
    match step
    case Local(i, action) => if i < |s.nodes| then Act(s, i, action) else s
    case AskVote(r, p) => DoAskVote(s, r, p)
    case CountVote(r, p) => DoCountVote(s, r, p)
    case Deliver(t, p) => DoDeliver(s, t, p)
    case Receive(t, p) => DoReceive(s, t, p)
  }

  const FreshNode := Node(Follower, 0, None, [], 0, 0, 0, map[], map[])

  function Initial(n: nat): Cluster {
    Cluster(seq(n, _ => FreshNode), [], map[], History(map[], map[], map[]))
  }

  // A run of the cluster: states linked by steps, from the initial state.
  ghost predicate IsRun(run: seq<Cluster>) {
    && run != []
    && (exists n: nat :: run[0] == Initial(n))
    && forall i :: 0 <= i < |run| - 1 ==> Follows(run[i], run[i + 1])
  }

  ghost predicate Follows(s: Cluster, s': Cluster) {
    exists step :: s' == Take(s, step)
  }
}
