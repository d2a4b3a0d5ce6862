// One Raft node as a value: its state, the RPC handlers and the leader's
// bookkeeping, all on the full (never compacted) log.  `base` is
// lastIncludedIndex: the length of the prefix a snapshot has replaced.  Class
// Raft (RaftNode.dfy) keeps only the suffix after `base` and refines these
// functions; the protocol (RaftProtocol.dfy) runs them on every node.
module RaftCore {

  type Command(==, !new)

  datatype Option<+T> = None | Some(value: T)

  datatype LogEntry = LogEntry(term: nat, command: Command)

  type Log = seq<LogEntry>

  datatype Role = Follower | Candidate | Leader

  datatype Node = Node(
    role: Role,
    currentTerm: nat,
    votedFor: Option<nat>,
    log: Log,
    base: nat,
    commitIndex: nat,
    lastApplied: nat,
    nextIndex: map<nat, nat>,
    matchIndex: map<nat, nat>)

  datatype VoteArgs = VoteArgs(term: nat, candidate: nat, lastIndex: nat, lastTerm: nat)
  datatype VoteReply = VoteReply(term: nat, granted: bool)

  datatype AppendArgs = AppendArgs(
    term: nat, leader: nat, prevIndex: nat, prevTerm: nat, entries: Log, leaderCommit: nat)
  datatype AppendReply = AppendReply(term: nat, success: bool)

  // A handler either answers or hits a slice-bounds panic, which kills the process.
  datatype AppendOutcome = Answered(node: Node, reply: AppendReply) | Panicked(node: Node)

  datatype SnapshotArgs = SnapshotArgs(term: nat, leader: nat, lastIndex: nat, lastTerm: nat)

  /******* Reading the log *******/

  function LastTerm(log: Log): nat {
    if |log| == 0 then 0 else log[|log| - 1].term
  }

  // The term at a 1-based index, 0 for the sentinel before the first entry.
  function TermOf(log: Log, index: nat): nat
    requires index <= |log|
  {
    if index == 0 then 0 else log[index - 1].term
  }

  // Unknown below the compaction point and past the end of the log.
  function TermAt(nd: Node, index: nat): Option<nat> {
    if nd.base <= index <= |nd.log| then Some(TermOf(nd.log, index)) else None
  }

  // Section 5.4.1: is a log ending in (index, term) at least as up to date as `log`?
  predicate UpToDate(index: nat, term: nat, log: Log) {
    if term != LastTerm(log) then term > LastTerm(log) else index >= |log|
  }

  function Get(m: map<nat, nat>, k: nat): nat {
    if k in m then m[k] else 0
  }

  function Min(a: nat, b: nat): nat { if a < b then a else b }
  function Max(a: nat, b: nat): nat { if a < b then b else a }

  /******* Role changes *******/

  function BecomeFollower(nd: Node, term: nat): Node {
    if term > nd.currentTerm then nd.(role := Follower, currentTerm := term, votedFor := None)
    else nd.(role := Follower)
  }

  function BecomeCandidate(nd: Node, self: nat): Node {
    if nd.role == Leader then nd
    else nd.(role := Candidate, currentTerm := nd.currentTerm + 1, votedFor := Some(self))
  }

  function BecomeLeader(nd: Node, peers: seq<nat>): Node {
    if nd.role != Candidate then nd
    else nd.(role := Leader,
             nextIndex := map p | p in peers :: |nd.log| + 1,
             matchIndex := map p | p in peers :: 0)
  }

  // What a crash leaves: term, vote, log and compaction point; the rest is volatile.
  function Restart(nd: Node): Node {
    nd.(role := Follower, commitIndex := nd.base, lastApplied := nd.base,
        nextIndex := map[], matchIndex := map[])
  }

  /******* RPC handlers *******/

  function HandleVote(nd: Node, args: VoteArgs): (Node, VoteReply) {
    var n1 := if args.term > nd.currentTerm then BecomeFollower(nd, args.term) else nd;
    if args.term < n1.currentTerm then (n1, VoteReply(n1.currentTerm, false))
    else if (n1.votedFor.Some? && n1.votedFor != Some(args.candidate))
            || !UpToDate(args.lastIndex, args.lastTerm, n1.log) then
      (n1, VoteReply(n1.currentTerm, false))
    else
      (n1.(votedFor := Some(args.candidate)), VoteReply(n1.currentTerm, true))
  }

  // Is the entry before the new ones present and of the expected term?
  predicate PrevMatches(nd: Node, args: AppendArgs) {
    args.prevIndex == 0 || TermAt(nd, args.prevIndex) == Some(args.prevTerm)
  }

  // The log after a matching AppendEntries: everything after prevIndex is cut,
  // whether or not it agreed.  No entries, no cut.
  function Overwrite(log: Log, args: AppendArgs): Log
    requires args.prevIndex <= |log|
  {
    if args.entries == [] then log else log[..args.prevIndex] + args.entries
  }

  function HandleAppend(nd: Node, args: AppendArgs): AppendOutcome {
    if args.term < nd.currentTerm then Answered(nd, AppendReply(nd.currentTerm, false))
    else
      var n1 := BecomeFollower(nd, args.term);
      if !PrevMatches(n1, args) then Answered(n1, AppendReply(n1.currentTerm, false))
      else if args.entries != [] && args.prevIndex < n1.base then Panicked(n1)
      else
        var log := Overwrite(n1.log, args);
        // The cap is this node's own last index, not the last new entry.
        var commit := if args.leaderCommit > n1.commitIndex then Min(args.leaderCommit, |log|)
                      else n1.commitIndex;
        Answered(n1.(log := log, commitIndex := commit), AppendReply(n1.currentTerm, true))
  }

  // `prefix` is the log prefix the snapshot stands for.
  function HandleSnapshot(nd: Node, args: SnapshotArgs, prefix: Log): (Node, nat) {
    if args.term < nd.currentTerm then (nd, nd.currentTerm)
    else
      var n1 := BecomeFollower(nd, args.term);
      if args.lastIndex <= n1.base then (n1, n1.currentTerm)
      else
        var keep := TermAt(n1, args.lastIndex) == Some(args.lastTerm);
        (n1.(log := if keep then n1.log else prefix,
             base := args.lastIndex,
             commitIndex := Max(n1.commitIndex, args.lastIndex),
             lastApplied := Max(n1.lastApplied, args.lastIndex)),
         n1.currentTerm)
  }

  /******* Candidate side *******/

  function Majority(clusterSize: nat): nat { clusterSize / 2 + 1 }

  // One reply to an election run started for `term` that has counted `votes` so far.
  function OnVoteReply(nd: Node, peers: seq<nat>, term: nat, votes: nat, reply: VoteReply): (Node, nat) {
    if reply.term > nd.currentTerm then (BecomeFollower(nd, reply.term), votes)
    else if nd.role != Candidate || nd.currentTerm != term || !reply.granted then (nd, votes)
    else if votes + 1 >= Majority(|peers| + 1) then (BecomeLeader(nd, peers), votes + 1)
    else (nd, votes + 1)
  }

  /******* Leader side *******/

  // The whole remaining suffix from nextIndex on.
  function AppendFor(nd: Node, self: nat, peer: nat): AppendArgs
    requires 1 <= Get(nd.nextIndex, peer) <= |nd.log| + 1
  {
    var prev := Get(nd.nextIndex, peer) - 1;
    AppendArgs(nd.currentTerm, self, prev, TermOf(nd.log, prev), nd.log[prev..], nd.commitIndex)
  }

  function SnapshotFor(nd: Node, self: nat): SnapshotArgs
    requires nd.base <= |nd.log|
  {
    SnapshotArgs(nd.currentTerm, self, nd.base, TermOf(nd.log, nd.base))
  }

  function OnAppendReply(nd: Node, peers: seq<nat>, peer: nat, args: AppendArgs, reply: AppendReply): Node {
    if reply.term > nd.currentTerm then BecomeFollower(nd, reply.term)
    else if nd.role != Leader || nd.currentTerm != args.term then nd
    else if reply.success then
      var m := args.prevIndex + |args.entries|;
      AdvanceCommit(nd.(matchIndex := nd.matchIndex[peer := Max(Get(nd.matchIndex, peer), m)],
                        nextIndex := nd.nextIndex[peer := m + 1]), peers)
    else if Get(nd.nextIndex, peer) > 1 then
      nd.(nextIndex := nd.nextIndex[peer := Get(nd.nextIndex, peer) - 1])
    else nd
  }

  function OnSnapshotReply(nd: Node, peers: seq<nat>, peer: nat, args: SnapshotArgs, replyTerm: nat): Node {
    if replyTerm > nd.currentTerm then BecomeFollower(nd, replyTerm)
    else if nd.role != Leader || nd.currentTerm != args.term then nd
    else
      AdvanceCommit(nd.(matchIndex := nd.matchIndex[peer := Max(Get(nd.matchIndex, peer), args.lastIndex)],
                        nextIndex := nd.nextIndex[peer := Max(Get(nd.nextIndex, peer), args.lastIndex + 1)]), peers)
  }

  function Propose(nd: Node, peers: seq<nat>, command: Command): Node {
    if nd.role != Leader then nd
    else AdvanceCommit(nd.(log := nd.log + [LogEntry(nd.currentTerm, command)]), peers)
  }

  // Snapshot(index): refused past the log or past what has been applied.
  function Compact(nd: Node, index: nat): Node {
    if index <= nd.base || index > |nd.log| || index > nd.lastApplied then nd
    else nd.(base := index)
  }

  function ApplyOne(nd: Node): Node {
    if nd.commitIndex <= nd.lastApplied || nd.lastApplied + 1 > |nd.log| then nd
    else nd.(lastApplied := nd.lastApplied + 1)
  }

  /******* The commit rule *******/

  function Matches(nd: Node, peers: seq<nat>): (ms: seq<nat>)
    ensures |ms| == |peers| + 1
  {
    [|nd.log|] + seq(|peers|, i requires 0 <= i < |peers| => Get(nd.matchIndex, peers[i]))
  }

  function InsertDescending(x: nat, s: seq<nat>): (r: seq<nat>)
    ensures |r| == |s| + 1
  {
    if s == [] || x >= s[0] then [x] + s else [s[0]] + InsertDescending(x, s[1..])
  }

  function SortDescending(s: seq<nat>): (r: seq<nat>)
    ensures |r| == |s|
  {
    if s == [] then [] else InsertDescending(s[0], SortDescending(s[1..]))
  }

  // The majority-th largest match point.
  function MajorityMatch(ms: seq<nat>): nat
    requires ms != []
  {
    SortDescending(ms)[|ms| / 2]
  }

  function AdvanceCommit(nd: Node, peers: seq<nat>): Node {
    if nd.role != Leader then nd
    else
      var m := MajorityMatch(Matches(nd, peers));
      if m > nd.commitIndex && m >= 1 && m <= |nd.log| && TermAt(nd, m) == Some(nd.currentTerm)
      then nd.(commitIndex := m) else nd
  }
}
