// One Raft node as the program keeps it: fields updated in place, and a log that
// holds only the entries after the last snapshot.  Every method is proved to act
// on the full log exactly as the matching function of RaftCore.
module RaftNode {
  import opened RaftCore
  import opened RaftAnswers

  // What the persister stores: everything that survives a crash.
  datatype Saved = Saved(currentTerm: nat, votedFor: Option<nat>, log: Log,
                         lastIncludedIndex: nat, lastIncludedTerm: nat)

  datatype Outgoing = SendEntries(a: AppendArgs) | SendState(sn: SnapshotArgs) | Nothing

  class Raft {
    const id: nat
    const peers: seq<nat>

    var role: Role
    var currentTerm: nat
    var votedFor: Option<nat>
    var log: Log
    var lastIncludedIndex: nat
    var lastIncludedTerm: nat
    var commitIndex: nat
    var lastApplied: nat
    var nextIndex: map<nat, nat>
    var matchIndex: map<nat, nat>
    var disk: Saved

    // The entries the snapshot replaced.
    ghost var discarded: Log

    ghost predicate Shape()
      reads this
    {
      |discarded| == lastIncludedIndex && lastIncludedTerm == LastTerm(discarded)
    }

    // Between handlers the disk holds the current persistent state.
    ghost predicate Valid()
      reads this
    {
      Shape() && disk == Saved(currentTerm, votedFor, log, lastIncludedIndex, lastIncludedTerm)
    }

    // The node on the full log.
    ghost function Abs(): Node
      reads this
    {
      Node(role, currentTerm, votedFor, discarded + log, lastIncludedIndex,
           commitIndex, lastApplied, nextIndex, matchIndex)
    }

    // A first boot.
    constructor (id: nat, peers: seq<nat>)
      ensures Valid() && this.id == id && this.peers == peers
      ensures Abs() == Node(Follower, 0, None, [], 0, 0, 0, map[], map[])
    {
      this.id, this.peers := id, peers;
      role, currentTerm, votedFor := Follower, 0, None;
      log, lastIncludedIndex, lastIncludedTerm := [], 0, 0;
      commitIndex, lastApplied := 0, 0;
      nextIndex, matchIndex := map[], map[];
      discarded := [];
      disk := Saved(0, None, [], 0, 0);
    }

    // A restart from what a crashed node had saved.
    constructor Restore(id: nat, peers: seq<nat>, saved: Saved, ghost crashed: Node, ghost prefix: Log)
      requires |prefix| == saved.lastIncludedIndex && saved.lastIncludedTerm == LastTerm(prefix)
      requires crashed.currentTerm == saved.currentTerm && crashed.votedFor == saved.votedFor
      requires crashed.log == prefix + saved.log && crashed.base == saved.lastIncludedIndex
      ensures Valid() && Abs() == Restart(crashed)
    {
      this.id, this.peers := id, peers;
      role, currentTerm, votedFor := Follower, saved.currentTerm, saved.votedFor;
      log, lastIncludedIndex, lastIncludedTerm := saved.log, saved.lastIncludedIndex, saved.lastIncludedTerm;
      // Volatile state starts at zero and is bumped to the snapshot.
      commitIndex := if saved.lastIncludedIndex > 0 then saved.lastIncludedIndex else 0;
      lastApplied := if saved.lastIncludedIndex > 0 then saved.lastIncludedIndex else 0;
      nextIndex, matchIndex := map[], map[];
      discarded := prefix;
      disk := saved;
    }

    method Persist()
      requires Shape()
      modifies this`disk
      ensures Valid()
    {
      disk := Saved(currentTerm, votedFor, log, lastIncludedIndex, lastIncludedTerm);
    }

    /******* Reading the compacted log *******/

    method LastLogInfo() returns (index: nat, term: nat)
      requires Shape()
      ensures index == |Abs().log| && term == LastTerm(Abs().log)
    {
      if |log| == 0 {
        assert discarded + log == discarded;
        return lastIncludedIndex, lastIncludedTerm;
      }
      return lastIncludedIndex + |log|, log[|log| - 1].term;
    }

    method TermAtIndex(index: nat) returns (term: Option<nat>)
      requires Shape()
      ensures term == TermAt(Abs(), index)
    {
      if index == lastIncludedIndex {
        return Some(lastIncludedTerm);
      }
      if index < lastIncludedIndex {
        return None;
      }
      var position := index - lastIncludedIndex - 1;
      if position >= |log| {
        return None;
      }
      return Some(log[position].term);
    }

    method CandidateLogIsUpToDate(index: nat, term: nat) returns (ok: bool)
      requires Shape()
      ensures ok == UpToDate(index, term, Abs().log)
      ensures ok <==> NotBehind(index, term, Abs().log)
    {
      var myIndex, myTerm := LastLogInfo();
      if term != myTerm {
        return term > myTerm;
      }
      return index >= myIndex;
    }

    /******* Role changes *******/

    method StepDown(term: nat)
      requires Shape()
      modifies this`role, this`currentTerm, this`votedFor, this`disk
      ensures Valid() && Abs() == BecomeFollower(old(Abs()), term)
    {
      if term > currentTerm {
        currentTerm := term;
        votedFor := None;
      }
      role := Follower;
      Persist();
    }

    method StandForElection() returns (ok: bool)
      requires Valid()
      modifies this`role, this`currentTerm, this`votedFor, this`disk
      ensures Valid() && Abs() == BecomeCandidate(old(Abs()), id)
      ensures ok == (old(role) != Leader)
    {
      if role == Leader {
        return false;
      }
      role := Candidate;
      currentTerm := currentTerm + 1;
      votedFor := Some(id);
      Persist();
      return true;
    }

    method TakeOffice() returns (ok: bool)
      requires Valid()
      modifies this`role, this`nextIndex, this`matchIndex
      ensures Valid() && Abs() == BecomeLeader(old(Abs()), peers)
      ensures ok == (old(role) == Candidate)
    {
      if role != Candidate {
        return false;
      }
      role := Leader;
      var lastIndex, _ := LastLogInfo();
      var next: map<nat, nat> := map[];
      var matched: map<nat, nat> := map[];
      for i := 0 to |peers|
        invariant forall p :: p in next <==> p in peers[..i]
        invariant forall p :: p in matched <==> p in peers[..i]
        invariant forall p :: p in next ==> next[p] == lastIndex + 1
        invariant forall p :: p in matched ==> matched[p] == 0
      {
        next := next[peers[i] := lastIndex + 1];
        matched := matched[peers[i] := 0];
      }
      assert peers[..|peers|] == peers;
      nextIndex, matchIndex := next, matched;
      return true;
    }

    // One reply to an election this node started for `term`.
    method CountVote(term: nat, votes: nat, reply: VoteReply) returns (votes': nat)
      requires Valid()
      modifies this`role, this`currentTerm, this`votedFor, this`disk, this`nextIndex, this`matchIndex
      ensures Valid() && (Abs(), votes') == OnVoteReply(old(Abs()), peers, term, votes, reply)
    {
      if reply.term > currentTerm {
        StepDown(reply.term);
        return votes;
      }
      if role != Candidate || currentTerm != term || !reply.granted {
        return votes;
      }
      votes' := votes + 1;
      if votes' >= Majority(|peers| + 1) {
        var _ := TakeOffice();
      }
    }

    // What an election goroutine asks for, read when it starts.
    method BallotFor() returns (args: VoteArgs)
      requires Shape()
      ensures args == VoteArgs(currentTerm, id, |Abs().log|, LastTerm(Abs().log))
    {
      var index, term := LastLogInfo();
      return VoteArgs(currentTerm, id, index, term);
    }

    /******* RPC handlers *******/

    method RequestVote(args: VoteArgs) returns (reply: VoteReply)
      requires Valid()
      modifies this`role, this`currentTerm, this`votedFor, this`disk
      ensures Valid() && (Abs(), reply) == HandleVote(old(Abs()), args)
      ensures reply.granted <==> VoteFree(old(Abs()), args) && NotBehind(args.lastIndex, args.lastTerm, old(Abs()).log)
    {
      VoteGrantedIff(Abs(), args);
      if args.term > currentTerm {
        StepDown(args.term);
      }
      if args.term < currentTerm {
        return VoteReply(currentTerm, false);
      }
      var upToDate := CandidateLogIsUpToDate(args.lastIndex, args.lastTerm);
      if (votedFor.Some? && votedFor != Some(args.candidate)) || !upToDate {
        return VoteReply(currentTerm, false);
      }
      votedFor := Some(args.candidate);
      Persist();
      return VoteReply(currentTerm, true);
    }

    // None stands for the slice-bounds panic: prevIndex 0 with entries on a
    // compacted log.  The term is on disk by then, so the process that restarts
    // is in the state RaftCore gives.
    method AppendEntries(args: AppendArgs) returns (reply: Option<AppendReply>)
      requires Valid() && lastIncludedIndex <= commitIndex
      modifies this`role, this`currentTerm, this`votedFor, this`disk, this`log, this`commitIndex
      ensures Valid()
      ensures reply.Some? ==> HandleAppend(old(Abs()), args) == Answered(Abs(), reply.value)
      ensures reply.None? ==> HandleAppend(old(Abs()), args) == Panicked(Abs())
      ensures reply.None? <==>
                old(currentTerm) <= args.term && args.prevIndex == 0 && args.entries != [] && old(lastIncludedIndex) > 0
    {
      if args.term < currentTerm {
        return Some(AppendReply(currentTerm, false));
      }
      StepDown(args.term);
      if args.prevIndex > 0 {
        var lastIndex, _ := LastLogInfo();
        var prevTerm := TermAtIndex(args.prevIndex);
        if args.prevIndex > lastIndex || prevTerm.None? || prevTerm.value != args.prevTerm {
          return Some(AppendReply(currentTerm, false));
        }
      }
      if |args.entries| > 0 {
        if args.prevIndex < lastIncludedIndex {
          return None;
        }
        Splice(args.prevIndex, args.entries);
      }
      AdoptCommit(args.leaderCommit);
      return Some(AppendReply(currentTerm, true));
    }

    // Cut the log after prevIndex and append.
    method Splice(prevIndex: nat, entries: Log)
      requires Shape() && lastIncludedIndex <= prevIndex <= lastIncludedIndex + |log|
      modifies this`log, this`disk
      ensures Valid() && Abs() == old(Abs()).(log := old(Abs()).log[..prevIndex] + entries)
    {
      ghost var full := discarded + log;
      var keep := prevIndex - lastIncludedIndex;
      assert full[..prevIndex] == discarded + log[..keep];
      log := log[..keep] + entries;
      assert discarded + log == full[..prevIndex] + entries;
      Persist();
    }

    method AdoptCommit(leaderCommit: nat)
      requires Valid()
      modifies this`commitIndex
      ensures Valid() && Abs() == old(Abs()).(commitIndex :=
                if leaderCommit > old(commitIndex) then Min(leaderCommit, |Abs().log|) else old(commitIndex))
    {
      if leaderCommit > commitIndex {
        var lastNew, _ := LastLogInfo();
        commitIndex := if leaderCommit < lastNew then leaderCommit else lastNew;
      }
    }

    // `prefix` is the log prefix the sender's snapshot stands for.
    method InstallSnapshot(args: SnapshotArgs, ghost prefix: Log) returns (replyTerm: nat)
      requires Valid() && |prefix| == args.lastIndex && args.lastTerm == LastTerm(prefix)
      modifies this
      ensures Valid() && (Abs(), replyTerm) == HandleSnapshot(old(Abs()), args, prefix)
    {
      if args.term < currentTerm {
        return currentTerm;
      }
      StepDown(args.term);
      replyTerm := currentTerm;
      if args.lastIndex <= lastIncludedIndex {
        return;
      }
      var term := TermAtIndex(args.lastIndex);
      if term == Some(args.lastTerm) {
        DropThrough(args.lastIndex);
      } else {
        log, discarded := [], prefix;
        assert discarded + log == prefix;
        lastIncludedIndex, lastIncludedTerm := args.lastIndex, args.lastTerm;
      }
      if commitIndex < args.lastIndex {
        commitIndex := args.lastIndex;
      }
      if lastApplied < args.lastIndex {
        lastApplied := args.lastIndex;
      }
      Persist();
    }

    // Replace the log through `index` by its index and term.
    method DropThrough(index: nat)
      requires Shape() && lastIncludedIndex < index <= lastIncludedIndex + |log|
      modifies this`log, this`lastIncludedIndex, this`lastIncludedTerm, this`discarded
      ensures Shape() && Abs() == old(Abs()).(base := index)
    {
      ghost var full := discarded + log;
      var position := index - lastIncludedIndex;
      lastIncludedTerm := log[position - 1].term;
      log := log[position..];
      discarded := full[..index];
      assert discarded + log == full;
      lastIncludedIndex := index;
    }

    /******* Leader side *******/

    method AdvanceCommitIndex()
      requires Valid()
      modifies this`commitIndex
      ensures Valid() && Abs() == AdvanceCommit(old(Abs()), peers)
    {
      if role != Leader {
        return;
      }
      var lastIndex, _ := LastLogInfo();
      var matches := [lastIndex];
      for i := 0 to |peers|
        invariant |matches| == i + 1 && matches[0] == lastIndex
        invariant forall j :: 0 <= j < i ==> matches[j + 1] == Get(matchIndex, peers[j])
      {
        matches := matches + [Get(matchIndex, peers[i])];
      }
      assert matches == Matches(Abs(), peers);
      matches := SortDescending(matches);
      var majority := |matches| / 2 + 1;
      var candidate := matches[majority - 1];
      var term := TermAtIndex(candidate);
      if candidate > commitIndex && candidate >= 1 && candidate <= lastIndex && term == Some(currentTerm) {
        commitIndex := candidate;
      }
    }

    method ProposeCommand(command: Command) returns (index: nat, term: nat, isLeader: bool)
      requires Valid()
      modifies this`log, this`disk, this`commitIndex
      ensures Valid() && Abs() == Propose(old(Abs()), peers, command)
      ensures isLeader == (old(role) == Leader)
      ensures isLeader ==>
                term == currentTerm && index == |Abs().log| && Abs().log[index - 1] == LogEntry(term, command)
    {
      if role != Leader {
        return 0, 0, false;
      }
      ghost var full := discarded + log;
      log := log + [LogEntry(currentTerm, command)];
      assert discarded + log == full + [LogEntry(currentTerm, command)];
      Persist();
      AdvanceCommitIndex();
      return lastIncludedIndex + |log|, currentTerm, true;
    }

    // The sentinel before the first entry has term 0.
    method PrevTerm(prevIndex: nat) returns (term: nat)
      requires Shape() && lastIncludedIndex <= prevIndex <= lastIncludedIndex + |log|
      ensures term == TermOf(Abs().log, prevIndex)
    {
      if prevIndex < 1 {
        return 0;
      }
      var t := TermAtIndex(prevIndex);
      return t.value;
    }

    method SuffixFrom(next: nat) returns (entries: Log)
      requires Shape() && lastIncludedIndex < next <= lastIncludedIndex + |log| + 1
      ensures entries == Abs().log[next - 1..]
    {
      ghost var full := discarded + log;
      if next > lastIncludedIndex + |log| {
        assert full[next - 1..] == [];
        return [];
      }
      entries := log[next - lastIncludedIndex - 1..];
      assert full[next - 1..] == entries;
    }

    // The request replicateToPeer builds before it releases the lock.
    method NextFor(peer: nat) returns (out: Outgoing)
      requires Valid() && 1 <= Get(nextIndex, peer) <= lastIncludedIndex + |log| + 1
      ensures role == Leader && Get(nextIndex, peer) > lastIncludedIndex ==>
                out == SendEntries(AppendFor(Abs(), id, peer))
      ensures role == Leader && Get(nextIndex, peer) <= lastIncludedIndex ==>
                out == SendState(SnapshotFor(Abs(), id))
      ensures role != Leader ==> out == Nothing
    {
      if role != Leader {
        return Nothing;
      }
      var next := Get(nextIndex, peer);
      if next <= lastIncludedIndex {
        return SendState(SnapshotArgs(currentTerm, id, lastIncludedIndex, lastIncludedTerm));
      }
      var prevIndex := next - 1;
      var prevTerm := PrevTerm(prevIndex);
      var entries := SuffixFrom(next);
      return SendEntries(AppendArgs(currentTerm, id, prevIndex, prevTerm, entries, commitIndex));
    }

    method AppendAnswered(peer: nat, args: AppendArgs, reply: AppendReply)
      requires Valid()
      modifies this`role, this`currentTerm, this`votedFor, this`disk, this`nextIndex, this`matchIndex, this`commitIndex
      ensures Valid() && Abs() == OnAppendReply(old(Abs()), peers, peer, args, reply)
    {
      if reply.term > currentTerm {
        StepDown(reply.term);
        return;
      }
      if role != Leader || currentTerm != args.term {
        return;
      }
      if reply.success {
        var newMatch := args.prevIndex + |args.entries|;
        matchIndex := matchIndex[peer := Max(Get(matchIndex, peer), newMatch)];
        nextIndex := nextIndex[peer := newMatch + 1];
        AdvanceCommitIndex();
        return;
      }
      if Get(nextIndex, peer) > 1 {
        nextIndex := nextIndex[peer := Get(nextIndex, peer) - 1];
      }
    }

    method SnapshotAnswered(peer: nat, args: SnapshotArgs, replyTerm: nat)
      requires Valid()
      modifies this`role, this`currentTerm, this`votedFor, this`disk, this`nextIndex, this`matchIndex, this`commitIndex
      ensures Valid() && Abs() == OnSnapshotReply(old(Abs()), peers, peer, args, replyTerm)
    {
      if replyTerm > currentTerm {
        StepDown(replyTerm);
        return;
      }
      if role != Leader || currentTerm != args.term {
        return;
      }
      matchIndex := matchIndex[peer := Max(Get(matchIndex, peer), args.lastIndex)];
      nextIndex := nextIndex[peer := Max(Get(nextIndex, peer), args.lastIndex + 1)];
      AdvanceCommitIndex();
    }

    /******* Compaction and application *******/

    method Snapshot(index: nat) returns (ok: bool)
      requires Valid()
      modifies this`log, this`lastIncludedIndex, this`lastIncludedTerm, this`disk, this`discarded
      ensures Valid() && Abs() == Compact(old(Abs()), index)
      ensures ok == (index <= old(lastIncludedIndex) || (index <= |Abs().log| && index <= lastApplied))
      ensures Abs().log == old(Abs().log)
    {
      if index <= lastIncludedIndex {
        return true;
      }
      var lastIndex, _ := LastLogInfo();
      if index > lastIndex || index > lastApplied {
        return false;
      }
      DropThrough(index);
      Persist();
      return true;
    }

    // One round of applyPending: the next committed entry, if there is one.
    method ApplyNext() returns (entry: Option<LogEntry>)
      requires Valid() && lastIncludedIndex <= lastApplied
      modifies this`lastApplied
      ensures Valid() && Abs() == ApplyOne(old(Abs()))
      ensures entry.Some? <==> old(Abs()) != Abs()
      ensures entry.Some? ==> entry.value == Abs().log[lastApplied - 1]
    {
      if commitIndex <= lastApplied {
        return None;
      }
      var next := lastApplied + 1;
      if next > lastIncludedIndex + |log| {
        return None;
      }
      lastApplied := next;
      return Some(log[next - lastIncludedIndex - 1]);
    }
  }
}
