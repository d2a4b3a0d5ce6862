// AppendEntries from the very start of the log on a follower that has compacted.
module RaftPanic {
  import opened RaftCore

  // The handler hits a negative slice bound exactly on new entries with
  // PrevLogIndex 0 once anything has been compacted away.
  lemma PanicsIff(nd: Node, a: AppendArgs)
    ensures HandleAppend(nd, a).Panicked? <==>
              a.term >= nd.currentTerm && a.prevIndex == 0 && a.entries != [] && nd.base > 0
  {
    assert 0 < a.prevIndex < nd.base ==> TermAt(BecomeFollower(nd, a.term), a.prevIndex) == None;
  }

  // Anything else that starts inside the compacted part is refused unread.
  lemma CompactedPrevRefused(nd: Node, a: AppendArgs)
    requires a.term >= nd.currentTerm && 0 < a.prevIndex < nd.base
    ensures HandleAppend(nd, a) == Answered(BecomeFollower(nd, a.term), AppendReply(a.term, false))
  {
    assert TermAt(BecomeFollower(nd, a.term), a.prevIndex) == None;
  }

  // It takes no more than one lost reply: a follower accepts a first entry that
  // the leader has already committed, applies it and compacts; the leader, never
  // having heard back, sends the same request again.
  lemma ResentFirstEntryPanics(nd: Node, leader: Node, self: nat, peer: nat)
    requires nd.log == [] && nd.base == nd.commitIndex == nd.lastApplied == 0
    requires nd.currentTerm <= leader.currentTerm
    requires leader.log != [] && leader.commitIndex >= 1 && Get(leader.nextIndex, peer) == 1
    ensures
      var a := AppendFor(leader, self, peer);
      && HandleAppend(nd, a).Answered? && HandleAppend(nd, a).reply.success
      && HandleAppend(Compact(ApplyOne(HandleAppend(nd, a).node), 1), a).Panicked?
  {
    var a := AppendFor(leader, self, peer);
    assert a.entries == leader.log;
    var n1 := HandleAppend(nd, a).node;
    assert n1.log == leader.log && n1.commitIndex >= 1;
    var n2 := Compact(ApplyOne(n1), 1);
    assert n2.base == 1 && n2.currentTerm == a.term;
    PanicsIff(n2, a);
  }
}
