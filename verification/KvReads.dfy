// The own-term read gate on top of Raft: which writes a leader's Get can see.
module KvReads {
  import Raft = RaftCore
  import opened RaftProtocol
  import RaftSafety
  import opened KvStore

  // The operations carried by a log; `decode` stands for the type assertion that
  // turns a command back into an Op.
  function Ops(log: Raft.Log, decode: Raft.Command -> Op): seq<Op> {
    seq(|log|, i requires 0 <= i < |log| => decode(log[i].command))
  }

  function Terms(log: Raft.Log): seq<nat> {
    seq(|log|, i requires 0 <= i < |log| => log[i].term)
  }

  // The store a server holds once the first `applied` entries of its log are in;
  // it may trail what its Raft node has handed out.
  function ServedState(nd: Raft.Node, applied: nat, decode: Raft.Command -> Op): Kv
    requires applied <= |nd.log|
  {
    ApplyAll(Empty, Ops(nd.log[..applied], decode))
  }

  // noopAppliedTerm of a server that started from a snapshot of `from`, or from
  // nothing, and has applied the log up to `applied`.
  function NoopTerm(nd: Raft.Node, from: nat, applied: nat, decode: Raft.Command -> Op): nat
    requires from <= applied <= |nd.log|
  {
    LastNoop(0, Ops(nd.log[from..applied], decode), Terms(nd.log[from..applied]))
  }

  // The gate passed, so a no-op of the leader's term is among the applied entries.
  lemma GateFindsNoop(nd: Raft.Node, from: nat, applied: nat, decode: Raft.Command -> Op) returns (noop: nat)
    requires from <= applied <= |nd.log| && NoopTerm(nd, from, applied, decode) == nd.currentTerm > 0
    ensures noop < applied && nd.log[noop].term == nd.currentTerm && decode(nd.log[noop].command).kind == Noop
  {
    var part := nd.log[from..applied];
    NoopOf(0, Ops(part, decode), Terms(part));
    var i :| 0 <= i < |part| && Ops(part, decode)[i].kind == Noop && Terms(part)[i] == nd.currentTerm;
    assert part[i] == nd.log[from + i];
    noop := from + i;
  }

  // A leader whose noopAppliedTerm is its own term answers from a store that
  // extends, operation by operation, everything any node held as committed in an
  // earlier term; so each of those writes is already in its dedup table.
  lemma ReadGateMissesNothing(
    run: seq<Cluster>, i: nat, j: nat, a: nat, b: nat, from: nat, applied: nat, decode: Raft.Command -> Op)
    requires IsRun(run) && i < |run| && j < |run| && a < |run[i].nodes| && b < |run[j].nodes|
    requires run[j].nodes[b].role == Raft.Leader
    requires run[i].nodes[a].currentTerm < run[j].nodes[b].currentTerm
    requires from <= applied <= run[j].nodes[b].lastApplied && applied <= |run[j].nodes[b].log|
    requires NoopTerm(run[j].nodes[b], from, applied, decode) == run[j].nodes[b].currentTerm
    ensures run[i].nodes[a].commitIndex <= |run[i].nodes[a].log|
    ensures
      var committed := Ops(run[i].nodes[a].log[..run[i].nodes[a].commitIndex], decode);
      var served := ServedState(run[j].nodes[b], applied, decode);
      && Seen(served, committed)
      && exists later :: served == ApplyAll(ApplyAll(Empty, committed), later)
  {
    var nd, from' := run[j].nodes[b], run[i].nodes[a];
    var noop := GateFindsNoop(nd, from, applied, decode);
    RaftSafety.OwnTermRead(run, i, j, a, b, noop, applied);
    var ops := Ops(nd.log[..applied], decode);
    var committed := Ops(from'.log[..from'.commitIndex], decode);
    assert |committed| <= |ops|;
    forall x | 0 <= x < |committed|
      ensures committed[x] == ops[x]
    {
      assert from'.log[..from'.commitIndex][x] == nd.log[..applied][x];
    }
    ExtendedState(committed, ops);
  }

  lemma ExtendedState(committed: seq<Op>, applied: seq<Op>)
    requires |committed| <= |applied| && (forall x :: 0 <= x < |committed| ==> committed[x] == applied[x])
    ensures Seen(ApplyAll(Empty, applied), committed)
    ensures exists later :: ApplyAll(Empty, applied) == ApplyAll(ApplyAll(Empty, committed), later)
  {
    var later := applied[|committed|..];
    assert applied == committed + later;
    ApplyConcat(Empty, committed, later);
    AppliedIsSeen(Empty, applied);
  }
}
