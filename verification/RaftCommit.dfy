// The leader's commit rule: sorting the match points and testing only the
// majority-th one is the rule of Figure 2 of the Raft paper.
module RaftCommit {
  import opened RaftCore

  function CountAtLeast(ms: seq<nat>, x: nat): (c: nat)
    ensures c <= |ms|
  {
    if ms == [] then 0 else (if ms[0] >= x then 1 else 0) + CountAtLeast(ms[1..], x)
  }

  ghost predicate Descending(s: seq<nat>) {
    forall i, j :: 0 <= i <= j < |s| ==> s[i] >= s[j]
  }

  lemma {:induction false} InsertSorted(x: nat, s: seq<nat>)
    requires Descending(s)
    ensures Descending(InsertDescending(x, s))
    ensures multiset(InsertDescending(x, s)) == multiset(s) + multiset{x}
  {
    if s != [] && x < s[0] {
      InsertSorted(x, s[1..]);
      InsertBounded(x, s[1..], s[0]);
      assert s == [s[0]] + s[1..];
    }
  }

  lemma {:induction false} InsertBounded(x: nat, s: seq<nat>, b: nat)
    requires x <= b && forall i :: 0 <= i < |s| ==> s[i] <= b
    ensures forall i :: 0 <= i < |InsertDescending(x, s)| ==> InsertDescending(x, s)[i] <= b
  {
    if s != [] && x < s[0] {
      InsertBounded(x, s[1..], b);
    }
  }

  lemma {:induction false} InsertCount(x: nat, s: seq<nat>, y: nat)
    ensures CountAtLeast(InsertDescending(x, s), y) == (if x >= y then 1 else 0) + CountAtLeast(s, y)
  {
    if s == [] || x >= s[0] {
      assert ([x] + s)[1..] == s;
    } else {
      InsertCount(x, s[1..], y);
      var r := InsertDescending(x, s[1..]);
      assert ([s[0]] + r)[1..] == r;
    }
  }

  lemma {:induction false} SortDescendingOK(s: seq<nat>, y: nat)
    ensures Descending(SortDescending(s))
    ensures multiset(SortDescending(s)) == multiset(s)
    ensures CountAtLeast(SortDescending(s), y) == CountAtLeast(s, y)
  {
    if s != [] {
      SortDescendingOK(s[1..], y);
      InsertSorted(s[0], SortDescending(s[1..]));
      InsertCount(s[0], SortDescending(s[1..]), y);
      assert s == [s[0]] + s[1..];
    }
  }

  lemma {:induction false} DescendingCount(s: seq<nat>, k: nat, x: nat)
    requires Descending(s) && k < |s|
    ensures CountAtLeast(s, x) >= k + 1 <==> s[k] >= x
  {
    if k == 0 {
      if s[0] < x {
        NoneAtLeast(s, x);
      }
    } else {
      DescendingCount(s[1..], k - 1, x);
      assert s[1..][k - 1] == s[k];
      if s[0] < x {
        NoneAtLeast(s, x);
      }
    }
  }

  lemma {:induction false} NoneAtLeast(s: seq<nat>, x: nat)
    requires forall i :: 0 <= i < |s| ==> s[i] < x
    ensures CountAtLeast(s, x) == 0
  {
    if s != [] {
      NoneAtLeast(s[1..], x);
    }
  }

  // A majority of match points reach x exactly when x is at most MajorityMatch.
  lemma MajorityMatchIs(ms: seq<nat>, x: nat)
    requires ms != []
    ensures CountAtLeast(ms, x) >= Majority(|ms|) <==> x <= MajorityMatch(ms)
  {
    SortDescendingOK(ms, x);
    DescendingCount(SortDescending(ms), |ms| / 2, x);
  }

  // The paper's condition on N (sections 5.3 and 5.4.2).
  ghost predicate Eligible(nd: Node, peers: seq<nat>, n: nat) {
    && nd.commitIndex < n <= |nd.log|
    && CountAtLeast(Matches(nd, peers), n) >= Majority(|peers| + 1)
    && TermOf(nd.log, n) == nd.currentTerm
  }

  // AdvanceCommit sets commitIndex to the largest eligible N, and leaves it
  // alone exactly when there is none.
  lemma CommitRule(nd: Node, peers: seq<nat>)
    requires nd.role == Leader && nd.base <= nd.commitIndex
    requires forall i, j :: 0 <= i <= j < |nd.log| ==> nd.log[i].term <= nd.log[j].term
    requires forall i :: 0 <= i < |nd.log| ==> nd.log[i].term <= nd.currentTerm
    requires forall i :: 0 <= i < |peers| ==> Get(nd.matchIndex, peers[i]) <= |nd.log|
    ensures
      var c := AdvanceCommit(nd, peers).commitIndex;
      && AdvanceCommit(nd, peers) == nd.(commitIndex := c)
      && (c == nd.commitIndex <==> !exists n: nat :: Eligible(nd, peers, n))
      && (c != nd.commitIndex ==> Eligible(nd, peers, c))
      && (forall n: nat :: Eligible(nd, peers, n) ==> n <= c)
  {
    var ms := Matches(nd, peers);
    var m := MajorityMatch(ms);
    MajorityMatchIs(ms, m);
    if m > |nd.log| {
      NoneAtLeast(ms, m);
    }
    forall n: nat | Eligible(nd, peers, n)
      ensures n <= m && AdvanceCommit(nd, peers).commitIndex == m
    {
      MajorityMatchIs(ms, n);
      assert nd.log[n - 1].term <= nd.log[m - 1].term;
    }
    if AdvanceCommit(nd, peers).commitIndex != nd.commitIndex {
      assert Eligible(nd, peers, m);
    }
  }
}
