// The memoised Wing & Gong search over one key, its bit mask of placed entries,
// and the driver that splits a history by key.
module Checker {
  import opened History

  /******* Bit masks *******/

  function Pow2(n: nat): nat {
    if n == 0 then 1 else 2 * Pow2(n - 1)
  }

  // mask & (1 << i) != 0
  predicate Has(mask: nat, i: nat) {
    if i == 0 then mask % 2 == 1 else Has(mask / 2, i - 1)
  }

  // mask | (1 << i)
  function With(mask: nat, i: nat): nat {
    if i == 0 then (if mask % 2 == 1 then mask else mask + 1)
    else 2 * With(mask / 2, i - 1) + mask % 2
  }

  // math/bits.OnesCount64
  function OnesCount(mask: nat): nat {
    if mask == 0 then 0 else mask % 2 + OnesCount(mask / 2)
  }

  lemma {:induction false} WithHas(mask: nat, i: nat, j: nat)
    ensures Has(With(mask, i), j) <==> j == i || Has(mask, j)
  {
    WithHalves(mask, i);
    if i > 0 && j > 0 {
      WithHas(mask / 2, i - 1, j - 1);
    }
  }

  lemma WithHalves(mask: nat, i: nat)
    ensures i == 0 ==> With(mask, i) / 2 == mask / 2 && With(mask, i) % 2 == 1
    ensures i > 0 ==> With(mask, i) / 2 == With(mask / 2, i - 1) && With(mask, i) % 2 == mask % 2
  {}

  lemma {:induction false} WithCounts(mask: nat, i: nat, n: nat)
    requires !Has(mask, i) && i < n && mask < Pow2(n)
    ensures OnesCount(With(mask, i)) == OnesCount(mask) + 1
    ensures With(mask, i) < Pow2(n)
  {
    WithHalves(mask, i);
    CountHalves(mask);
    CountHalves(With(mask, i));
    if i > 0 {
      WithCounts(mask / 2, i - 1, n - 1);
    }
  }

  lemma CountHalves(mask: nat)
    ensures OnesCount(mask) == mask % 2 + OnesCount(mask / 2)
  {}

  ghost predicate Full(mask: nat, n: nat) {
    forall i :: 0 <= i < n ==> Has(mask, i)
  }

  lemma FullHalves(mask: nat, n: nat)
    requires n > 0
    ensures Full(mask, n) <==> mask % 2 == 1 && Full(mask / 2, n - 1)
  {
    if Full(mask, n) {
      assert Has(mask, 0);
      forall i | 0 <= i < n - 1 ensures Has(mask / 2, i) {
        assert Has(mask, i + 1);
      }
    }
    if mask % 2 == 1 && Full(mask / 2, n - 1) {
      forall i | 0 <= i < n ensures Has(mask, i) {
        if i > 0 {
          var half := i - 1;
          assert Has(mask / 2, half);
        }
      }
    }
  }

  // A mask of n bits is full exactly when it has n ones.
  lemma {:induction false} FullMask(mask: nat, n: nat)
    requires mask < Pow2(n)
    ensures OnesCount(mask) <= n
    ensures OnesCount(mask) == n <==> Full(mask, n)
  {
    if n > 0 {
      CountHalves(mask);
      FullHalves(mask, n);
      FullMask(mask / 2, n - 1);
    }
  }

  /******* What is left to place *******/

  // The entries whose bit is clear.
  function Remaining(entries: seq<Entry>, used: nat): multiset<Entry> {
    if entries == [] then multiset{}
    else
      var n := |entries| - 1;
      Remaining(entries[..n], used) + if Has(used, n) then multiset{} else multiset{entries[n]}
  }

  lemma RemainingHas(entries: seq<Entry>, used: nat, e: Entry)
    ensures e in Remaining(entries, used) <==> exists j :: 0 <= j < |entries| && !Has(used, j) && entries[j] == e
  {
    if entries != [] {
      var n := |entries| - 1;
      RemainingHas(entries[..n], used, e);
      if j :| 0 <= j < |entries| && !Has(used, j) && entries[j] == e {
        assert j < n ==> entries[..n][j] == e;
      }
    }
  }

  lemma {:induction false} RemainingWith(entries: seq<Entry>, used: nat, i: nat)
    ensures i < |entries| && !Has(used, i) ==>
              Remaining(entries, used) == Remaining(entries, With(used, i)) + multiset{entries[i]}
    ensures i >= |entries| ==> Remaining(entries, used) == Remaining(entries, With(used, i))
  {
    if entries != [] {
      var n := |entries| - 1;
      RemainingWith(entries[..n], used, i);
      WithHas(used, i, n);
      if i < n && !Has(used, i) {
        assert entries[..n][i] == entries[i];
      }
    }
  }

  lemma RemainingAll(entries: seq<Entry>)
    ensures Remaining(entries, 0) == multiset(entries)
  {
    if entries != [] {
      var n := |entries| - 1;
      RemainingAll(entries[..n]);
      ZeroHas(n);
      assert entries == entries[..n] + [entries[n]];
    }
  }

  lemma ZeroHas(i: nat)
    ensures !Has(0, i)
  {}

  /******* The state of the search *******/

  datatype State = State(used: nat, value: string)

  // rest is a way to finish from here: it places exactly the remaining entries.
  ghost predicate Completes(entries: seq<Entry>, st: State, rest: seq<Entry>) {
    multiset(rest) == Remaining(entries, st.used) && RealTime(rest) && Explained(st.value, rest)
  }

  ghost predicate Dead(entries: seq<Entry>, st: State) {
    forall rest :: !Completes(entries, st, rest)
  }

  // No unplaced entry other than entries[i] is forced ahead of it.
  ghost predicate Ready(entries: seq<Entry>, used: nat, i: nat)
    requires i < |entries|
  {
    forall j :: 0 <= j < |entries| && j != i && !Has(used, j) ==> !HappensBefore(entries[j], entries[i])
  }

  function Placed(st: State, i: nat, e: Entry): State {
    State(With(st.used, i), NextValue(st.value, e))
  }

  // Ready says the same of the indices that real time says of any completion.
  lemma ReadyIsRealTime(entries: seq<Entry>, used: nat, i: nat, tail: seq<Entry>)
    requires i < |entries| && !Has(used, i)
    requires multiset(tail) == Remaining(entries, With(used, i))
    ensures Ready(entries, used, i) <==> forall e :: e in tail ==> !HappensBefore(e, entries[i])
  {
    forall e ensures e in tail <==>
                       exists j :: 0 <= j < |entries| && j != i && !Has(used, j) && entries[j] == e {
      RemainingHas(entries, With(used, i), e);
      assert e in tail <==> e in multiset(tail);
      forall j: nat ensures Has(With(used, i), j) <==> j == i || Has(used, j) { WithHas(used, i, j); }
    }
    if forall e :: e in tail ==> !HappensBefore(e, entries[i]) {
      forall j | 0 <= j < |entries| && j != i && !Has(used, j)
        ensures !HappensBefore(entries[j], entries[i])
      {
        assert entries[j] in tail;
      }
    }
  }

  // One step of the search: entries[i] starts a completion exactly when it may
  // go next and the tail completes the state after it.
  lemma CompletesStep(entries: seq<Entry>, st: State, i: nat, tail: seq<Entry>)
    requires i < |entries| && !Has(st.used, i)
    ensures Completes(entries, st, [entries[i]] + tail) <==>
              && Ready(entries, st.used, i) && ResultOk(st.value, entries[i])
              && Completes(entries, Placed(st, i, entries[i]), tail)
  {
    var e := entries[i];
    var rest := [e] + tail;
    assert rest[1..] == tail;
    RemainingWith(entries, st.used, i);
    assert multiset(rest) == multiset{e} + multiset(tail);
    assert multiset(tail) == multiset(rest) - multiset{e};
    assert Remaining(entries, With(st.used, i)) == Remaining(entries, st.used) - multiset{e};
    RealTimeHead(rest);
    ExplainedHead(st.value, rest);
    if multiset(tail) == Remaining(entries, With(st.used, i)) {
      ReadyIsRealTime(entries, st.used, i, tail);
    }
  }

  // entries[i] starts no completion.
  ghost predicate DeadEnd(entries: seq<Entry>, st: State, i: nat)
    requires i < |entries|
  {
    forall tail :: !Completes(entries, st, [entries[i]] + tail)
  }

  lemma BlockedIsDeadEnd(entries: seq<Entry>, st: State, i: nat)
    requires i < |entries| && !Has(st.used, i)
    requires !Ready(entries, st.used, i) || !ResultOk(st.value, entries[i])
             || Dead(entries, Placed(st, i, entries[i]))
    ensures DeadEnd(entries, st, i)
  {
    forall tail ensures !Completes(entries, st, [entries[i]] + tail) {
      CompletesStep(entries, st, i, tail);
    }
  }

  // A completion starts with some unplaced entry.
  lemma CompletionStarts(entries: seq<Entry>, st: State, rest: seq<Entry>) returns (i: nat)
    requires Remaining(entries, st.used) != multiset{} && Completes(entries, st, rest)
    ensures i < |entries| && !Has(st.used, i) && !DeadEnd(entries, st, i)
  {
    assert |multiset(rest)| == |rest|;
    assert rest[0] in multiset(rest);
    RemainingHas(entries, st.used, rest[0]);
    i :| 0 <= i < |entries| && !Has(st.used, i) && entries[i] == rest[0];
    assert rest == [entries[i]] + rest[1..];
  }

  lemma AllDeadEnds(entries: seq<Entry>, st: State)
    requires st.used < Pow2(|entries|) && OnesCount(st.used) < |entries|
    requires forall i :: 0 <= i < |entries| ==> Has(st.used, i) || DeadEnd(entries, st, i)
    ensures Dead(entries, st)
  {
    FullMask(st.used, |entries|);
    var free :| 0 <= free < |entries| && !Has(st.used, free);
    RemainingHas(entries, st.used, entries[free]);
    forall rest ensures !Completes(entries, st, rest) {
      if Completes(entries, st, rest) {
        var i := CompletionStarts(entries, st, rest);
        assert false;
      }
    }
  }

  lemma FullIsComplete(entries: seq<Entry>, st: State)
    requires st.used < Pow2(|entries|) && OnesCount(st.used) == |entries|
    ensures Completes(entries, st, [])
  {
    FullMask(st.used, |entries|);
    forall e: Entry ensures e !in Remaining(entries, st.used) {
      RemainingHas(entries, st.used, e);
    }
    assert Remaining(entries, st.used) == multiset{};
  }

  /******* The search *******/

  method ReadyNext(entries: seq<Entry>, used: nat, i: nat) returns (ready: bool)
    requires i < |entries|
    ensures ready <==> Ready(entries, used, i)
  {
    for j := 0 to |entries|
      invariant forall k :: 0 <= k < j && k != i && !Has(used, k) ==> !HappensBefore(entries[k], entries[i])
    {
      if j == i || Has(used, j) {
        continue;
      }
      if HappensBefore(entries[j], entries[i]) {
        return false;
      }
    }
    return true;
  }

  // memo is the shared map: the states in it, before and after, are all dead.
  method Search(entries: seq<Entry>, used: nat, value: string, memo: set<State>)
    returns (ok: bool, memo': set<State>)
    requires used < Pow2(|entries|)
    requires forall st :: st in memo ==> Dead(entries, st)
    ensures ok <==> exists rest :: Completes(entries, State(used, value), rest)
    ensures memo <= memo' && forall st :: st in memo' ==> Dead(entries, st)
    decreases |entries| - OnesCount(used)
  {
    var state := State(used, value);
    memo' := memo;
    FullMask(used, |entries|);
    if OnesCount(used) == |entries| {
      FullIsComplete(entries, state);
      return true, memo;
    }
    if state in memo {
      return false, memo;
    }
    for i := 0 to |entries|
      invariant memo <= memo' && forall st :: st in memo' ==> Dead(entries, st)
      invariant forall k :: 0 <= k < i ==> Has(used, k) || DeadEnd(entries, state, k)
    {
      if Has(used, i) {
        continue;
      }
      var e := entries[i];
      var ready := ReadyNext(entries, used, i);
      if !ready {
        BlockedIsDeadEnd(entries, state, i);
        continue;
      }
      var nextValue, resultOk := value, true;
      match e.kind {
        case Get => resultOk := e.result == value;
        case Put => nextValue := e.arg;
        case Append => nextValue := value + e.arg;
      }
      if resultOk {
        WithCounts(used, i, |entries|);
        var found;
        found, memo' := Search(entries, With(used, i), nextValue, memo');
        if found {
          ghost var tail :| Completes(entries, Placed(state, i, e), tail);
          CompletesStep(entries, state, i, tail);
          return true, memo';
        }
      }
      BlockedIsDeadEnd(entries, state, i);
    }
    AllDeadEnds(entries, state);
    memo' := memo' + {state};
    return false, memo';
  }

  datatype Verdict = Decided(linearizable: bool) | TooLong

  // Panics (TooLong) past 63 entries; otherwise decides exactly.
  method LinearizableForKey(entries: seq<Entry>) returns (r: Verdict)
    ensures r.TooLong? <==> |entries| > 63
    ensures r.Decided? ==> (r.linearizable <==> KeyLinearizable(entries))
    ensures r.Decided? ==> (r.linearizable <==> exists order :: LegalOrder(entries, order))
  {
    KeyLinearizableMeans(entries);
    if |entries| > 63 {
      return TooLong;
    }
    Positive(|entries|);
    var ok, _ := Search(entries, 0, "", {});
    RemainingAll(entries);
    forall order ensures IsKeyOrder(entries, order) <==> Completes(entries, State(0, ""), order) {}
    return Decided(ok);
  }

  lemma Positive(n: nat)
    ensures Pow2(n) > 0
  {}

  /******* The driver *******/

  ghost predicate Grouped(entries: seq<Entry>, byKey: map<string, seq<Entry>>) {
    && (forall key :: key in byKey ==> byKey[key] == Sub(entries, key))
    && (forall key :: key !in byKey ==> Sub(entries, key) == [])
  }

  method GroupByKey(entries: seq<Entry>) returns (byKey: map<string, seq<Entry>>)
    ensures Grouped(entries, byKey)
  {
    byKey := map[];
    for i := 0 to |entries|
      invariant Grouped(entries[..i], byKey)
    {
      var e := entries[i];
      assert entries[..i + 1][..i] == entries[..i];
      byKey := byKey[e.key := (if e.key in byKey then byKey[e.key] else []) + [e]];
    }
    assert entries[..|entries|] == entries;
  }

  lemma EmptyLinearizable()
    ensures KeyLinearizable([])
  {
    assert IsKeyOrder([], []);
  }

  // Keys come in no particular order, so with an over-long key the loop may
  // either refuse it or reject on another key first.  On intervals of positive
  // length a decision is exactly whether one legal order of the whole exists.
  method IsLinearizable(entries: seq<Entry>) returns (r: Verdict)
    ensures r.Decided? ==> (r.linearizable <==> EveryKeyLinearizable(entries))
    ensures r.Decided? && (forall e :: e in entries ==> e.inv < e.ret) ==>
              && (r.linearizable <==> Linearizable(entries))
              && (r.linearizable <==> exists order :: LegalHistoryOrder(entries, order))
    ensures r == TooLong ==> exists key :: |Sub(entries, key)| > 63
    ensures r == Decided(true) ==> forall key :: |Sub(entries, key)| <= 63
  {
    if forall e :: e in entries ==> e.inv < e.ret {
      LocalityOfProperIntervals(entries);
      LinearizableMeans(entries);
    }
    var byKey := GroupByKey(entries);
    var todo := byKey.Keys;
    while todo != {}
      invariant todo <= byKey.Keys
      invariant forall key :: key in byKey && key !in todo ==> |byKey[key]| <= 63 && KeyLinearizable(byKey[key])
      decreases |todo|
    {
      var key :| key in todo;
      var verdict := LinearizableForKey(byKey[key]);
      if verdict != Decided(true) {
        assert byKey[key] == Sub(entries, key);
        return verdict;
      }
      todo := todo - {key};
    }
    EmptyLinearizable();
    return Decided(true);
  }
}
