// What a string register holds after a sequence of changes, said without replaying
// them: the text of the last Set, then the texts of the Adds after it, in order.
module Register {

  datatype Change = Set(text: string) | Add(text: string)

  // Where the last Set is; -1 without one.
  function LastSet(cs: seq<Change>): (i: int)
    ensures -1 <= i < |cs|
    ensures i >= 0 ==> cs[i].Set?
    ensures forall j :: i < j < |cs| ==> cs[j].Add?
  {
    if cs == [] then -1
    else if cs[|cs| - 1].Set? then |cs| - 1
    else LastSet(cs[..|cs| - 1])
  }

  function Joined(cs: seq<Change>): string {
    if cs == [] then "" else cs[0].text + Joined(cs[1..])
  }

  function Content(cs: seq<Change>): string {
    Joined(cs[if LastSet(cs) < 0 then 0 else LastSet(cs)..])
  }

  lemma {:induction false} JoinedAppend(cs: seq<Change>, c: Change)
    ensures Joined(cs + [c]) == Joined(cs) + c.text
  {
    if cs == [] {
      assert cs + [c] == [c] && [c][1..] == [];
      assert Joined([c]) == c.text + "";
    } else {
      JoinedAppend(cs[1..], c);
      assert (cs + [c])[1..] == cs[1..] + [c];
    }
  }

  // One more change.
  lemma ContentAppend(cs: seq<Change>, c: Change)
    ensures Content(cs + [c]) == match c case Set(t) => t case Add(t) => Content(cs) + t
  {
    var more := cs + [c];
    assert more[..|cs|] == cs;
    match c
    case Set(t) =>
      assert more[|cs|..] == [c] && [c][1..] == [];
      assert Joined([c]) == t + "";
    case Add(t) =>
      var from := if LastSet(cs) < 0 then 0 else LastSet(cs);
      assert more[from..] == cs[from..] + [c];
      JoinedAppend(cs[from..], c);
  }
}
