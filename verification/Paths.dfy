// Paths of a step relation: how a state is shown to be reachable.
module Paths {

  ghost predicate IsPath<T(!new)>(next: (T, T) -> bool, path: seq<T>) {
    path != [] && forall i {:trigger StepOf(next, path, i)} :: 0 < i < |path| ==> StepOf(next, path, i)
  }

  ghost predicate StepOf<T(!new)>(next: (T, T) -> bool, path: seq<T>, i: nat)
    requires 0 < i < |path|
  {
    next(path[i - 1], path[i])
  }

  ghost predicate Reaches<T(!new)>(next: (T, T) -> bool, a: T, b: T) {
    exists path: seq<T> :: IsPath(next, path) && path[0] == a && path[|path| - 1] == b
  }

  lemma Here<T(!new)>(next: (T, T) -> bool, a: T)
    ensures Reaches(next, a, a)
  {
    assert IsPath(next, [a]);
  }

  // One step further.
  lemma Then<T(!new)>(next: (T, T) -> bool, a: T, b: T, c: T)
    requires Reaches(next, a, b) && next(b, c)
    ensures Reaches(next, a, c)
  {
    var p :| IsPath(next, p) && p[0] == a && p[|p| - 1] == b;
    var path := p + [c];
    forall i | 0 < i < |path| ensures StepOf(next, path, i) {
      assert i < |p| ==> StepOf(next, p, i);
    }
    assert IsPath(next, path);
  }
}
