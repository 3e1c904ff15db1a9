/** A sequence of on and off changes that strictly alternate. */
module Alternation {

  ghost predicate Flips(changes: seq<bool>, start: bool, k: int)
    requires 0 <= k < |changes|
  {
    changes[k] != if k == 0 then start else changes[k - 1]
  }

  ghost predicate Alternates(changes: seq<bool>, start: bool) {
    forall k :: 0 <= k < |changes| ==> Flips(changes, start, k)
  }

  ghost function FinalState(changes: seq<bool>, start: bool): bool {
    if changes == [] then start else changes[|changes| - 1]
  }

  lemma OneMore(changes: seq<bool>, start: bool, next: bool)
    requires Alternates(changes, start) && next == !FinalState(changes, start)
    ensures Alternates(changes + [next], start) && FinalState(changes + [next], start) == next
  {
    var longer := changes + [next];
    forall k | 0 <= k < |longer|
      ensures Flips(longer, start, k)
    {
      assert k < |changes| ==> Flips(changes, start, k);
    }
  }
}
