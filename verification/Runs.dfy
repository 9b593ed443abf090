/** Runs of a state machine given by its partial next-state function. */
module Runs {

  datatype Option<+T> = None | Some(value: T)

  /** The actions lead from `s` to `t`. */
  ghost predicate IsRun<S, A>(next: (S, A) -> Option<S>, s: S, actions: seq<A>, t: S)
    decreases |actions|
  {
    if actions == [] then s == t
    else var u := next(s, actions[0]); u.Some? && IsRun(next, u.value, actions[1..], t)
  }

  /** One more step at the end of a run. */
  lemma {:induction false} Extend<S, A>(next: (S, A) -> Option<S>, s: S, actions: seq<A>, t: S, a: A, u: S)
    requires IsRun(next, s, actions, t) && next(t, a) == Some(u)
    ensures IsRun(next, s, actions + [a], u)
    decreases |actions|
  {
    if actions == [] {
      assert IsRun(next, u, [a][1..], u);
    } else {
      Extend(next, next(s, actions[0]).value, actions[1..], t, a, u);
      assert (actions + [a])[1..] == actions[1..] + [a];
    }
  }

  lemma Then<S, A>(next: (S, A) -> Option<S>, s: S, actions: seq<A>, t: S, a: A) returns (longer: seq<A>, u: S)
    requires IsRun(next, s, actions, t) && next(t, a).Some?
    ensures IsRun(next, s, longer, u) && next(t, a) == Some(u)
  {
    longer, u := actions + [a], next(t, a).value;
    Extend(next, s, actions, t, a, u);
  }
}
