/** Runs of a transition system whose steps may or may not be possible. */
module Runs {
  import opened Wrappers

  function Run<S, X>(next: (S, X) -> Option<S>, s: S, steps: seq<X>): Option<S>
    decreases |steps|
  {
    if steps == [] then Some(s)
    else
      var after := next(s, steps[0]);
      if after.None? then None else Run(next, after.value, steps[1..])
  }

  ghost predicate Leads<S, X>(next: (S, X) -> Option<S>, s: S, steps: seq<X>, t: S) {
    Run(next, s, steps) == Some(t)
  }

  lemma NoStep<S, X>(next: (S, X) -> Option<S>, s: S)
    ensures Leads(next, s, [], s)
  {
  }

  lemma OneStep<S, X>(next: (S, X) -> Option<S>, s: S, step: X, t: S)
    requires next(s, step) == Some(t)
    ensures Leads(next, s, [step], t)
  {
    assert [step][1..] == [];
  }

  lemma {:induction false} Chain<S, X>(next: (S, X) -> Option<S>, s: S, a: seq<X>, t: S, b: seq<X>, u: S)
    requires Leads(next, s, a, t) && Leads(next, t, b, u)
    ensures Leads(next, s, a + b, u)
    decreases |a|
  {
    if a == [] {
      assert a + b == b;
    } else {
      assert (a + b)[1..] == a[1..] + b;
      Chain(next, next(s, a[0]).value, a[1..], t, b, u);
    }
  }

  lemma StepThen<S, X>(next: (S, X) -> Option<S>, s: S, step: X, t: S, rest: seq<X>, u: S)
    requires next(s, step) == Some(t) && Leads(next, t, rest, u)
    ensures Leads(next, s, [step] + rest, u)
  {
    assert ([step] + rest)[1..] == rest;
  }
}
