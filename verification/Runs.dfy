/** Runs of a state machine: sequences of scheduler choices, each possible when its turn comes. */
module Runs {
  import opened Options

  ghost predicate Run<S, E>(step: (S, E) -> Option<S>, s: S, es: seq<E>, t: S)
    decreases |es|
  {
    if es == [] then t == s
    else step(s, es[0]).Some? && Run(step, step(s, es[0]).value, es[1..], t)
  }

  lemma {:induction false} RunConcat<S, E>(step: (S, E) -> Option<S>, s: S, es: seq<E>, t: S, fs: seq<E>, u: S)
    requires Run(step, s, es, t) && Run(step, t, fs, u)
    ensures Run(step, s, es + fs, u)
    decreases |es|
  {
    if es == [] {
      assert [] + fs == fs;
    } else {
      assert (es + fs)[1..] == es[1..] + fs;
      RunConcat(step, step(s, es[0]).value, es[1..], t, fs, u);
    }
  }

  lemma RunOne<S, E>(step: (S, E) -> Option<S>, s: S, e: E)
    requires step(s, e).Some?
    ensures Run(step, s, [e], step(s, e).value)
  {
    assert [e][1..] == [];
  }

  // ---- States that some schedule leads to -----------------------------------------------------

  ghost predicate CanReach<S(!new), E(!new)>(step: (S, E) -> Option<S>, s: S, t: S) {
    exists es :: Run(step, s, es, t)
  }

  lemma Stay<S(!new), E(!new)>(step: (S, E) -> Option<S>, s: S)
    ensures CanReach(step, s, s)
  {
    assert Run(step, s, [], s);
  }

  lemma Chain<S(!new), E(!new)>(step: (S, E) -> Option<S>, s: S, t: S, u: S)
    requires CanReach(step, s, t) && CanReach(step, t, u)
    ensures CanReach(step, s, u)
  {
    var es :| Run(step, s, es, t);
    var fs :| Run(step, t, fs, u);
    RunConcat(step, s, es, t, fs, u);
    assert Run(step, s, es + fs, u);
  }

  lemma Once<S(!new), E(!new)>(step: (S, E) -> Option<S>, s: S, e: E)
    requires step(s, e).Some?
    ensures CanReach(step, s, step(s, e).value)
  {
    RunOne(step, s, e);
    assert Run(step, s, [e], step(s, e).value);
  }

  /** One more event. */
  lemma Then<S(!new), E(!new)>(step: (S, E) -> Option<S>, r: S, s: S, e: E) returns (t: S)
    requires CanReach(step, r, s) && step(s, e).Some?
    ensures t == step(s, e).value && CanReach(step, r, t)
  {
    t := step(s, e).value;
    Once(step, s, e);
    Chain(step, r, s, t);
  }
}
