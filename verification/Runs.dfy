/** Runs of a step relation: the traces over which the protocol theorems quantify. */
module Runs {

  /** `tr` is a run that takes the actions `acts` in order, one step each. */
  ghost predicate Run<S(!new), A(!new)>(step: (S, A, S) -> bool, tr: seq<S>, acts: seq<A>) {
    && |tr| == |acts| + 1
    && forall i :: 0 <= i < |acts| ==> step(tr[i], acts[i], tr[i + 1])
  }

  /** A property that holds at the start and that every step keeps holds throughout. */
  lemma {:induction false} Invariant<S(!new), A(!new)>(step: (S, A, S) -> bool, inv: S -> bool,
                                                      tr: seq<S>, acts: seq<A>, n: nat)
    requires Run(step, tr, acts) && inv(tr[0]) && n < |tr|
    requires forall s, a, t :: inv(s) && step(s, a, t) ==> inv(t)
    ensures inv(tr[n])
  {
    if n > 0 {
      Invariant(step, inv, tr, acts, n - 1);
      assert step(tr[n - 1], acts[n - 1], tr[n]);
    }
  }

  /** A run cut short is a run. */
  lemma {:induction false} Prefix<S(!new), A(!new)>(step: (S, A, S) -> bool, tr: seq<S>, acts: seq<A>, n: nat)
    requires Run(step, tr, acts) && n <= |acts|
    ensures Run(step, tr[..n + 1], acts[..n])
  {
    forall i | 0 <= i < n ensures step(tr[..n + 1][i], acts[..n][i], tr[..n + 1][i + 1]) {
      assert step(tr[i], acts[i], tr[i + 1]);
    }
  }

  /** One step followed by a run is a run. */
  lemma {:induction false} Cons<S(!new), A(!new)>(step: (S, A, S) -> bool, s: S, a: A, tr: seq<S>, acts: seq<A>)
    requires Run(step, tr, acts) && step(s, a, tr[0])
    ensures Run(step, [s] + tr, [a] + acts)
  {
    var tr', acts' := [s] + tr, [a] + acts;
    forall i | 0 <= i < |acts'| ensures step(tr'[i], acts'[i], tr'[i + 1]) {
      if i > 0 {
        assert step(tr[i - 1], acts[i - 1], tr[i]);
      }
    }
  }

  /** Some run from `s` to `t` takes the actions `acts`. */
  ghost predicate Reaches<S(!new), A(!new)>(step: (S, A, S) -> bool, s: S, acts: seq<A>, t: S) {
    exists tr :: Run(step, tr, acts) && tr[0] == s && tr[|acts|] == t
  }

  lemma {:induction false} Start<S(!new), A(!new)>(step: (S, A, S) -> bool, s: S)
    ensures Reaches(step, s, [], s)
  {
    assert Run(step, [s], []);
  }

  lemma {:induction false} Extend<S(!new), A(!new)>(step: (S, A, S) -> bool, s: S, acts: seq<A>, t: S, a: A, u: S)
    requires Reaches(step, s, acts, t) && step(t, a, u)
    ensures Reaches(step, s, acts + [a], u)
  {
    var tr :| Run(step, tr, acts) && tr[0] == s && tr[|acts|] == t;
    var tr', acts' := tr + [u], acts + [a];
    forall i | 0 <= i < |acts'| ensures step(tr'[i], acts'[i], tr'[i + 1]) {
      if i < |acts| {
        assert step(tr[i], acts[i], tr[i + 1]);
      }
    }
    assert Run(step, tr', acts') && tr'[0] == s && tr'[|acts'|] == u;
  }

  lemma {:induction false} Chain<S(!new), A(!new)>(step: (S, A, S) -> bool, s: S, acts: seq<A>, t: S, more: seq<A>, u: S)
    requires Reaches(step, s, acts, t) && Reaches(step, t, more, u)
    ensures Reaches(step, s, acts + more, u)
  {
    var tr :| Run(step, tr, acts) && tr[0] == s && tr[|acts|] == t;
    var tr2 :| Run(step, tr2, more) && tr2[0] == t && tr2[|more|] == u;
    var all, acts' := tr + tr2[1..], acts + more;
    forall i | 0 <= i < |acts'| ensures step(all[i], acts'[i], all[i + 1]) {
      if i < |acts| {
        assert step(tr[i], acts[i], tr[i + 1]);
      } else {
        assert step(tr2[i - |acts|], more[i - |acts|], tr2[i - |acts| + 1]);
      }
    }
    assert Run(step, all, acts') && all[0] == s && all[|acts'|] == u;
  }
}
