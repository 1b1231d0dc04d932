/** Repeating one step of a state machine. */
module Steps {

  function Repeat<S>(step: S -> S, s: S, n: nat): S {
    if n == 0 then s else step(Repeat(step, s, n - 1))
  }

  lemma {:induction false} RepeatFurther<S>(step: S -> S, s: S, a: nat, b: nat)
    ensures Repeat(step, s, a + b) == Repeat(step, Repeat(step, s, a), b)
  {
    if b > 0 {
      RepeatFurther(step, s, a, b - 1);
    }
  }

  /** Steps that each take their own input, from the first to the last. */
  function Fold<S, A>(step: (S, A) -> S, s: S, inputs: seq<A>): S {
    if inputs == [] then s else step(Fold(step, s, inputs[..|inputs| - 1]), inputs[|inputs| - 1])
  }

  lemma {:induction false} FoldFurther<S, A>(step: (S, A) -> S, s: S, a: seq<A>, b: seq<A>)
    ensures Fold(step, s, a + b) == Fold(step, Fold(step, s, a), b)
  {
    if b == [] {
      assert a + b == a;
    } else {
      var n := |b| - 1;
      assert (a + b)[..|a| + n] == a + b[..n];
      FoldFurther(step, s, a, b[..n]);
    }
  }

  lemma FoldTwice<S, A>(step: (S, A) -> S, s: S, a: A, b: A)
    ensures Fold(step, s, [a]) == step(s, a)
    ensures Fold(step, s, [a, b]) == step(step(s, a), b)
  {
    assert [a][..0] == [] && Fold(step, s, []) == s;
    assert [a, b][..1] == [a];
  }

  lemma FoldThrice<S, A>(step: (S, A) -> S, s: S, a: A, b: A, c: A)
    ensures Fold(step, s, [a, b, c]) == step(step(step(s, a), b), c)
  {
    FoldTwice(step, s, a, b);
    assert [a, b, c][..2] == [a, b];
  }
}
