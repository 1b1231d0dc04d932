/** Sums of a weight over a sequence of table rows, and how they change when a row is
    appended, rewritten or moved. Every aggregate column in this project is one of these. */
module Sums {

  function Sum<T>(s: seq<T>, weight: T -> int): int {
    if s == [] then 0 else Sum(s[..|s| - 1], weight) + weight(s[|s| - 1])
  }

  lemma Append<T>(s: seq<T>, x: T, weight: T -> int)
    ensures Sum(s + [x], weight) == Sum(s, weight) + weight(x)
  {
    assert (s + [x])[..|s|] == s;
  }

  lemma Single<T>(x: T, weight: T -> int)
    ensures Sum([x], weight) == weight(x)
  {
    assert [x][..0] == [];
  }

  lemma Pair<T>(x: T, y: T, weight: T -> int)
    ensures Sum([x, y], weight) == weight(x) + weight(y)
  {
    assert [x, y][..1] == [x];
    Single(x, weight);
  }

  lemma {:induction false} Concat<T>(s: seq<T>, t: seq<T>, weight: T -> int)
    ensures Sum(s + t, weight) == Sum(s, weight) + Sum(t, weight)
  {
    if t == [] {
      assert s + t == s;
    } else {
      var front, last := t[..|t| - 1], t[|t| - 1];
      assert s + t == (s + front) + [last];
      Append(s + front, last, weight);
      Concat(s, front, weight);
    }
  }

  /** Rewriting one row changes the sum by the change of that row's weight. */
  lemma {:induction false} Update<T>(s: seq<T>, i: nat, x: T, weight: T -> int)
    requires i < |s|
    ensures Sum(s[i := x], weight) == Sum(s, weight) - weight(s[i]) + weight(x)
  {
    var n := |s| - 1;
    if i == n {
      assert s[i := x][..n] == s[..n];
    } else {
      assert s[i := x][..n] == s[..n][i := x];
      Update(s[..n], i, x, weight);
    }
  }

  /** Pointwise order carries over to the sums. */
  lemma {:induction false} Monotone<T>(s: seq<T>, low: T -> int, high: T -> int)
    requires forall i :: 0 <= i < |s| ==> low(s[i]) <= high(s[i])
    ensures Sum(s, low) <= Sum(s, high)
  {
    if s != [] {
      var n := |s| - 1;
      assert forall i :: 0 <= i < n ==> s[..n][i] == s[i];
      Monotone(s[..n], low, high);
    }
  }

  /** Two tables whose rows weigh the same, position by position. */
  lemma {:induction false} SameTerms<S, T>(s: seq<S>, t: seq<T>, f: S -> int, g: T -> int)
    requires |s| == |t|
    requires forall i :: 0 <= i < |s| ==> f(s[i]) == g(t[i])
    ensures Sum(s, f) == Sum(t, g)
  {
    if s != [] {
      var n := |s| - 1;
      assert forall i :: 0 <= i < n ==> s[..n][i] == s[i] && t[..n][i] == t[i];
      SameTerms(s[..n], t[..n], f, g);
    }
  }

  lemma SameWeights<T>(s: seq<T>, f: T -> int, g: T -> int)
    requires forall i :: 0 <= i < |s| ==> f(s[i]) == g(s[i])
    ensures Sum(s, f) == Sum(s, g)
  {
    Monotone(s, f, g);
    Monotone(s, g, f);
  }

  lemma {:induction false} Zero<T>(s: seq<T>, weight: T -> int)
    requires forall i :: 0 <= i < |s| ==> weight(s[i]) == 0
    ensures Sum(s, weight) == 0
  {
    if s != [] {
      var n := |s| - 1;
      assert forall i :: 0 <= i < n ==> s[..n][i] == s[i];
      Zero(s[..n], weight);
    }
  }

  /** With non-negative weights no single row outweighs the whole. */
  lemma {:induction false} Member<T>(s: seq<T>, i: nat, weight: T -> int)
    requires i < |s|
    requires forall j :: 0 <= j < |s| ==> 0 <= weight(s[j])
    ensures 0 <= weight(s[i]) <= Sum(s, weight)
  {
    var n := |s| - 1;
    assert forall j :: 0 <= j < n ==> s[..n][j] == s[j];
    if i == n {
      NonNegative(s[..n], weight);
    } else {
      Member(s[..n], i, weight);
    }
  }

  lemma {:induction false} NonNegative<T>(s: seq<T>, weight: T -> int)
    requires forall j :: 0 <= j < |s| ==> 0 <= weight(s[j])
    ensures 0 <= Sum(s, weight)
  {
    if s != [] {
      var n := |s| - 1;
      assert forall j :: 0 <= j < n ==> s[..n][j] == s[j];
      NonNegative(s[..n], weight);
    }
  }

  /** A sum does not depend on the order of the rows. */
  lemma {:induction false} Permutation<T>(s: seq<T>, t: seq<T>, weight: T -> int)
    requires multiset(s) == multiset(t)
    ensures Sum(s, weight) == Sum(t, weight)
    decreases |s|
  {
    if s == [] {
      assert |multiset(t)| == 0;
    } else {
      var n := |s| - 1;
      var x := s[n];
      assert s == s[..n] + [x];
      assert x in multiset(t);
      var k :| 0 <= k < |t| && t[k] == x;
      var rest := t[..k] + t[k + 1..];
      assert t == t[..k] + [x] + t[k + 1..];
      assert multiset(s[..n]) == multiset(s) - multiset{x} == multiset(t) - multiset{x} == multiset(rest);
      Permutation(s[..n], rest, weight);
      Concat(t[..k], t[k + 1..], weight);
      Concat(t[..k] + [x], t[k + 1..], weight);
      Append(t[..k], x, weight);
    }
  }

  /** A weight of one on the first k rows and zero on the rest. */
  lemma {:induction false} Prefix<T>(s: seq<T>, k: nat, weight: T -> int)
    requires k <= |s|
    requires forall i :: 0 <= i < |s| ==> weight(s[i]) == if i < k then 1 else 0
    ensures Sum(s, weight) == k
  {
    if s != [] {
      var n := |s| - 1;
      assert forall i :: 0 <= i < n ==> s[..n][i] == s[i];
      Prefix(s[..n], if k == |s| then n else k, weight);
    }
  }

  lemma {:induction false} Add<T>(s: seq<T>, f: T -> int, g: T -> int, h: T -> int)
    requires forall i :: 0 <= i < |s| ==> h(s[i]) == f(s[i]) + g(s[i])
    ensures Sum(s, h) == Sum(s, f) + Sum(s, g)
  {
    if s != [] {
      var n := |s| - 1;
      assert forall i :: 0 <= i < n ==> s[..n][i] == s[i];
      Add(s[..n], f, g, h);
    }
  }

  lemma {:induction false} BoundedBy<T>(s: seq<T>, f: T -> int, c: int, g: T -> int)
    requires forall i :: 0 <= i < |s| ==> f(s[i]) <= c * g(s[i])
    ensures Sum(s, f) <= c * Sum(s, g)
  {
    if s != [] {
      var n := |s| - 1;
      assert forall i :: 0 <= i < n ==> s[..n][i] == s[i];
      BoundedBy(s[..n], f, c, g);
      assert c * (Sum(s[..n], g) + g(s[n])) == c * Sum(s[..n], g) + c * g(s[n]);
    }
  }
}
