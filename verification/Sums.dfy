/** Weighted sums over sequences, shared by the counting arguments of the other modules. */
module Sums {

  ghost function Sum<T>(s: seq<T>, weight: T -> nat): nat {
    if s == [] then 0 else Sum(s[..|s| - 1], weight) + weight(s[|s| - 1])
  }

  lemma {:induction false} SumAppend<T>(s: seq<T>, x: T, weight: T -> nat)
    ensures Sum(s + [x], weight) == Sum(s, weight) + weight(x)
  {
    assert (s + [x])[..|s|] == s;
  }

  lemma {:induction false} SumConcat<T>(s: seq<T>, t: seq<T>, weight: T -> nat)
    ensures Sum(s + t, weight) == Sum(s, weight) + Sum(t, weight)
  {
    if t == [] {
      assert s + t == s;
    } else {
      var last := |t| - 1;
      SumConcat(s, t[..last], weight);
      assert (s + t)[..|s + t| - 1] == s + t[..last];
    }
  }

  lemma {:induction false} SumPrepend<T>(x: T, s: seq<T>, weight: T -> nat)
    ensures Sum([x] + s, weight) == weight(x) + Sum(s, weight)
  {
    SumConcat([x], s, weight);
    assert [x][..0] == [];
  }

  lemma {:induction false} SumUpdate<T>(s: seq<T>, k: nat, x: T, weight: T -> nat)
    requires k < |s|
    ensures Sum(s[k := x], weight) == Sum(s, weight) - weight(s[k]) + weight(x)
  {
    var last := |s| - 1;
    if k == last {
      assert s[k := x][..last] == s[..last];
    } else {
      SumUpdate(s[..last], k, x, weight);
      assert s[k := x][..last] == s[..last][k := x];
    }
  }

  lemma {:induction false} SumCovers<T>(s: seq<T>, k: nat, weight: T -> nat)
    requires k < |s|
    ensures weight(s[k]) <= Sum(s, weight)
  {
    if k < |s| - 1 {
      SumCovers(s[..|s| - 1], k, weight);
    }
  }

  lemma {:induction false} SumBelow<T>(s: seq<T>, small: T -> nat, large: T -> nat)
    requires forall x :: x in s ==> small(x) <= large(x)
    ensures Sum(s, small) <= Sum(s, large)
  {
    if s != [] {
      SumBelow(s[..|s| - 1], small, large);
    }
  }

  lemma {:induction false} SumStrictlyBelow<T>(s: seq<T>, k: nat, small: T -> nat, large: T -> nat)
    requires forall x :: x in s ==> small(x) <= large(x)
    requires k < |s| && small(s[k]) < large(s[k])
    ensures Sum(s, small) < Sum(s, large)
  {
    SumBelow(s[..|s| - 1], small, large);
    if k < |s| - 1 {
      SumStrictlyBelow(s[..|s| - 1], k, small, large);
    }
  }

  /** A sum is zero exactly when every element weighs nothing. */
  lemma {:induction false} SumZero<T>(s: seq<T>, weight: T -> nat)
    ensures Sum(s, weight) == 0 <==> forall x :: x in s ==> weight(x) == 0
  {
    if s != [] {
      SumZero(s[..|s| - 1], weight);
      assert s == s[..|s| - 1] + [s[|s| - 1]];
    }
  }

  lemma {:induction false} SumPermutation<T>(s: seq<T>, t: seq<T>, weight: T -> nat)
    requires multiset(s) == multiset(t)
    ensures Sum(s, weight) == Sum(t, weight)
  {
    if s == [] {
      assert |multiset(t)| == |t|;
    } else {
      var last, x := |s| - 1, s[|s| - 1];
      assert x in multiset(s) && x in multiset(t);
      var k :| 0 <= k < |t| && t[k] == x;
      var rest := t[..k] + t[k + 1..];
      SumWithout(t, k, weight);
      assert s == s[..last] + [x];
      assert multiset(s[..last]) == multiset(s) - multiset{x};
      SumPermutation(s[..last], rest, weight);
    }
  }

  /** One element left out. */
  lemma {:induction false} SumWithout<T>(s: seq<T>, k: nat, weight: T -> nat)
    requires k < |s|
    ensures Sum(s, weight) == Sum(s[..k] + s[k + 1..], weight) + weight(s[k])
    ensures multiset(s[..k] + s[k + 1..]) == multiset(s) - multiset{s[k]}
  {
    assert s == s[..k] + [s[k]] + s[k + 1..];
    SumConcat(s[..k], s[k + 1..], weight);
    SumConcat(s[..k] + [s[k]], s[k + 1..], weight);
    SumAppend(s[..k], s[k], weight);
  }

  lemma {:induction false} SumMatch<S, T>(s: seq<S>, t: seq<T>, f: S -> nat, g: T -> nat)
    requires |s| == |t| && forall i :: 0 <= i < |s| ==> f(s[i]) == g(t[i])
    ensures Sum(s, f) == Sum(t, g)
    decreases |s|
  {
    if s != [] {
      SumMatch(s[..|s| - 1], t[..|t| - 1], f, g);
    }
  }
}
