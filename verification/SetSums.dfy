/** Sums over sets of keys, and how many keys there are. */
module SetSums {

  ghost function SumOver<K(!new)>(ks: set<K>, f: K -> int): int {
    if ks == {} then 0 else var k :| k in ks; SumOver(ks - {k}, f) + f(k)
  }

  lemma {:induction false} SumPick<K(!new)>(ks: set<K>, k: K, f: K -> int)
    requires k in ks
    ensures SumOver(ks, f) == SumOver(ks - {k}, f) + f(k)
    decreases |ks|
  {
    var first :| first in ks && SumOver(ks, f) == SumOver(ks - {first}, f) + f(first);
    if first != k {
      SumPick(ks - {first}, k, f);
      SumPick(ks - {k}, first, f);
      assert ks - {first} - {k} == ks - {k} - {first};
    }
  }

  lemma {:induction false} SumAdd<K(!new)>(ks: set<K>, k: K, f: K -> int)
    requires k !in ks
    ensures SumOver(ks + {k}, f) == SumOver(ks, f) + f(k)
  {
    SumPick(ks + {k}, k, f);
    assert ks + {k} - {k} == ks;
  }

  lemma {:induction false} SumSame<K(!new)>(ks: set<K>, f: K -> int, g: K -> int)
    requires forall k :: k in ks ==> f(k) == g(k)
    ensures SumOver(ks, f) == SumOver(ks, g)
    decreases |ks|
  {
    if ks != {} {
      var k :| k in ks;
      SumPick(ks, k, f);
      SumPick(ks, k, g);
      SumSame(ks - {k}, f, g);
    }
  }

  lemma {:induction false} SumAtMost<K(!new)>(ks: set<K>, f: K -> int, g: K -> int)
    requires forall k :: k in ks ==> f(k) <= g(k)
    ensures SumOver(ks, f) <= SumOver(ks, g)
    decreases |ks|
  {
    if ks != {} {
      var k :| k in ks;
      SumPick(ks, k, f);
      SumPick(ks, k, g);
      SumAtMost(ks - {k}, f, g);
    }
  }

  /** Only one key's weight has changed. */
  lemma {:induction false} SumChange<K(!new)>(ks: set<K>, k: K, f: K -> int, g: K -> int)
    requires k in ks && forall j :: j in ks && j != k ==> f(j) == g(j)
    ensures SumOver(ks, g) == SumOver(ks, f) - f(k) + g(k)
  {
    SumPick(ks, k, f);
    SumPick(ks, k, g);
    SumSame(ks - {k}, f, g);
  }

  lemma {:induction false} SumNotNegative<K(!new)>(ks: set<K>, f: K -> int)
    requires forall k :: k in ks ==> 0 <= f(k)
    ensures 0 <= SumOver(ks, f)
    decreases |ks|
  {
    if ks != {} {
      var k :| k in ks;
      SumPick(ks, k, f);
      SumNotNegative(ks - {k}, f);
    }
  }

  lemma {:induction false} SumNothing<K(!new)>(ks: set<K>, f: K -> int)
    requires forall k :: k in ks ==> f(k) == 0
    ensures SumOver(ks, f) == 0
    decreases |ks|
  {
    if ks != {} {
      var k :| k in ks;
      SumPick(ks, k, f);
      SumNothing(ks - {k}, f);
    }
  }

  /** Keys outside the smaller set weigh nothing. */
  lemma {:induction false} SumWithin<K(!new)>(small: set<K>, large: set<K>, f: K -> int)
    requires small <= large && forall k :: k in large && k !in small ==> f(k) == 0
    ensures SumOver(small, f) == SumOver(large, f)
    decreases |large|
  {
    if small != large {
      var k :| k in large && k !in small;
      SumPick(large, k, f);
      SumWithin(small, large - {k}, f);
    }
  }

  /** A subset has no more elements, and a proper one fewer. */
  lemma {:induction false} NoMoreThan<T>(small: set<T>, large: set<T>)
    requires small <= large
    ensures |small| <= |large| && (small != large ==> |small| < |large|)
  {
    assert large == small + (large - small);
    if small != large {
      var x :| x in large && x !in small;
      assert x in large - small;
    }
  }
}
