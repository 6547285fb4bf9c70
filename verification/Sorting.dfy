/** A stable sort by a comparison, and sequences whose elements have different keys. */
module Sorting {

  /** `before(x, y)` says that x has to come before y; among these elements it never contradicts itself. */
  ghost predicate Ordering<T(!new)>(s: seq<T>, before: (T, T) -> bool) {
    && (forall x, y :: x in s && y in s && before(x, y) ==> !before(y, x))
    && (forall x, y, z :: x in s && y in s && z in s && !before(y, x) && !before(z, y) ==> !before(z, x))
  }

  ghost predicate InOrder<T>(s: seq<T>, before: (T, T) -> bool) {
    forall i, j :: 0 <= i < j < |s| ==> !before(s[j], s[i])
  }

  /** Behind everything it need not come before. */
  function Insert<T>(sorted: seq<T>, x: T, before: (T, T) -> bool): seq<T> {
    if sorted == [] || !before(x, sorted[|sorted| - 1]) then sorted + [x]
    else Insert(sorted[..|sorted| - 1], x, before) + [sorted[|sorted| - 1]]
  }

  function Sort<T>(s: seq<T>, before: (T, T) -> bool): seq<T> {
    if s == [] then [] else Insert(Sort(s[..|s| - 1], before), s[|s| - 1], before)
  }

  lemma {:induction false} InsertPermutes<T(!new)>(sorted: seq<T>, x: T, before: (T, T) -> bool)
    ensures multiset(Insert(sorted, x, before)) == multiset(sorted) + multiset{x}
    decreases |sorted|
  {
    if sorted != [] && before(x, sorted[|sorted| - 1]) {
      assert sorted == sorted[..|sorted| - 1] + [sorted[|sorted| - 1]];
      InsertPermutes(sorted[..|sorted| - 1], x, before);
    }
  }

  lemma {:induction false} InsertInOrder<T(!new)>(sorted: seq<T>, x: T, before: (T, T) -> bool)
    requires Ordering(sorted + [x], before) && InOrder(sorted, before)
    ensures InOrder(Insert(sorted, x, before), before)
    decreases |sorted|
  {
    if sorted == [] {
    } else if before(x, sorted[|sorted| - 1]) {
      var front, last := sorted[..|sorted| - 1], sorted[|sorted| - 1];
      InsertInOrder(front, x, before);
      InsertPermutes(front, x, before);
      var r := Insert(front, x, before);
      assert x in sorted + [x] && last in sorted + [x];
      forall i | 0 <= i < |r| ensures !before(last, r[i]) {
        assert r[i] in multiset(r);
        if r[i] != x {
          assert r[i] in multiset(front);
          var j :| 0 <= j < |front| && front[j] == r[i];
          assert !before(sorted[|sorted| - 1], sorted[j]);
        }
      }
    } else {
      forall i | 0 <= i < |sorted| ensures !before(x, sorted[i]) {
        assert x in sorted + [x] && sorted[i] in sorted + [x] && sorted[|sorted| - 1] in sorted + [x];
        if i < |sorted| - 1 {
          assert !before(sorted[|sorted| - 1], sorted[i]);
        }
      }
    }
  }

  lemma {:induction false} SameElements<T(!new)>(a: seq<T>, b: seq<T>)
    requires multiset(a) == multiset(b)
    ensures |a| == |b| && forall x :: x in a <==> x in b
  {
    assert |multiset(a)| == |a| && |multiset(b)| == |b|;
    forall x ensures x in a <==> x in b {
      assert x in multiset(a) <==> x in multiset(b);
    }
  }

  lemma {:induction false} SortPermutes<T(!new)>(s: seq<T>, before: (T, T) -> bool)
    ensures multiset(Sort(s, before)) == multiset(s)
    decreases |s|
  {
    if s != [] {
      assert s == s[..|s| - 1] + [s[|s| - 1]];
      SortPermutes(s[..|s| - 1], before);
      InsertPermutes(Sort(s[..|s| - 1], before), s[|s| - 1], before);
    }
  }

  /** The same elements, in order. */
  lemma {:induction false} SortSorts<T(!new)>(s: seq<T>, before: (T, T) -> bool)
    requires Ordering(s, before)
    ensures multiset(Sort(s, before)) == multiset(s) && InOrder(Sort(s, before), before)
    decreases |s|
  {
    if s != [] {
      var front, last := s[..|s| - 1], s[|s| - 1];
      assert s == front + [last];
      SortSorts(front, before);
      SortPermutes(s, before);
      var sorted := Sort(front, before);
      SameElements(front, sorted);
      forall x | x in sorted + [last] ensures x in s {
        assert x in sorted || x == last;
        assert x in sorted ==> x in front;
        assert x in front ==> x in s;
      }
      InsertInOrder(sorted, last, before);
    }
  }

  /** `r` is `sorted` with x put in at n, before all those it has to come before. */
  ghost predicate PutIn<T(!new)>(sorted: seq<T>, x: T, before: (T, T) -> bool, r: seq<T>, n: nat) {
    && n <= |sorted| && |r| == |sorted| + 1 && r[n] == x
    && (forall m :: 0 <= m < n ==> r[m] == sorted[m])
    && (forall m :: n < m < |r| ==> r[m] == sorted[m - 1] && before(x, r[m]))
  }

  lemma {:induction false} InsertPlace<T(!new)>(sorted: seq<T>, x: T, before: (T, T) -> bool) returns (n: nat)
    ensures PutIn(sorted, x, before, Insert(sorted, x, before), n)
    decreases |sorted|
  {
    n := |sorted|;
    if sorted != [] && before(x, sorted[|sorted| - 1]) {
      n := InsertPlace(sorted[..|sorted| - 1], x, before);
    }
  }

  /** The sort is stable: what need not come before something later was listed before it. */
  lemma {:induction false} TiesKeepOrder<T(!new)>(s: seq<T>, before: (T, T) -> bool, i: nat, j: nat)
    returns (k: nat, l: nat)
    requires i < j < |Sort(s, before)| && !before(Sort(s, before)[i], Sort(s, before)[j])
    ensures k < l < |s| && s[k] == Sort(s, before)[i] && s[l] == Sort(s, before)[j]
    decreases |s|
  {
    var front, last, r := s[..|s| - 1], s[|s| - 1], Sort(s, before);
    var sorted := Sort(front, before);
    var n := InsertPlace(sorted, last, before);
    assert PutIn(sorted, last, before, r, n);
    if j == n {
      k := Listed(front, before, i);
      l := |front|;
    } else {
      var i', j' := if i < n then i else i - 1, if j < n then j else j - 1;
      assert sorted[i'] == r[i] && sorted[j'] == r[j];
      k, l := TiesKeepOrder(front, before, i', j');
    }
  }

  lemma {:induction false} Listed<T(!new)>(s: seq<T>, before: (T, T) -> bool, i: nat) returns (k: nat)
    requires i < |Sort(s, before)|
    ensures k < |s| && s[k] == Sort(s, before)[i]
  {
    var sorted := Sort(s, before);
    SortPermutes(s, before);
    SameElements(s, sorted);
    assert sorted[i] in s;
    k :| 0 <= k < |s| && s[k] == sorted[i];
  }

  // ---------------------------------------------------------------------------------------------
  // Keys
  // ---------------------------------------------------------------------------------------------

  ghost predicate UniqueBy<T>(s: seq<T>, key: T -> nat) {
    forall i, j :: 0 <= i < j < |s| ==> key(s[i]) != key(s[j])
  }

  lemma {:induction false} UniqueSpread<T(!new)>(a: seq<T>, b: seq<T>, key: T -> nat)
    requires UniqueBy(a, key) && multiset(a) == multiset(b)
    ensures UniqueBy(b, key)
  {
    SameElements(a, b);
    forall i, j | 0 <= i < j < |b| ensures key(b[i]) != key(b[j]) {
      if key(b[i]) == key(b[j]) {
        assert b[i] in a && b[j] in a;
        var k :| 0 <= k < |a| && a[k] == b[i];
        var l :| 0 <= l < |a| && a[l] == b[j];
        assert k == l;
        TwiceIn(b, i, j);
        OnceIn(a, k, key);
      }
    }
  }

  lemma {:induction false} TwiceIn<T(!new)>(s: seq<T>, i: nat, j: nat)
    requires i < j < |s| && s[i] == s[j]
    ensures multiset(s)[s[i]] >= 2
  {
    assert s == s[..j] + [s[j]] + s[j + 1..];
    assert s[..j][i] == s[i];
    assert s[i] in multiset(s[..j]);
  }

  lemma {:induction false} OnceIn<T(!new)>(s: seq<T>, k: nat, key: T -> nat)
    requires k < |s| && UniqueBy(s, key)
    ensures multiset(s)[s[k]] == 1
  {
    assert s == s[..k] + [s[k]] + s[k + 1..];
    assert s[k] !in s[..k] && s[k] !in s[k + 1..];
  }

  lemma {:induction false} InsertEarlier<T(!new)>(sorted: seq<T>, x: T, before: (T, T) -> bool, i: nat)
    requires 0 < i <= |sorted| && before(x, sorted[i - 1])
    ensures Insert(sorted[..i], x, before) + sorted[i..] == Insert(sorted[..i - 1], x, before) + sorted[i - 1..]
  {
    assert sorted[..i][..i - 1] == sorted[..i - 1];
    assert [sorted[i - 1]] + sorted[i..] == sorted[i - 1..];
  }

  method Inserted<T(!new)>(sorted: seq<T>, x: T, before: (T, T) -> bool) returns (r: seq<T>)
    ensures r == Insert(sorted, x, before)
  {
    var i: nat := |sorted|;
    assert sorted[..i] == sorted && sorted[i..] == [];
    while i > 0 && before(x, sorted[i - 1])
      invariant i <= |sorted| && Insert(sorted, x, before) == Insert(sorted[..i], x, before) + sorted[i..]
    {
      InsertEarlier(sorted, x, before, i);
      i := i - 1;
    }
    r := sorted[..i] + [x] + sorted[i..];
  }

  method Sorted<T(!new)>(s: seq<T>, before: (T, T) -> bool) returns (sorted: seq<T>)
    ensures sorted == Sort(s, before)
  {
    sorted := [];
    for i := 0 to |s|
      invariant sorted == Sort(s[..i], before)
    {
      assert s[..i + 1][..i] == s[..i];
      sorted := Inserted(sorted, s[i], before);
    }
    assert s[..|s|] == s;
  }
}
