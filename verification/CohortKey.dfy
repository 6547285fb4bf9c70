/** The key of a card: its tags' ids, sorted and joined with commas. */
module CohortKey {
  import Sorting

  const COMMA := ','

  /** The order in which texts are sorted: by the first character that differs, a prefix first. */
  predicate Less(s: string, t: string) {
    t != [] && (s == [] || s[0] < t[0] || (s[0] == t[0] && Less(s[1..], t[1..])))
  }

  function Join(ids: seq<string>): string {
    if ids == [] then []
    else if |ids| == 1 then ids[0]
    else ids[0] + [COMMA] + Join(ids[1..])
  }

  function Key(ids: seq<string>): string {
    Join(Sorting.Sort(ids, Less))
  }

  // ---------------------------------------------------------------------------------------------
  // The order of texts
  // ---------------------------------------------------------------------------------------------

  lemma {:induction false} LessEitherWay(s: string, t: string)
    ensures Less(s, t) || Less(t, s) <==> s != t
    ensures !(Less(s, t) && Less(t, s))
    decreases |s|
  {
    if s != [] && t != [] && s[0] == t[0] {
      LessEitherWay(s[1..], t[1..]);
      assert s == [s[0]] + s[1..] && t == [t[0]] + t[1..];
    }
  }

  lemma {:induction false} LessChains(s: string, t: string, u: string)
    requires Less(s, t) && Less(t, u)
    ensures Less(s, u)
    decreases |s|
  {
    if s != [] && s[0] == t[0] == u[0] {
      LessChains(s[1..], t[1..], u[1..]);
    }
  }

  lemma {:induction false} LessIsOrdering(ids: seq<string>)
    ensures Sorting.Ordering(ids, Less)
  {
    forall x, y | x in ids && y in ids && Less(x, y) ensures !Less(y, x) {
      LessEitherWay(x, y);
    }
    forall x, y, z | x in ids && y in ids && z in ids && !Less(y, x) && !Less(z, y) ensures !Less(z, x) {
      LessEitherWay(x, y);
      LessEitherWay(y, z);
      if Less(z, x) && x != y {
        LessChains(z, x, y);
      }
    }
  }

  /** Texts have one sorted order only. */
  lemma {:induction false} SortedOnce(a: seq<string>, b: seq<string>)
    requires multiset(a) == multiset(b) && Sorting.InOrder(a, Less) && Sorting.InOrder(b, Less)
    ensures a == b
    decreases |a|
  {
    Sorting.SameElements(a, b);
    if a != [] {
      var n := |a| - 1;
      var x, y := a[n], b[n];
      LastIsGreatest(a, b);
      LastIsGreatest(b, a);
      LessEitherWay(x, y);
      assert x == y;
      WithoutLast(a);
      WithoutLast(b);
      SortedOnce(a[..n], b[..n]);
      assert a == a[..n] + [x] && b == b[..n] + [x];
    }
  }

  lemma {:induction false} WithoutLast(a: seq<string>)
    requires a != []
    ensures multiset(a[..|a| - 1]) == multiset(a) - multiset{a[|a| - 1]}
  {
    assert a == a[..|a| - 1] + [a[|a| - 1]];
  }

  lemma {:induction false} LastIsGreatest(a: seq<string>, b: seq<string>)
    requires a != [] && |a| == |b| && Sorting.InOrder(a, Less) && forall x :: x in b ==> x in a
    ensures !Less(a[|a| - 1], b[|b| - 1])
  {
    var y := b[|b| - 1];
    assert y in b && y in a;
    var k :| 0 <= k < |a| && a[k] == y;
    if k == |a| - 1 {
      LessEitherWay(y, y);
    }
  }

  // ---------------------------------------------------------------------------------------------
  // Joined texts
  // ---------------------------------------------------------------------------------------------

  /** Ids that are not empty and hold no comma. */
  ghost predicate Plain(ids: seq<string>) {
    forall i :: 0 <= i < |ids| ==> ids[i] != [] && COMMA !in ids[i]
  }

  /** Up to the first comma. */
  function Head(s: string): string {
    if s == [] || s[0] == COMMA then [] else [s[0]] + Head(s[1..])
  }

  lemma {:induction false} HeadOf(id: string, rest: string)
    requires COMMA !in id
    ensures Head(id + [COMMA] + rest) == id && Head(id) == id
    decreases |id|
  {
    if id != [] {
      HeadOf(id[1..], rest);
      assert (id + [COMMA] + rest)[1..] == id[1..] + [COMMA] + rest;
      assert id == [id[0]] + id[1..];
    } else {
      assert (id + [COMMA] + rest)[0] == COMMA;
    }
  }

  lemma {:induction false} HeadOfJoin(ids: seq<string>)
    requires Plain(ids) && ids != []
    ensures Join(ids) != [] && Head(Join(ids)) == ids[0]
    ensures |ids| == 1 <==> |Join(ids)| == |ids[0]|
    ensures |ids| > 1 ==> Join(ids)[|ids[0]| + 1..] == Join(ids[1..])
  {
    HeadOf(ids[0], if |ids| > 1 then Join(ids[1..]) else []);
  }

  /** Plain ids can be read off their joined text. */
  lemma {:induction false} JoinOnce(a: seq<string>, b: seq<string>)
    requires Plain(a) && Plain(b) && Join(a) == Join(b)
    ensures a == b
    decreases |a|
  {
    if a != [] && b != [] {
      HeadOfJoin(a);
      HeadOfJoin(b);
      assert a == [a[0]] + a[1..] && b == [b[0]] + b[1..];
      if |a| > 1 {
        JoinOnce(a[1..], b[1..]);
      }
    } else if a != [] {
      HeadOfJoin(a);
    } else if b != [] {
      HeadOfJoin(b);
    }
  }

  /** Two lists of plain ids have the same key exactly when they hold the same ids, in whatever order. */
  lemma {:induction false} SameKeyIff(a: seq<string>, b: seq<string>)
    requires Plain(a) && Plain(b)
    ensures Key(a) == Key(b) <==> multiset(a) == multiset(b)
  {
    LessIsOrdering(a);
    LessIsOrdering(b);
    Sorting.SortSorts(a, Less);
    Sorting.SortSorts(b, Less);
    var sa, sb := Sorting.Sort(a, Less), Sorting.Sort(b, Less);
    PlainSorted(a, sa);
    PlainSorted(b, sb);
    if Key(a) == Key(b) {
      JoinOnce(sa, sb);
    }
    if multiset(a) == multiset(b) {
      SortedOnce(sa, sb);
    }
  }

  lemma {:induction false} PlainSorted(ids: seq<string>, sorted: seq<string>)
    requires Plain(ids) && multiset(sorted) == multiset(ids)
    ensures Plain(sorted)
  {
    Sorting.SameElements(ids, sorted);
    forall i | 0 <= i < |sorted| ensures sorted[i] != [] && COMMA !in sorted[i] {
      assert sorted[i] in ids;
      var k :| 0 <= k < |ids| && ids[k] == sorted[i];
    }
  }

  /** With a comma inside an id two different cards share a key. */
  lemma {:induction false} CommaClash()
    ensures Key(["a,b"]) == Key(["a", "b"])
    ensures multiset(["a,b"]) != multiset(["a", "b"])
  {
    assert Sorting.Sort(["a"], Less) == ["a"] by {
      assert ["a"][..0] == [];
    }
    assert ["a", "b"][..1] == ["a"];
    assert ["a,b"][..0] == [];
    assert !Less("b", "a");
    assert Sorting.Sort(["a", "b"], Less) == ["a", "b"];
    assert Join(["b"]) == "b" && ["a", "b"][1..] == ["b"];
    assert |multiset(["a,b"])| == 1 && |multiset(["a", "b"])| == 2;
  }
}
