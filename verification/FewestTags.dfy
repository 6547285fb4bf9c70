/**
 * Fewest tags first: which copies get a tag as the cards are drawn, and which ones a take that names no card gets.
 */
module FewestTags {
  import opened Options
  import opened Sums
  import opened Cohorts
  import opened Takes

  /** Whether the copies went from `before` to `after`, and no cohort gained any. */
  ghost predicate Lowered(before: seq<Cohort>, after: seq<Cohort>) {
    |after| == |before| && forall k :: 0 <= k < |before| ==>
      after[k].tags == before[k].tags && after[k].count <= before[k].count
  }

  /** The one cohort carries fewer tags than the other, or as many and is earlier in the list. */
  predicate Sooner(cs: seq<Cohort>, j: nat, k: nat)
    requires j < |cs| && k < |cs|
  {
    |cs[j].tags| < |cs[k].tags| || (|cs[j].tags| == |cs[k].tags| && j < k)
  }

  /**
   * A cohort gives copies only after every cohort with fewer tags, or with as many and earlier in the list, is empty.
   */
  ghost predicate FewestFirst(before: seq<Cohort>, after: seq<Cohort>) {
    && Lowered(before, after)
    && forall j, k ::
      0 <= j < |before| && 0 <= k < |before| && after[k].count < before[k].count && Sooner(before, j, k) ==>
        after[j].count == 0
  }

  // ---------------------------------------------------------------------------------------------
  // One take
  // ---------------------------------------------------------------------------------------------

  /** Whoever comes later in the order gives copies only once those before have none left. */
  ghost predicate InTurn(order: seq<nat>, before: seq<Cohort>, after: seq<Cohort>)
    requires Within(order, |before|) && |after| == |before|
  {
    forall m, n :: 0 <= m < n < |order| && after[order[n]].count < before[order[n]].count ==> after[order[m]].count == 0
  }

  /** What drawing keeps: no more than wanted, in turn, and only from the cohorts in the order. */
  ghost predicate Drawing(cs: seq<Cohort>, order: seq<nat>, wanted: nat, left: seq<Cohort>)
    requires Within(order, |cs|)
  {
    && Lowered(cs, left) && InTurn(order, cs, left)
    && forall k :: 0 <= k < |cs| && (k !in order || wanted == 0) ==> left[k].count == cs[k].count
  }

  lemma {:induction false} OneMoreDrawn(cs: seq<Cohort>, order: seq<nat>, wanted: nat, left: seq<Cohort>)
    requires Positions(cs, order) && order != []
    requires var taken := Min(wanted, cs[order[0]].count);
      Drawing(Lower(cs, order[0], taken), order[1..], wanted - taken, left)
    ensures Drawing(cs, order, wanted, left)
  {
    var k, rest, lowered := order[0], order[1..], Lower(cs, order[0], Min(wanted, cs[order[0]].count));
    assert k !in rest;
    forall m, n | 0 <= m < n < |order| && left[order[n]].count < cs[order[n]].count ensures left[order[m]].count == 0 {
      assert order[n] == rest[n - 1] && lowered[order[n]] == cs[order[n]];
      if m > 0 {
        assert order[m] == rest[m - 1];
      }
    }
    forall i | 0 <= i < |cs| && (i !in order || wanted == 0) ensures left[i].count == cs[i].count {
      assert i in rest ==> i in order;
    }
  }

  lemma {:induction false} DrawnInTurn(cs: seq<Cohort>, order: seq<nat>, wanted: nat, removed: map<TagId, nat>)
    requires Positions(cs, order)
    ensures Drawing(cs, order, wanted, DrawLoose(cs, order, wanted, removed).left)
    decreases |order|
  {
    if order != [] {
      var k, rest := order[0], order[1..];
      var taken := Min(wanted, cs[k].count);
      if taken > 0 {
        DrawnInTurn(Lower(cs, k, taken), rest, wanted - taken, Record(removed, cs[k].tags, taken));
      } else {
        assert Lower(cs, k, 0) == cs;
        DrawnInTurn(cs, rest, wanted, removed);
      }
      OneMoreDrawn(cs, order, wanted, DrawLoose(cs, order, wanted, removed).left);
    }
  }

  lemma {:induction false} EveryPlace(cs: seq<Cohort>, k: nat) returns (n: nat)
    requires k < |cs|
    ensures n < |WholeOrder(cs)| && WholeOrder(cs)[n] == k
  {
    assert AllPositions(|cs|)[k] == k;
    assert k in WholeOrder(cs);
    n :| n < |WholeOrder(cs)| && WholeOrder(cs)[n] == k;
  }

  lemma {:induction false} InTurnIsFewestFirst(cs: seq<Cohort>, left: seq<Cohort>)
    requires Lowered(cs, left) && InTurn(WholeOrder(cs), cs, left)
    ensures FewestFirst(cs, left)
  {
    forall j, k | 0 <= j < |cs| && 0 <= k < |cs| && left[k].count < cs[k].count && Sooner(cs, j, k)
      ensures left[j].count == 0
    {
      var m := EveryPlace(cs, j);
      var n := EveryPlace(cs, k);
    }
  }

  /** One draw of copies in the order of the cohorts as they were before any were taken. */
  lemma {:induction false} DrawsFewestFirst(first: seq<Cohort>, cs: seq<Cohort>, wanted: nat, removed: map<TagId, nat>)
    requires |first| == |cs| && forall k :: 0 <= k < |cs| ==> first[k].tags == cs[k].tags
    ensures FewestFirst(cs, DrawLoose(cs, WholeOrder(first), wanted, removed).left)
  {
    OrderFrame(first, cs, AllPositions(|cs|));
    DrawnInTurn(cs, WholeOrder(cs), wanted, removed);
    InTurnIsFewestFirst(cs, DrawLoose(cs, WholeOrder(cs), wanted, removed).left);
  }

  // ---------------------------------------------------------------------------------------------
  // The second pass
  // ---------------------------------------------------------------------------------------------

  /**
   * A take that names no card gets the copies with the fewest tags of those that the takes before it left, as many as
   * it asks for, and what is recorded under each tag is what the tag's copies lost.
   */
  lemma {:induction false} UnnamedTakesFewestTags(
      named: Plan, takes: seq<Take>, n: nat, sofar: Plan, known: set<TagId>)
    requires |named.removed| == |takes| && n < |takes| && takes[n].tagIds.None? && Clean(named.left, known)
    requires named.removed[n] == map[]
    requires LooseTakes(named, WholeOrder(named.left), takes, n) == Some(sofar)
    ensures var after := LooseTakes(named, WholeOrder(named.left), takes, n + 1);
      after.Some? ==>
        && FewestFirst(sofar.left, after.value.left)
        && Total(after.value.left) + takes[n].count == Total(sofar.left)
        && (forall i :: 0 <= i < |takes| && i != n ==> after.value.removed[i] == sofar.removed[i])
        && forall id ::
          CopiesWith(after.value.left, id) + Get(after.value.removed[n], id) == CopiesWith(sofar.left, id)
  {
    LooseTakesNext(named, takes, n, sofar);
    var order, wanted := WholeOrder(named.left), takes[n].count;
    DrawsFewestFirst(named.left, sofar.left, wanted, map[]);
    WholeOrderHeld(named.left, sofar.left);
    LooseAmount(sofar.left, order, wanted, map[]);
    forall k | 0 <= k < |sofar.left| ensures NoRepeats(sofar.left[k].tags) && Elements(sofar.left[k].tags) <= known {
      assert sofar.left[k].tags == named.left[k].tags;
    }
    forall id
      ensures var drawn := DrawLoose(sofar.left, order, wanted, map[]);
        CopiesWith(drawn.left, id) + Get(drawn.removed, id) == CopiesWith(sofar.left, id)
    {
      LooseConserves(sofar.left, order, wanted, map[], known, id);
      assert Get(map[], id) == 0;
    }
  }

  lemma {:induction false} FewestFirstChains(first: seq<Cohort>, next: seq<Cohort>, last: seq<Cohort>)
    requires FewestFirst(first, next) && FewestFirst(next, last)
    ensures FewestFirst(first, last)
  {
    forall j, k | 0 <= j < |first| && 0 <= k < |first| && last[k].count < first[k].count && Sooner(first, j, k)
      ensures last[j].count == 0
    {
      assert Sooner(next, j, k);
    }
  }

  /** So do all takes that name no card together, of what the named ones left. */
  lemma {:induction false} PassTakesFewestTags(named: Plan, takes: seq<Take>, n: nat)
    requires |named.removed| == |takes| && n <= |takes|
    ensures var after := LooseTakes(named, WholeOrder(named.left), takes, n);
      after.Some? ==> FewestFirst(named.left, after.value.left)
    decreases n
  {
    if n > 0 && LooseTakes(named, WholeOrder(named.left), takes, n).Some? {
      PassTakesFewestTags(named, takes, n - 1);
      var sofar := LooseTakes(named, WholeOrder(named.left), takes, n - 1).value;
      LooseTakesNext(named, takes, n - 1, sofar);
      if takes[n - 1].tagIds.None? {
        var wanted := takes[n - 1].count;
        DrawsFewestFirst(named.left, sofar.left, wanted, sofar.removed[n - 1]);
        FewestFirstChains(
          named.left, sofar.left, DrawLoose(sofar.left, WholeOrder(named.left), wanted, sofar.removed[n - 1]).left);
      }
    }
  }

  // ---------------------------------------------------------------------------------------------
  // As few tags as possible are lost
  // ---------------------------------------------------------------------------------------------

  /** The most tags that a cohort carries which gave copies; none gave any if it is zero for want of one. */
  lemma {:induction false} MostTags(before: seq<Cohort>, after: seq<Cohort>) returns (most: nat)
    requires FewestFirst(before, after)
    ensures forall k :: 0 <= k < |before| && after[k].count < before[k].count ==> |before[k].tags| <= most
    ensures forall k :: 0 <= k < |before| && |before[k].tags| < most ==> after[k].count == 0
  {
    most := 0;
    var n := 0;
    while n < |before|
      invariant n <= |before|
      invariant forall k :: 0 <= k < n && after[k].count < before[k].count ==> |before[k].tags| <= most
      invariant most == 0 || exists k :: 0 <= k < n && after[k].count < before[k].count && |before[k].tags| == most
    {
      if after[n].count < before[n].count && |before[n].tags| > most {
        most := |before[n].tags|;
      }
      n := n + 1;
    }
  }

  lemma {:induction false} WeighedAlike(ours: int, theirs: int, tags: nat, most: nat)
    requires tags < most ==> ours <= theirs
    requires most < tags ==> theirs <= ours
    ensures ours * tags - theirs * tags >= most * ours - most * theirs
  {
    var gain, more := ours - theirs, tags - most;
    assert gain * more >= 0;
    assert gain * more == ours * tags - theirs * tags - (most * ours - most * theirs);
  }

  lemma {:induction false} LabelsWeighed(ours: seq<Cohort>, theirs: seq<Cohort>, most: nat, n: nat)
    requires n <= |ours| == |theirs| && forall k :: 0 <= k < |ours| ==> ours[k].tags == theirs[k].tags
    requires forall k :: 0 <= k < |ours| && |ours[k].tags| < most ==> ours[k].count <= theirs[k].count
    requires forall k :: 0 <= k < |ours| && most < |ours[k].tags| ==> theirs[k].count <= ours[k].count
    ensures Labels(ours[..n]) - Labels(theirs[..n]) >= most * Total(ours[..n]) - most * Total(theirs[..n])
    decreases n
  {
    if n > 0 {
      LabelsWeighed(ours, theirs, most, n - 1);
      var a, b := ours[n - 1], theirs[n - 1];
      assert ours[..n] == ours[..n - 1] + [a] && theirs[..n] == theirs[..n - 1] + [b];
      SumAppend(ours[..n - 1], a, LABELS);
      SumAppend(theirs[..n - 1], b, LABELS);
      SumAppend(ours[..n - 1], a, COPIES);
      SumAppend(theirs[..n - 1], b, COPIES);
      WeighedAlike(a.count, b.count, |a.tags|, most);
      Distributes(most, Total(ours[..n - 1]), a.count);
      Distributes(most, Total(theirs[..n - 1]), b.count);
    }
  }

  lemma {:induction false} Distributes(a: int, b: int, c: int)
    ensures a * (b + c) == a * b + a * c
  {
  }

  /** Taking fewest tags first leaves at least as many tags on the copies as any other choice of as many copies. */
  lemma {:induction false} FewestTagsLost(before: seq<Cohort>, after: seq<Cohort>, other: seq<Cohort>)
    requires FewestFirst(before, after) && Lowered(before, other) && Total(after) == Total(other)
    ensures Labels(after) >= Labels(other)
  {
    var most := MostTags(before, after);
    LabelsWeighed(after, other, most, |after|);
    assert after[..|after|] == after && other[..|other|] == other;
  }

  // ---------------------------------------------------------------------------------------------
  // Giving out a tag
  // ---------------------------------------------------------------------------------------------

  /** What becomes of a card's place in the list when `n` of its copies get the tag. */
  function PlaceAfter(c: Cohort, id: TagId, n: nat): Cohort
    requires n <= c.count
  {
    if n == 0 then c
    else if n == c.count then Cohort(c.count, c.tags + [id])
    else Cohort(c.count - n, c.tags)
  }

  ghost predicate Fitting(cs: seq<Cohort>, given: seq<nat>) {
    |given| == |cs| && forall k :: 0 <= k < |cs| ==> given[k] <= cs[k].count
  }

  ghost predicate Parted(cs: seq<Cohort>, given: seq<nat>, k: nat)
    requires Fitting(cs, given) && k < |cs|
  {
    0 < given[k] < cs[k].count
  }

  /** The cards keep their places; if one gives only some of its copies the tag, those are a new card at the end. */
  ghost predicate Placed(cs: seq<Cohort>, after: seq<Cohort>, id: TagId, given: seq<nat>) {
    && Fitting(cs, given) && |cs| <= |after| <= |cs| + 1
    && (forall k :: 0 <= k < |cs| ==> after[k] == PlaceAfter(cs[k], id, given[k]))
    && (|after| == |cs| ==> forall k :: 0 <= k < |cs| ==> !Parted(cs, given, k))
    && (|after| > |cs| ==> exists k ::
          0 <= k < |cs| && Parted(cs, given, k) && after[|cs|] == Cohort(given[k], cs[k].tags + [id]))
    && forall j, k :: 0 <= j < |cs| && 0 <= k < |cs| && Parted(cs, given, j) && Parted(cs, given, k) ==> j == k
  }

  ghost predicate GivenInTurn(cs: seq<Cohort>, order: seq<nat>, remaining: nat, given: seq<nat>)
    requires Within(order, |cs|) && Fitting(cs, given)
  {
    && (forall k :: 0 <= k < |cs| && (k !in order || remaining == 0) ==> given[k] == 0)
    && forall m, n :: 0 <= m < n < |order| && given[order[n]] > 0 ==> given[order[m]] == cs[order[m]].count
  }

  lemma {:induction false} NothingGiven(cs: seq<Cohort>, order: seq<nat>, id: TagId, remaining: nat)
      returns (given: seq<nat>)
    requires Within(order, |cs|) && (order == [] || remaining == 0)
    ensures Placed(cs, Assign(cs, order, id, remaining), id, given) && GivenInTurn(cs, order, remaining, given)
  {
    assert Assign(cs, order, id, remaining) == cs;
    given := seq(|cs|, k => 0);
  }

  lemma {:induction false} PartGiven(cs: seq<Cohort>, order: seq<nat>, id: TagId, remaining: nat)
      returns (given: seq<nat>)
    requires Positions(cs, order) && order != [] && 0 < remaining < cs[order[0]].count
    ensures Placed(cs, Assign(cs, order, id, remaining), id, given) && GivenInTurn(cs, order, remaining, given)
  {
    AssignPart(cs, order, id, remaining);
    given := seq(|cs|, k => if k == order[0] then remaining else 0);
    assert Parted(cs, given, order[0]);
  }

  lemma {:induction false} WholeGiven(cs: seq<Cohort>, after: seq<Cohort>, order: seq<nat>, id: TagId, remaining: nat,
      later: seq<nat>)
    requires Positions(cs, order) && order != [] && 0 < cs[order[0]].count <= remaining
    requires var next := Give(cs, order[0], id, cs[order[0]].count);
      Placed(next, after, id, later) && GivenInTurn(next, order[1..], remaining - cs[order[0]].count, later)
    ensures var given := later[order[0] := cs[order[0]].count];
      Placed(cs, after, id, given) && GivenInTurn(cs, order, remaining, given)
  {
    var first, rest, next := order[0], order[1..], Give(cs, order[0], id, cs[order[0]].count);
    assert first !in rest && later[first] == 0;
    var given := later[first := cs[first].count];
    forall k | 0 <= k < |cs| ensures Parted(cs, given, k) <==> Parted(next, later, k) {
    }
    forall k | 0 <= k < |cs| && k !in order ensures given[k] == 0 {
      assert k !in rest;
    }
    forall m, n | 0 <= m < n < |order| && given[order[n]] > 0 ensures given[order[m]] == cs[order[m]].count {
      assert order[n] == rest[n - 1] && order[n] != first;
      if m > 0 {
        assert order[m] == rest[m - 1] && order[m] != first;
      }
    }
  }

  /** However `next` is given the rest of the tag, `cs` is given it with the first card in front. */
  ghost predicate Carries(cs: seq<Cohort>, next: seq<Cohort>, order: seq<nat>, id: TagId, remaining: nat) {
    && |next| == |cs| && Within(order, |cs|) && order != [] && cs[order[0]].count <= remaining
    && forall after, later ::
      Placed(next, after, id, later) && GivenInTurn(next, order[1..], remaining - cs[order[0]].count, later) ==>
        var given := later[order[0] := cs[order[0]].count];
        Placed(cs, after, id, given) && GivenInTurn(cs, order, remaining, given)
  }

  ghost predicate Positive(cs: seq<Cohort>) {
    forall k :: 0 <= k < |cs| ==> cs[k].count > 0
  }

  lemma {:induction false} WholeAssigned(cs: seq<Cohort>, order: seq<nat>, id: TagId, remaining: nat)
      returns (next: seq<Cohort>)
    requires Positions(cs, order) && order != [] && 0 < cs[order[0]].count <= remaining && Positive(cs)
    ensures Positions(next, order[1..]) && Positive(next) && Carries(cs, next, order, id, remaining)
    ensures Assign(cs, order, id, remaining) == Assign(next, order[1..], id, remaining - cs[order[0]].count)
  {
    var whole := cs[order[0]].count;
    next := Give(cs, order[0], id, whole);
    forall after, later | Placed(next, after, id, later) && GivenInTurn(next, order[1..], remaining - whole, later)
      ensures Placed(cs, after, id, later[order[0] := whole])
      ensures GivenInTurn(cs, order, remaining, later[order[0] := whole])
    {
      WholeGiven(cs, after, order, id, remaining, later);
    }
  }

  lemma {:induction false} CarriedOn(
      cs: seq<Cohort>, next: seq<Cohort>, after: seq<Cohort>, order: seq<nat>, id: TagId, remaining: nat,
      later: seq<nat>) returns (given: seq<nat>)
    requires Carries(cs, next, order, id, remaining) && Placed(next, after, id, later)
    requires GivenInTurn(next, order[1..], remaining - cs[order[0]].count, later)
    ensures Placed(cs, after, id, given) && GivenInTurn(cs, order, remaining, given)
  {
    given := later[order[0] := cs[order[0]].count];
  }

  lemma {:induction false} AssignedInTurn(cs: seq<Cohort>, order: seq<nat>, id: TagId, remaining: nat)
      returns (given: seq<nat>)
    requires Positions(cs, order) && Positive(cs)
    ensures Placed(cs, Assign(cs, order, id, remaining), id, given) && GivenInTurn(cs, order, remaining, given)
    decreases |order|
  {
    if order == [] || remaining == 0 {
      given := NothingGiven(cs, order, id, remaining);
    } else if remaining < cs[order[0]].count {
      given := PartGiven(cs, order, id, remaining);
    } else {
      var next := WholeAssigned(cs, order, id, remaining);
      var rest, left := order[1..], remaining - cs[order[0]].count;
      var later := AssignedInTurn(next, rest, id, left);
      given := CarriedOn(cs, next, Assign(next, rest, id, left), order, id, remaining, later);
    }
  }

  /** A card's copies get the tag only once every card without it that comes sooner has it on all its copies. */
  ghost predicate TaggedFewestFirst(cs: seq<Cohort>, id: TagId, given: seq<nat>)
    requires Fitting(cs, given)
  {
    && (forall k :: 0 <= k < |cs| && given[k] > 0 ==> id !in cs[k].tags)
    && forall j, k ::
      0 <= j < |cs| && 0 <= k < |cs| && given[k] > 0 && id !in cs[j].tags && Sooner(cs, j, k) ==>
        given[j] == cs[j].count
  }

  lemma {:induction false} TurnsAreFewestFirst(cs: seq<Cohort>, id: TagId, remaining: nat, given: seq<nat>)
    requires Fitting(cs, given) && GivenInTurn(cs, FewestTagsFirst(cs, WithoutTag(cs, id)), remaining, given)
    ensures TaggedFewestFirst(cs, id, given)
  {
    var order := FewestTagsFirst(cs, WithoutTag(cs, id));
    forall k | 0 <= k < |cs| ensures k in order <==> id !in cs[k].tags {
    }
    forall j, k |
        0 <= j < |cs| && 0 <= k < |cs| && given[k] > 0 && id !in cs[j].tags && Sooner(cs, j, k)
      ensures given[j] == cs[j].count
    {
      var m :| 0 <= m < |order| && order[m] == j;
      var n :| 0 <= n < |order| && order[n] == k;
    }
  }

  /**
   * The tags are given out one after the other: the `n`-th to the copies with the fewest tags of those that lack it,
   * the earlier card first where they have as many. Cards keep their places, and one that is split puts the copies
   * with the tag at the end.
   */
  lemma {:induction false} TagsInTurn(count: nat, tags: seq<Tag>, n: nat) returns (given: seq<nat>)
    requires n < |tags|
    ensures var cs, after := Draw(count, tags[..n]), Draw(count, tags[..n + 1]);
      Placed(cs, after, tags[n].id, given) && TaggedFewestFirst(cs, tags[n].id, given)
  {
    var cs, id := Draw(count, tags[..n]), tags[n].id;
    DrawNext(count, tags, n);
    DrawPositive(count, tags[..n]);
    given := AssignedInTurn(cs, FewestTagsFirst(cs, WithoutTag(cs, id)), id, Min(tags[n].count, count));
    TurnsAreFewestFirst(cs, id, Min(tags[n].count, count), given);
  }

  /** Without tags there is one card of all the copies, or none if there are no copies. */
  lemma {:induction false} OneCardAtFirst(count: nat)
    ensures Draw(count, []) == if count == 0 then [] else [Cohort(count, [])]
  {
  }
}
