/** How the copies of one stage, known only by a count and a count per tag, are split into cards. */
module Cohorts {
  import opened Sums

  type TagId = nat

  datatype Tag = Tag(id: TagId, count: nat)

  datatype Cohort = Cohort(count: nat, tags: seq<TagId>)

  ghost predicate DistinctTags(tags: seq<Tag>) {
    forall i, j :: 0 <= i < j < |tags| ==> tags[i].id != tags[j].id
  }

  function Min(a: nat, b: nat): nat {
    if a < b then a else b
  }

  // ---------------------------------------------------------------------------------------------
  // The order in which cohorts receive or give up copies
  // ---------------------------------------------------------------------------------------------

  /** A stable sort by number of tags puts cohort `i` before cohort `j`. */
  predicate Before(cs: seq<Cohort>, i: nat, j: nat)
    requires i < |cs| && j < |cs|
  {
    |cs[i].tags| < |cs[j].tags| || (|cs[i].tags| == |cs[j].tags| && i < j)
  }

  ghost predicate Within(order: seq<nat>, bound: nat) {
    forall n :: 0 <= n < |order| ==> order[n] < bound
  }

  ghost predicate Positions(cs: seq<Cohort>, order: seq<nat>) {
    && Within(order, |cs|)
    && (forall i, j :: 0 <= i < j < |order| ==> order[i] != order[j])
  }

  ghost predicate Ordered(cs: seq<Cohort>, order: seq<nat>) {
    && Positions(cs, order)
    && (forall i, j :: 0 <= i < j < |order| ==> Before(cs, order[i], order[j]))
  }

  function Insert(cs: seq<Cohort>, order: seq<nat>, k: nat): (r: seq<nat>)
    requires k < |cs| && Ordered(cs, order) && k !in order
    ensures Ordered(cs, r) && (forall i :: i in r <==> i == k || i in order)
    ensures |r| == |order| + 1
  {
    if order == [] then [k]
    else
      assert order == [order[0]] + order[1..];
      if Before(cs, k, order[0]) then [k] + order
      else
        var rest := Insert(cs, order[1..], k);
        assert forall n :: 0 <= n < |rest| ==> Before(cs, order[0], rest[n]) by {
          assert forall n :: 0 <= n < |rest| ==> rest[n] in rest;
        }
        [order[0]] + rest
  }

  /** `sort` by ascending number of tags, keeping the list order of cohorts with equally many. */
  function FewestTagsFirst(cs: seq<Cohort>, picked: seq<nat>): (r: seq<nat>)
    requires Positions(cs, picked)
    ensures Ordered(cs, r) && (forall i :: i in r <==> i in picked)
    ensures |r| == |picked|
  {
    if picked == [] then []
    else
      var last := |picked| - 1;
      assert forall i :: i in picked <==> i == picked[last] || i in picked[..last];
      Insert(cs, FewestTagsFirst(cs, picked[..last]), picked[last])
  }

  /** The positions, in list order, of the cohorts that do not carry the tag. */
  function WithoutTag(cs: seq<Cohort>, id: TagId): (r: seq<nat>)
    ensures Positions(cs, r)
    ensures forall i: nat :: i in r <==> i < |cs| && id !in cs[i].tags
  {
    if cs == [] then []
    else
      var last := |cs| - 1;
      WithoutTag(cs[..last], id) + if id in cs[last].tags then [] else [last]
  }

  // ---------------------------------------------------------------------------------------------
  // Drawing the cohorts
  // ---------------------------------------------------------------------------------------------

  /** Gives the tag to `copies` copies of cohort `k`, splitting them off unless that is all of them. */
  function Give(cs: seq<Cohort>, k: nat, id: TagId, copies: nat): seq<Cohort>
    requires k < |cs| && copies <= cs[k].count
  {
    var tagged := cs[k].tags + [id];
    if copies == cs[k].count then cs[k := Cohort(copies, tagged)]
    else cs[k := Cohort(cs[k].count - copies, cs[k].tags)] + [Cohort(copies, tagged)]
  }

  function Assign(cs: seq<Cohort>, order: seq<nat>, id: TagId, remaining: nat): seq<Cohort>
    requires Within(order, |cs|)
    decreases |order|
  {
    if order == [] || remaining == 0 then cs
    else
      var given := Min(remaining, cs[order[0]].count);
      Assign(Give(cs, order[0], id, given), order[1..], id, remaining - given)
  }

  function GiveTag(count: nat, cs: seq<Cohort>, tag: Tag): seq<Cohort> {
    Assign(cs, FewestTagsFirst(cs, WithoutTag(cs, tag.id)), tag.id, Min(tag.count, count))
  }

  /** The cohorts after the tags have been given out in order. */
  function Draw(count: nat, tags: seq<Tag>): seq<Cohort> {
    if tags == [] then (if count > 0 then [Cohort(count, [])] else [])
    else GiveTag(count, Draw(count, tags[..|tags| - 1]), tags[|tags| - 1])
  }

  // ---------------------------------------------------------------------------------------------
  // What a list of cohorts says about copies
  // ---------------------------------------------------------------------------------------------

  ghost const COPIES: Cohort -> nat := (c: Cohort) => c.count

  ghost function Carrying(id: TagId): Cohort -> nat {
    (c: Cohort) => if id in c.tags then c.count else 0
  }

  ghost const LABELS: Cohort -> nat := (c: Cohort) => c.count * |c.tags|

  /** How many tags the copies carry altogether. */
  ghost function Labels(cs: seq<Cohort>): nat {
    Sum(cs, LABELS)
  }

  ghost function Total(cs: seq<Cohort>): nat {
    Sum(cs, COPIES)
  }

  /** How many copies carry the tag. */
  ghost function CopiesWith(cs: seq<Cohort>, id: TagId): nat {
    Sum(cs, Carrying(id))
  }

  ghost function TagSet(c: Cohort): set<TagId> {
    set t | t in c.tags
  }

  ghost predicate NoRepeats(ids: seq<TagId>) {
    forall i, j :: 0 <= i < j < |ids| ==> ids[i] != ids[j]
  }

  /** No two cards of the stage carry the same tags, no card is empty, and no card repeats a tag. */
  ghost predicate Cards(cs: seq<Cohort>) {
    && (forall i :: 0 <= i < |cs| ==> cs[i].count > 0 && NoRepeats(cs[i].tags))
    && (forall i, j :: 0 <= i < j < |cs| ==> TagSet(cs[i]) != TagSet(cs[j]))
  }

  /** Any two copies' tag counts differ by at most one. */
  ghost predicate Balanced(cs: seq<Cohort>) {
    forall i, j :: 0 <= i < |cs| && 0 <= j < |cs| ==> |cs[i].tags| <= |cs[j].tags| + 1
  }

  // ---------------------------------------------------------------------------------------------
  // Giving one tag out
  // ---------------------------------------------------------------------------------------------

  lemma {:induction false} GiveCounts(cs: seq<Cohort>, k: nat, id: TagId, copies: nat)
    requires k < |cs| && copies <= cs[k].count && id !in cs[k].tags
    ensures Total(Give(cs, k, id, copies)) == Total(cs)
    ensures CopiesWith(Give(cs, k, id, copies), id) == CopiesWith(cs, id) + copies
    ensures forall other :: other != id ==> CopiesWith(Give(cs, k, id, copies), other) == CopiesWith(cs, other)
    ensures Labels(Give(cs, k, id, copies)) == Labels(cs) + copies
  {
    var whole := Cohort(copies, cs[k].tags + [id]);
    var part := Cohort(cs[k].count - copies, cs[k].tags);
    assert LABELS(whole) + LABELS(part) == LABELS(cs[k]) + copies by {
      var n := |cs[k].tags|;
      assert (cs[k].count - copies) * n == cs[k].count * n - copies * n && copies * (n + 1) == copies * n + copies;
    }
    forall weight: Cohort -> nat
      ensures Sum(Give(cs, k, id, copies), weight)
           == Sum(cs, weight) - weight(cs[k]) + weight(whole) + if copies == cs[k].count then 0 else weight(part)
    {
      if copies == cs[k].count {
        SumUpdate(cs, k, whole, weight);
      } else {
        SumUpdate(cs, k, part, weight);
        SumAppend(cs[k := part], whole, weight);
      }
    }
  }

  /** While a tag is being given out, the cohorts still waiting and the ones already tagged stay apart. */
  ghost predicate Waiting(cs: seq<Cohort>, order: seq<nat>, id: TagId) {
    && Cards(cs) && Ordered(cs, order)
    && (forall n :: 0 <= n < |order| ==> id !in cs[order[n]].tags)
    && (forall n, j :: 0 <= n < |order| && 0 <= j < |cs| ==> TagSet(cs[j]) != TagSet(cs[order[n]]) + {id})
  }

  lemma {:induction false} GiveCards(cs: seq<Cohort>, order: seq<nat>, id: TagId, copies: nat)
    requires order != [] && Waiting(cs, order, id) && 0 < copies <= cs[order[0]].count
    ensures Cards(Give(cs, order[0], id, copies))
  {
    var k, after := order[0], Give(cs, order[0], id, copies);
    var tagged := Cohort(copies, cs[k].tags + [id]);
    var untouched := cs[k := Cohort(cs[k].count - copies, cs[k].tags)];
    assert id !in cs[order[0]].tags;
    assert NoRepeats(tagged.tags);
    assert TagSet(tagged) == TagSet(cs[k]) + {id};
    assert TagSet(untouched[k]) == TagSet(cs[k]);
    forall j | 0 <= j < |cs| ensures TagSet(cs[j]) != TagSet(tagged) {
      assert TagSet(cs[j]) != TagSet(cs[order[0]]) + {id};
    }
  }

  lemma {:induction false} GiveWaits(cs: seq<Cohort>, order: seq<nat>, id: TagId)
    requires order != [] && Waiting(cs, order, id)
    ensures Waiting(Give(cs, order[0], id, cs[order[0]].count), order[1..], id)
  {
    var k, rest := order[0], order[1..];
    var tagged := Cohort(cs[k].count, cs[k].tags + [id]);
    var after := cs[k := tagged];
    GiveCards(cs, order, id, cs[k].count);
    assert after == Give(cs, k, id, cs[k].count);
    assert TagSet(tagged) == TagSet(cs[k]) + {id};
    forall n | 0 <= n < |rest| ensures rest[n] == order[n + 1] && after[rest[n]] == cs[order[n + 1]] {}
    forall n, j | 0 <= n < |rest| && 0 <= j < |after|
      ensures TagSet(after[j]) != TagSet(after[rest[n]]) + {id}
    {
      var i := order[n + 1];
      assert TagSet(cs[j]) != TagSet(cs[i]) + {id};
      assert (TagSet(cs[i]) + {id}) - {id} == TagSet(cs[i]) && (TagSet(cs[k]) + {id}) - {id} == TagSet(cs[k]);
    }
  }

  /** The copies the cohorts in `order` hold, which is all a tag can still be given to. */
  ghost function Held(cs: seq<Cohort>, order: seq<nat>): nat
    requires Within(order, |cs|)
  {
    if order == [] then 0 else cs[order[0]].count + Held(cs, order[1..])
  }

  lemma {:induction false} HeldFrame(cs: seq<Cohort>, after: seq<Cohort>, order: seq<nat>)
    requires Within(order, |cs|) && |cs| <= |after|
    requires forall n :: 0 <= n < |order| ==> after[order[n]] == cs[order[n]]
    ensures Held(after, order) == Held(cs, order)
  {
    if order != [] {
      HeldFrame(cs, after, order[1..]);
    }
  }

  /** What giving the tag to `given` of the copies held in `order` does to every count. */
  ghost predicate Tagged(cs: seq<Cohort>, after: seq<Cohort>, id: TagId, given: nat) {
    && Total(after) == Total(cs)
    && CopiesWith(after, id) == CopiesWith(cs, id) + given
    && Labels(after) == Labels(cs) + given
    && (forall other :: other != id ==> CopiesWith(after, other) == CopiesWith(cs, other))
  }

  lemma {:induction false} AssignTags(cs: seq<Cohort>, order: seq<nat>, id: TagId, remaining: nat)
    requires Waiting(cs, order, id) && remaining <= Held(cs, order)
    ensures Tagged(cs, Assign(cs, order, id, remaining), id, remaining)
    ensures Cards(Assign(cs, order, id, remaining))
    ensures |cs| <= |Assign(cs, order, id, remaining)| <= |cs| + 1
    decreases |order|
  {
    if order != [] && remaining > 0 {
      var k := order[0];
      FirstLacksTag(cs, order, id);
      if remaining < cs[k].count {
        GiveCounts(cs, k, id, remaining);
        GiveCards(cs, order, id, remaining);
        AssignPart(cs, order, id, remaining);
      } else {
        GiveCounts(cs, k, id, cs[k].count);
        GiveWaits(cs, order, id);
        RestHeld(cs, order, id);
        AssignTags(Give(cs, k, id, cs[k].count), order[1..], id, remaining - cs[k].count);
      }
    }
  }

  lemma {:induction false} FirstLacksTag(cs: seq<Cohort>, order: seq<nat>, id: TagId)
    requires order != [] && Waiting(cs, order, id)
    ensures order[0] < |cs| && id !in cs[order[0]].tags
  {
  }

  lemma {:induction false} AssignPart(cs: seq<Cohort>, order: seq<nat>, id: TagId, remaining: nat)
    requires order != [] && Within(order, |cs|) && 0 < remaining < cs[order[0]].count
    ensures Assign(cs, order, id, remaining) == Give(cs, order[0], id, remaining)
  {
  }

  /** The cohorts behind the first one keep their copies. */
  lemma {:induction false} RestHeld(cs: seq<Cohort>, order: seq<nat>, id: TagId)
    requires order != [] && Waiting(cs, order, id)
    ensures Held(Give(cs, order[0], id, cs[order[0]].count), order[1..]) == Held(cs, order[1..])
  {
    var after := Give(cs, order[0], id, cs[order[0]].count);
    forall n | 0 <= n < |order[1..]| ensures after[order[1..][n]] == cs[order[1..][n]] {
      assert order[1..][n] == order[n + 1] && order[0] != order[n + 1];
    }
    HeldFrame(cs, after, order[1..]);
  }

  // ---------------------------------------------------------------------------------------------
  // The order offers every copy, and giving in that order keeps copies level
  // ---------------------------------------------------------------------------------------------

  lemma {:induction false} InsertHeld(cs: seq<Cohort>, order: seq<nat>, k: nat)
    requires k < |cs| && Ordered(cs, order) && k !in order
    ensures Held(cs, Insert(cs, order, k)) == Held(cs, order) + cs[k].count
  {
    if order != [] {
      assert order == [order[0]] + order[1..];
      if !Before(cs, k, order[0]) {
        InsertHeld(cs, order[1..], k);
      }
    }
  }

  lemma {:induction false} HeldAppend(cs: seq<Cohort>, order: seq<nat>, k: nat)
    requires Within(order, |cs|) && k < |cs|
    ensures Within(order + [k], |cs|) && Held(cs, order + [k]) == Held(cs, order) + cs[k].count
  {
    if order != [] {
      HeldAppend(cs, order[1..], k);
      assert (order + [k])[1..] == order[1..] + [k];
    }
  }

  lemma {:induction false} SortedHeld(cs: seq<Cohort>, picked: seq<nat>)
    requires Positions(cs, picked)
    ensures Held(cs, FewestTagsFirst(cs, picked)) == Held(cs, picked)
  {
    if picked != [] {
      var last := |picked| - 1;
      SortedHeld(cs, picked[..last]);
      assert picked == picked[..last] + [picked[last]];
      HeldAppend(cs, picked[..last], picked[last]);
      InsertHeld(cs, FewestTagsFirst(cs, picked[..last]), picked[last]);
    }
  }

  lemma {:induction false} UntaggedHeld(cs: seq<Cohort>, id: TagId)
    requires forall i :: 0 <= i < |cs| ==> id !in cs[i].tags
    ensures Held(cs, WithoutTag(cs, id)) == Total(cs)
  {
    if cs != [] {
      var last := |cs| - 1;
      var front := WithoutTag(cs[..last], id);
      UntaggedHeld(cs[..last], id);
      HeldFrame(cs[..last], cs, front);
      HeldAppend(cs, front, last);
    }
  }

  /** Cohorts waiting in `order` have `m` or `m + 1` tags; the rest already have one more than those they overtook. */
  ghost predicate Levels(cs: seq<Cohort>, order: seq<nat>, m: nat) {
    && Ordered(cs, order)
    && (forall n :: 0 <= n < |order| ==> m <= |cs[order[n]].tags| <= m + 1)
    && (forall j :: 0 <= j < |cs| && j !in order ==> m + 1 <= |cs[j].tags| <= m + 2)
    && (forall j :: 0 <= j < |cs| && j !in order && order != [] && |cs[order[0]].tags| == m ==> |cs[j].tags| == m + 1)
  }

  lemma {:induction false} GiveOrdered(cs: seq<Cohort>, order: seq<nat>, id: TagId)
    requires order != [] && Ordered(cs, order)
    ensures var after := Give(cs, order[0], id, cs[order[0]].count);
      && Ordered(after, order[1..])
      && (forall n :: 0 <= n < |order[1..]| ==> after[order[1..][n]] == cs[order[n + 1]])
  {
    var rest, after := order[1..], Give(cs, order[0], id, cs[order[0]].count);
    forall n | 0 <= n < |rest| ensures rest[n] == order[n + 1] && after[rest[n]] == cs[order[n + 1]] {}
    forall i, j | 0 <= i < j < |rest| ensures rest[i] != rest[j] && Before(after, rest[i], rest[j]) {
      assert Before(cs, order[i + 1], order[j + 1]);
    }
  }

  lemma {:induction false} GiveLevels(cs: seq<Cohort>, order: seq<nat>, id: TagId, m: nat)
    requires order != [] && Levels(cs, order, m)
    ensures Levels(Give(cs, order[0], id, cs[order[0]].count), order[1..], m)
  {
    var k, rest := order[0], order[1..];
    var after := Give(cs, k, id, cs[k].count);
    GiveOrdered(cs, order, id);
    var wasLow := |cs[k].tags| == m;
    if rest != [] {
      assert Before(cs, order[0], order[1]);
      assert after[rest[0]] == cs[order[1]];
    }
    forall j | 0 <= j < |after| && j !in rest
      ensures m + 1 <= |after[j].tags| <= m + 2
      ensures rest != [] && |after[rest[0]].tags| == m ==> |after[j].tags| == m + 1
    {
      if j != k {
        assert order == [k] + rest;
      }
    }
  }

  lemma {:induction false} AssignBalanced(cs: seq<Cohort>, order: seq<nat>, id: TagId, remaining: nat, m: nat)
    requires Levels(cs, order, m)
    ensures Balanced(Assign(cs, order, id, remaining))
    decreases |order|
  {
    if order == [] || remaining == 0 {
      LevelsBalance(cs, order, m);
    } else {
      var k := order[0];
      if remaining < cs[k].count {
        SplitBalances(cs, order, id, remaining, m);
      } else {
        GiveLevels(cs, order, id, m);
        AssignBalanced(Give(cs, k, id, cs[k].count), order[1..], id, remaining - cs[k].count, m);
      }
    }
  }

  lemma {:induction false} LevelsBalance(cs: seq<Cohort>, order: seq<nat>, m: nat)
    requires Levels(cs, order, m)
    ensures Balanced(cs)
  {
    forall i, j | 0 <= i < |cs| && 0 <= j < |cs| ensures |cs[i].tags| <= |cs[j].tags| + 1 {
      if j in order {
        assert forall n :: 0 < n < |order| ==> Before(cs, order[0], order[n]);
      }
    }
  }

  lemma {:induction false} SplitBalances(cs: seq<Cohort>, order: seq<nat>, id: TagId, given: nat, m: nat)
    requires order != [] && Levels(cs, order, m) && given < cs[order[0]].count
    ensures Balanced(Give(cs, order[0], id, given))
  {
    LevelsBalance(cs, order, m);
    var k, after := order[0], Give(cs, order[0], id, given);
    forall j | 0 <= j < |cs| ensures |cs[k].tags| <= |cs[j].tags| <= |cs[k].tags| + 1 {
      if j in order {
        assert forall n :: 0 < n < |order| ==> Before(cs, order[0], order[n]);
      }
    }
    forall j | 0 <= j < |after| ensures |cs[k].tags| <= |after[j].tags| <= |cs[k].tags| + 1 {
      if j < |cs| {
        assert after[j].tags == cs[j].tags;
      }
    }
  }

  // ---------------------------------------------------------------------------------------------
  // What the drawn cohorts satisfy
  // ---------------------------------------------------------------------------------------------

  ghost function Ids(tags: seq<Tag>): set<TagId> {
    set n | 0 <= n < |tags| :: tags[n].id
  }

  ghost predicate OnlyTags(cs: seq<Cohort>, tags: seq<Tag>) {
    forall i :: 0 <= i < |cs| ==> TagSet(cs[i]) <= Ids(tags)
  }

  /** Everything the board relies on about the cards of a stage holding `count` copies with these tag counts. */
  ghost predicate Splits(cs: seq<Cohort>, count: nat, tags: seq<Tag>) {
    && Cards(cs)
    && Total(cs) == count
    && (forall n :: 0 <= n < |tags| ==> CopiesWith(cs, tags[n].id) == Min(tags[n].count, count))
    && OnlyTags(cs, tags)
    && |cs| <= |tags| + 1
    && Balanced(cs)
  }

  lemma {:induction false} AssignOnlyTags(
      cs: seq<Cohort>, order: seq<nat>, id: TagId, remaining: nat, known: set<TagId>)
    requires Within(order, |cs|)
    requires forall i :: 0 <= i < |cs| ==> TagSet(cs[i]) <= known
    requires id in known
    ensures forall i :: 0 <= i < |Assign(cs, order, id, remaining)| ==>
        TagSet(Assign(cs, order, id, remaining)[i]) <= known
    decreases |order|
  {
    if order != [] && remaining > 0 {
      var given := Min(remaining, cs[order[0]].count);
      AssignOnlyTags(Give(cs, order[0], id, given), order[1..], id, remaining - given, known);
    }
  }

  lemma {:induction false} NextTagIsNew(cs: seq<Cohort>, tags: seq<Tag>, tag: Tag)
    requires OnlyTags(cs, tags) && DistinctTags(tags + [tag])
    ensures Ids(tags + [tag]) == Ids(tags) + {tag.id} && tag.id !in Ids(tags) && DistinctTags(tags)
    ensures forall i :: 0 <= i < |cs| ==> tag.id !in cs[i].tags && tag.id !in TagSet(cs[i])
  {
    var all := tags + [tag];
    assert all[|tags|] == tag;
    assert forall n :: 0 <= n < |tags| ==> all[n] == tags[n];
    forall n | 0 <= n < |tags| ensures tags[n].id != tag.id {
      assert all[n].id != all[|tags|].id;
    }
    forall t | t in Ids(tags) + {tag.id} ensures t in Ids(all) {
      if t == tag.id {
        assert all[|tags|].id == t;
      } else {
        var n :| 0 <= n < |tags| && tags[n].id == t;
        assert all[n].id == t;
      }
    }
    forall i | 0 <= i < |cs| ensures tag.id !in TagSet(cs[i]) {
      assert TagSet(cs[i]) <= Ids(tags);
    }
  }

  lemma {:induction false} GiveTagCounts(count: nat, cs: seq<Cohort>, tag: Tag)
    requires Cards(cs) && Total(cs) == count
    requires forall i :: 0 <= i < |cs| ==> tag.id !in cs[i].tags && tag.id !in TagSet(cs[i])
    ensures var after := GiveTag(count, cs, tag);
      && Cards(after) && |after| <= |cs| + 1
      && Tagged(cs, after, tag.id, Min(tag.count, count))
      && CopiesWith(after, tag.id) == Min(tag.count, count)
  {
    var id, order := tag.id, FewestTagsFirst(cs, WithoutTag(cs, tag.id));
    UntaggedHeld(cs, id);
    SortedHeld(cs, WithoutTag(cs, id));
    forall n, j | 0 <= n < |order| && 0 <= j < |cs| ensures TagSet(cs[j]) != TagSet(cs[order[n]]) + {id} {
      assert id !in TagSet(cs[j]);
    }
    AssignTags(cs, order, id, Min(tag.count, count));
    SumZero(cs, Carrying(id));
  }

  lemma {:induction false} GiveTagBalanced(count: nat, cs: seq<Cohort>, tag: Tag)
    requires Balanced(cs)
    requires forall i :: 0 <= i < |cs| ==> tag.id !in cs[i].tags
    ensures Balanced(GiveTag(count, cs, tag))
  {
    var order := FewestTagsFirst(cs, WithoutTag(cs, tag.id));
    assert forall j: nat :: j < |cs| ==> j in order;
    if order != [] {
      forall n | 0 <= n < |order| ensures |cs[order[0]].tags| <= |cs[order[n]].tags| {
        assert n > 0 ==> Before(cs, order[0], order[n]);
      }
      AssignBalanced(cs, order, tag.id, Min(tag.count, count), |cs[order[0]].tags|);
    }
  }

  /** One pass of the loop: the next tag lands on exactly min(tag.count, count) copies, the least-tagged ones. */
  lemma {:induction false} GiveTagSplits(count: nat, cs: seq<Cohort>, tags: seq<Tag>, tag: Tag)
    requires Splits(cs, count, tags) && DistinctTags(tags + [tag])
    ensures Splits(GiveTag(count, cs, tag), count, tags + [tag])
  {
    var after, all := GiveTag(count, cs, tag), tags + [tag];
    NextTagIsNew(cs, tags, tag);
    GiveTagCounts(count, cs, tag);
    GiveTagBalanced(count, cs, tag);
    AssignOnlyTags(cs, FewestTagsFirst(cs, WithoutTag(cs, tag.id)), tag.id, Min(tag.count, count), Ids(all));
    forall n | 0 <= n < |all| ensures CopiesWith(after, all[n].id) == Min(all[n].count, count) {
      if n < |tags| {
        assert all[n] == tags[n] && tags[n].id in Ids(tags);
      }
    }
  }

  lemma {:induction false} UntaggedSplits(count: nat)
    ensures Splits(Draw(count, []), count, [])
  {
    var cs := Draw(count, []);
    if count > 0 {
      assert cs == [Cohort(count, [])] && cs[..0] == [];
      assert TagSet(cs[0]) == {};
    }
  }

  lemma {:induction false} DrawSplits(count: nat, tags: seq<Tag>)
    requires DistinctTags(tags)
    ensures Splits(Draw(count, tags), count, tags)
  {
    if tags == [] {
      UntaggedSplits(count);
    } else {
      var front, tag := tags[..|tags| - 1], tags[|tags| - 1];
      var cs := Draw(count, front);
      DrawSplits(count, front);
      assert front + [tag] == tags;
      GiveTagSplits(count, cs, front, tag);
      assert Draw(count, tags) == GiveTag(count, cs, tag);
    }
  }

  // ---------------------------------------------------------------------------------------------
  // Tags overlap only when they must
  // ---------------------------------------------------------------------------------------------

  ghost function Landing(count: nat): Tag -> nat {
    (tag: Tag) => Min(tag.count, count)
  }

  lemma {:induction false} DrawOneMore(count: nat, front: seq<Tag>, tag: Tag)
    ensures Draw(count, front + [tag]) == GiveTag(count, Draw(count, front), tag)
  {
    assert (front + [tag])[..|front|] == front;
  }

  lemma {:induction false} NextLabels(count: nat, front: seq<Tag>, tag: Tag)
    requires DistinctTags(front + [tag])
    ensures Labels(Draw(count, front + [tag])) == Labels(Draw(count, front)) + Min(tag.count, count)
  {
    var cs := Draw(count, front);
    assert forall i :: 0 <= i < |front| ==> front[i] == (front + [tag])[i];
    DrawSplits(count, front);
    NextTagIsNew(cs, front, tag);
    GiveTagCounts(count, cs, tag);
    DrawOneMore(count, front, tag);
  }

  lemma {:induction false} DrawLabels(count: nat, tags: seq<Tag>)
    requires DistinctTags(tags)
    ensures Labels(Draw(count, tags)) == Sum(tags, Landing(count))
    decreases |tags|
  {
    if tags == [] {
      UntaggedLabels(count);
    } else {
      var front, tag := tags[..|tags| - 1], tags[|tags| - 1];
      assert tags == front + [tag];
      DrawLabels(count, front);
      NextLabels(count, front, tag);
      SumAppend(front, tag, Landing(count));
    }
  }

  lemma {:induction false} UntaggedLabels(count: nat)
    ensures Labels(Draw(count, [])) == 0
  {
    SumZero(Draw(count, []), LABELS);
  }

  lemma {:induction false} OverlapCrowds(cs: seq<Cohort>, i: nat)
    requires Cards(cs) && Balanced(cs) && i < |cs| && |cs[i].tags| >= 2
    ensures Labels(cs) > Total(cs)
  {
    forall c | c in cs ensures COPIES(c) <= LABELS(c) {
      var j :| 0 <= j < |cs| && cs[j] == c;
      assert |cs[i].tags| <= |cs[j].tags| + 1;
      TimesAtLeast(c.count, |c.tags|);
    }
    TimesAtLeast(cs[i].count, |cs[i].tags| - 1);
    assert LABELS(cs[i]) == cs[i].count * (|cs[i].tags| - 1) + cs[i].count;
    SumStrictlyBelow(cs, i, COPIES, LABELS);
  }

  /** Some copy carries two tags exactly when the tags land on more copies than the stage has. */
  lemma {:induction false} OverlapOnlyWhenForced(count: nat, tags: seq<Tag>)
    requires DistinctTags(tags)
    ensures (exists c :: c in Draw(count, tags) && |c.tags| >= 2) <==> Sum(tags, Landing(count)) > count
  {
    var cs := Draw(count, tags);
    DrawSplits(count, tags);
    DrawLabels(count, tags);
    if c :| c in cs && |c.tags| >= 2 {
      var i :| 0 <= i < |cs| && cs[i] == c;
      OverlapCrowds(cs, i);
    } else {
      forall c | c in cs ensures LABELS(c) <= COPIES(c) {
        assert |c.tags| == 0 || |c.tags| == 1;
      }
      SumBelow(cs, LABELS, COPIES);
    }
  }

  lemma {:induction false} TimesAtLeast(count: nat, n: nat)
    requires n >= 1
    ensures count <= count * n
  {
    assert count * n == count + count * (n - 1);
  }

  // ---------------------------------------------------------------------------------------------
  // The loop that draws the cohorts
  // ---------------------------------------------------------------------------------------------

  ghost predicate Positive(cs: seq<Cohort>) {
    forall i :: 0 <= i < |cs| ==> cs[i].count > 0
  }

  lemma {:induction false} AssignPositive(cs: seq<Cohort>, order: seq<nat>, id: TagId, remaining: nat)
    requires Within(order, |cs|) && Positive(cs)
    ensures Positive(Assign(cs, order, id, remaining))
    decreases |order|
  {
    if order != [] && remaining > 0 {
      var given := Min(remaining, cs[order[0]].count);
      AssignPositive(Give(cs, order[0], id, given), order[1..], id, remaining - given);
    }
  }

  lemma {:induction false} DrawPositive(count: nat, tags: seq<Tag>)
    ensures Positive(Draw(count, tags))
  {
    if tags != [] {
      var cs, tag := Draw(count, tags[..|tags| - 1]), tags[|tags| - 1];
      DrawPositive(count, tags[..|tags| - 1]);
      AssignPositive(cs, FewestTagsFirst(cs, WithoutTag(cs, tag.id)), tag.id, Min(tag.count, count));
    }
  }

  /** The inner loop; positions in `withoutTag` stand for references to the cohorts of the list. */
  method AssignTag(cohorts: seq<Cohort>, withoutTag: seq<nat>, id: TagId, copies: nat) returns (list: seq<Cohort>)
    requires Within(withoutTag, |cohorts|)
    ensures list == Assign(cohorts, withoutTag, id, copies)
  {
    list := cohorts;
    var remaining := copies;
    var i := 0;
    while i < |withoutTag| && remaining != 0
      invariant i <= |withoutTag| && Within(withoutTag, |list|)
      invariant Assign(list, withoutTag[i..], id, remaining) == Assign(cohorts, withoutTag, id, copies)
    {
      var k := withoutTag[i];
      var given := Min(remaining, list[k].count);
      var tagged := list[k].tags + [id];
      assert withoutTag[i..][1..] == withoutTag[i + 1..];
      remaining := remaining - given;
      if given == list[k].count {
        list := list[k := Cohort(given, tagged)];
      } else {
        list := list[k := Cohort(list[k].count - given, list[k].tags)] + [Cohort(given, tagged)];
      }
      i := i + 1;
    }
  }

  lemma {:induction false} DrawNext(count: nat, tags: seq<Tag>, n: nat)
    requires n < |tags|
    ensures Draw(count, tags[..n + 1]) == GiveTag(count, Draw(count, tags[..n]), tags[n])
  {
    assert tags[..n + 1][..n] == tags[..n];
  }

  function NonEmpty(cs: seq<Cohort>): seq<Cohort> {
    if cs == [] then []
    else NonEmpty(cs[..|cs| - 1]) + if cs[|cs| - 1].count > 0 then [cs[|cs| - 1]] else []
  }

  lemma {:induction false} NothingDropped(cs: seq<Cohort>)
    requires Positive(cs)
    ensures NonEmpty(cs) == cs
  {
    if cs != [] {
      NothingDropped(cs[..|cs| - 1]);
    }
  }

  /** Splits a stage's copies into the cohorts the board draws as cards. */
  method DrawCohorts(count: nat, tags: seq<Tag>) returns (cohorts: seq<Cohort>)
    ensures cohorts == Draw(count, tags)
  {
    var list := if count > 0 then [Cohort(count, [])] else [];
    for n := 0 to |tags|
      invariant list == Draw(count, tags[..n])
    {
      var withoutTag := WithoutTag(list, tags[n].id);
      DrawNext(count, tags, n);
      list := AssignTag(list, FewestTagsFirst(list, withoutTag), tags[n].id, Min(tags[n].count, count));
    }
    assert tags[..|tags|] == tags;
    DrawPositive(count, tags);
    NothingDropped(list);
    cohorts := NonEmpty(list);
  }
}
