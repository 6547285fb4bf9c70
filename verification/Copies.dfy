/** The rule the cohorts stand for, told copy by copy: every tag in turn goes to the copies with the fewest tags. */
module Copies {
  import opened Sums
  import opened Cohorts

  type CopyBag = multiset<set<TagId>>

  ghost function Alike(tags: set<TagId>, n: nat): CopyBag {
    multiset{}[tags := n]
  }

  /** `chosen` are `n` copies without the tag, none of them more tagged than an untagged copy passed over. */
  ghost predicate LeastTagged(before: CopyBag, chosen: CopyBag, id: TagId, n: nat) {
    && chosen <= before && |chosen| == n
    && (forall s :: s in chosen ==> id !in s)
    && (forall s, t :: s in chosen && t in before - chosen && id !in t ==> |s| <= |t|)
  }

  ghost predicate Relabelled(before: CopyBag, chosen: CopyBag, after: CopyBag, id: TagId) {
    forall s: set<TagId> {:trigger after[s]} ::
      after[s] + chosen[s] == before[s] + if id in s then chosen[s - {id}] else 0
  }

  /** One step of the rule: the tag is put on `n` least-tagged copies and nothing else changes. */
  ghost predicate GivesTag(before: CopyBag, after: CopyBag, id: TagId, n: nat) {
    exists chosen :: LeastTagged(before, chosen, id, n) && Relabelled(before, chosen, after, id)
  }

  ghost predicate CopyRun(run: seq<CopyBag>, count: nat, tags: seq<Tag>) {
    && |run| == |tags| + 1 && run[0] == Alike({}, count)
    && (forall n :: 0 <= n < |tags| ==> GivesTag(run[n], run[n + 1], tags[n].id, Min(tags[n].count, count)))
  }

  /** The copies a list of cohorts stands for. */
  ghost function Bag(cs: seq<Cohort>): CopyBag {
    if cs == [] then multiset{}
    else Bag(cs[..|cs| - 1]) + Alike(TagSet(cs[|cs| - 1]), cs[|cs| - 1].count)
  }

  ghost function Wearing(s: set<TagId>): Cohort -> nat {
    (c: Cohort) => if TagSet(c) == s then c.count else 0
  }

  lemma {:induction false} BagCount(cs: seq<Cohort>, s: set<TagId>)
    ensures Bag(cs)[s] == Sum(cs, Wearing(s))
  {
    if cs != [] {
      BagCount(cs[..|cs| - 1], s);
    }
  }

  lemma {:induction false} BagMember(cs: seq<Cohort>, s: set<TagId>)
    ensures s in Bag(cs) <==> exists c :: c in cs && TagSet(c) == s && c.count > 0
  {
    BagCount(cs, s);
    SumZero(cs, Wearing(s));
  }

  lemma {:induction false} BagHolds(cs: seq<Cohort>, k: nat)
    requires k < |cs|
    ensures Bag(cs)[TagSet(cs[k])] >= cs[k].count
  {
    BagCount(cs, TagSet(cs[k]));
    SumCovers(cs, k, Wearing(TagSet(cs[k])));
  }

  ghost function When(b: bool, n: nat): nat {
    if b then n else 0
  }

  /** `n` copies with exactly the tags `s` get the tag `id`. */
  ghost predicate Moved(before: CopyBag, mid: CopyBag, s: set<TagId>, n: nat, id: TagId) {
    && before[s] >= n
    && (forall t: set<TagId> {:trigger mid[t]} :: mid[t] == before[t] - When(t == s, n) + When(t == s + {id}, n))
  }

  /** Giving `n` copies of cohort `k` the tag moves exactly those copies to the larger tag set. */
  lemma {:induction false} GiveBag(cs: seq<Cohort>, k: nat, id: TagId, n: nat)
    requires k < |cs| && n <= cs[k].count && id !in cs[k].tags
    ensures Moved(Bag(cs), Bag(Give(cs, k, id, n)), TagSet(cs[k]), n, id)
  {
    var s, whole, part := TagSet(cs[k]), Cohort(n, cs[k].tags + [id]), Cohort(cs[k].count - n, cs[k].tags);
    assert TagSet(whole) == s + {id} && TagSet(part) == s;
    BagHolds(cs, k);
    forall t: set<TagId>
      ensures Bag(Give(cs, k, id, n))[t] == Bag(cs)[t] - When(t == s, n) + When(t == s + {id}, n)
    {
      BagCount(cs, t);
      BagCount(Give(cs, k, id, n), t);
      if n == cs[k].count {
        SumUpdate(cs, k, whole, Wearing(t));
      } else {
        SumUpdate(cs, k, part, Wearing(t));
        SumAppend(cs[k := part], whole, Wearing(t));
      }
    }
  }

  lemma {:induction false} TagSetSize(c: Cohort)
    requires NoRepeats(c.tags)
    ensures |TagSet(c)| == |c.tags|
    decreases |c.tags|
  {
    if c.tags == [] {
      assert TagSet(c) == {};
    } else {
      var last := |c.tags| - 1;
      var front := Cohort(c.count, c.tags[..last]);
      TagSetSize(front);
      assert forall t :: t in c.tags <==> t in front.tags || t == c.tags[last];
      assert TagSet(front) * {c.tags[last]} == {};
      assert TagSet(c) == TagSet(front) + {c.tags[last]};
    }
  }

  /**
   * Every copy without the tag belongs to a cohort still waiting for it, and the first one waiting has the fewest tags.
   */
  lemma {:induction false} FirstIsLeast(cs: seq<Cohort>, order: seq<nat>, id: TagId, t: set<TagId>)
    requires order != [] && Ordered(cs, order) && t in Bag(cs) && id !in t
    requires forall i :: 0 <= i < |cs| ==> NoRepeats(cs[i].tags)
    requires forall i :: 0 <= i < |cs| && id !in cs[i].tags ==> i in order
    ensures |TagSet(cs[order[0]])| <= |t|
  {
    BagMember(cs, t);
    var i :| 0 <= i < |cs| && TagSet(cs[i]) == t;
    TagSetSize(cs[i]);
    TagSetSize(cs[order[0]]);
  }

  lemma {:induction false} AddLeastTagged(
      before: CopyBag, mid: CopyBag, s: set<TagId>, n: nat, rest: CopyBag, more: nat, id: TagId)
    requires id !in s && Moved(before, mid, s, n, id)
    requires LeastTagged(mid, rest, id, more)
    requires forall t :: t in before && id !in t ==> |s| <= |t|
    ensures LeastTagged(before, rest + Alike(s, n), id, n + more)
  {
    var chosen := rest + Alike(s, n);
    assert |Alike(s, n)| == n;
    forall t: set<TagId> ensures chosen[t] == rest[t] + When(t == s, n) && chosen[t] <= before[t] {
      assert rest[t] <= mid[t];
      if t in rest {
        assert id !in t;
      }
    }
    forall u, t | u in chosen && t in before - chosen && id !in t ensures |u| <= |t| {
      if u in rest {
        assert (mid - rest)[t] == mid[t] - rest[t];
        assert t in mid - rest;
      } else {
        assert u == s;
      }
    }
  }

  lemma {:induction false} AddRelabelled(
      before: CopyBag, mid: CopyBag, after: CopyBag, s: set<TagId>, n: nat, rest: CopyBag, id: TagId)
    requires id !in s && Moved(before, mid, s, n, id) && Relabelled(mid, rest, after, id)
    ensures Relabelled(before, rest + Alike(s, n), after, id)
  {
    var chosen := rest + Alike(s, n);
    forall t: set<TagId>
      ensures after[t] + chosen[t] == before[t] + if id in t then chosen[t - {id}] else 0
    {
      assert mid[t] == before[t] - When(t == s, n) + When(t == s + {id}, n);
      assert chosen[t] == rest[t] + When(t == s, n);
      if id in t {
        assert (t - {id}) + {id} == t && (s + {id}) - {id} == s;
        assert chosen[t - {id}] == rest[t - {id}] + When(t - {id} == s, n);
      }
    }
  }

  lemma {:induction false} AssignGivesTag(cs: seq<Cohort>, order: seq<nat>, id: TagId, remaining: nat)
    returns (chosen: CopyBag)
    requires Waiting(cs, order, id) && remaining <= Held(cs, order)
    requires forall i :: 0 <= i < |cs| && id !in cs[i].tags ==> i in order
    ensures LeastTagged(Bag(cs), chosen, id, remaining)
    ensures Relabelled(Bag(cs), chosen, Bag(Assign(cs, order, id, remaining)), id)
    decreases |order|, 1
  {
    chosen := multiset{};
    if order != [] && remaining > 0 {
      var k := order[0];
      var s, given := TagSet(cs[k]), Min(remaining, cs[k].count);
      var mid, after := Give(cs, k, id, given), Assign(cs, order, id, remaining);
      assert id !in cs[order[0]].tags && after == Assign(mid, order[1..], id, remaining - given);
      FirstGivesTag(cs, order, id, given);
      var rest: CopyBag := multiset{};
      if given == cs[k].count {
        rest := AssignRest(cs, order, id, remaining);
      } else {
        assert after == mid;
      }
      AddLeastTagged(Bag(cs), Bag(mid), s, given, rest, remaining - given, id);
      AddRelabelled(Bag(cs), Bag(mid), Bag(after), s, given, rest, id);
      chosen := rest + Alike(s, given);
    }
  }

  lemma {:induction false} AssignRest(cs: seq<Cohort>, order: seq<nat>, id: TagId, remaining: nat)
    returns (rest: CopyBag)
    requires order != [] && Waiting(cs, order, id) && cs[order[0]].count <= remaining <= Held(cs, order)
    requires forall i :: 0 <= i < |cs| && id !in cs[i].tags ==> i in order
    ensures var left, mid := remaining - cs[order[0]].count, Give(cs, order[0], id, cs[order[0]].count);
      && LeastTagged(Bag(mid), rest, id, left)
      && Within(order[1..], |mid|)
      && Relabelled(Bag(mid), rest, Bag(Assign(mid, order[1..], id, left)), id)
    decreases |order|, 0
  {
    var mid := Give(cs, order[0], id, cs[order[0]].count);
    RestReady(cs, order, id, remaining);
    rest := AssignGivesTag(mid, order[1..], id, remaining - cs[order[0]].count);
  }

  lemma {:induction false} RestReady(cs: seq<Cohort>, order: seq<nat>, id: TagId, remaining: nat)
    requires order != [] && Waiting(cs, order, id) && cs[order[0]].count <= remaining <= Held(cs, order)
    requires forall i :: 0 <= i < |cs| && id !in cs[i].tags ==> i in order
    ensures var left, mid := remaining - cs[order[0]].count, Give(cs, order[0], id, cs[order[0]].count);
      && Waiting(mid, order[1..], id) && left <= Held(mid, order[1..])
      && forall i :: 0 <= i < |mid| && id !in mid[i].tags ==> i in order[1..]
  {
    GiveWaits(cs, order, id);
    RestHeld(cs, order, id);
    StillWaiting(cs, order, id);
  }

  lemma {:induction false} FirstGivesTag(cs: seq<Cohort>, order: seq<nat>, id: TagId, given: nat)
    requires order != [] && Waiting(cs, order, id) && given <= cs[order[0]].count
    requires forall i :: 0 <= i < |cs| && id !in cs[i].tags ==> i in order
    ensures Moved(Bag(cs), Bag(Give(cs, order[0], id, given)), TagSet(cs[order[0]]), given, id)
    ensures forall t :: t in Bag(cs) && id !in t ==> |TagSet(cs[order[0]])| <= |t|
  {
    assert id !in cs[order[0]].tags;
    GiveBag(cs, order[0], id, given);
    forall t | t in Bag(cs) && id !in t ensures |TagSet(cs[order[0]])| <= |t| {
      FirstIsLeast(cs, order, id, t);
    }
  }

  lemma {:induction false} StillWaiting(cs: seq<Cohort>, order: seq<nat>, id: TagId)
    requires order != [] && Waiting(cs, order, id)
    requires forall i :: 0 <= i < |cs| && id !in cs[i].tags ==> i in order
    ensures var mid := Give(cs, order[0], id, cs[order[0]].count);
      forall i :: 0 <= i < |mid| && id !in mid[i].tags ==> i in order[1..]
  {
    var mid := Give(cs, order[0], id, cs[order[0]].count);
    forall i | 0 <= i < |mid| && id !in mid[i].tags ensures i in order[1..] {
      assert i != order[0] && mid[i] == cs[i];
      assert order == [order[0]] + order[1..];
    }
  }

  /** Drawing cohorts is a run of the per-copy rule, ending in exactly the copies the cohorts stand for. */
  lemma {:induction false} DrawRefinesCopies(count: nat, tags: seq<Tag>)
    requires DistinctTags(tags)
    ensures exists run :: CopyRun(run, count, tags) && run[|tags|] == Bag(Draw(count, tags))
  {
    if tags == [] {
      UntaggedBag(count);
      assert CopyRun([Alike({}, count)], count, tags);
    } else {
      var front, tag := tags[..|tags| - 1], tags[|tags| - 1];
      assert tags == front + [tag];
      DrawRefinesCopies(count, front);
      var run :| CopyRun(run, count, front) && run[|front|] == Bag(Draw(count, front));
      DrawSplits(count, front);
      GiveTagStep(count, Draw(count, front), front, tag);
      DrawOneMore(count, front, tag);
      RunNext(run, count, front, tag, Bag(Draw(count, tags)));
    }
  }

  lemma {:induction false} UntaggedBag(count: nat)
    ensures Bag(Draw(count, [])) == Alike({}, count)
  {
    var cs := Draw(count, []);
    if count > 0 {
      assert cs == [Cohort(count, [])] && cs[..0] == [];
      assert TagSet(cs[0]) == {};
    }
  }

  lemma {:induction false} RunNext(run: seq<CopyBag>, count: nat, front: seq<Tag>, tag: Tag, next: CopyBag)
    requires CopyRun(run, count, front) && GivesTag(run[|front|], next, tag.id, Min(tag.count, count))
    ensures CopyRun(run + [next], count, front + [tag]) && (run + [next])[|front| + 1] == next
  {
    var longer, tags := run + [next], front + [tag];
    forall n | 0 <= n < |tags|
      ensures GivesTag(longer[n], longer[n + 1], tags[n].id, Min(tags[n].count, count))
    {
      if n < |front| {
        assert GivesTag(run[n], run[n + 1], front[n].id, Min(front[n].count, count));
      }
    }
  }

  lemma {:induction false} GiveTagStep(count: nat, cs: seq<Cohort>, tags: seq<Tag>, tag: Tag)
    requires Splits(cs, count, tags) && DistinctTags(tags + [tag])
    ensures GivesTag(Bag(cs), Bag(GiveTag(count, cs, tag)), tag.id, Min(tag.count, count))
  {
    var id, order := tag.id, FewestTagsFirst(cs, WithoutTag(cs, tag.id));
    NextTagIsNew(cs, tags, tag);
    UntaggedHeld(cs, id);
    SortedHeld(cs, WithoutTag(cs, id));
    AllWait(cs, order, id);
    var chosen := AssignGivesTag(cs, order, id, Min(tag.count, count));
  }

  lemma {:induction false} AllWait(cs: seq<Cohort>, order: seq<nat>, id: TagId)
    requires Cards(cs) && order == FewestTagsFirst(cs, WithoutTag(cs, id))
    requires forall i :: 0 <= i < |cs| ==> id !in cs[i].tags
    ensures Waiting(cs, order, id) && forall i :: 0 <= i < |cs| ==> i in order
  {
    forall n, j | 0 <= n < |order| && 0 <= j < |cs| ensures TagSet(cs[j]) != TagSet(cs[order[n]]) + {id} {
      assert id !in TagSet(cs[j]);
    }
    forall i: nat | i < |cs| ensures i in order {
      assert i in WithoutTag(cs, id);
    }
  }

  /** Whichever least-tagged copies each step picks, the copies stay level. */
  lemma {:induction false} CopiesStayLevel(run: seq<CopyBag>, count: nat, tags: seq<Tag>)
    requires DistinctTags(tags) && CopyRun(run, count, tags)
    ensures forall s, t :: s in run[|tags|] && t in run[|tags|] ==> |s| <= |t| + 1
    ensures forall s :: s in run[|tags|] ==> s <= Ids(tags)
  {
    if tags != [] {
      var front, tag := tags[..|tags| - 1], tags[|tags| - 1];
      var before, after := run[|front|], run[|tags|];
      assert front + [tag] == tags;
      forall n | 0 <= n < |front|
        ensures GivesTag(run[..|tags|][n], run[..|tags|][n + 1], front[n].id, Min(front[n].count, count))
      {
        assert GivesTag(run[n], run[n + 1], tags[n].id, Min(tags[n].count, count));
      }
      CopiesStayLevel(run[..|tags|], count, front);
      NextTagIsNew([], front, tag);
      var id := tag.id;
      assert GivesTag(run[|front|], run[|front| + 1], tags[|front|].id, Min(tags[|front|].count, count));
      var chosen :| LeastTagged(before, chosen, id, Min(tag.count, count)) && Relabelled(before, chosen, after, id);
      forall s | s in after ensures Origin(before, chosen, id, s) in before && s <= Ids(tags) {
        assert after[s] > 0;
      }
      forall s, t | s in after && t in after ensures |s| <= |t| + 1 {
        OriginLevel(before, chosen, after, id, s);
        OriginLevel(before, chosen, after, id, t);
        LevelStep(before, chosen, id, s, t, Min(tag.count, count));
      }
    }
  }

  ghost function Origin(before: CopyBag, chosen: CopyBag, id: TagId, s: set<TagId>): set<TagId> {
    if id in s then s - {id} else s
  }

  lemma {:induction false} OriginLevel(before: CopyBag, chosen: CopyBag, after: CopyBag, id: TagId, s: set<TagId>)
    requires Relabelled(before, chosen, after, id) && chosen <= before && s in after
    requires forall t :: t in before ==> id !in t
    ensures id in s ==> s - {id} in chosen && |s| == |s - {id}| + 1
    ensures id !in s ==> s in before - chosen
  {
    assert after[s] > 0;
  }

  lemma {:induction false} LevelStep(before: CopyBag, chosen: CopyBag, id: TagId, s: set<TagId>, t: set<TagId>, n: nat)
    requires LeastTagged(before, chosen, id, n)
    requires forall u :: u in before ==> id !in u
    requires forall u, v :: u in before && v in before ==> |u| <= |v| + 1
    requires id in s ==> s - {id} in chosen && |s| == |s - {id}| + 1
    requires id !in s ==> s in before - chosen
    requires id in t ==> t - {id} in chosen && |t| == |t - {id}| + 1
    requires id !in t ==> t in before - chosen
    ensures |s| <= |t| + 1
  {}
}
