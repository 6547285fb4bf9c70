/** Planning which copies to take out of a stage's cohorts, named card by card or fewest tags first. */
module Takes {
  import opened Options
  import opened Sums
  import opened Cohorts
  import Sorting

  /** `tagIds` names the card carrying exactly those tags; without it any copies will do. */
  datatype Take = Take(count: nat, tagIds: Option<seq<TagId>>)

  /** The cohorts with the copies taken so far removed, and per take the copies removed from each tag. */
  datatype Plan = Plan(left: seq<Cohort>, removed: seq<map<TagId, nat>>)

  function Get(m: map<TagId, nat>, id: TagId): nat {
    if id in m then m[id] else 0
  }

  /** Two tag lists name the same card: they agree up to order. */
  predicate SameCard(a: seq<TagId>, b: seq<TagId>) {
    multiset(a) == multiset(b)
  }

  function FindCard(cs: seq<Cohort>, ids: seq<TagId>): (r: Option<nat>)
    ensures r.Some? ==> r.value < |cs| && SameCard(cs[r.value].tags, ids)
    ensures r.None? ==> forall k :: 0 <= k < |cs| ==> !SameCard(cs[k].tags, ids)
  {
    if cs == [] then None
    else
      var earlier := FindCard(cs[..|cs| - 1], ids);
      if earlier.Some? then earlier
      else if SameCard(cs[|cs| - 1].tags, ids) then Some(|cs| - 1)
      else None
  }

  function Lower(cs: seq<Cohort>, k: nat, copies: nat): seq<Cohort>
    requires k < |cs| && copies <= cs[k].count
  {
    cs[k := Cohort(cs[k].count - copies, cs[k].tags)]
  }

  function Record(m: map<TagId, nat>, ids: seq<TagId>, copies: nat): map<TagId, nat> {
    if ids == [] then m
    else
      var id := ids[|ids| - 1];
      var earlier := Record(m, ids[..|ids| - 1], copies);
      earlier[id := Get(earlier, id) + copies]
  }

  /** The first pass: takes naming a card; the others are left for the second pass. */
  function NamedTakes(cs: seq<Cohort>, takes: seq<Take>): (r: Option<Plan>)
    ensures r.Some? ==> |r.value.left| == |cs| && |r.value.removed| == |takes|
    ensures r.Some? ==> forall k :: 0 <= k < |cs| ==> r.value.left[k].tags == cs[k].tags
  {
    if takes == [] then Some(Plan(cs, []))
    else
      var take := takes[|takes| - 1];
      match NamedTakes(cs, takes[..|takes| - 1])
      case None => None
      case Some(plan) =>
        if take.tagIds.None? then Some(Plan(plan.left, plan.removed + [map[]]))
        else
          match FindCard(plan.left, take.tagIds.value)
          case None => None
          case Some(k) =>
            if plan.left[k].count < take.count then None
            else Some(Plan(Lower(plan.left, k, take.count), plan.removed +
              [Record(map[], plan.left[k].tags, take.count)]))
  }

  datatype Drawn = Drawn(left: seq<Cohort>, removed: map<TagId, nat>, missing: nat)

  /** Takes up to `wanted` copies from the cohorts in `order`. */
  function DrawLoose(cs: seq<Cohort>, order: seq<nat>, wanted: nat, removed: map<TagId, nat>): (r: Drawn)
    requires Within(order, |cs|)
    ensures |r.left| == |cs| && forall k :: 0 <= k < |cs| ==> r.left[k].tags == cs[k].tags
    decreases |order|
  {
    if order == [] then Drawn(cs, removed, wanted)
    else
      var k := order[0];
      var taken := Min(wanted, cs[k].count);
      if taken > 0 then DrawLoose(Lower(cs, k, taken), order[1..], wanted - taken, Record(removed, cs[k].tags, taken))
      else DrawLoose(cs, order[1..], wanted, removed)
  }

  /** The second pass over the first `n` takes: those naming no card. */
  function LooseTakes(plan: Plan, order: seq<nat>, takes: seq<Take>, n: nat): (r: Option<Plan>)
    requires Within(order, |plan.left|) && |plan.removed| == |takes| && n <= |takes|
    ensures r.Some? ==> |r.value.left| == |plan.left| && |r.value.removed| == |takes|
    ensures r.Some? ==> forall k :: 0 <= k < |plan.left| ==> r.value.left[k].tags == plan.left[k].tags
    ensures r.Some? ==> forall i :: n <= i < |takes| ==> r.value.removed[i] == plan.removed[i]
  {
    if n == 0 then Some(plan)
    else
      match LooseTakes(plan, order, takes, n - 1)
      case None => None
      case Some(sofar) =>
        if takes[n - 1].tagIds.Some? then Some(sofar)
        else
          var drawn := DrawLoose(sofar.left, order, takes[n - 1].count, sofar.removed[n - 1]);
          if drawn.missing > 0 then None
          else Some(Plan(drawn.left, sofar.removed[n - 1 := drawn.removed]))
  }

  function AllPositions(n: nat): (r: seq<nat>)
    ensures |r| == n && forall i :: 0 <= i < n ==> r[i] == i
  {
    if n == 0 then [] else AllPositions(n - 1) + [n - 1]
  }

  /** Every cohort, fewest tags first. */
  function WholeOrder(cs: seq<Cohort>): (r: seq<nat>)
    ensures Ordered(cs, r)
  {
    FewestTagsFirst(cs, AllPositions(|cs|))
  }

  function PlanWith(cs: seq<Cohort>, takes: seq<Take>): (r: Option<Plan>)
    ensures r.Some? ==> |r.value.left| == |cs| && |r.value.removed| == |takes|
  {
    match NamedTakes(cs, takes)
    case None => None
    case Some(named) => LooseTakes(named, WholeOrder(named.left), takes, |takes|)
  }

  /** Per take, the copies it removes from each tag; `None` when the stage lacks the copies. */
  function PlanTakes(count: nat, tags: seq<Tag>, takes: seq<Take>): (r: Option<seq<map<TagId, nat>>>)
    ensures r.Some? ==> |r.value| == |takes|
  {
    match PlanWith(Draw(count, tags), takes)
    case None => None
    case Some(plan) => Some(plan.removed)
  }

  // ---------------------------------------------------------------------------------------------
  // When a plan exists
  // ---------------------------------------------------------------------------------------------

  ghost function Naming(card: seq<TagId>): Take -> nat {
    (t: Take) => if t.tagIds.Some? && SameCard(card, t.tagIds.value) then t.count else 0
  }

  ghost const NAMED: Take -> nat := (t: Take) => if t.tagIds.Some? then t.count else 0
  ghost const LOOSE: Take -> nat := (t: Take) => if t.tagIds.Some? then 0 else t.count
  ghost const WANTED: Take -> nat := (t: Take) => t.count

  ghost predicate HasCard(cs: seq<Cohort>, ids: seq<TagId>) {
    exists k :: 0 <= k < |cs| && SameCard(cs[k].tags, ids)
  }

  /** The part of `Fits` the first pass checks. */
  ghost predicate NamedFit(cs: seq<Cohort>, takes: seq<Take>) {
    && (forall i :: 0 <= i < |takes| && takes[i].tagIds.Some? ==> HasCard(cs, takes[i].tagIds.value))
    && (forall k :: 0 <= k < |cs| ==> Sum(takes, Naming(cs[k].tags)) <= cs[k].count)
  }

  /** Every named card exists, no card is asked for more copies than it has, and the stage has enough in all. */
  ghost predicate Fits(cs: seq<Cohort>, takes: seq<Take>) {
    NamedFit(cs, takes) && Sum(takes, WANTED) <= Total(cs)
  }

  ghost predicate DistinctCards(cs: seq<Cohort>) {
    forall i, j :: 0 <= i < |cs| && 0 <= j < |cs| && i != j ==> !SameCard(cs[i].tags, cs[j].tags)
  }

  lemma {:induction false} SameCardSameTags(c: Cohort, d: Cohort)
    requires SameCard(c.tags, d.tags)
    ensures TagSet(c) == TagSet(d)
  {
    assert forall t :: t in c.tags <==> t in multiset(c.tags);
    assert forall t :: t in d.tags <==> t in multiset(d.tags);
  }

  lemma {:induction false} CardsAreDistinct(cs: seq<Cohort>)
    requires Cards(cs)
    ensures DistinctCards(cs)
  {
    forall i, j | 0 <= i < |cs| && 0 <= j < |cs| && i != j ensures !SameCard(cs[i].tags, cs[j].tags) {
      if SameCard(cs[i].tags, cs[j].tags) {
        SameCardSameTags(cs[i], cs[j]);
        assert false;
      }
    }
  }

  lemma {:induction false} DemandSplits(takes: seq<Take>)
    ensures Sum(takes, WANTED) == Sum(takes, NAMED) + Sum(takes, LOOSE)
  {
    if takes != [] {
      DemandSplits(takes[..|takes| - 1]);
    }
  }

  /** What the first pass leaves: each card lowered by what the takes naming it asked for. */
  ghost predicate NamedLeft(cs: seq<Cohort>, takes: seq<Take>, left: seq<Cohort>) {
    && |left| == |cs|
    && (forall k :: 0 <= k < |cs| ==>
          left[k].tags == cs[k].tags && left[k].count + Sum(takes, Naming(cs[k].tags)) == cs[k].count)
    && Total(left) + Sum(takes, NAMED) == Total(cs)
  }

  /** The first pass succeeds exactly when the named demands fit their cards. */
  lemma {:induction false} NamedIffFit(cs: seq<Cohort>, takes: seq<Take>)
    requires DistinctCards(cs)
    ensures NamedTakes(cs, takes).Some? <==> NamedFit(cs, takes)
    ensures NamedTakes(cs, takes).Some? ==> NamedLeft(cs, takes, NamedTakes(cs, takes).value.left)
  {
    if takes == [] {
      assert forall k :: 0 <= k < |cs| ==> Sum(takes, Naming(cs[k].tags)) == 0;
    } else {
      var front, take := takes[..|takes| - 1], takes[|takes| - 1];
      NamedIffFit(cs, front);
      if NamedFit(cs, takes) {
        NamedShrinks(cs, takes);
      }
      if NamedTakes(cs, front).Some? {
        NamedStep(cs, takes);
      }
    }
  }

  lemma {:induction false} NamedShrinks(cs: seq<Cohort>, takes: seq<Take>)
    requires takes != [] && NamedFit(cs, takes)
    ensures NamedFit(cs, takes[..|takes| - 1])
  {
    var front := takes[..|takes| - 1];
    forall i | 0 <= i < |front| && front[i].tagIds.Some? ensures HasCard(cs, front[i].tagIds.value) {
      assert front[i] == takes[i];
    }
    forall k | 0 <= k < |cs| ensures Sum(front, Naming(cs[k].tags)) <= cs[k].count {
      assert Sum(takes, Naming(cs[k].tags)) <= cs[k].count;
    }
  }

  lemma {:induction false} NamedStep(cs: seq<Cohort>, takes: seq<Take>)
    requires DistinctCards(cs) && takes != []
    requires var front := takes[..|takes| - 1];
      NamedFit(cs, front) && NamedTakes(cs, front).Some? && NamedLeft(cs, front, NamedTakes(cs, front).value.left)
    ensures NamedTakes(cs, takes).Some? <==> NamedFit(cs, takes)
    ensures NamedTakes(cs, takes).Some? ==> NamedLeft(cs, takes, NamedTakes(cs, takes).value.left)
  {
    var front, take := takes[..|takes| - 1], takes[|takes| - 1];
    var left := NamedTakes(cs, front).value.left;
    if take.tagIds.None? {
      NamedStepLoose(cs, takes, left);
    } else {
      var found := FindCard(left, take.tagIds.value);
      if found.None? {
        NamedStepMissing(cs, takes, left);
      } else {
        NamedStepFound(cs, takes, left, found.value);
      }
    }
  }

  lemma {:induction false} NamedStepLoose(cs: seq<Cohort>, takes: seq<Take>, left: seq<Cohort>)
    requires takes != [] && takes[|takes| - 1].tagIds.None?
    requires var front := takes[..|takes| - 1]; NamedFit(cs, front) && NamedLeft(cs, front, left)
    ensures NamedFit(cs, takes) && NamedLeft(cs, takes, left)
  {
    var front := takes[..|takes| - 1];
    forall k | 0 <= k < |cs| ensures Sum(takes, Naming(cs[k].tags)) == Sum(front, Naming(cs[k].tags)) <= cs[k].count {}
    forall i | 0 <= i < |takes| && takes[i].tagIds.Some? ensures HasCard(cs, takes[i].tagIds.value) {
      assert takes[i] == front[i];
    }
  }

  lemma {:induction false} NamedStepMissing(cs: seq<Cohort>, takes: seq<Take>, left: seq<Cohort>)
    requires takes != [] && takes[|takes| - 1].tagIds.Some?
    requires NamedLeft(cs, takes[..|takes| - 1], left)
    requires forall k :: 0 <= k < |left| ==> !SameCard(left[k].tags, takes[|takes| - 1].tagIds.value)
    ensures !NamedFit(cs, takes)
  {
    forall k | 0 <= k < |cs| ensures !SameCard(cs[k].tags, takes[|takes| - 1].tagIds.value) {
      assert left[k].tags == cs[k].tags;
    }
    assert !HasCard(cs, takes[|takes| - 1].tagIds.value);
  }

  lemma {:induction false} NamedStepFound(cs: seq<Cohort>, takes: seq<Take>, left: seq<Cohort>, k: nat)
    requires DistinctCards(cs) && takes != [] && takes[|takes| - 1].tagIds.Some? && k < |cs|
    requires var front := takes[..|takes| - 1]; NamedFit(cs, front) && NamedLeft(cs, front, left)
    requires SameCard(left[k].tags, takes[|takes| - 1].tagIds.value)
    ensures NamedFit(cs, takes) <==> takes[|takes| - 1].count <= left[k].count
    ensures takes[|takes| - 1].count <= left[k].count ==> NamedLeft(cs, takes, Lower(left, k, takes[|takes| - 1].count))
  {
    FoundFitsIff(cs, takes, left, k);
    if takes[|takes| - 1].count <= left[k].count {
      FoundLeaves(cs, takes, left, k);
    }
  }

  lemma {:induction false} FoundFitsIff(cs: seq<Cohort>, takes: seq<Take>, left: seq<Cohort>, k: nat)
    requires DistinctCards(cs) && takes != [] && takes[|takes| - 1].tagIds.Some? && k < |cs|
    requires var front := takes[..|takes| - 1]; NamedFit(cs, front) && NamedLeft(cs, front, left)
    requires SameCard(left[k].tags, takes[|takes| - 1].tagIds.value)
    ensures NamedFit(cs, takes) <==> takes[|takes| - 1].count <= left[k].count
  {
    assert left[k].tags == cs[k].tags;
    assert left[k].count + Sum(takes[..|takes| - 1], Naming(cs[k].tags)) == cs[k].count;
    OnlyOneCard(cs, takes, k);
  }

  lemma {:induction false} FoundLeaves(cs: seq<Cohort>, takes: seq<Take>, left: seq<Cohort>, k: nat)
    requires DistinctCards(cs) && takes != [] && takes[|takes| - 1].tagIds.Some? && k < |cs|
    requires var front := takes[..|takes| - 1]; NamedFit(cs, front) && NamedLeft(cs, front, left)
    requires SameCard(left[k].tags, takes[|takes| - 1].tagIds.value) && takes[|takes| - 1].count <= left[k].count
    ensures NamedLeft(cs, takes, Lower(left, k, takes[|takes| - 1].count))
  {
    assert left[k].tags == cs[k].tags;
    OnlyOneCard(cs, takes, k);
    SumUpdate(left, k, Cohort(left[k].count - takes[|takes| - 1].count, left[k].tags), COPIES);
  }

  /** The last take lowers the demand-free copies of its own card only. */
  lemma {:induction false} OnlyOneCard(cs: seq<Cohort>, takes: seq<Take>, k: nat)
    requires DistinctCards(cs) && takes != [] && takes[|takes| - 1].tagIds.Some? && k < |cs|
    requires SameCard(cs[k].tags, takes[|takes| - 1].tagIds.value)
    ensures forall j :: 0 <= j < |cs| ==>
              Sum(takes, Naming(cs[j].tags))
              == Sum(takes[..|takes| - 1], Naming(cs[j].tags)) + if j == k then takes[|takes| - 1].count else 0
  {
    var take := takes[|takes| - 1];
    forall j | 0 <= j < |cs| ensures Naming(cs[j].tags)(take) == if j == k then take.count else 0 {
      assert j != k ==> !SameCard(cs[j].tags, cs[k].tags);
    }
  }

  // ---------------------------------------------------------------------------------------------
  // What a plan removes
  // ---------------------------------------------------------------------------------------------

  ghost function Getting(id: TagId): map<TagId, nat> -> nat {
    (m: map<TagId, nat>) => Get(m, id)
  }

  ghost function Elements(ids: seq<TagId>): set<TagId> {
    set t | t in ids
  }

  ghost predicate Clean(cs: seq<Cohort>, known: set<TagId>) {
    forall k :: 0 <= k < |cs| ==> NoRepeats(cs[k].tags) && Elements(cs[k].tags) <= known
  }

  lemma {:induction false} RecordGets(m: map<TagId, nat>, ids: seq<TagId>, copies: nat)
    requires NoRepeats(ids)
    ensures forall id :: Get(Record(m, ids, copies), id) == Get(m, id) + if id in ids then copies else 0
    ensures Record(m, ids, copies).Keys == m.Keys + Elements(ids)
    decreases |ids|
  {
    if ids != [] {
      var front, last := ids[..|ids| - 1], ids[|ids| - 1];
      RecordGets(m, front, copies);
      assert ids == front + [last];
      assert last !in front;
      assert Elements(ids) == Elements(front) + {last};
    }
  }

  lemma {:induction false} LowerCounts(cs: seq<Cohort>, k: nat, copies: nat)
    requires k < |cs| && copies <= cs[k].count
    ensures Total(Lower(cs, k, copies)) + copies == Total(cs)
    ensures forall id ::
        CopiesWith(Lower(cs, k, copies), id) + (if id in cs[k].tags then copies else 0) == CopiesWith(cs, id)
  {
    var lowered := Cohort(cs[k].count - copies, cs[k].tags);
    SumUpdate(cs, k, lowered, COPIES);
    forall id
      ensures CopiesWith(Lower(cs, k, copies), id) + (if id in cs[k].tags then copies else 0) == CopiesWith(cs, id)
    {
      SumUpdate(cs, k, lowered, Carrying(id));
    }
  }

  /** What one take may remove: positive amounts, no tag more than its copies, and a named card's tags exactly. */
  ghost predicate Entry(take: Take, m: map<TagId, nat>, known: set<TagId>) {
    && m.Keys <= known
    && (forall id :: id in m ==> 0 < m[id] <= take.count)
    && (take.tagIds.Some? ==> m.Keys == Elements(take.tagIds.value) && forall id :: id in m ==> m[id] == take.count)
  }

  ghost predicate PositiveTakes(takes: seq<Take>) {
    forall i :: 0 <= i < |takes| ==> takes[i].count > 0
  }

  lemma {:induction false} SameCardElements(a: seq<TagId>, b: seq<TagId>)
    requires SameCard(a, b)
    ensures Elements(a) == Elements(b)
  {
    Sorting.SameElements(a, b);
  }

  /** Copies are conserved: what is left of every tag plus what the takes removed from it is what there was. */
  lemma {:induction false} NamedConserves(cs: seq<Cohort>, takes: seq<Take>, known: set<TagId>, id: TagId)
    requires Clean(cs, known) && NamedTakes(cs, takes).Some?
    ensures var plan := NamedTakes(cs, takes).value;
      CopiesWith(plan.left, id) + Sum(plan.removed, Getting(id)) == CopiesWith(cs, id)
    decreases |takes|
  {
    if takes != [] {
      var front, take := takes[..|takes| - 1], takes[|takes| - 1];
      NamedConserves(cs, front, known, id);
      var before, after := NamedTakes(cs, front).value, NamedTakes(cs, takes).value;
      if take.tagIds.None? {
        SumAppend(before.removed, map[], Getting(id));
      } else {
        var k := FindCard(before.left, take.tagIds.value).value;
        assert NoRepeats(cs[k].tags) && before.left[k].tags == cs[k].tags;
        TakeConserves(before, k, take.count, id);
        assert after.removed == before.removed + [Record(map[], before.left[k].tags, take.count)];
      }
    }
  }

  lemma {:induction false} TakeConserves(plan: Plan, k: nat, copies: nat, id: TagId)
    requires k < |plan.left| && copies <= plan.left[k].count && NoRepeats(plan.left[k].tags)
    ensures var removed := plan.removed + [Record(map[], plan.left[k].tags, copies)];
      CopiesWith(Lower(plan.left, k, copies), id) + Sum(removed, Getting(id))
      == CopiesWith(plan.left, id) + Sum(plan.removed, Getting(id))
  {
    var m := Record(map[], plan.left[k].tags, copies);
    RecordGets(map[], plan.left[k].tags, copies);
    SumAppend(plan.removed, m, Getting(id));
    LowerCounts(plan.left, k, copies);
    assert Get(m, id) == if id in plan.left[k].tags then copies else 0;
  }

  /** What the first pass records: a take's copies under just the tags it names, and nothing for the other takes. */
  ghost predicate NamedRecords(takes: seq<Take>, removed: seq<map<TagId, nat>>, known: set<TagId>) {
    && |removed| == |takes|
    && forall i :: 0 <= i < |takes| ==>
      Entry(takes[i], removed[i], known) && (takes[i].tagIds.None? ==> removed[i] == map[])
  }

  lemma {:induction false} RecordsNext(
      front: seq<Take>, before: seq<map<TagId, nat>>, take: Take, m: map<TagId, nat>, known: set<TagId>)
    requires NamedRecords(front, before, known) && Entry(take, m, known) && (take.tagIds.None? ==> m == map[])
    ensures NamedRecords(front + [take], before + [m], known)
  {
  }

  lemma {:induction false} NamedEntries(cs: seq<Cohort>, takes: seq<Take>, known: set<TagId>)
    requires Clean(cs, known) && PositiveTakes(takes) && NamedTakes(cs, takes).Some?
    ensures NamedRecords(takes, NamedTakes(cs, takes).value.removed, known)
    decreases |takes|
  {
    if takes != [] {
      var front, take := takes[..|takes| - 1], takes[|takes| - 1];
      var m := LastEntry(cs, takes, known);
      NamedEntries(cs, front, known);
      RecordsNext(front, NamedTakes(cs, front).value.removed, take, m, known);
      assert takes == front + [take];
    }
  }

  lemma {:induction false} LastEntry(cs: seq<Cohort>, takes: seq<Take>, known: set<TagId>) returns (m: map<TagId, nat>)
    requires Clean(cs, known) && PositiveTakes(takes) && takes != [] && NamedTakes(cs, takes).Some?
    ensures NamedTakes(cs, takes[..|takes| - 1]).Some? && PositiveTakes(takes[..|takes| - 1])
    ensures NamedTakes(cs, takes).value.removed == NamedTakes(cs, takes[..|takes| - 1]).value.removed + [m]
    ensures Entry(takes[|takes| - 1], m, known) && (takes[|takes| - 1].tagIds.None? ==> m == map[])
  {
    var take := takes[|takes| - 1];
    var before := NamedTakes(cs, takes[..|takes| - 1]).value;
    m := map[];
    if take.tagIds.Some? {
      var k := FindCard(before.left, take.tagIds.value).value;
      m := Record(map[], before.left[k].tags, take.count);
      assert before.left[k].tags == cs[k].tags;
      RecordedEntry(cs[k].tags, take, known);
    }
  }

  lemma {:induction false} RecordedEntry(ids: seq<TagId>, take: Take, known: set<TagId>)
    requires take.tagIds.Some? && SameCard(ids, take.tagIds.value)
    requires NoRepeats(ids) && Elements(ids) <= known && take.count > 0
    ensures Entry(take, Record(map[], ids, take.count), known)
  {
    RecordGets(map[], ids, take.count);
    SameCardElements(ids, take.tagIds.value);
    var m := Record(map[], ids, take.count);
    forall id | id in m ensures m[id] == take.count {
      assert Get(m, id) == m[id];
    }
  }

  /** Drawing loose copies takes as many as there are, up to the number wanted. */
  lemma {:induction false} LooseAmount(cs: seq<Cohort>, order: seq<nat>, wanted: nat, removed: map<TagId, nat>)
    requires Positions(cs, order)
    ensures var drawn := DrawLoose(cs, order, wanted, removed);
      drawn.missing + Min(wanted, Held(cs, order)) == wanted && Total(drawn.left) + wanted == Total(cs) + drawn.missing
    decreases |order|
  {
    if order != [] {
      var k, rest := order[0], order[1..];
      var taken := Min(wanted, cs[k].count);
      if taken > 0 {
        var lowered := Lower(cs, k, taken);
        LowerCounts(cs, k, taken);
        HeldFrame(cs, lowered, rest);
        LooseAmount(lowered, rest, wanted - taken, Record(removed, cs[k].tags, taken));
      } else {
        LooseAmount(cs, rest, wanted, removed);
      }
    }
  }

  /** Every tag's loss is recorded, and no tag loses more copies than were taken. */
  lemma {:induction false} LooseConserves(
      cs: seq<Cohort>, order: seq<nat>, wanted: nat, removed: map<TagId, nat>, known: set<TagId>, id: TagId)
    requires Within(order, |cs|) && Clean(cs, known)
    ensures var drawn := DrawLoose(cs, order, wanted, removed);
      && CopiesWith(drawn.left, id) + Get(drawn.removed, id) == CopiesWith(cs, id) + Get(removed, id)
      && drawn.missing <= wanted && Get(drawn.removed, id) <= Get(removed, id) + wanted - drawn.missing
    decreases |order|
  {
    if order != [] {
      var k, rest := order[0], order[1..];
      var taken := Min(wanted, cs[k].count);
      if taken > 0 {
        LowerRecords(cs, k, taken, removed, known, id);
        LooseConserves(Lower(cs, k, taken), rest, wanted - taken, Record(removed, cs[k].tags, taken), known, id);
      } else {
        LooseConserves(cs, rest, wanted, removed, known, id);
      }
    }
  }

  lemma {:induction false} LowerRecords(
      cs: seq<Cohort>, k: nat, taken: nat, removed: map<TagId, nat>, known: set<TagId>, id: TagId)
    requires k < |cs| && 0 < taken <= cs[k].count && Clean(cs, known)
    ensures var after, record := Lower(cs, k, taken), Record(removed, cs[k].tags, taken);
      && Clean(after, known)
      && CopiesWith(after, id) + Get(record, id) == CopiesWith(cs, id) + Get(removed, id)
      && Get(record, id) <= Get(removed, id) + taken
  {
    LowerCounts(cs, k, taken);
    assert NoRepeats(cs[k].tags);
    RecordGets(removed, cs[k].tags, taken);
  }

  ghost predicate Recorded(m: map<TagId, nat>, known: set<TagId>) {
    m.Keys <= known && forall id :: id in m ==> m[id] > 0
  }

  lemma {:induction false} LooseRecords(
      cs: seq<Cohort>, order: seq<nat>, wanted: nat, removed: map<TagId, nat>, known: set<TagId>)
    requires Within(order, |cs|) && Clean(cs, known) && Recorded(removed, known)
    ensures Recorded(DrawLoose(cs, order, wanted, removed).removed, known)
    decreases |order|
  {
    if order != [] {
      var k, rest := order[0], order[1..];
      var taken := Min(wanted, cs[k].count);
      if taken > 0 {
        var recorded := Record(removed, cs[k].tags, taken);
        assert NoRepeats(cs[k].tags) && Elements(cs[k].tags) <= known;
        RecordGets(removed, cs[k].tags, taken);
        forall id | id in recorded ensures recorded[id] > 0 {
          assert Get(recorded, id) == recorded[id];
          assert id in removed ==> Get(removed, id) == removed[id];
        }
        LooseRecords(Lower(cs, k, taken), rest, wanted - taken, recorded, known);
      } else {
        LooseRecords(cs, rest, wanted, removed, known);
      }
    }
  }

  // ---------------------------------------------------------------------------------------------
  // The second pass, and both passes together
  // ---------------------------------------------------------------------------------------------

  lemma {:induction false} PositionsHeld(cs: seq<Cohort>, n: nat)
    requires n <= |cs|
    ensures Held(cs, AllPositions(n)) == Total(cs[..n])
    decreases n
  {
    if n > 0 {
      PositionsHeld(cs, n - 1);
      HeldAppend(cs, AllPositions(n - 1), n - 1);
      SumAppend(cs[..n - 1], cs[n - 1], COPIES);
      assert cs[..n] == cs[..n - 1] + [cs[n - 1]];
    }
  }

  /** The order depends on the tags of the cohorts only, so lowering counts does not disturb it. */
  lemma {:induction false} OrderFrame(cs: seq<Cohort>, left: seq<Cohort>, picked: seq<nat>)
    requires |left| == |cs| && Positions(cs, picked)
    requires forall k :: 0 <= k < |cs| ==> left[k].tags == cs[k].tags
    ensures FewestTagsFirst(left, picked) == FewestTagsFirst(cs, picked)
    decreases |picked|
  {
    if picked != [] {
      var front := picked[..|picked| - 1];
      OrderFrame(cs, left, front);
      InsertFrame(cs, left, FewestTagsFirst(cs, front), picked[|picked| - 1]);
    }
  }

  lemma {:induction false} InsertFrame(cs: seq<Cohort>, left: seq<Cohort>, order: seq<nat>, k: nat)
    requires |left| == |cs| && k < |cs| && k !in order && Ordered(cs, order) && Ordered(left, order)
    requires forall j :: 0 <= j < |cs| ==> left[j].tags == cs[j].tags
    ensures Insert(left, order, k) == Insert(cs, order, k)
    decreases |order|
  {
    if order != [] {
      assert order == [order[0]] + order[1..];
      if !Before(cs, k, order[0]) {
        InsertFrame(cs, left, order[1..], k);
      }
    }
  }

  lemma {:induction false} WholeOrderHeld(cs: seq<Cohort>, left: seq<Cohort>)
    requires |left| == |cs|
    requires forall k :: 0 <= k < |cs| ==> left[k].tags == cs[k].tags
    ensures Positions(left, WholeOrder(cs)) && Held(left, WholeOrder(cs)) == Total(left)
  {
    OrderFrame(cs, left, AllPositions(|cs|));
    SortedHeld(left, AllPositions(|cs|));
    PositionsHeld(left, |cs|);
    assert left[..|cs|] == left;
  }

  /** The second pass succeeds exactly while the stage still holds the copies asked for. */
  lemma {:induction false} LooseIffFit(plan: Plan, takes: seq<Take>, n: nat)
    requires |plan.removed| == |takes| && n <= |takes|
    ensures var after := LooseTakes(plan, WholeOrder(plan.left), takes, n);
      && (after.Some? <==> Sum(takes[..n], LOOSE) <= Total(plan.left))
      && (after.Some? ==> Total(after.value.left) + Sum(takes[..n], LOOSE) == Total(plan.left))
    decreases n
  {
    if n > 0 {
      LooseIffFit(plan, takes, n - 1);
      assert takes[..n] == takes[..n - 1] + [takes[n - 1]];
      SumAppend(takes[..n - 1], takes[n - 1], LOOSE);
      var sofar := LooseTakes(plan, WholeOrder(plan.left), takes, n - 1);
      if sofar.Some? && takes[n - 1].tagIds.None? {
        WholeOrderHeld(plan.left, sofar.value.left);
        LooseAmount(sofar.value.left, WholeOrder(plan.left), takes[n - 1].count, sofar.value.removed[n - 1]);
      }
    }
  }

  /** A plan exists exactly when the demands fit: the order of the takes plays no part. */
  lemma {:induction false} PlanIffFits(cs: seq<Cohort>, takes: seq<Take>)
    requires Cards(cs)
    ensures PlanWith(cs, takes).Some? <==> Fits(cs, takes)
    ensures PlanWith(cs, takes).Some? ==> Total(PlanWith(cs, takes).value.left) + Sum(takes, WANTED) == Total(cs)
  {
    CardsAreDistinct(cs);
    NamedIffFit(cs, takes);
    DemandSplits(takes);
    if NamedTakes(cs, takes).Some? {
      LooseIffFit(NamedTakes(cs, takes).value, takes, |takes|);
      assert takes[..|takes|] == takes;
    }
  }

  ghost predicate AllEntries(takes: seq<Take>, removed: seq<map<TagId, nat>>, known: set<TagId>) {
    |removed| == |takes| && forall i :: 0 <= i < |takes| ==> Entry(takes[i], removed[i], known)
  }

  lemma {:induction false} EntryReplaced(
      takes: seq<Take>, removed: seq<map<TagId, nat>>, known: set<TagId>, i: nat, m: map<TagId, nat>)
    requires AllEntries(takes, removed, known) && i < |takes| && Entry(takes[i], m, known)
    ensures AllEntries(takes, removed[i := m], known)
  {
  }

  /** The second pass, one take further. */
  lemma {:induction false} LooseTakesNext(plan: Plan, takes: seq<Take>, n: nat, sofar: Plan)
    requires |plan.removed| == |takes| && n < |takes|
    requires LooseTakes(plan, WholeOrder(plan.left), takes, n) == Some(sofar)
    ensures |sofar.left| == |plan.left| && |sofar.removed| == |takes| && sofar.removed[n] == plan.removed[n]
    ensures LooseTakes(plan, WholeOrder(plan.left), takes, n + 1) ==
              if takes[n].tagIds.Some? then Some(sofar)
              else
                var drawn := DrawLoose(sofar.left, WholeOrder(plan.left), takes[n].count, plan.removed[n]);
                if drawn.missing > 0 then None else Some(Plan(drawn.left, sofar.removed[n := drawn.removed]))
  {
  }

  ghost predicate LooseHolds(plan: Plan, sofar: Plan, takes: seq<Take>, known: set<TagId>) {
    && AllEntries(takes, sofar.removed, known)
    && |sofar.left| == |plan.left| && (forall k :: 0 <= k < |plan.left| ==> sofar.left[k].tags == plan.left[k].tags)
    && forall id ::
         CopiesWith(sofar.left, id) + Sum(sofar.removed, Getting(id)) ==
           CopiesWith(plan.left, id) + Sum(plan.removed, Getting(id))
  }

  lemma {:induction false} LooseKeeps(plan: Plan, takes: seq<Take>, n: nat, known: set<TagId>)
    requires |plan.removed| == |takes| && n <= |takes| && Clean(plan.left, known)
    requires NamedRecords(takes, plan.removed, known)
    requires LooseTakes(plan, WholeOrder(plan.left), takes, n).Some?
    ensures LooseHolds(plan, LooseTakes(plan, WholeOrder(plan.left), takes, n).value, takes, known)
    decreases n
  {
    if n > 0 {
      LooseKeeps(plan, takes, n - 1, known);
      var sofar := LooseTakes(plan, WholeOrder(plan.left), takes, n - 1).value;
      LooseTakesNext(plan, takes, n - 1, sofar);
      if takes[n - 1].tagIds.None? {
        LooseOneMore(plan, sofar, takes, n, known);
      }
    }
  }

  lemma {:induction false} LooseOneMore(plan: Plan, sofar: Plan, takes: seq<Take>, n: nat, known: set<TagId>)
    requires |plan.removed| == |takes| && 0 < n <= |takes| && takes[n - 1].tagIds.None? && Clean(plan.left, known)
    requires LooseHolds(plan, sofar, takes, known) && sofar.removed[n - 1] == map[]
    ensures var drawn := DrawLoose(sofar.left, WholeOrder(plan.left), takes[n - 1].count, map[]);
      LooseHolds(plan, Plan(drawn.left, sofar.removed[n - 1 := drawn.removed]), takes, known)
  {
    forall k | 0 <= k < |sofar.left| ensures NoRepeats(sofar.left[k].tags) && Elements(sofar.left[k].tags) <= known {
      assert sofar.left[k].tags == plan.left[k].tags;
    }
    LooseStep(plan, sofar, takes, n, known);
    var drawn := DrawLoose(sofar.left, WholeOrder(plan.left), takes[n - 1].count, map[]);
    EntryReplaced(takes, sofar.removed, known, n - 1, drawn.removed);
  }

  lemma {:induction false} LooseEntries(plan: Plan, takes: seq<Take>, n: nat, known: set<TagId>)
    requires |plan.removed| == |takes| && n <= |takes| && Clean(plan.left, known)
    requires NamedRecords(takes, plan.removed, known)
    requires LooseTakes(plan, WholeOrder(plan.left), takes, n).Some?
    ensures AllEntries(takes, LooseTakes(plan, WholeOrder(plan.left), takes, n).value.removed, known)
    ensures forall id :: LooseBalance(plan, takes, n, id)
  {
    LooseKeeps(plan, takes, n, known);
  }

  ghost predicate LooseBalance(plan: Plan, takes: seq<Take>, n: nat, id: TagId)
    requires |plan.removed| == |takes| && n <= |takes|
  {
    var after := LooseTakes(plan, WholeOrder(plan.left), takes, n);
    after.Some? ==>
      CopiesWith(after.value.left, id) + Sum(after.value.removed, Getting(id))
      == CopiesWith(plan.left, id) + Sum(plan.removed, Getting(id))
  }

  lemma {:induction false} LooseStep(plan: Plan, sofar: Plan, takes: seq<Take>, n: nat, known: set<TagId>)
    requires |plan.removed| == |takes| == |sofar.removed| && 0 < n <= |takes| && takes[n - 1].tagIds.None?
    requires |sofar.left| == |plan.left| && Clean(sofar.left, known) && sofar.removed[n - 1] == map[]
    ensures var drawn := DrawLoose(sofar.left, WholeOrder(plan.left), takes[n - 1].count, map[]);
      && Entry(takes[n - 1], drawn.removed, known)
      && forall id ::
           CopiesWith(drawn.left, id) + Sum(sofar.removed[n - 1 := drawn.removed], Getting(id))
           == CopiesWith(sofar.left, id) + Sum(sofar.removed, Getting(id))
  {
    var take, order := takes[n - 1], WholeOrder(plan.left);
    var drawn := DrawLoose(sofar.left, order, take.count, map[]);
    LooseRecords(sofar.left, order, take.count, map[], known);
    forall id | id in drawn.removed ensures drawn.removed[id] <= take.count {
      LooseConserves(sofar.left, order, take.count, map[], known, id);
      assert Get(drawn.removed, id) == drawn.removed[id];
    }
    forall id
      ensures CopiesWith(drawn.left, id) + Sum(sofar.removed[n - 1 := drawn.removed], Getting(id))
           == CopiesWith(sofar.left, id) + Sum(sofar.removed, Getting(id))
    {
      LooseConserves(sofar.left, order, take.count, map[], known, id);
      SumUpdate(sofar.removed, n - 1, drawn.removed, Getting(id));
    }
  }

  // ---------------------------------------------------------------------------------------------
  // The plan for a stage
  // ---------------------------------------------------------------------------------------------

  /** What a caller may rely on when the stage's copies are taken as planned. */
  ghost predicate Removes(count: nat, tags: seq<Tag>, takes: seq<Take>, removed: seq<map<TagId, nat>>) {
    && |removed| == |takes|
    && (forall i :: 0 <= i < |takes| ==> Entry(takes[i], removed[i], Ids(tags)))
    && Sum(takes, WANTED) <= count
    && (forall n :: 0 <= n < |tags| ==> LeavesRoom(count, tags[n], takes, removed))
  }

  /** No tag loses copies it does not have, and the copies left can still carry the tags left. */
  ghost predicate LeavesRoom(count: nat, tag: Tag, takes: seq<Take>, removed: seq<map<TagId, nat>>) {
    && Sum(removed, Getting(tag.id)) <= Min(tag.count, count)
    && Min(tag.count, count) - Sum(removed, Getting(tag.id)) <= count - Sum(takes, WANTED)
  }

  lemma {:induction false} CardsAreClean(cs: seq<Cohort>, count: nat, tags: seq<Tag>)
    requires Splits(cs, count, tags)
    ensures Clean(cs, Ids(tags))
  {
    forall k | 0 <= k < |cs| ensures NoRepeats(cs[k].tags) && Elements(cs[k].tags) <= Ids(tags) {
      assert TagSet(cs[k]) <= Ids(tags);
      assert Elements(cs[k].tags) == TagSet(cs[k]);
    }
  }

  /** Sound and complete: a plan exists exactly when every demand fits, and it removes what `Removes` says. */
  lemma {:induction false} PlanIsSoundAndComplete(count: nat, tags: seq<Tag>, takes: seq<Take>)
    requires DistinctTags(tags) && PositiveTakes(takes)
    ensures PlanTakes(count, tags, takes).Some? <==> Fits(Draw(count, tags), takes)
    ensures PlanTakes(count, tags, takes).Some? ==> Removes(count, tags, takes, PlanTakes(count, tags, takes).value)
  {
    var cs := Draw(count, tags);
    DrawSplits(count, tags);
    PlanIffFits(cs, takes);
    CardsAreClean(cs, count, tags);
    if PlanWith(cs, takes).Some? {
      var named, plan := NamedTakes(cs, takes).value, PlanWith(cs, takes).value;
      NamedEntries(cs, takes, Ids(tags));
      LooseEntries(named, takes, |takes|, Ids(tags));
      forall n | 0 <= n < |tags| ensures LeavesRoom(count, tags[n], takes, plan.removed) {
        var id := tags[n].id;
        assert LooseBalance(named, takes, |takes|, id);
        NamedConserves(cs, takes, Ids(tags), id);
        SumBelow(plan.left, Carrying(id), COPIES);
      }
    }
  }

  /** Reordering the takes does not change whether they can be planned. */
  lemma {:induction false} PlanIgnoresOrder(count: nat, tags: seq<Tag>, takes: seq<Take>, shuffled: seq<Take>)
    requires DistinctTags(tags) && multiset(takes) == multiset(shuffled)
    ensures PlanTakes(count, tags, takes).Some? <==> PlanTakes(count, tags, shuffled).Some?
  {
    var cs := Draw(count, tags);
    DrawSplits(count, tags);
    PlanIffFits(cs, takes);
    PlanIffFits(cs, shuffled);
    if Fits(cs, takes) {
      FitsIgnoresOrder(cs, takes, shuffled);
    }
    if Fits(cs, shuffled) {
      FitsIgnoresOrder(cs, shuffled, takes);
    }
  }

  lemma {:induction false} FitsIgnoresOrder(cs: seq<Cohort>, takes: seq<Take>, shuffled: seq<Take>)
    requires multiset(takes) == multiset(shuffled) && Fits(cs, takes)
    ensures Fits(cs, shuffled)
  {
    SumPermutation(takes, shuffled, WANTED);
    forall k | 0 <= k < |cs| ensures Sum(shuffled, Naming(cs[k].tags)) <= cs[k].count {
      SumPermutation(takes, shuffled, Naming(cs[k].tags));
    }
    forall i | 0 <= i < |shuffled| && shuffled[i].tagIds.Some? ensures HasCard(cs, shuffled[i].tagIds.value) {
      assert shuffled[i] in multiset(shuffled);
      assert shuffled[i] in multiset(takes);
      var j :| 0 <= j < |takes| && takes[j] == shuffled[i];
      assert HasCard(cs, takes[j].tagIds.value);
    }
  }

  // ---------------------------------------------------------------------------------------------
  // Takes that name each card at most once
  // ---------------------------------------------------------------------------------------------

  /** The take names a card of the list and asks for no more copies than it has. */
  ghost predicate NamesOne(cs: seq<Cohort>, t: Take) {
    t.tagIds.Some? && exists k :: 0 <= k < |cs| && SameCard(cs[k].tags, t.tagIds.value) && t.count <= cs[k].count
  }

  predicate Clash(t: Take, u: Take) {
    t.tagIds.Some? && u.tagIds.Some? && SameCard(t.tagIds.value, u.tagIds.value)
  }

  ghost predicate EachOnce(cs: seq<Cohort>, takes: seq<Take>) {
    && (forall i :: 0 <= i < |takes| ==> NamesOne(cs, takes[i]))
    && (forall i, j :: 0 <= i < j < |takes| ==> !Clash(takes[i], takes[j]))
  }

  /** With no card named twice, the demand on a card is what the one take naming it asks for. */
  lemma {:induction false} DemandOnce(takes: seq<Take>, card: seq<TagId>, bound: nat)
    requires forall i, j :: 0 <= i < j < |takes| ==> !Clash(takes[i], takes[j])
    requires forall i :: 0 <= i < |takes| ==> Naming(card)(takes[i]) <= bound
    ensures Sum(takes, Naming(card)) <= bound
    decreases |takes|
  {
    if takes != [] {
      var front, last := takes[..|takes| - 1], takes[|takes| - 1];
      DemandOnce(front, card, bound);
      if last.tagIds.Some? && SameCard(card, last.tagIds.value) {
        forall t | t in front ensures Naming(card)(t) == 0 {
          var i :| 0 <= i < |front| && front[i] == t;
          assert !Clash(takes[i], takes[|takes| - 1]);
        }
        SumZero(front, Naming(card));
      }
    }
  }

  lemma {:induction false} EachOnceFits(cs: seq<Cohort>, takes: seq<Take>)
    requires Cards(cs) && EachOnce(cs, takes)
    ensures Fits(cs, takes)
  {
    CardsAreDistinct(cs);
    forall i | 0 <= i < |takes|
      ensures takes[i].tagIds.Some? && HasCard(cs, takes[i].tagIds.value) && LOOSE(takes[i]) == 0
    {
      assert NamesOne(cs, takes[i]);
    }
    forall k | 0 <= k < |cs| ensures Sum(takes, Naming(cs[k].tags)) <= cs[k].count {
      forall i | 0 <= i < |takes| ensures Naming(cs[k].tags)(takes[i]) <= cs[k].count {
        OnlyItsCard(cs, takes[i], k);
      }
      DemandOnce(takes, cs[k].tags, cs[k].count);
    }
    NamedIffFit(cs, takes);
    DemandSplits(takes);
    SumZero(takes, LOOSE);
  }

  lemma {:induction false} OnlyItsCard(cs: seq<Cohort>, t: Take, k: nat)
    requires DistinctCards(cs) && NamesOne(cs, t) && k < |cs|
    ensures Naming(cs[k].tags)(t) <= cs[k].count
  {
    var j :| 0 <= j < |cs| && SameCard(cs[j].tags, t.tagIds.value) && t.count <= cs[j].count;
    assert j != k ==> !SameCard(cs[j].tags, cs[k].tags);
  }

  // ---------------------------------------------------------------------------------------------
  // The loops that make the plan
  // ---------------------------------------------------------------------------------------------

  method RecordTake(m: map<TagId, nat>, ids: seq<TagId>, copies: nat) returns (r: map<TagId, nat>)
    ensures r == Record(m, ids, copies)
  {
    r := m;
    for n := 0 to |ids|
      invariant r == Record(m, ids[..n], copies)
    {
      assert ids[..n + 1][..n] == ids[..n];
      r := r[ids[n] := Get(r, ids[n]) + copies];
    }
    assert ids[..|ids|] == ids;
  }

  method TakeLoose(
      cohorts: seq<Cohort>, fewestTagsFirst: seq<nat>, copies: nat, m: map<TagId, nat>) returns (drawn: Drawn)
    requires Within(fewestTagsFirst, |cohorts|)
    ensures drawn == DrawLoose(cohorts, fewestTagsFirst, copies, m)
  {
    var left, removed, remaining := cohorts, m, copies;
    for n := 0 to |fewestTagsFirst|
      invariant |left| == |cohorts|
      invariant DrawLoose(left, fewestTagsFirst[n..], remaining, removed) ==
          DrawLoose(cohorts, fewestTagsFirst, copies, m)
    {
      var k := fewestTagsFirst[n];
      var taken := Min(remaining, left[k].count);
      assert fewestTagsFirst[n..][1..] == fewestTagsFirst[n + 1..];
      if taken > 0 {
        removed := RecordTake(removed, left[k].tags, taken);
        left := left[k := Cohort(left[k].count - taken, left[k].tags)];
      }
      remaining := remaining - taken;
    }
    drawn := Drawn(left, removed, remaining);
  }

  method TakeNamed(cohorts: seq<Cohort>, takes: seq<Take>) returns (plan: Option<Plan>)
    ensures plan == NamedTakes(cohorts, takes)
  {
    var left, removed := cohorts, [];
    for n := 0 to |takes|
      invariant NamedTakes(cohorts, takes[..n]) == Some(Plan(left, removed))
    {
      NamedPrefix(cohorts, takes, n + 1);
      assert takes[..n + 1][..n] == takes[..n];
      if takes[n].tagIds.None? {
        removed := removed + [map[]];
        continue;
      }
      var found := FindCard(left, takes[n].tagIds.value);
      if found.None? || left[found.value].count < takes[n].count {
        return None;
      }
      var m := RecordTake(map[], left[found.value].tags, takes[n].count);
      removed := removed + [m];
      left := Lower(left, found.value, takes[n].count);
    }
    assert takes[..|takes|] == takes;
    plan := Some(Plan(left, removed));
  }

  /** A refused prefix refuses the whole list. */
  lemma {:induction false} NamedPrefix(cs: seq<Cohort>, takes: seq<Take>, n: nat)
    requires n <= |takes|
    ensures NamedTakes(cs, takes[..n]).None? ==> NamedTakes(cs, takes).None?
    decreases |takes|
  {
    if n < |takes| {
      assert takes[..|takes| - 1][..n] == takes[..n];
      NamedPrefix(cs, takes[..|takes| - 1], n);
    } else {
      assert takes[..n] == takes;
    }
  }

  lemma {:induction false} LoosePrefix(plan: Plan, takes: seq<Take>, n: nat, m: nat)
    requires |plan.removed| == |takes| && n <= m <= |takes|
    ensures LooseTakes(plan, WholeOrder(plan.left), takes, n).None? ==>
        LooseTakes(plan, WholeOrder(plan.left), takes, m).None?
    decreases m
  {
    if n < m {
      LoosePrefix(plan, takes, n, m - 1);
    }
  }

  method TakeUnnamed(named: Plan, takes: seq<Take>) returns (plan: Option<Plan>)
    requires |named.removed| == |takes|
    ensures plan == LooseTakes(named, WholeOrder(named.left), takes, |takes|)
  {
    var left, removed := named.left, named.removed;
    var fewestTagsFirst := WholeOrder(named.left);
    for n := 0 to |takes|
      invariant LooseTakes(named, fewestTagsFirst, takes, n) == Some(Plan(left, removed))
    {
      LooseTakesNext(named, takes, n, Plan(left, removed));
      if takes[n].tagIds.Some? {
        continue;
      }
      var drawn := TakeLoose(left, fewestTagsFirst, takes[n].count, removed[n]);
      if drawn.missing > 0 {
        LoosePrefix(named, takes, n + 1, |takes|);
        return None;
      }
      left, removed := drawn.left, removed[n := drawn.removed];
    }
    plan := Some(Plan(left, removed));
  }

  /** Plans the takes over the stage's cohorts, named cards first. */
  method PlanCohortTakes(count: nat, tags: seq<Tag>, takes: seq<Take>) returns (removed: Option<seq<map<TagId, nat>>>)
    ensures removed == PlanTakes(count, tags, takes)
  {
    var cohorts := DrawCohorts(count, tags);
    var named := TakeNamed(cohorts, takes);
    if named.None? {
      return None;
    }
    var plan := TakeUnnamed(named.value, takes);
    removed := if plan.None? then None else Some(plan.value.removed);
  }
}
