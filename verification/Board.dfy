/** A print's rows and the steps that move its copies between stages; every step is all or nothing. */
module Board {
  import opened Options
  import opened Sums
  import opened Cohorts
  import opened Takes

  datatype Stage = Todo | UpNext | InProgress | PostProcessing | Done

  datatype StageRow = StageRow(quantity: nat, order: Option<int>, completedAt: Option<int>)

  /** One tag of one stage of a print. */
  datatype Slot = Slot(stage: Stage, tag: TagId)

  datatype Print = Print(quantity: nat, stages: map<Stage, StageRow>, tags: map<Slot, nat>)

  type PrintId = nat

  datatype Move = Move(id: PrintId, from: Stage, to: Stage, count: nat, tagIds: Option<seq<TagId>>, movedAt: int)

  /** A move with the copies its plan takes from each tag. */
  datatype Step = Step(move: Move, taken: map<TagId, nat>)

  function Qty(p: Print, s: Stage): nat {
    if s in p.stages then p.stages[s].quantity else 0
  }

  function TagQty(p: Print, s: Stage, t: TagId): nat {
    if Slot(s, t) in p.tags then p.tags[Slot(s, t)] else 0
  }

  function StageSum(p: Print): nat {
    Qty(p, Todo) + Qty(p, UpNext) + Qty(p, InProgress) + Qty(p, PostProcessing) + Qty(p, Done)
  }

  /** How many copies of the print carry the tag, whatever their stage. */
  function TagTotal(p: Print, t: TagId): nat {
    TagQty(p, Todo, t) + TagQty(p, UpNext, t) + TagQty(p, InProgress, t) + TagQty(p, PostProcessing, t) +
      TagQty(p, Done, t)
  }

  /** Every stage keeps the print's place in it, and when it was completed there. */
  ghost predicate PlacesKept(p: Print, q: Print) {
    p.stages.Keys == q.stages.Keys && forall s :: s in p.stages ==>
      q.stages[s].order == p.stages[s].order && q.stages[s].completedAt == p.stages[s].completedAt
  }

  ghost predicate HasStages(p: Print) {
    forall s: Stage :: s in p.stages
  }

  /** Every tag row names a known tag and counts at least one and at most the stage's copies. */
  ghost predicate TagsFit(p: Print, catalog: seq<TagId>) {
    forall slot :: slot in p.tags ==> slot.tag in catalog && 0 < p.tags[slot] <= Qty(p, slot.stage)
  }

  /** The board invariant of one print. */
  ghost predicate Sound(p: Print, catalog: seq<TagId>) {
    HasStages(p) && StageSum(p) == p.quantity && TagsFit(p, catalog)
  }

  // ---------------------------------------------------------------------------------------------
  // The steps
  // ---------------------------------------------------------------------------------------------

  /** The stage's tag counts in catalog order, as the cohorts are drawn from them. */
  function StageTags(p: Print, catalog: seq<TagId>, s: Stage): seq<Tag> {
    if catalog == [] then []
    else
      var id := catalog[|catalog| - 1];
      StageTags(p, catalog[..|catalog| - 1], s) + if Slot(s, id) in p.tags then [Tag(id, p.tags[Slot(s, id)])] else []
  }

  /** Takes copies off one tag row, provided it still holds the count read before. */
  function TakeOff(p: Print, s: Stage, tag: Tag, copies: nat): Option<Print> {
    var slot := Slot(s, tag.id);
    if copies == 0 then Some(p)
    else if slot !in p.tags || p.tags[slot] != tag.count then None
    else if copies == tag.count then Some(p.(tags := p.tags - {slot}))
    else if copies > tag.count then None
    else Some(p.(tags := p.tags[slot := tag.count - copies]))
  }

  ghost function RemoveTagCopies(p: Print, s: Stage, tags: seq<Tag>, removed: seq<map<TagId, nat>>): Option<Print> {
    if tags == [] then Some(p)
    else
      var tag := tags[|tags| - 1];
      match RemoveTagCopies(p, s, tags[..|tags| - 1], removed)
      case None => None
      case Some(q) => TakeOff(q, s, tag, Sum(removed, Getting(tag.id)))
  }

  /** Adds copies to one tag row of a stage, creating the row when there is none. */
  function AddTagCopies(p: Print, s: Stage, t: TagId, copies: nat): Print {
    p.(tags := p.tags[Slot(s, t) := TagQty(p, s, t) + copies])
  }

  /** Adds all taken copies to the target stage, tag by tag in any order. */
  ghost function AddTaken(p: Print, s: Stage, taken: map<TagId, nat>): Print {
    if taken == map[] then p
    else
      var t :| t in taken;
      AddTagCopies(AddTaken(p, s, taken - {t}), s, t, taken[t])
  }

  /** The rows after copies left a stage; an emptied last stage is no longer completed. */
  function Leave(stages: map<Stage, StageRow>, s: Stage, count: nat): map<Stage, StageRow>
    requires s in stages && count <= stages[s].quantity
  {
    var row := stages[s];
    stages[s := StageRow(
      row.quantity - count, row.order, if s == Done && row.quantity == count then None else row.completedAt)]
  }

  /** The rows after copies came from a stage placed at `order`; a stage that was empty takes that place. */
  function Arrive(
      stages: map<Stage, StageRow>, s: Stage, count: nat, order: Option<int>, at: int): map<Stage, StageRow> {
    map r | r in stages ::
      var row := stages[r];
      if r != s then row
      else
        StageRow(
          row.quantity + count, if row.quantity == 0 then order else row.order,
          if s == Done then Some(at) else row.completedAt)
  }

  /** Moves copy counts between stages, provided the source still holds `fromQuantity` copies. */
  function MoveCopies(p: Print, m: Move, fromQuantity: int): Option<Print> {
    if m.from !in p.stages || fromQuantity < m.count || m.to !in p.stages then None
    else if p.stages[m.from].quantity != fromQuantity then None
    else Some(p.(stages := Arrive(Leave(p.stages, m.from, m.count), m.to, m.count, p.stages[m.from].order, m.movedAt)))
  }

  ghost function MoveStep(p: Print, step: Step, fromQuantity: int): Option<Print> {
    match MoveCopies(p, step.move, fromQuantity)
    case None => None
    case Some(q) => Some(AddTaken(q, step.move.to, step.taken))
  }

  ghost const COUNT: Step -> nat := (st: Step) => st.move.count

  /** Carries out the steps in order; the source is checked against what the steps before left. */
  ghost function MoveEach(p: Print, steps: seq<Step>, quantity: nat): Option<Print> {
    if steps == [] then Some(p)
    else
      var front, step := steps[..|steps| - 1], steps[|steps| - 1];
      match MoveEach(p, front, quantity)
      case None => None
      case Some(q) => MoveStep(q, step, quantity - Sum(front, COUNT))
  }

  function TakesOf(moves: seq<Move>): (r: seq<Take>)
    ensures |r| == |moves| && forall i :: 0 <= i < |moves| ==> r[i] == Take(moves[i].count, moves[i].tagIds)
  {
    seq(|moves|, i requires 0 <= i < |moves| => Take(moves[i].count, moves[i].tagIds))
  }

  function Steps(moves: seq<Move>, removed: seq<map<TagId, nat>>): (r: seq<Step>)
    requires |moves| == |removed|
    ensures |r| == |moves| && forall i :: 0 <= i < |moves| ==> r[i] == Step(moves[i], removed[i])
  {
    seq(|moves|, i requires 0 <= i < |moves| => Step(moves[i], removed[i]))
  }

  /** Moves the copies that moves out of one stage of the print name; `None` when the step is refused. */
  ghost function MoveStage(p: Print, catalog: seq<TagId>, from: Stage, moves: seq<Move>): Option<Print> {
    var tags := StageTags(p, catalog, from);
    match PlanTakes(Qty(p, from), tags, TakesOf(moves))
    case None => None
    case Some(removed) =>
      match RemoveTagCopies(p, from, tags, removed)
      case None => None
      case Some(q) => MoveEach(q, Steps(moves, removed), Qty(p, from))
  }

  // ---------------------------------------------------------------------------------------------
  // Reading a stage
  // ---------------------------------------------------------------------------------------------

  lemma {:induction false} StageTagsRead(p: Print, catalog: seq<TagId>, s: Stage)
    requires NoRepeats(catalog)
    ensures DistinctTags(StageTags(p, catalog, s))
    ensures forall n :: 0 <= n < |StageTags(p, catalog, s)| ==>
              var tag := StageTags(p, catalog, s)[n];
              tag.id in catalog && Slot(s, tag.id) in p.tags && tag.count == p.tags[Slot(s, tag.id)]
    ensures forall t :: t in Ids(StageTags(p, catalog, s)) <==> t in catalog && Slot(s, t) in p.tags
    decreases |catalog|
  {
    if catalog != [] {
      var front, id := catalog[..|catalog| - 1], catalog[|catalog| - 1];
      var before, after := StageTags(p, front, s), StageTags(p, catalog, s);
      StageTagsRead(p, front, s);
      assert catalog == front + [id];
      assert id !in front;
      assert forall t :: t in catalog <==> t in front || t == id;
      if Slot(s, id) in p.tags {
        assert after == before + [Tag(id, p.tags[Slot(s, id)])];
        IdsAppend(before, Tag(id, p.tags[Slot(s, id)]));
      } else {
        assert after == before;
      }
    }
  }

  lemma {:induction false} IdsAppend(tags: seq<Tag>, tag: Tag)
    ensures Ids(tags + [tag]) == Ids(tags) + {tag.id}
  {
    var all := tags + [tag];
    assert all[|tags|] == tag;
    assert forall n :: 0 <= n < |tags| ==> all[n] == tags[n];
    forall t | t in Ids(tags) + {tag.id} ensures t in Ids(all) {
      if t == tag.id {
        assert all[|tags|].id == t;
      } else {
        var n :| 0 <= n < |tags| && tags[n].id == t;
        assert all[n].id == t;
      }
    }
  }

  // ---------------------------------------------------------------------------------------------
  // Effects of the parts of a step
  // ---------------------------------------------------------------------------------------------

  /** Removing planned copies never meets a changed row and lowers exactly the planned tags of the stage. */
  ghost predicate TagsLowered(p: Print, q: Print, s: Stage, tags: seq<Tag>, removed: seq<map<TagId, nat>>) {
    && q.stages == p.stages && q.quantity == p.quantity
    && q.tags.Keys <= p.tags.Keys
    && (forall slot :: slot in q.tags ==> q.tags[slot] > 0)
    && (forall r, t ::
          TagQty(q, r, t) + (if r == s && t in Ids(tags) then Sum(removed, Getting(t)) else 0) == TagQty(p, r, t))
  }

  lemma {:induction false} RemoveLowers(p: Print, s: Stage, tags: seq<Tag>, removed: seq<map<TagId, nat>>)
    requires DistinctTags(tags)
    requires forall slot :: slot in p.tags ==> p.tags[slot] > 0
    requires forall n :: 0 <= n < |tags| ==>
               Slot(s, tags[n].id) in p.tags && p.tags[Slot(s, tags[n].id)] == tags[n].count
                 && Sum(removed, Getting(tags[n].id)) <= tags[n].count
    ensures RemoveTagCopies(p, s, tags, removed).Some?
    ensures TagsLowered(p, RemoveTagCopies(p, s, tags, removed).value, s, tags, removed)
    decreases |tags|
  {
    if tags != [] {
      var front, tag := tags[..|tags| - 1], tags[|tags| - 1];
      forall n | 0 <= n < |front| ensures front[n] == tags[n] {}
      RemoveLowers(p, s, front, removed);
      var q := RemoveTagCopies(p, s, front, removed).value;
      assert tags == front + [tag];
      NextTagIsNew([], front, tag);
      assert TagQty(q, s, tag.id) == TagQty(p, s, tag.id) == tag.count;
      assert Slot(s, tag.id) in p.tags;
      TakeOffLowers(q, s, tag, Sum(removed, Getting(tag.id)));
    }
  }

  lemma {:induction false} TakeOffLowers(p: Print, s: Stage, tag: Tag, copies: nat)
    requires TagQty(p, s, tag.id) == tag.count > 0 && copies <= tag.count
    requires forall slot :: slot in p.tags ==> p.tags[slot] > 0
    ensures TakeOff(p, s, tag, copies).Some?
    ensures var q := TakeOff(p, s, tag, copies).value;
      && q.stages == p.stages && q.quantity == p.quantity && q.tags.Keys <= p.tags.Keys
      && (forall slot :: slot in q.tags ==> q.tags[slot] > 0)
      && (forall r, t :: TagQty(q, r, t) + (if r == s && t == tag.id then copies else 0) == TagQty(p, r, t))
  {
  }

  ghost function Into(s: Stage): Step -> nat {
    (st: Step) => if st.move.to == s then st.move.count else 0
  }

  ghost function TagInto(s: Stage, t: TagId): Step -> nat {
    (st: Step) => if st.move.to == s then Get(st.taken, t) else 0
  }

  /** Steps out of `from` into other stages, each adding positive amounts of known tags, at most one per copy. */
  ghost predicate StepsFrom(steps: seq<Step>, from: Stage, known: set<TagId>) {
    forall i :: 0 <= i < |steps| ==>
      && steps[i].move.from == from && steps[i].move.to != from
      && steps[i].taken.Keys <= known
      && forall t :: t in steps[i].taken ==> 0 < steps[i].taken[t] <= steps[i].move.count
  }

  ghost predicate KnownRows(p: Print, known: set<TagId>) {
    forall slot :: slot in p.tags ==> slot.tag in known && p.tags[slot] > 0
  }

  /** The copies leave `from` and land in the steps' targets with the tags taken along. */
  ghost predicate Lands(q: Print, r: Print, from: Stage, steps: seq<Step>, known: set<TagId>) {
    && HasStages(r) && r.quantity == q.quantity && KnownRows(r, known)
    && (forall s :: Qty(r, s) + (if s == from then Sum(steps, COUNT) else 0) == Qty(q, s) + Sum(steps, Into(s)))
    && (forall s, t :: TagQty(r, s, t) == TagQty(q, s, t) + Sum(steps, TagInto(s, t)))
  }

  lemma {:induction false} NothingIntoSource(steps: seq<Step>, from: Stage, known: set<TagId>)
    requires StepsFrom(steps, from, known)
    ensures Sum(steps, Into(from)) == 0
    ensures forall t :: Sum(steps, TagInto(from, t)) == 0
  {
    SumZero(steps, Into(from));
    forall t ensures Sum(steps, TagInto(from, t)) == 0 {
      SumZero(steps, TagInto(from, t));
    }
  }

  /** The taken copies are on the stage's tag rows, and nothing else has changed. */
  ghost predicate Added(p: Print, q: Print, s: Stage, taken: map<TagId, nat>) {
    && q.stages == p.stages && q.quantity == p.quantity
    && (forall slot :: slot in q.tags <==> slot in p.tags || (slot.stage == s && slot.tag in taken))
    && (forall r, t :: TagQty(q, r, t) == TagQty(p, r, t) + if r == s then Get(taken, t) else 0)
  }

  lemma {:induction false} AddedNext(p: Print, q: Print, s: Stage, fewer: map<TagId, nat>, t: TagId, n: nat)
    requires Added(p, q, s, fewer) && t !in fewer
    ensures Added(p, AddTagCopies(q, s, t, n), s, fewer[t := n])
  {
    var after := AddTagCopies(q, s, t, n);
    assert TagQty(q, s, t) == TagQty(p, s, t) + Get(fewer, t);
    forall r, u ensures TagQty(after, r, u) == TagQty(p, r, u) + if r == s then Get(fewer[t := n], u) else 0 {
      assert TagQty(q, r, u) == TagQty(p, r, u) + if r == s then Get(fewer, u) else 0;
    }
  }

  lemma {:induction false} AddTakenAdds(p: Print, s: Stage, taken: map<TagId, nat>)
    ensures Added(p, AddTaken(p, s, taken), s, taken)
    decreases |taken|
  {
    if taken == map[] {
      assert AddTaken(p, s, taken) == p;
    } else {
      var t :| t in taken && AddTaken(p, s, taken) == AddTagCopies(AddTaken(p, s, taken - {t}), s, t, taken[t]);
      var fewer := taken - {t};
      AddTakenAdds(p, s, fewer);
      AddedNext(p, AddTaken(p, s, fewer), s, fewer, t, taken[t]);
      assert fewer[t := taken[t]] == taken;
    }
  }

  lemma {:induction false} AddTagsLand(p: Print, s: Stage, taken: map<TagId, nat>, known: set<TagId>)
    requires KnownRows(p, known) && taken.Keys <= known
    requires forall t :: t in taken ==> taken[t] > 0
    ensures var q := AddTaken(p, s, taken);
      && q.stages == p.stages && q.quantity == p.quantity && KnownRows(q, known)
      && (forall r, t :: TagQty(q, r, t) == TagQty(p, r, t) + if r == s then Get(taken, t) else 0)
  {
    AddTakenAdds(p, s, taken);
    var q := AddTaken(p, s, taken);
    forall slot | slot in q.tags ensures slot.tag in known && q.tags[slot] > 0 {
      assert q.tags[slot] == TagQty(q, slot.stage, slot.tag);
      assert slot in p.tags ==> p.tags[slot] == TagQty(p, slot.stage, slot.tag);
    }
  }

  lemma {:induction false} MoveCopiesLand(p: Print, m: Move)
    requires HasStages(p) && m.from != m.to && m.count <= Qty(p, m.from)
    ensures MoveCopies(p, m, Qty(p, m.from)).Some?
    ensures var q := MoveCopies(p, m, Qty(p, m.from)).value;
      && HasStages(q) && q.tags == p.tags && q.quantity == p.quantity
      && (forall s :: Qty(q, s) + (if s == m.from then m.count else 0) == Qty(p, s) + if s == m.to then m.count else 0)
  {
  }

  /** One step more: the copies of the last step follow those of the steps before. */
  lemma {:induction false} LandsNext(
      q: Print, r: Print, moved: Print, from: Stage, front: seq<Step>, step: Step, known: set<TagId>)
    requires Lands(q, r, from, front, known) && StepsFrom(front + [step], from, known)
    requires HasStages(moved) && moved.tags == r.tags && moved.quantity == r.quantity
    requires forall s ::
        Qty(moved, s) + (if s == from then step.move.count else 0) ==
          Qty(r, s) + if s == step.move.to then step.move.count else 0
    ensures Lands(q, AddTaken(moved, step.move.to, step.taken), from, front + [step], known)
  {
    var steps := front + [step];
    assert steps[|front|] == step;
    AddTagsLand(moved, step.move.to, step.taken, known);
    SumAppend(front, step, COUNT);
    forall s ensures Sum(steps, Into(s)) == Sum(front, Into(s)) + Into(s)(step) {
      SumAppend(front, step, Into(s));
    }
    var landed := AddTaken(moved, step.move.to, step.taken);
    forall s, t ensures TagQty(landed, s, t) == TagQty(q, s, t) + Sum(steps, TagInto(s, t)) {
      SumAppend(front, step, TagInto(s, t));
    }
  }

  lemma {:induction false} MoveEachAppend(p: Print, front: seq<Step>, step: Step, quantity: nat)
    ensures MoveEach(p, front + [step], quantity) ==
              match MoveEach(p, front, quantity)
              case None => None
              case Some(q) => MoveStep(q, step, quantity - Sum(front, COUNT))
  {
    var steps := front + [step];
    assert steps[..|steps| - 1] == front && steps[|steps| - 1] == step;
  }

  /** From a stage that holds enough copies every step goes through, and the copies land where they were sent. */
  lemma {:induction false} MoveEachLands(q: Print, steps: seq<Step>, from: Stage, known: set<TagId>)
    requires HasStages(q) && KnownRows(q, known) && StepsFrom(steps, from, known)
    requires Sum(steps, COUNT) <= Qty(q, from)
    ensures MoveEach(q, steps, Qty(q, from)).Some?
    ensures Lands(q, MoveEach(q, steps, Qty(q, from)).value, from, steps, known)
    decreases |steps|
  {
    if steps != [] {
      var front, step := steps[..|steps| - 1], steps[|steps| - 1];
      assert steps == front + [step];
      assert step == steps[|steps| - 1];
      forall i | 0 <= i < |front| ensures front[i] == steps[i] {}
      MoveEachLands(q, front, from, known);
      MoveEachAppend(q, front, step, Qty(q, from));
      LastLands(q, MoveEach(q, front, Qty(q, from)).value, front, step, from, known);
    }
  }

  lemma {:induction false} LastLands(q: Print, r: Print, front: seq<Step>, step: Step, from: Stage, known: set<TagId>)
    requires Lands(q, r, from, front, known) && StepsFrom(front, from, known) && StepsFrom(front + [step], from, known)
    requires step.move.from == from && step.move.to != from && Sum(front, COUNT) + step.move.count <= Qty(q, from)
    ensures MoveStep(r, step, Qty(q, from) - Sum(front, COUNT)).Some?
    ensures Lands(q, MoveStep(r, step, Qty(q, from) - Sum(front, COUNT)).value, from, front + [step], known)
  {
    NothingIntoSource(front, from, known);
    assert Qty(r, from) == Qty(q, from) - Sum(front, COUNT);
    MoveCopiesLand(r, step.move);
    LandsNext(q, r, MoveCopies(r, step.move, Qty(r, from)).value, from, front, step, known);
  }

  // ---------------------------------------------------------------------------------------------
  // Moving cards out of one stage
  // ---------------------------------------------------------------------------------------------

  ghost function TagTaken(t: TagId): Step -> nat {
    (st: Step) => Get(st.taken, t)
  }

  /** Moves out of `from` as the callers check them: a positive count and another stage as target. */
  ghost predicate MovesFrom(moves: seq<Move>, from: Stage) {
    forall i :: 0 <= i < |moves| ==> moves[i].from == from && moves[i].to != from && moves[i].count > 0
  }

  ghost function PlannedSteps(p: Print, catalog: seq<TagId>, from: Stage, moves: seq<Move>): seq<Step> {
    match PlanTakes(Qty(p, from), StageTags(p, catalog, from), TakesOf(moves))
    case None => []
    case Some(removed) => Steps(moves, removed)
  }

  /** The whole effect of a step on copy counts and tag counts. */
  ghost predicate Moves(p: Print, r: Print, from: Stage, steps: seq<Step>) {
    && HasStages(r) && r.quantity == p.quantity
    && (forall s :: Qty(r, s) + (if s == from then Sum(steps, COUNT) else 0) == Qty(p, s) + Sum(steps, Into(s)))
    && (forall s, t ::
          TagQty(r, s, t) + (if s == from then Sum(steps, TagTaken(t)) else 0)
          == TagQty(p, s, t) + Sum(steps, TagInto(s, t)))
  }

  lemma {:induction false} StepSums(moves: seq<Move>, removed: seq<map<TagId, nat>>)
    requires |moves| == |removed|
    ensures Sum(TakesOf(moves), WANTED) == Sum(Steps(moves, removed), COUNT)
    ensures forall t :: Sum(removed, Getting(t)) == Sum(Steps(moves, removed), TagTaken(t))
  {
    SumMatch(TakesOf(moves), Steps(moves, removed), WANTED, COUNT);
    forall t ensures Sum(removed, Getting(t)) == Sum(Steps(moves, removed), TagTaken(t)) {
      SumMatch(removed, Steps(moves, removed), Getting(t), TagTaken(t));
    }
  }

  /** A plan for the moves out of the stage that its rows can carry out. */
  ghost predicate Planned(p: Print, catalog: seq<TagId>, from: Stage, moves: seq<Move>, removed: seq<map<TagId, nat>>) {
    && |removed| == |moves|
    && Removes(Qty(p, from), StageTags(p, catalog, from), TakesOf(moves), removed)
    && StepsFrom(Steps(moves, removed), from, Elements(catalog))
  }

  lemma {:induction false} PlanStage(p: Print, catalog: seq<TagId>, from: Stage, moves: seq<Move>)
    requires Sound(p, catalog) && NoRepeats(catalog) && MovesFrom(moves, from)
    ensures var plan := PlanTakes(Qty(p, from), StageTags(p, catalog, from), TakesOf(moves));
      && (plan.Some? <==> Fits(Draw(Qty(p, from), StageTags(p, catalog, from)), TakesOf(moves)))
      && (plan.Some? ==> Planned(p, catalog, from, moves, plan.value))
  {
    var tags, takes := StageTags(p, catalog, from), TakesOf(moves);
    StageTagsRead(p, catalog, from);
    PlanIsSoundAndComplete(Qty(p, from), tags, takes);
    var plan := PlanTakes(Qty(p, from), tags, takes);
    if plan.Some? {
      var steps := Steps(moves, plan.value);
      forall t | t in Ids(tags) ensures t in Elements(catalog) {
        assert t in catalog;
      }
      forall i | 0 <= i < |steps|
        ensures steps[i].taken.Keys <= Elements(catalog)
        ensures forall t :: t in steps[i].taken ==> 0 < steps[i].taken[t] <= steps[i].move.count
      {
        assert Entry(takes[i], plan.value[i], Ids(tags));
      }
    }
  }

  /** What is left of the tag rows once the planned copies are taken off them. */
  ghost predicate TagsTaken(p: Print, q: Print, s: Stage, removed: seq<map<TagId, nat>>) {
    && q.stages == p.stages && q.quantity == p.quantity && q.tags.Keys <= p.tags.Keys
    && (forall slot :: slot in q.tags ==> q.tags[slot] > 0)
    && (forall r, t :: TagQty(q, r, t) + (if r == s then Sum(removed, Getting(t)) else 0) == TagQty(p, r, t))
  }

  /** Removing the planned copies: no row has changed since it was read. */
  lemma {:induction false} RemovePlanned(
      p: Print, catalog: seq<TagId>, s: Stage, takes: seq<Take>, removed: seq<map<TagId, nat>>)
    requires TagsFit(p, catalog) && NoRepeats(catalog) && Removes(Qty(p, s), StageTags(p, catalog, s), takes, removed)
    ensures RemoveTagCopies(p, s, StageTags(p, catalog, s), removed).Some?
    ensures TagsTaken(p, RemoveTagCopies(p, s, StageTags(p, catalog, s), removed).value, s, removed)
  {
    var tags := StageTags(p, catalog, s);
    StageTagsRead(p, catalog, s);
    forall n | 0 <= n < |tags| ensures Sum(removed, Getting(tags[n].id)) <= tags[n].count {
      assert LeavesRoom(Qty(p, s), tags[n], takes, removed);
    }
    RemoveLowers(p, s, tags, removed);
    OnlyReadTagsTaken(tags, takes, removed);
  }

  /** After the removal the stage still holds the copies to be moved. */
  lemma {:induction false} ReadyToMove(
      p: Print, catalog: seq<TagId>, from: Stage, moves: seq<Move>, removed: seq<map<TagId, nat>>)
    requires Sound(p, catalog) && NoRepeats(catalog) && Planned(p, catalog, from, moves, removed)
    ensures RemoveTagCopies(p, from, StageTags(p, catalog, from), removed).Some?
    ensures var q := RemoveTagCopies(p, from, StageTags(p, catalog, from), removed).value;
      && q.stages == p.stages && q.quantity == p.quantity && HasStages(q) && KnownRows(q, Elements(catalog))
      && Sum(Steps(moves, removed), COUNT) <= Qty(q, from) == Qty(p, from)
  {
    RemovePlanned(p, catalog, from, TakesOf(moves), removed);
    var q := RemoveTagCopies(p, from, StageTags(p, catalog, from), removed).value;
    StepSums(moves, removed);
    forall slot | slot in q.tags ensures slot.tag in Elements(catalog) && q.tags[slot] > 0 {
      assert slot in p.tags;
    }
  }

  lemma {:induction false} CarryOut(
      p: Print, catalog: seq<TagId>, from: Stage, moves: seq<Move>, removed: seq<map<TagId, nat>>)
    requires Sound(p, catalog) && NoRepeats(catalog) && Planned(p, catalog, from, moves, removed)
    requires PlanTakes(Qty(p, from), StageTags(p, catalog, from), TakesOf(moves)) == Some(removed)
    ensures MoveStage(p, catalog, from, moves).Some?
    ensures var r := MoveStage(p, catalog, from, moves).value;
      Moves(p, r, from, Steps(moves, removed)) && KnownRows(r, Elements(catalog))
  {
    var tags, steps := StageTags(p, catalog, from), Steps(moves, removed);
    RemovePlanned(p, catalog, from, TakesOf(moves), removed);
    var q := RemoveTagCopies(p, from, tags, removed).value;
    StepSums(moves, removed);
    ReadyToMove(p, catalog, from, moves, removed);
    MoveEachLands(q, steps, from, Elements(catalog));
    var r := MoveEach(q, steps, Qty(p, from)).value;
    forall s, t
      ensures TagQty(r, s, t) + (if s == from then Sum(steps, TagTaken(t)) else 0) ==
          TagQty(p, s, t) + Sum(steps, TagInto(s, t))
    {
      assert TagQty(r, s, t) == TagQty(q, s, t) + Sum(steps, TagInto(s, t));
    }
  }

  /** A step goes through exactly when the cards it names hold the copies it asks for. */
  lemma {:induction false} MoveStageMoves(p: Print, catalog: seq<TagId>, from: Stage, moves: seq<Move>)
    requires Sound(p, catalog) && NoRepeats(catalog) && MovesFrom(moves, from)
    ensures MoveStage(p, catalog, from, moves).Some? <==>
        Fits(Draw(Qty(p, from), StageTags(p, catalog, from)), TakesOf(moves))
    ensures MoveStage(p, catalog, from, moves).Some? ==>
              var plan := PlanTakes(Qty(p, from), StageTags(p, catalog, from), TakesOf(moves));
              && plan.Some? && Planned(p, catalog, from, moves, plan.value)
              && Moves(p, MoveStage(p, catalog, from, moves).value, from, PlannedSteps(p, catalog, from, moves))
              && KnownRows(MoveStage(p, catalog, from, moves).value, Elements(catalog))
  {
    PlanStage(p, catalog, from, moves);
    var plan := PlanTakes(Qty(p, from), StageTags(p, catalog, from), TakesOf(moves));
    if plan.Some? {
      CarryOut(p, catalog, from, moves, plan.value);
    }
  }

  lemma {:induction false} OnlyReadTagsTaken(tags: seq<Tag>, takes: seq<Take>, removed: seq<map<TagId, nat>>)
    requires |removed| == |takes| && forall i :: 0 <= i < |takes| ==> Entry(takes[i], removed[i], Ids(tags))
    ensures forall t :: t !in Ids(tags) ==> Sum(removed, Getting(t)) == 0
  {
    forall t | t !in Ids(tags) ensures Sum(removed, Getting(t)) == 0 {
      forall m | m in removed ensures Getting(t)(m) == 0 {
        var i :| 0 <= i < |removed| && removed[i] == m;
        assert Entry(takes[i], removed[i], Ids(tags));
      }
      SumZero(removed, Getting(t));
    }
  }

  // ---------------------------------------------------------------------------------------------
  // What every accepted step keeps
  // ---------------------------------------------------------------------------------------------

  /** Every step lands in exactly one stage, so the landings add up to all copies moved. */
  lemma {:induction false} LandingsAddUp(steps: seq<Step>, t: TagId)
    ensures Sum(steps, Into(Todo)) + Sum(steps, Into(UpNext)) + Sum(steps, Into(InProgress)) +
        Sum(steps, Into(PostProcessing))
            + Sum(steps, Into(Done)) == Sum(steps, COUNT)
    ensures Sum(steps, TagInto(Todo, t)) + Sum(steps, TagInto(UpNext, t)) + Sum(steps, TagInto(InProgress, t))
            + Sum(steps, TagInto(PostProcessing, t)) + Sum(steps, TagInto(Done, t)) == Sum(steps, TagTaken(t))
    decreases |steps|
  {
    if steps != [] {
      LandingsAddUp(steps[..|steps| - 1], t);
    }
  }

  lemma {:induction false} LandedTagsFit(steps: seq<Step>, s: Stage, t: TagId, from: Stage, known: set<TagId>)
    requires StepsFrom(steps, from, known)
    ensures Sum(steps, TagInto(s, t)) <= Sum(steps, Into(s))
  {
    forall st | st in steps ensures TagInto(s, t)(st) <= Into(s)(st) {
      var i :| 0 <= i < |steps| && steps[i] == st;
    }
    SumBelow(steps, TagInto(s, t), Into(s));
  }

  /** An accepted step keeps the board invariant, the print's quantity and every tag's total. */
  lemma {:induction false} MoveStageKeeps(p: Print, catalog: seq<TagId>, from: Stage, moves: seq<Move>)
    requires Sound(p, catalog) && NoRepeats(catalog) && MovesFrom(moves, from)
    requires MoveStage(p, catalog, from, moves).Some?
    ensures var r := MoveStage(p, catalog, from, moves).value;
      Sound(r, catalog) && r.quantity == p.quantity && forall t :: TagTotal(r, t) == TagTotal(p, t)
  {
    var r, steps := MoveStage(p, catalog, from, moves).value, PlannedSteps(p, catalog, from, moves);
    MoveStageMoves(p, catalog, from, moves);
    LandingsAddUp(steps, 0);
    forall t ensures TagTotal(r, t) == TagTotal(p, t) {
      LandingsAddUp(steps, t);
    }
    forall slot | slot in r.tags ensures slot.tag in catalog && 0 < r.tags[slot] <= Qty(r, slot.stage) {
      assert TagQty(r, slot.stage, slot.tag) == r.tags[slot];
      SlotFits(p, catalog, from, moves, slot.stage, slot.tag);
    }
  }

  /** In the source stage the plan leaves no tag more copies than the stage keeps. */
  lemma {:induction false} SourceRoom(
      p: Print, catalog: seq<TagId>, from: Stage, moves: seq<Move>, removed: seq<map<TagId, nat>>, t: TagId)
    requires Sound(p, catalog) && NoRepeats(catalog) && |removed| == |moves|
    requires Removes(Qty(p, from), StageTags(p, catalog, from), TakesOf(moves), removed)
    ensures TagQty(p, from, t) + Sum(Steps(moves, removed), COUNT) <=
        Qty(p, from) + Sum(Steps(moves, removed), TagTaken(t))
  {
    var tags := StageTags(p, catalog, from);
    StepSums(moves, removed);
    StageTagsRead(p, catalog, from);
    if t in Ids(tags) {
      var n :| 0 <= n < |tags| && tags[n].id == t;
      assert LeavesRoom(Qty(p, from), tags[n], TakesOf(moves), removed);
    } else {
      assert Slot(from, t) !in p.tags;
    }
  }

  lemma {:induction false} RoomMoves(p: Print, r: Print, from: Stage, steps: seq<Step>, s: Stage, t: TagId)
    requires Moves(p, r, from, steps) && TagQty(p, s, t) <= Qty(p, s)
    requires Sum(steps, TagInto(s, t)) <= Sum(steps, Into(s))
    requires s == from ==> TagQty(p, from, t) + Sum(steps, COUNT) <= Qty(p, from) + Sum(steps, TagTaken(t))
    ensures TagQty(r, s, t) <= Qty(r, s)
  {
    assert TagQty(r, s, t) + (if s == from then Sum(steps, TagTaken(t)) else 0) ==
      TagQty(p, s, t) + Sum(steps, TagInto(s, t));
    assert Qty(r, s) + (if s == from then Sum(steps, COUNT) else 0) == Qty(p, s) + Sum(steps, Into(s));
  }

  lemma {:induction false} SlotFits(p: Print, catalog: seq<TagId>, from: Stage, moves: seq<Move>, s: Stage, t: TagId)
    requires Sound(p, catalog) && NoRepeats(catalog) && MovesFrom(moves, from)
    requires MoveStage(p, catalog, from, moves).Some?
    ensures TagQty(MoveStage(p, catalog, from, moves).value, s, t) <= Qty(MoveStage(p, catalog, from, moves).value, s)
  {
    var steps := PlannedSteps(p, catalog, from, moves);
    MoveStageMoves(p, catalog, from, moves);
    var removed := PlanTakes(Qty(p, from), StageTags(p, catalog, from), TakesOf(moves)).value;
    assert steps == Steps(moves, removed);
    LandedTagsFit(steps, s, t, from, Elements(catalog));
    SourceRoom(p, catalog, from, moves, removed, t);
    assert Slot(s, t) in p.tags ==> p.tags[Slot(s, t)] <= Qty(p, s);
    RoomMoves(p, MoveStage(p, catalog, from, moves).value, from, steps, s, t);
  }
}
