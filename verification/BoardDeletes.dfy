/** Batches of deleted cards over many prints; a print goes as a whole when every one of its copies is named. */
module BoardDeletes {
  import opened Options
  import opened Sums
  import opened Cohorts
  import opened Takes
  import opened Board
  import opened BoardBatch
  import opened BoardEdits

  datatype CardDeletion = CardDeletion(id: PrintId, deletion: Deletion, whole: bool)

  function DeletionsOf(inputs: seq<CardDeletion>, id: PrintId): seq<Deletion> {
    if inputs == [] then []
    else if inputs[0].id == id then [inputs[0].deletion] + DeletionsOf(inputs[1..], id)
    else DeletionsOf(inputs[1..], id)
  }

  function OtherPrints(inputs: seq<CardDeletion>, id: PrintId): (r: seq<CardDeletion>)
    ensures |r| <= |inputs| && (inputs != [] && inputs[0].id == id ==> |r| < |inputs|)
    ensures forall i :: 0 <= i < |r| ==> r[i] in inputs && r[i].id != id
  {
    if inputs == [] then []
    else if inputs[0].id == id then OtherPrints(inputs[1..], id)
    else [inputs[0]] + OtherPrints(inputs[1..], id)
  }

  predicate Whole(inputs: seq<CardDeletion>, id: PrintId) {
    exists i :: 0 <= i < |inputs| && inputs[i].id == id && inputs[i].whole
  }

  /** Every stage holds the cards named in it. */
  ghost predicate StagesHold(p: Print, catalog: seq<TagId>, ds: seq<Deletion>)
    decreases |ds|
  {
    ds != [] ==>
      var s := ds[0].stage;
      PlanTakes(Qty(p, s), StageTags(p, catalog, s), DeletionTakes(InStage(ds, s))).Some?
        && StagesHold(p, catalog, NotInStage(ds, s))
  }

  /** A print that goes as a whole must lose exactly as many copies as it has. */
  ghost function DeleteOne(
      prints: Prints, catalog: seq<TagId>, id: PrintId, ds: seq<Deletion>, whole: bool): Option<Prints> {
    if id !in prints then None
    else if whole then
      if StagesHold(prints[id], catalog, ds) && prints[id].quantity == Sum(ds, DELETED)
        then Some(prints - {id}) else None
    else
      match DeleteCards(prints[id], catalog, ds)
      case None => None
      case Some(p) => Some(prints[id := p])
  }

  /** Print by print, in order of first mention; any refusal undoes all. */
  ghost function DeleteBatch(prints: Prints, catalog: seq<TagId>, inputs: seq<CardDeletion>): Option<Prints>
    decreases |inputs|
  {
    if inputs == [] then Some(prints)
    else
      var id := inputs[0].id;
      match DeleteOne(prints, catalog, id, DeletionsOf(inputs, id), Whole(inputs, id))
      case None => None
      case Some(next) => DeleteBatch(next, catalog, OtherPrints(inputs, id))
  }

  /** What the callers check of every deletion. */
  ghost predicate CheckedDeletions(inputs: seq<CardDeletion>) {
    forall i :: 0 <= i < |inputs| ==> inputs[i].deletion.count > 0 && NoRepeats(inputs[i].deletion.tagIds)
  }

  lemma {:induction false} PartsPositive(inputs: seq<CardDeletion>, id: PrintId)
    requires CheckedDeletions(inputs)
    ensures PositiveDeletions(DeletionsOf(inputs, id)) && CheckedDeletions(OtherPrints(inputs, id))
    decreases |inputs|
  {
    if inputs != [] {
      forall i | 0 <= i < |inputs[1..]| ensures inputs[1..][i] == inputs[i + 1] {}
      PartsPositive(inputs[1..], id);
    }
  }

  ghost predicate OthersKept(before: Prints, after: Prints, catalog: seq<TagId>, inputs: seq<CardDeletion>) {
    && SoundBoard(after, catalog)
    && (forall id :: id in before && (forall i :: 0 <= i < |inputs| ==> inputs[i].id != id) ==>
      Look(after, id) == Look(before, id))
    && (forall id :: id in after ==> id in before && after[id].quantity <= before[id].quantity)
  }

  lemma {:induction false} DeleteOneKeeps(
      prints: Prints, catalog: seq<TagId>, id: PrintId, ds: seq<Deletion>, whole: bool)
    requires SoundBoard(prints, catalog) && PositiveDeletions(ds) && DeleteOne(prints, catalog, id, ds, whole).Some?
    ensures var after := DeleteOne(prints, catalog, id, ds, whole).value;
      && SoundBoard(after, catalog) && (forall other :: other != id ==> Look(after, other) == Look(prints, other))
      && id in prints
      && (id in after <==> !whole)
      && (id in after ==> after[id].quantity + Sum(ds, DELETED) == prints[id].quantity)
      && (id !in after ==> Sum(ds, DELETED) == prints[id].quantity)
  {
    if !whole {
      DeleteCardsKeeps(prints[id], catalog, ds);
    }
  }

  /** An accepted batch keeps the board invariant and leaves the prints it does not name alone. */
  lemma {:induction false} DeleteBatchKeeps(prints: Prints, catalog: seq<TagId>, inputs: seq<CardDeletion>)
    requires SoundBoard(prints, catalog) && CheckedDeletions(inputs) && DeleteBatch(prints, catalog, inputs).Some?
    ensures OthersKept(prints, DeleteBatch(prints, catalog, inputs).value, catalog, inputs)
    decreases |inputs|
  {
    if inputs != [] {
      var id, ds := inputs[0].id, DeletionsOf(inputs, inputs[0].id);
      PartsPositive(inputs, id);
      DeleteOneKeeps(prints, catalog, id, ds, Whole(inputs, id));
      var next := DeleteOne(prints, catalog, id, ds, Whole(inputs, id)).value;
      var rest := OtherPrints(inputs, id);
      DeleteBatchKeeps(next, catalog, rest);
      var after := DeleteBatch(prints, catalog, inputs).value;
      forall other | other in prints && (forall i :: 0 <= i < |inputs| ==> inputs[i].id != other)
        ensures Look(after, other) == Look(prints, other)
      {
        forall i | 0 <= i < |rest| ensures rest[i].id != other {
          assert rest[i] in inputs;
          var j :| 0 <= j < |inputs| && inputs[j] == rest[i];
        }
        assert Look(next, other) == Look(prints, other);
      }
      forall other | other in after ensures other in prints && after[other].quantity <= prints[other].quantity {
        assert other in next && after[other].quantity <= next[other].quantity;
        assert other != id ==> Look(next, other) == Look(prints, other);
      }
    }
  }

  // ---------------------------------------------------------------------------------------------
  // A print that goes as a whole
  // ---------------------------------------------------------------------------------------------

  lemma {:induction false} InStageSplits(ds: seq<Deletion>, s: Stage, r: Stage)
    ensures r != s ==> InStage(NotInStage(ds, s), r) == InStage(ds, r)
    ensures InStage(NotInStage(ds, s), s) == []
    decreases |ds|
  {
    if ds != [] {
      var head, rest := ds[0], NotInStage(ds[1..], s);
      InStageSplits(ds[1..], s, r);
      if head.stage == s {
        assert NotInStage(ds, s) == rest;
        assert r != s ==> InStage(ds, r) == InStage(ds[1..], r);
      } else {
        assert NotInStage(ds, s) == [head] + rest;
        assert ([head] + rest)[1..] == rest;
        assert InStage([head] + rest, s) == InStage(rest, s);
      }
    }
  }

  lemma {:induction false} StageDemandFits(p: Print, catalog: seq<TagId>, ds: seq<Deletion>, s: Stage)
    requires StagesHold(p, catalog, ds) && NoRepeats(catalog) && PositiveDeletions(ds)
    ensures Sum(InStage(ds, s), DELETED) <= Qty(p, s)
    decreases |ds|
  {
    if ds != [] {
      var first := ds[0].stage;
      StageParts(ds, first);
      if s == first {
        PlanDeletion(p, catalog, s, InStage(ds, s));
      } else {
        InStageSplits(ds, first, s);
        StageDemandFits(p, catalog, NotInStage(ds, first), s);
      }
    }
  }

  lemma {:induction false} InStageNext(ds: seq<Deletion>, s: Stage)
    requires ds != []
    ensures Sum(InStage(ds, s), DELETED) ==
        Sum(InStage(ds[1..], s), DELETED) + if ds[0].stage == s then ds[0].count else 0
  {
    if ds[0].stage == s {
      SumPrepend(ds[0], InStage(ds[1..], s), DELETED);
    } else {
      assert InStage(ds, s) == InStage(ds[1..], s);
    }
  }

  lemma {:induction false} DeletedNext(ds: seq<Deletion>)
    requires ds != []
    ensures Sum(ds, DELETED) == Sum(ds[1..], DELETED) + ds[0].count
  {
    assert ds == [ds[0]] + ds[1..];
    SumPrepend(ds[0], ds[1..], DELETED);
  }

  lemma {:induction false} StagesAddUp(ds: seq<Deletion>)
    ensures Sum(InStage(ds, Todo), DELETED) + Sum(InStage(ds, UpNext), DELETED) + Sum(InStage(ds, InProgress), DELETED)
            + Sum(InStage(ds, PostProcessing), DELETED) + Sum(InStage(ds, Done), DELETED) == Sum(ds, DELETED)
    decreases |ds|
  {
    if ds != [] {
      StagesAddUp(ds[1..]);
      DeletedNext(ds);
      InStageNext(ds, Todo);
      InStageNext(ds, UpNext);
      InStageNext(ds, InProgress);
      InStageNext(ds, PostProcessing);
      InStageNext(ds, Done);
    }
  }

  /** A print goes as a whole only when the cards named are all of its cards: in every stage they are all its copies. */
  lemma {:induction false} WholeTakesAll(p: Print, catalog: seq<TagId>, ds: seq<Deletion>, s: Stage)
    requires Sound(p, catalog) && NoRepeats(catalog) && PositiveDeletions(ds)
    requires StagesHold(p, catalog, ds) && p.quantity == Sum(ds, DELETED)
    ensures Sum(InStage(ds, s), DELETED) == Qty(p, s)
  {
    StagesAddUp(ds);
    forall r ensures Sum(InStage(ds, r), DELETED) <= Qty(p, r) {
      StageDemandFits(p, catalog, ds, r);
    }
    match s
    case Todo => case UpNext => case InProgress => case PostProcessing => case Done =>
  }

  // ---------------------------------------------------------------------------------------------
  // Exactly when deletions are accepted, and what they take
  // ---------------------------------------------------------------------------------------------

  ghost predicate StageHolds(p: Print, catalog: seq<TagId>, ds: seq<Deletion>, s: Stage) {
    Fits(Draw(Qty(p, s), StageTags(p, catalog, s)), DeletionTakes(InStage(ds, s)))
  }

  /** Every stage named holds the cards and copies named in it. */
  ghost predicate CardsHeld(p: Print, catalog: seq<TagId>, ds: seq<Deletion>) {
    forall i :: 0 <= i < |ds| ==> StageHolds(p, catalog, ds, ds[i].stage)
  }

  /** Every stage has lost exactly the copies named in it, and every tag those of its cards. */
  ghost predicate CardsDeleted(p: Print, q: Print, ds: seq<Deletion>) {
    && PlacesKept(p, q)
    && (forall s :: Qty(q, s) + Sum(InStage(ds, s), DELETED) == Qty(p, s))
    && (forall s, t :: TagQty(q, s, t) + Sum(InStage(ds, s), DeletedWith(t)) == TagQty(p, s, t))
  }

  lemma {:induction false} StagesPartition(ds: seq<Deletion>, s: Stage)
    ensures forall d :: d in ds <==> d in InStage(ds, s) || d in NotInStage(ds, s)
    ensures forall d :: d in NotInStage(ds, s) ==> d.stage != s
    decreases |ds|
  {
    if ds != [] {
      StagesPartition(ds[1..], s);
      assert ds == [ds[0]] + ds[1..];
    }
  }

  /** What is named in other stages does not notice that one stage has lost its cards. */
  lemma {:induction false} RestHeld(p: Print, q: Print, catalog: seq<TagId>, ds: seq<Deletion>, first: Stage)
    requires forall s :: s != first ==> Qty(q, s) == Qty(p, s) && StageTags(q, catalog, s) == StageTags(p, catalog, s)
    requires StageHolds(p, catalog, ds, first)
    ensures CardsHeld(q, catalog, NotInStage(ds, first)) <==> CardsHeld(p, catalog, ds)
  {
    forall s | s != first ensures StageHolds(q, catalog, NotInStage(ds, first), s) <==> StageHolds(p, catalog, ds, s) {
      InStageSplits(ds, first, s);
    }
    if CardsHeld(q, catalog, NotInStage(ds, first)) {
      HeldWithRest(p, q, catalog, ds, first);
    }
    if CardsHeld(p, catalog, ds) {
      HeldForRest(p, q, catalog, ds, first);
    }
  }

  lemma {:induction false} HeldWithRest(p: Print, q: Print, catalog: seq<TagId>, ds: seq<Deletion>, first: Stage)
    requires forall s :: s != first ==>
        (StageHolds(q, catalog, NotInStage(ds, first), s) <==> StageHolds(p, catalog, ds, s))
    requires StageHolds(p, catalog, ds, first) && CardsHeld(q, catalog, NotInStage(ds, first))
    ensures CardsHeld(p, catalog, ds)
  {
    var rest := NotInStage(ds, first);
    StagesPartition(ds, first);
    forall i | 0 <= i < |ds| ensures StageHolds(p, catalog, ds, ds[i].stage) {
      if ds[i].stage != first {
        assert ds[i] in rest;
        var j :| 0 <= j < |rest| && rest[j] == ds[i];
        assert StageHolds(q, catalog, rest, rest[j].stage);
      }
    }
  }

  lemma {:induction false} HeldForRest(p: Print, q: Print, catalog: seq<TagId>, ds: seq<Deletion>, first: Stage)
    requires forall s :: s != first ==>
        (StageHolds(q, catalog, NotInStage(ds, first), s) <==> StageHolds(p, catalog, ds, s))
    requires CardsHeld(p, catalog, ds)
    ensures CardsHeld(q, catalog, NotInStage(ds, first))
  {
    var rest := NotInStage(ds, first);
    StagesPartition(ds, first);
    forall j | 0 <= j < |rest| ensures StageHolds(q, catalog, rest, rest[j].stage) {
      assert rest[j] in rest;
      var i :| 0 <= i < |ds| && ds[i] == rest[j];
      assert StageHolds(p, catalog, ds, ds[i].stage);
    }
  }

  lemma {:induction false} OtherStagesSame(p: Print, q: Print, catalog: seq<TagId>, s: Stage, ds: seq<Deletion>)
    requires TagsFit(p, catalog) && TagsFit(q, catalog) && StageDeleted(p, q, s, ds)
    ensures forall r :: r != s ==> Qty(q, r) == Qty(p, r) && StageTags(q, catalog, r) == StageTags(p, catalog, r)
  {
    forall r | r != s ensures StageTags(q, catalog, r) == StageTags(p, catalog, r) {
      forall t ensures TagQty(q, r, t) == TagQty(p, r, t) {
        assert TagQty(q, r, t) + (if r == s then Sum(ds, DeletedWith(t)) else 0) == TagQty(p, r, t);
      }
      StageTagsFrame(p, q, catalog, r);
    }
  }

  lemma {:induction false} DeletedOnwards(p: Print, q: Print, r: Print, ds: seq<Deletion>, first: Stage)
    requires ds != [] && ds[0].stage == first && StageDeleted(p, q, first, InStage(ds, first))
    requires CardsDeleted(q, r, NotInStage(ds, first))
    ensures CardsDeleted(p, r, ds)
  {
    forall s ensures Qty(r, s) + Sum(InStage(ds, s), DELETED) == Qty(p, s)
      ensures forall t :: TagQty(r, s, t) + Sum(InStage(ds, s), DeletedWith(t)) == TagQty(p, s, t)
    {
      InStageSplits(ds, first, s);
      assert Qty(r, s) + Sum(InStage(NotInStage(ds, first), s), DELETED) == Qty(q, s);
      assert Qty(q, s) + (if s == first then Sum(InStage(ds, first), DELETED) else 0) == Qty(p, s);
      forall t ensures TagQty(r, s, t) + Sum(InStage(ds, s), DeletedWith(t)) == TagQty(p, s, t) {
        assert TagQty(r, s, t) + Sum(InStage(NotInStage(ds, first), s), DeletedWith(t)) == TagQty(q, s, t);
        assert TagQty(q, s, t) + (if s == first then Sum(InStage(ds, first), DeletedWith(t)) else 0) == TagQty(p, s, t);
      }
    }
  }

  lemma {:induction false} DeleteStagesIff(p: Print, catalog: seq<TagId>, ds: seq<Deletion>, missing: nat)
    requires SoundBut(p, catalog, missing) && NoRepeats(catalog) && PositiveDeletions(ds)
    ensures DeleteStages(p, catalog, ds).Some? <==> CardsHeld(p, catalog, ds)
    ensures DeleteStages(p, catalog, ds).Some? ==> CardsDeleted(p, DeleteStages(p, catalog, ds).value, ds)
    decreases |ds|
  {
    if ds != [] {
      var s := ds[0].stage;
      var mine := InStage(ds, s);
      StageParts(ds, s);
      DeleteFromStageKeeps(p, catalog, s, mine, missing);
      if DeleteFromStage(p, catalog, s, mine).Some? {
        var q := DeleteFromStage(p, catalog, s, mine).value;
        OtherStagesSame(p, q, catalog, s, mine);
        RestHeld(p, q, catalog, ds, s);
        DeleteStagesIff(q, catalog, NotInStage(ds, s), missing + Sum(mine, DELETED));
        if DeleteStages(p, catalog, ds).Some? {
          DeletedOnwards(p, q, DeleteStages(p, catalog, ds).value, ds, s);
        }
      }
    }
  }

  lemma {:induction false} StagesHoldIff(p: Print, catalog: seq<TagId>, ds: seq<Deletion>)
    requires NoRepeats(catalog) && PositiveDeletions(ds)
    ensures StagesHold(p, catalog, ds) <==> CardsHeld(p, catalog, ds)
    decreases |ds|
  {
    if ds != [] {
      var s := ds[0].stage;
      StageParts(ds, s);
      PlanDeletion(p, catalog, s, InStage(ds, s));
      if StageHolds(p, catalog, ds, s) {
        RestHeld(p, p, catalog, ds, s);
        StagesHoldIff(p, catalog, NotInStage(ds, s));
      }
    }
  }

  lemma {:induction false} SameRowsDeleted(p: Print, q: Print, quantity: nat, ds: seq<Deletion>)
    requires CardsDeleted(p, q, ds)
    ensures CardsDeleted(p, q.(quantity := quantity), ds)
  {
    var r := q.(quantity := quantity);
    assert forall s :: Qty(r, s) == Qty(q, s);
    assert forall s, t :: TagQty(r, s, t) == TagQty(q, s, t);
  }

  lemma {:induction false} DeletedCards(p: Print, mid: Print, catalog: seq<TagId>, ds: seq<Deletion>)
    requires CardsDeleted(p, mid, ds) && SoundBut(mid, catalog, Sum(ds, DELETED)) && mid.quantity == p.quantity
    ensures LowerQuantity(mid, Sum(ds, DELETED)).Some? <==> Sum(ds, DELETED) < p.quantity
    ensures LowerQuantity(mid, Sum(ds, DELETED)).Some? ==>
              var q := LowerQuantity(mid, Sum(ds, DELETED)).value;
              Sound(q, catalog) && q.quantity + Sum(ds, DELETED) == p.quantity && CardsDeleted(p, q, ds)
  {
    LoweredSound(mid, catalog, Sum(ds, DELETED));
    if Sum(ds, DELETED) < p.quantity {
      SameRowsDeleted(p, mid, p.quantity - Sum(ds, DELETED), ds);
    }
  }

  /** Some of a print's cards are deleted exactly when its stages hold them and a copy is left; exactly they go. */
  lemma {:induction false} DeleteCardsIff(p: Print, catalog: seq<TagId>, ds: seq<Deletion>)
    requires Sound(p, catalog) && NoRepeats(catalog) && PositiveDeletions(ds)
    ensures DeleteCards(p, catalog, ds).Some? <==> CardsHeld(p, catalog, ds) && Sum(ds, DELETED) < p.quantity
    ensures DeleteCards(p, catalog, ds).Some? ==>
              var q := DeleteCards(p, catalog, ds).value;
              Sound(q, catalog) && q.quantity + Sum(ds, DELETED) == p.quantity && CardsDeleted(p, q, ds)
  {
    DeleteStagesIff(p, catalog, ds, 0);
    if DeleteStages(p, catalog, ds).Some? {
      DeleteStagesKeeps(p, catalog, ds, 0);
      DeletedCards(p, DeleteStages(p, catalog, ds).value, catalog, ds);
    }
  }

  lemma {:induction false} LoweredSound(q: Print, catalog: seq<TagId>, gone: nat)
    requires SoundBut(q, catalog, gone)
    ensures LowerQuantity(q, gone).Some? <==> gone < q.quantity
    ensures LowerQuantity(q, gone).Some? ==> Sound(q.(quantity := q.quantity - gone), catalog)
  {
    if gone < q.quantity {
      var r := q.(quantity := q.quantity - gone);
      assert forall s :: Qty(r, s) == Qty(q, s);
    }
  }

  /** A print that goes as a whole loses exactly all its copies, another one keeps at least one. */
  ghost predicate OneFits(prints: Prints, catalog: seq<TagId>, id: PrintId, ds: seq<Deletion>, whole: bool) {
    && id in prints && CardsHeld(prints[id], catalog, ds)
    && if whole then Sum(ds, DELETED) == prints[id].quantity else Sum(ds, DELETED) < prints[id].quantity
  }

  /** What a print has lost: itself, or exactly the copies and tags named. */
  ghost predicate Loses(before: Prints, after: Prints, id: PrintId, ds: seq<Deletion>, whole: bool) {
    && id in before
    && if whole then id !in after
       else
         && id in after
         && after[id].quantity + Sum(ds, DELETED) == before[id].quantity && CardsDeleted(before[id], after[id], ds)
  }

  lemma {:induction false} DeleteOneIff(
      prints: Prints, catalog: seq<TagId>, id: PrintId, ds: seq<Deletion>, whole: bool)
    requires SoundBoard(prints, catalog) && PositiveDeletions(ds)
    ensures DeleteOne(prints, catalog, id, ds, whole).Some? <==> OneFits(prints, catalog, id, ds, whole)
    ensures DeleteOne(prints, catalog, id, ds, whole).Some? ==>
              var after := DeleteOne(prints, catalog, id, ds, whole).value;
              Loses(prints, after, id, ds, whole) && forall other :: other != id ==>
                Look(after, other) == Look(prints, other)
  {
    if id in prints && whole {
      StagesHoldIff(prints[id], catalog, ds);
    } else if id in prints {
      DeleteSomeIff(prints, catalog, id, ds);
    }
  }

  lemma {:induction false} DeleteSomeIff(prints: Prints, catalog: seq<TagId>, id: PrintId, ds: seq<Deletion>)
    requires SoundBoard(prints, catalog) && PositiveDeletions(ds) && id in prints
    ensures DeleteOne(prints, catalog, id, ds, false).Some? <==> OneFits(prints, catalog, id, ds, false)
    ensures DeleteOne(prints, catalog, id, ds, false).Some? ==>
              var after := DeleteOne(prints, catalog, id, ds, false).value;
              Loses(prints, after, id, ds, false) && forall other :: other != id ==>
                Look(after, other) == Look(prints, other)
  {
    DeleteCardsIff(prints[id], catalog, ds);
    var r := DeleteCards(prints[id], catalog, ds);
    if r.Some? {
      assert DeleteOne(prints, catalog, id, ds, false).value[id] == r.value;
    }
  }

  ghost predicate BatchFits(prints: Prints, catalog: seq<TagId>, inputs: seq<CardDeletion>) {
    forall i :: 0 <= i < |inputs| ==> FitsIn(prints, catalog, inputs, inputs[i].id)
  }

  ghost predicate BatchDeleted(before: Prints, after: Prints, inputs: seq<CardDeletion>) {
    && (forall i :: 0 <= i < |inputs| ==>
          Loses(before, after, inputs[i].id, DeletionsOf(inputs, inputs[i].id), Whole(inputs, inputs[i].id)))
    && (forall id :: (forall i :: 0 <= i < |inputs| ==> inputs[i].id != id) ==> Look(after, id) == Look(before, id))
  }

  lemma {:induction false} OthersSame(inputs: seq<CardDeletion>, id: PrintId, other: PrintId)
    requires other != id
    ensures DeletionsOf(OtherPrints(inputs, id), other) == DeletionsOf(inputs, other)
    ensures Whole(OtherPrints(inputs, id), other) == Whole(inputs, other)
    ensures forall c :: c in inputs && c.id != id ==> c in OtherPrints(inputs, id)
    decreases |inputs|
  {
    if inputs != [] {
      var rest := inputs[1..];
      OthersSame(rest, id, other);
      assert inputs == [inputs[0]] + rest;
      WholeNext(inputs, other);
      if inputs[0].id != id {
        assert OtherPrints(inputs, id) == [inputs[0]] + OtherPrints(rest, id);
        assert OtherPrints(inputs, id)[1..] == OtherPrints(rest, id);
        WholeNext(OtherPrints(inputs, id), other);
      }
    }
  }

  lemma {:induction false} WholeNext(inputs: seq<CardDeletion>, id: PrintId)
    requires inputs != []
    ensures Whole(inputs, id) <==> (inputs[0].id == id && inputs[0].whole) || Whole(inputs[1..], id)
  {
    if Whole(inputs, id) {
      var i :| 0 <= i < |inputs| && inputs[i].id == id && inputs[i].whole;
      assert i > 0 ==> inputs[1..][i - 1] == inputs[i];
    }
    if Whole(inputs[1..], id) {
      var i :| 0 <= i < |inputs[1..]| && inputs[1..][i].id == id && inputs[1..][i].whole;
      assert inputs[i + 1] == inputs[1..][i];
    }
  }

  ghost predicate FitsIn(prints: Prints, catalog: seq<TagId>, inputs: seq<CardDeletion>, id: PrintId) {
    OneFits(prints, catalog, id, DeletionsOf(inputs, id), Whole(inputs, id))
  }

  lemma {:induction false} RestFitsToo(
      prints: Prints, next: Prints, catalog: seq<TagId>, inputs: seq<CardDeletion>, id: PrintId)
    requires forall other :: other != id ==> Look(next, other) == Look(prints, other)
    requires FitsIn(prints, catalog, inputs, id)
    ensures BatchFits(next, catalog, OtherPrints(inputs, id)) <==> BatchFits(prints, catalog, inputs)
  {
    var rest := OtherPrints(inputs, id);
    forall other | other != id ensures FitsIn(next, catalog, rest, other) <==> FitsIn(prints, catalog, inputs, other) {
      OthersSame(inputs, id, other);
      assert Look(next, other) == Look(prints, other);
    }
    OthersSame(inputs, id, id + 1);
    if BatchFits(next, catalog, rest) {
      FitsWithRest(prints, next, catalog, inputs, rest, id);
    }
    if BatchFits(prints, catalog, inputs) {
      FitsForRest(prints, next, catalog, inputs, rest, id);
    }
  }

  lemma {:induction false} FitsWithRest(
      prints: Prints, next: Prints, catalog: seq<TagId>, inputs: seq<CardDeletion>, rest: seq<CardDeletion>,
      id: PrintId)
    requires FitsIn(prints, catalog, inputs, id) && BatchFits(next, catalog, rest)
    requires forall other :: other != id ==>
        (FitsIn(next, catalog, rest, other) <==> FitsIn(prints, catalog, inputs, other))
    requires forall c :: c in inputs && c.id != id ==> c in rest
    ensures BatchFits(prints, catalog, inputs)
  {
    forall i | 0 <= i < |inputs| ensures FitsIn(prints, catalog, inputs, inputs[i].id) {
      if inputs[i].id != id {
        var j :| 0 <= j < |rest| && rest[j] == inputs[i];
        assert FitsIn(next, catalog, rest, rest[j].id);
      }
    }
  }

  lemma {:induction false} FitsForRest(
      prints: Prints, next: Prints, catalog: seq<TagId>, inputs: seq<CardDeletion>, rest: seq<CardDeletion>,
      id: PrintId)
    requires BatchFits(prints, catalog, inputs) && forall j :: 0 <= j < |rest| ==> rest[j] in inputs && rest[j].id != id
    requires forall other :: other != id ==>
        (FitsIn(next, catalog, rest, other) <==> FitsIn(prints, catalog, inputs, other))
    ensures BatchFits(next, catalog, rest)
  {
    forall j | 0 <= j < |rest| ensures FitsIn(next, catalog, rest, rest[j].id) {
      var i :| 0 <= i < |inputs| && inputs[i] == rest[j];
      assert FitsIn(prints, catalog, inputs, inputs[i].id);
    }
  }

  lemma {:induction false} NextLoses(
      before: Prints, mid: Prints, after: Prints, inputs: seq<CardDeletion>, id: PrintId, other: PrintId)
    requires BatchDeleted(mid, after, OtherPrints(inputs, id)) && other != id
    requires Look(mid, other) == Look(before, other)
    requires exists i :: 0 <= i < |inputs| && inputs[i].id == other
    ensures Loses(before, after, other, DeletionsOf(inputs, other), Whole(inputs, other))
  {
    var rest := OtherPrints(inputs, id);
    var i :| 0 <= i < |inputs| && inputs[i].id == other;
    OthersSame(inputs, id, other);
    assert inputs[i] in inputs;
    var j :| 0 <= j < |rest| && rest[j] == inputs[i];
    assert Loses(mid, after, rest[j].id, DeletionsOf(rest, rest[j].id), Whole(rest, rest[j].id));
  }

  lemma {:induction false} UnnamedKept(
      before: Prints, mid: Prints, after: Prints, inputs: seq<CardDeletion>, id: PrintId, other: PrintId)
    requires BatchDeleted(mid, after, OtherPrints(inputs, id)) && Look(mid, other) == Look(before, other)
    requires forall i :: 0 <= i < |inputs| ==> inputs[i].id != other
    ensures Look(after, other) == Look(before, other)
  {
    var rest := OtherPrints(inputs, id);
    forall j | 0 <= j < |rest| ensures rest[j].id != other {
      assert rest[j] in inputs;
    }
  }

  lemma {:induction false} FirstLoses(before: Prints, mid: Prints, after: Prints, inputs: seq<CardDeletion>,
      id: PrintId)
    requires Loses(before, mid, id, DeletionsOf(inputs, id), Whole(inputs, id))
    requires BatchDeleted(mid, after, OtherPrints(inputs, id))
    ensures Loses(before, after, id, DeletionsOf(inputs, id), Whole(inputs, id))
  {
    assert forall j :: 0 <= j < |OtherPrints(inputs, id)| ==> OtherPrints(inputs, id)[j].id != id;
    assert Look(after, id) == Look(mid, id);
  }

  lemma {:induction false} AllLose(before: Prints, mid: Prints, after: Prints, inputs: seq<CardDeletion>, id: PrintId)
    requires inputs != [] && inputs[0].id == id
    requires Loses(before, mid, id, DeletionsOf(inputs, id), Whole(inputs, id))
    requires forall other :: other != id ==> Look(mid, other) == Look(before, other)
    requires BatchDeleted(mid, after, OtherPrints(inputs, id))
    ensures BatchDeleted(before, after, inputs)
  {
    FirstLoses(before, mid, after, inputs, id);
    forall i | 0 <= i < |inputs|
      ensures Loses(before, after, inputs[i].id, DeletionsOf(inputs, inputs[i].id), Whole(inputs, inputs[i].id))
    {
      if inputs[i].id != id {
        NextLoses(before, mid, after, inputs, id, inputs[i].id);
      }
    }
    forall other | (forall i :: 0 <= i < |inputs| ==> inputs[i].id != other)
      ensures Look(after, other) == Look(before, other)
    {
      UnnamedKept(before, mid, after, inputs, id, other);
    }
  }

  lemma {:induction false} FirstDeleted(prints: Prints, catalog: seq<TagId>, inputs: seq<CardDeletion>)
    requires SoundBoard(prints, catalog) && CheckedDeletions(inputs) && inputs != []
    ensures var id, ds, whole := inputs[0].id, DeletionsOf(inputs, inputs[0].id), Whole(inputs, inputs[0].id);
      var r := DeleteOne(prints, catalog, id, ds, whole);
      && (r.Some? <==> FitsIn(prints, catalog, inputs, id))
      && (r.Some? ==>
            && SoundBoard(r.value, catalog) && CheckedDeletions(OtherPrints(inputs, id))
            && Loses(prints, r.value, id, ds, whole)
            && (forall other :: other != id ==> Look(r.value, other) == Look(prints, other))
            && (BatchFits(r.value, catalog, OtherPrints(inputs, id)) <==> BatchFits(prints, catalog, inputs)))
  {
    var id, ds, whole := inputs[0].id, DeletionsOf(inputs, inputs[0].id), Whole(inputs, inputs[0].id);
    PartsPositive(inputs, id);
    DeleteOneIff(prints, catalog, id, ds, whole);
    var r := DeleteOne(prints, catalog, id, ds, whole);
    if r.Some? {
      DeleteOneKeeps(prints, catalog, id, ds, whole);
      RestFitsToo(prints, r.value, catalog, inputs, id);
    }
  }

  /**
   * A batch of deletions is accepted exactly when every print holds the cards named of it and a copy is left, or
   * goes as a whole with all its copies named; each print then loses exactly what was named, and no other anything.
   */
  lemma {:induction false} DeleteBatchIff(prints: Prints, catalog: seq<TagId>, inputs: seq<CardDeletion>)
    requires SoundBoard(prints, catalog) && CheckedDeletions(inputs)
    ensures DeleteBatch(prints, catalog, inputs).Some? <==> BatchFits(prints, catalog, inputs)
    ensures DeleteBatch(prints, catalog, inputs).Some? ==>
        BatchDeleted(prints, DeleteBatch(prints, catalog, inputs).value, inputs)
    decreases |inputs|
  {
    if inputs != [] {
      var id, ds, whole := inputs[0].id, DeletionsOf(inputs, inputs[0].id), Whole(inputs, inputs[0].id);
      FirstDeleted(prints, catalog, inputs);
      if DeleteOne(prints, catalog, id, ds, whole).Some? {
        var next := DeleteOne(prints, catalog, id, ds, whole).value;
        DeleteBatchIff(next, catalog, OtherPrints(inputs, id));
        if DeleteBatch(prints, catalog, inputs).Some? {
          AllLose(prints, next, DeleteBatch(prints, catalog, inputs).value, inputs, id);
        }
      }
    }
  }
}
