/** The other edits of a print's rows: new prints, tag edits, deleted cards and quantity changes. */
module BoardEdits {
  import opened Options
  import opened Sums
  import opened Cohorts
  import opened Takes
  import opened Board

  // ---------------------------------------------------------------------------------------------
  // New prints
  // ---------------------------------------------------------------------------------------------

  function NewPrint(quantity: nat): Print {
    var empty := StageRow(0, None, None);
    Print(
      quantity,
      map[Todo := StageRow(quantity, None, None), UpNext := empty, InProgress := empty, PostProcessing := empty,
        Done := empty],
      map[])
  }

  /** All copies of a new print are in the first stage; there are no tags, no places chosen and nothing completed. */
  ghost predicate AllInTodo(p: Print, quantity: nat) {
    && p.quantity == quantity && Qty(p, Todo) == quantity && (forall s :: s != Todo ==> Qty(p, s) == 0)
    && (forall s, t :: Slot(s, t) !in p.tags)
    && forall s :: s in p.stages && p.stages[s].order.None? && p.stages[s].completedAt.None?
  }

  lemma {:induction false} NewPrintSound(quantity: nat, catalog: seq<TagId>)
    ensures Sound(NewPrint(quantity), catalog) && AllInTodo(NewPrint(quantity), quantity)
  {
    var p := NewPrint(quantity);
    forall s: Stage ensures s in p.stages {
      match s
      case Todo =>
      case UpNext =>
      case InProgress =>
      case PostProcessing =>
      case Done =>
    }
  }

  // ---------------------------------------------------------------------------------------------
  // Tag edits
  // ---------------------------------------------------------------------------------------------

  /** Rows that count no more copies than the edit covers go; the others are lowered. */
  function Untag(p: Print, s: Stage, count: nat, remove: seq<TagId>): Print {
    p.(tags := map slot | slot in p.tags && !(slot.stage == s && slot.tag in remove && p.tags[slot] <= count)
         :: if slot.stage == s && slot.tag in remove then p.tags[slot] - count else p.tags[slot])
  }

  /** Adds the tag to `count` more copies, at most to all `available` ones. */
  function AddTag(p: Print, s: Stage, id: TagId, count: nat, available: nat): Print {
    var slot := Slot(s, id);
    p.(tags := p.tags[slot := if slot in p.tags then Min(p.tags[slot] + count, available) else count])
  }

  function AddTags(p: Print, s: Stage, ids: seq<TagId>, count: nat, available: nat): Print {
    if ids == [] then p
    else AddTag(AddTags(p, s, ids[..|ids| - 1], count, available), s, ids[|ids| - 1], count, available)
  }

  /** Edits the tags of `count` copies of one stage; refused when the stage holds fewer. */
  function Retag(p: Print, s: Stage, count: nat, add: seq<TagId>, remove: seq<TagId>): Option<Print> {
    if s !in p.stages || p.stages[s].quantity < count then None
    else Some(AddTags(Untag(p, s, count, remove), s, add, count, p.stages[s].quantity))
  }

  /** The tags' rows have `count` more copies, at most as many as are available; nothing else has changed. */
  ghost predicate TagsAdded(p: Print, q: Print, s: Stage, ids: set<TagId>, count: nat, available: nat) {
    && q.stages == p.stages && q.quantity == p.quantity
    && (forall slot :: slot in q.tags <==> slot in p.tags || (slot.stage == s && slot.tag in ids))
    && (forall r, t ::
          TagQty(q, r, t) ==
          if r == s && t in ids then Min(TagQty(p, r, t) + count, available) else TagQty(p, r, t))
  }

  lemma {:induction false} OneTagAdded(
      p: Print, q: Print, s: Stage, front: set<TagId>, id: TagId, count: nat, available: nat)
    requires TagsAdded(p, q, s, front, count, available) && id !in front && 0 < count <= available
    ensures TagsAdded(p, AddTag(q, s, id, count, available), s, front + {id}, count, available)
  {
    var after := AddTag(q, s, id, count, available);
    assert TagQty(q, s, id) == TagQty(p, s, id);
    forall r, t | r != s || t != id ensures TagQty(after, r, t) == TagQty(q, r, t) {
    }
  }

  lemma {:induction false} AddTagsAdd(p: Print, s: Stage, ids: seq<TagId>, count: nat, available: nat)
    requires NoRepeats(ids) && 0 < count <= available
    ensures TagsAdded(p, AddTags(p, s, ids, count, available), s, Elements(ids), count, available)
    decreases |ids|
  {
    if ids != [] {
      var front, id := ids[..|ids| - 1], ids[|ids| - 1];
      AddTagsAdd(p, s, front, count, available);
      assert ids == front + [id];
      assert Elements(ids) == Elements(front) + {id};
      OneTagAdded(p, AddTags(p, s, front, count, available), s, Elements(front), id, count, available);
    }
  }

  /**
   * A tag edit keeps the invariant and changes exactly the named tags of the stage, by `count` copies within its
   * bounds.
   */
  lemma {:induction false} RetagKeeps(
      p: Print, catalog: seq<TagId>, s: Stage, count: nat, add: seq<TagId>, remove: seq<TagId>)
    requires Sound(p, catalog) && count > 0 && NoRepeats(add)
    requires forall t :: t in add ==> t in catalog && t !in remove
    ensures Retag(p, s, count, add, remove).Some? <==> count <= Qty(p, s)
    ensures Retag(p, s, count, add, remove).Some? ==>
              var q := Retag(p, s, count, add, remove).value;
              && Sound(q, catalog) && q.quantity == p.quantity && q.stages == p.stages
              && (forall r, t :: TagQty(q, r, t) ==
                    if r == s && t in add then Min(TagQty(p, r, t) + count, Qty(p, s))
                    else if r == s && t in remove then TagQty(p, r, t) - Min(TagQty(p, r, t), count)
                    else TagQty(p, r, t))
  {
    if count <= Qty(p, s) {
      var u, available := Untag(p, s, count, remove), Qty(p, s);
      UntagLowers(p, catalog, s, count, remove);
      AddTagsAdd(u, s, add, count, available);
      var q := AddTags(u, s, add, count, available);
      RetagFits(p, u, q, catalog, s, add, count);
      TagsChanged(p, u, q, s, count, add, remove);
    }
  }

  ghost predicate TagsLowered(p: Print, u: Print, s: Stage, count: nat, remove: seq<TagId>) {
    forall r, t ::
      TagQty(u, r, t) ==
      if r == s && t in remove then TagQty(p, r, t) - Min(TagQty(p, r, t), count) else TagQty(p, r, t)
  }

  lemma {:induction false} TagsChanged(
      p: Print, u: Print, q: Print, s: Stage, count: nat, add: seq<TagId>, remove: seq<TagId>)
    requires TagsLowered(p, u, s, count, remove) && TagsAdded(u, q, s, Elements(add), count, Qty(p, s))
    requires forall t :: t in add ==> t !in remove
    ensures forall r, t :: TagQty(q, r, t) ==
              if r == s && t in add then Min(TagQty(p, r, t) + count, Qty(p, s))
              else if r == s && t in remove then TagQty(p, r, t) - Min(TagQty(p, r, t), count)
              else TagQty(p, r, t)
  {
  }

  lemma {:induction false} UntagLowers(p: Print, catalog: seq<TagId>, s: Stage, count: nat, remove: seq<TagId>)
    requires HasStages(p) && TagsFit(p, catalog)
    ensures var u := Untag(p, s, count, remove);
      && u.stages == p.stages && u.quantity == p.quantity && TagsFit(u, catalog)
      && TagsLowered(p, u, s, count, remove)
  {
  }

  lemma {:induction false} RetagFits(
      p: Print, u: Print, q: Print, catalog: seq<TagId>, s: Stage, add: seq<TagId>, count: nat)
    requires HasStages(p) && TagsFit(u, catalog) && u.stages == p.stages && q.stages == p.stages && count > 0
    requires TagsAdded(u, q, s, Elements(add), count, Qty(p, s))
    requires forall t :: t in add ==> t in catalog
    requires count <= Qty(p, s)
    ensures TagsFit(q, catalog)
  {
    forall slot | slot in q.tags ensures slot.tag in catalog && 0 < q.tags[slot] <= Qty(q, slot.stage) {
      assert TagQty(q, slot.stage, slot.tag) == q.tags[slot];
      assert Qty(q, slot.stage) == Qty(u, slot.stage) == Qty(p, slot.stage);
      if slot in u.tags {
        assert u.tags[slot] == TagQty(u, slot.stage, slot.tag);
      }
    }
  }

  // ---------------------------------------------------------------------------------------------
  // Quantity changes
  // ---------------------------------------------------------------------------------------------

  function Started(p: Print): nat {
    Qty(p, UpNext) + Qty(p, InProgress) + Qty(p, PostProcessing) + Qty(p, Done)
  }

  /** The first stage takes up the difference; its tags are cut back to the copies it has left. */
  function SetQuantity(p: Print, quantity: nat): Option<Print> {
    if quantity < Started(p) || quantity < 1 || Todo !in p.stages then None
    else
      var initial := quantity - Started(p);
      var tags := map slot | slot in p.tags && (slot.stage == Todo ==> initial > 0)
        :: if slot.stage == Todo then Min(p.tags[slot], initial) else p.tags[slot];
      Some(Print(quantity, p.stages[Todo := p.stages[Todo].(quantity := initial)], tags))
  }

  /**
   * A quantity change is refused exactly below the started copies, keeps the invariant, and touches the first stage
   * only.
   */
  lemma {:induction false} SetQuantityKeeps(p: Print, catalog: seq<TagId>, quantity: nat)
    requires Sound(p, catalog)
    ensures SetQuantity(p, quantity).Some? <==> quantity >= 1 && quantity >= p.quantity - Qty(p, Todo)
    ensures SetQuantity(p, quantity).Some? ==>
              var q := SetQuantity(p, quantity).value;
              && Sound(q, catalog) && q.quantity == quantity && PlacesKept(p, q)
              && (forall s :: s != Todo ==> q.stages[s] == p.stages[s])
              && (forall s, t :: TagQty(q, s, t) == if s == Todo then Min(TagQty(p, s, t), Qty(q, Todo))
                  else TagQty(p, s, t))
  {
  }

  // ---------------------------------------------------------------------------------------------
  // Deleted cards
  // ---------------------------------------------------------------------------------------------

  /** Copies of one card to be deleted from a stage. */
  datatype Deletion = Deletion(stage: Stage, count: nat, tagIds: seq<TagId>)

  ghost const DELETED: Deletion -> nat := (d: Deletion) => d.count

  ghost function DeletedWith(t: TagId): Deletion -> nat {
    (d: Deletion) => if t in d.tagIds then d.count else 0
  }

  function DeletionTakes(ds: seq<Deletion>): (r: seq<Take>)
    ensures |r| == |ds| && forall i :: 0 <= i < |ds| ==> r[i] == Take(ds[i].count, Some(ds[i].tagIds))
  {
    seq(|ds|, i requires 0 <= i < |ds| => Take(ds[i].count, Some(ds[i].tagIds)))
  }

  function InStage(ds: seq<Deletion>, s: Stage): (r: seq<Deletion>)
    ensures |r| <= |ds| && forall i :: 0 <= i < |r| ==> r[i].stage == s && r[i] in ds
  {
    if ds == [] then [] else (if ds[0].stage == s then [ds[0]] else []) + InStage(ds[1..], s)
  }

  function NotInStage(ds: seq<Deletion>, s: Stage): (r: seq<Deletion>)
    ensures |r| <= |ds| && (ds != [] && ds[0].stage == s ==> |r| < |ds|)
    ensures forall i :: 0 <= i < |r| ==> r[i] in ds
  {
    if ds == [] then [] else (if ds[0].stage == s then [] else [ds[0]]) + NotInStage(ds[1..], s)
  }

  /** Lowers a stage that still holds the copies read. */
  function Shrink(p: Print, s: Stage, quantity: nat, copies: nat): Option<Print> {
    if s !in p.stages || p.stages[s].quantity != quantity || quantity < copies then None
    else Some(p.(stages := p.stages[s := p.stages[s].(quantity := quantity - copies)]))
  }

  /** Takes the named cards out of one stage, provided it still holds the copies read. */
  ghost function DeleteFromStage(p: Print, catalog: seq<TagId>, s: Stage, ds: seq<Deletion>): Option<Print> {
    var tags := StageTags(p, catalog, s);
    match PlanTakes(Qty(p, s), tags, DeletionTakes(ds))
    case None => None
    case Some(removed) =>
      match RemoveTagCopies(p, s, tags, removed)
      case None => None
      case Some(q) => Shrink(q, s, Qty(p, s), Sum(ds, DELETED))
  }

  /** Stage by stage, in order of first mention. */
  ghost function DeleteStages(p: Print, catalog: seq<TagId>, ds: seq<Deletion>): Option<Print>
    decreases |ds|
  {
    if ds == [] then Some(p)
    else
      match DeleteFromStage(p, catalog, ds[0].stage, InStage(ds, ds[0].stage))
      case None => None
      case Some(q) => DeleteStages(q, catalog, NotInStage(ds, ds[0].stage))
  }

  /** Lowers the print's quantity at the end; a copy must be left. */
  function LowerQuantity(p: Print, copies: nat): Option<Print> {
    if p.quantity > copies then Some(p.(quantity := p.quantity - copies)) else None
  }

  /** Deletes some of a print's cards; the print itself must keep at least one copy. */
  ghost function DeleteCards(p: Print, catalog: seq<TagId>, ds: seq<Deletion>): Option<Print> {
    match DeleteStages(p, catalog, ds)
    case None => None
    case Some(q) => LowerQuantity(q, Sum(ds, DELETED))
  }

  ghost predicate PositiveDeletions(ds: seq<Deletion>) {
    forall i :: 0 <= i < |ds| ==> ds[i].count > 0 && NoRepeats(ds[i].tagIds)
  }

  /** The invariant while cards are being deleted: the print's quantity is only lowered at the end. */
  ghost predicate SoundBut(p: Print, catalog: seq<TagId>, missing: nat) {
    HasStages(p) && StageSum(p) + missing == p.quantity && TagsFit(p, catalog)
  }

  lemma {:induction false} DeletionSums(ds: seq<Deletion>, removed: seq<map<TagId, nat>>, known: set<TagId>)
    requires |removed| == |ds| && forall i :: 0 <= i < |ds| ==> Entry(DeletionTakes(ds)[i], removed[i], known)
    ensures Sum(DeletionTakes(ds), WANTED) == Sum(ds, DELETED)
    ensures forall t :: Sum(removed, Getting(t)) == Sum(ds, DeletedWith(t))
  {
    SumMatch(DeletionTakes(ds), ds, WANTED, DELETED);
    forall t ensures Sum(removed, Getting(t)) == Sum(ds, DeletedWith(t)) {
      forall i | 0 <= i < |ds| ensures Getting(t)(removed[i]) == DeletedWith(t)(ds[i]) {
        assert Entry(DeletionTakes(ds)[i], removed[i], known);
        assert t in Elements(ds[i].tagIds) <==> t in ds[i].tagIds;
      }
      SumMatch(removed, ds, Getting(t), DeletedWith(t));
    }
  }

  ghost predicate StageDeleted(p: Print, q: Print, s: Stage, ds: seq<Deletion>) {
    && HasStages(q) && q.quantity == p.quantity && PlacesKept(p, q)
    && (forall r :: Qty(q, r) + (if r == s then Sum(ds, DELETED) else 0) == Qty(p, r))
    && (forall r, t :: TagQty(q, r, t) + (if r == s then Sum(ds, DeletedWith(t)) else 0) == TagQty(p, r, t))
  }

  /**
   * Deleting from a stage goes through exactly when it holds the cards named, and removes exactly those copies and
   * tags.
   */
  lemma {:induction false} DeleteFromStageKeeps(
      p: Print, catalog: seq<TagId>, s: Stage, ds: seq<Deletion>, missing: nat)
    requires SoundBut(p, catalog, missing) && NoRepeats(catalog) && PositiveDeletions(ds)
    ensures DeleteFromStage(p, catalog, s, ds).Some? <==>
        Fits(Draw(Qty(p, s), StageTags(p, catalog, s)), DeletionTakes(ds))
    ensures DeleteFromStage(p, catalog, s, ds).Some? ==>
              var q := DeleteFromStage(p, catalog, s, ds).value;
              StageDeleted(p, q, s, ds) && SoundBut(q, catalog, missing + Sum(ds, DELETED))
  {
    PlanDeletion(p, catalog, s, ds);
    var plan := PlanTakes(Qty(p, s), StageTags(p, catalog, s), DeletionTakes(ds));
    if plan.Some? {
      PlannedDeletion(p, catalog, s, ds, plan.value);
      var q := DeleteFromStage(p, catalog, s, ds).value;
      DeletedFits(p, catalog, s, ds, plan.value, q);
      forall r ensures Qty(q, r) + (if r == s then Sum(ds, DELETED) else 0) == Qty(p, r) {}
    }
  }

  lemma {:induction false} PlanDeletion(p: Print, catalog: seq<TagId>, s: Stage, ds: seq<Deletion>)
    requires NoRepeats(catalog) && PositiveDeletions(ds)
    ensures var plan := PlanTakes(Qty(p, s), StageTags(p, catalog, s), DeletionTakes(ds));
      && (plan.Some? <==> Fits(Draw(Qty(p, s), StageTags(p, catalog, s)), DeletionTakes(ds)))
      && (plan.Some? ==>
            && Removes(Qty(p, s), StageTags(p, catalog, s), DeletionTakes(ds), plan.value)
            && Sum(DeletionTakes(ds), WANTED) == Sum(ds, DELETED)
            && forall t :: Sum(plan.value, Getting(t)) == Sum(ds, DeletedWith(t)))
  {
    var tags, takes := StageTags(p, catalog, s), DeletionTakes(ds);
    StageTagsRead(p, catalog, s);
    PlanIsSoundAndComplete(Qty(p, s), tags, takes);
    var plan := PlanTakes(Qty(p, s), tags, takes);
    if plan.Some? {
      DeletionSums(ds, plan.value, Ids(tags));
    }
  }

  lemma {:induction false} PlannedDeletion(
      p: Print, catalog: seq<TagId>, s: Stage, ds: seq<Deletion>, removed: seq<map<TagId, nat>>)
    requires NoRepeats(catalog) && HasStages(p) && TagsFit(p, catalog)
    requires PlanTakes(Qty(p, s), StageTags(p, catalog, s), DeletionTakes(ds)) == Some(removed)
    requires Removes(Qty(p, s), StageTags(p, catalog, s), DeletionTakes(ds), removed)
    requires Sum(DeletionTakes(ds), WANTED) == Sum(ds, DELETED)
    requires forall t :: Sum(removed, Getting(t)) == Sum(ds, DeletedWith(t))
    ensures DeleteFromStage(p, catalog, s, ds).Some?
    ensures var q := DeleteFromStage(p, catalog, s, ds).value;
      q.tags.Keys <= p.tags.Keys && StageDeleted(p, q, s, ds) && forall slot :: slot in q.tags ==> q.tags[slot] > 0
  {
    RemovePlanned(p, catalog, s, DeletionTakes(ds), removed);
    var r := RemoveTagCopies(p, s, StageTags(p, catalog, s), removed).value;
    ShrinkDeletes(p, r, s, ds, removed);
  }

  lemma {:induction false} ShrinkDeletes(p: Print, r: Print, s: Stage, ds: seq<Deletion>, removed: seq<map<TagId, nat>>)
    requires HasStages(p) && TagsTaken(p, r, s, removed) && Sum(ds, DELETED) <= Qty(p, s)
    requires forall t :: Sum(removed, Getting(t)) == Sum(ds, DeletedWith(t))
    ensures Shrink(r, s, Qty(p, s), Sum(ds, DELETED)).Some?
    ensures var q := Shrink(r, s, Qty(p, s), Sum(ds, DELETED)).value;
      q.tags.Keys <= p.tags.Keys && StageDeleted(p, q, s, ds) && forall slot :: slot in q.tags ==> q.tags[slot] > 0
  {
    var q := Shrink(r, s, Qty(p, s), Sum(ds, DELETED)).value;
    forall x, t ensures TagQty(q, x, t) + (if x == s then Sum(ds, DeletedWith(t)) else 0) == TagQty(p, x, t) {
      assert TagQty(q, x, t) == TagQty(r, x, t);
    }
  }

  lemma {:induction false} DeletedFits(
      p: Print, catalog: seq<TagId>, s: Stage, ds: seq<Deletion>, removed: seq<map<TagId, nat>>, q: Print)
    requires NoRepeats(catalog) && HasStages(p) && TagsFit(p, catalog)
    requires Removes(Qty(p, s), StageTags(p, catalog, s), DeletionTakes(ds), removed)
    requires Sum(DeletionTakes(ds), WANTED) == Sum(ds, DELETED)
    requires forall t :: Sum(removed, Getting(t)) == Sum(ds, DeletedWith(t))
    requires q.tags.Keys <= p.tags.Keys && StageDeleted(p, q, s, ds)
    requires forall slot :: slot in q.tags ==> q.tags[slot] > 0
    ensures TagsFit(q, catalog)
  {
    var tags := StageTags(p, catalog, s);
    StageTagsRead(p, catalog, s);
    forall slot | slot in q.tags ensures slot.tag in catalog && 0 < q.tags[slot] <= Qty(q, slot.stage) {
      assert TagQty(q, slot.stage, slot.tag) == q.tags[slot];
      assert slot in p.tags;
      if slot.stage == s {
        assert slot.tag in Ids(tags);
        var n :| 0 <= n < |tags| && tags[n].id == slot.tag;
        assert LeavesRoom(Qty(p, s), tags[n], DeletionTakes(ds), removed);
      }
    }
  }

  lemma {:induction false} StageParts(ds: seq<Deletion>, s: Stage)
    ensures Sum(ds, DELETED) == Sum(InStage(ds, s), DELETED) + Sum(NotInStage(ds, s), DELETED)
    ensures PositiveDeletions(ds) ==> PositiveDeletions(InStage(ds, s)) && PositiveDeletions(NotInStage(ds, s))
  {
    StageSums(ds, s);
  }

  lemma {:induction false} StageSums(ds: seq<Deletion>, s: Stage)
    ensures Sum(ds, DELETED) == Sum(InStage(ds, s), DELETED) + Sum(NotInStage(ds, s), DELETED)
    decreases |ds|
  {
    if ds != [] {
      var head, mine, rest := ds[0], InStage(ds[1..], s), NotInStage(ds[1..], s);
      StageSums(ds[1..], s);
      assert ds == [head] + ds[1..];
      SumPrepend(head, ds[1..], DELETED);
      SumPrepend(head, mine, DELETED);
      SumPrepend(head, rest, DELETED);
      if head.stage == s {
        assert InStage(ds, s) == [head] + mine && NotInStage(ds, s) == rest;
      } else {
        assert InStage(ds, s) == mine && NotInStage(ds, s) == [head] + rest;
      }
    }
  }

  lemma {:induction false} DeleteStagesKeeps(p: Print, catalog: seq<TagId>, ds: seq<Deletion>, missing: nat)
    requires SoundBut(p, catalog, missing) && NoRepeats(catalog) && PositiveDeletions(ds)
    requires DeleteStages(p, catalog, ds).Some?
    ensures SoundBut(DeleteStages(p, catalog, ds).value, catalog, missing + Sum(ds, DELETED))
    ensures DeleteStages(p, catalog, ds).value.quantity == p.quantity
    decreases |ds|
  {
    if ds != [] {
      var s := ds[0].stage;
      StageParts(ds, s);
      DeleteFromStageKeeps(p, catalog, s, InStage(ds, s), missing);
      var q := DeleteFromStage(p, catalog, s, InStage(ds, s)).value;
      DeleteStagesKeeps(q, catalog, NotInStage(ds, s), missing + Sum(InStage(ds, s), DELETED));
    }
  }

  /** Deleting cards keeps the board invariant and takes off as many copies as were named. */
  lemma {:induction false} DeleteCardsKeeps(p: Print, catalog: seq<TagId>, ds: seq<Deletion>)
    requires Sound(p, catalog) && NoRepeats(catalog) && PositiveDeletions(ds)
    requires DeleteCards(p, catalog, ds).Some?
    ensures Sound(DeleteCards(p, catalog, ds).value, catalog)
    ensures DeleteCards(p, catalog, ds).value.quantity + Sum(ds, DELETED) == p.quantity
  {
    DeleteStagesKeeps(p, catalog, ds, 0);
  }

  // ---------------------------------------------------------------------------------------------
  // Tag edits over many prints
  // ---------------------------------------------------------------------------------------------

  datatype TagEdit = TagEdit(id: PrintId, stage: Stage, count: nat)

  /** The edits in turn; one that names more copies than its stage holds undoes all. */
  function RetagAll(
      prints: map<PrintId, Print>, edits: seq<TagEdit>, add: seq<TagId>,
      remove: seq<TagId>): Option<map<PrintId, Print>> {
    if edits == [] then Some(prints)
    else
      var e := edits[|edits| - 1];
      match RetagAll(prints, edits[..|edits| - 1], add, remove)
      case None => None
      case Some(mid) =>
        if e.id !in mid then None
        else
          match Retag(mid[e.id], e.stage, e.count, add, remove)
          case None => None
          case Some(p) => Some(mid[e.id := p])
  }

  ghost predicate SameCopies(before: map<PrintId, Print>, after: map<PrintId, Print>) {
    after.Keys == before.Keys
    && forall id :: id in before ==> after[id].stages == before[id].stages && after[id].quantity == before[id].quantity
  }

  predicate EditFits(prints: map<PrintId, Print>, e: TagEdit) {
    e.id in prints && e.count <= Qty(prints[e.id], e.stage)
  }

  /**
   * The edits are accepted exactly when every stage holds the copies named; they keep the invariant and move no copy.
   */
  lemma {:induction false} RetagAllKeeps(
      prints: map<PrintId, Print>, catalog: seq<TagId>, edits: seq<TagEdit>, add: seq<TagId>, remove: seq<TagId>)
    requires forall id :: id in prints ==> Sound(prints[id], catalog)
    requires NoRepeats(add) && forall t :: t in add ==> t in catalog && t !in remove
    requires forall i :: 0 <= i < |edits| ==> edits[i].count > 0
    ensures RetagAll(prints, edits, add, remove).Some? <==> forall i :: 0 <= i < |edits| ==> EditFits(prints, edits[i])
    ensures RetagAll(prints, edits, add, remove).Some? ==>
              var after := RetagAll(prints, edits, add, remove).value;
              SameCopies(prints, after) && forall id :: id in after ==> Sound(after[id], catalog)
    decreases |edits|
  {
    if edits != [] {
      var front, e := edits[..|edits| - 1], edits[|edits| - 1];
      assert edits == front + [e];
      AllEditsFit(prints, front, e);
      RetagAllKeeps(prints, catalog, front, add, remove);
      if RetagAll(prints, front, add, remove).Some? {
        RetagOneKeeps(prints, RetagAll(prints, front, add, remove).value, catalog, e, add, remove);
      }
    }
  }

  lemma {:induction false} AllEditsFit(prints: map<PrintId, Print>, front: seq<TagEdit>, e: TagEdit)
    ensures (forall i :: 0 <= i < |front + [e]| ==> EditFits(prints, (front + [e])[i])) <==>
              (forall i :: 0 <= i < |front| ==> EditFits(prints, front[i])) && EditFits(prints, e)
  {
    var edits := front + [e];
    if forall i :: 0 <= i < |edits| ==> EditFits(prints, edits[i]) {
      assert EditFits(prints, edits[|front|]);
      forall i | 0 <= i < |front| ensures EditFits(prints, front[i]) {
        assert EditFits(prints, edits[i]);
      }
    }
  }

  lemma {:induction false} RetagOneKeeps(
      prints: map<PrintId, Print>, mid: map<PrintId, Print>, catalog: seq<TagId>, e: TagEdit, add: seq<TagId>,
      remove: seq<TagId>)
    requires SameCopies(prints, mid) && e.count > 0 && NoRepeats(add)
    requires forall t :: t in add ==> t in catalog && t !in remove
    requires forall id :: id in mid ==> Sound(mid[id], catalog)
    ensures e.id in mid && Retag(mid[e.id], e.stage, e.count, add, remove).Some? <==> EditFits(prints, e)
    ensures e.id in mid && Retag(mid[e.id], e.stage, e.count, add, remove).Some? ==>
              var p := Retag(mid[e.id], e.stage, e.count, add, remove).value;
              SameCopies(prints, mid[e.id := p]) && Sound(p, catalog)
  {
    if e.id in mid {
      assert mid[e.id].stages == prints[e.id].stages;
      RetagKeeps(mid[e.id], catalog, e.stage, e.count, add, remove);
    }
  }

  predicate AtStage(e: TagEdit, id: PrintId, s: Stage) {
    e.id == id && e.stage == s
  }

  /** What an edit by `count` copies makes of a tag's count. */
  function Retagged(p: Print, s: Stage, t: TagId, count: nat, add: seq<TagId>, remove: seq<TagId>): nat {
    if t in add then Min(TagQty(p, s, t) + count, Qty(p, s))
    else if t in remove then TagQty(p, s, t) - Min(TagQty(p, s, t), count)
    else TagQty(p, s, t)
  }

  lemma {:induction false} OneEdit(
      mid: map<PrintId, Print>, catalog: seq<TagId>, e: TagEdit, add: seq<TagId>, remove: seq<TagId>, id: PrintId,
      s: Stage, t: TagId)
    requires id in mid && e.id in mid && Sound(mid[e.id], catalog) && e.count > 0 && NoRepeats(add)
    requires forall t :: t in add ==> t in catalog && t !in remove
    requires Retag(mid[e.id], e.stage, e.count, add, remove).Some?
    ensures var after := mid[e.id := Retag(mid[e.id], e.stage, e.count, add, remove).value];
      TagQty(after[id], s, t) ==
        if AtStage(e, id, s) then Retagged(mid[id], s, t, e.count, add, remove) else TagQty(mid[id], s, t)
  {
    RetagKeeps(mid[e.id], catalog, e.stage, e.count, add, remove);
  }

  /**
   * Tags that no edit names, and those of stages that no edit names, stay; each stage named changes by its own edit.
   */
  lemma {:induction false} RetagAllTags(
      prints: map<PrintId, Print>, catalog: seq<TagId>, edits: seq<TagEdit>, add: seq<TagId>, remove: seq<TagId>,
      id: PrintId, s: Stage, t: TagId)
    requires forall p :: p in prints ==> Sound(prints[p], catalog)
    requires NoRepeats(add) && forall t :: t in add ==> t in catalog && t !in remove
    requires forall i :: 0 <= i < |edits| ==> edits[i].count > 0
    requires forall i, j :: 0 <= i < j < |edits| ==> !AtStage(edits[j], edits[i].id, edits[i].stage)
    requires RetagAll(prints, edits, add, remove).Some? && id in prints
    ensures var after := RetagAll(prints, edits, add, remove).value;
      && id in after
      && (forall i :: 0 <= i < |edits| && AtStage(edits[i], id, s) ==>
            TagQty(after[id], s, t) == Retagged(prints[id], s, t, edits[i].count, add, remove))
      && ((forall i :: 0 <= i < |edits| ==> !AtStage(edits[i], id, s)) ==>
            TagQty(after[id], s, t) == TagQty(prints[id], s, t))
    decreases |edits|
  {
    if edits != [] {
      var front, e := edits[..|edits| - 1], edits[|edits| - 1];
      RetagAllTags(prints, catalog, front, add, remove, id, s, t);
      RetagAllKeeps(prints, catalog, front, add, remove);
      var mid := RetagAll(prints, front, add, remove).value;
      OneEdit(mid, catalog, e, add, remove, id, s, t);
      LastEdit(prints[id], mid[id], RetagAll(prints, edits, add, remove).value[id], edits, id, s, t, add, remove);
    }
  }

  lemma {:induction false} LastEdit(
      p: Print, mid: Print, after: Print, edits: seq<TagEdit>, id: PrintId, s: Stage, t: TagId, add: seq<TagId>,
      remove: seq<TagId>)
    requires edits != [] && mid.stages == p.stages
    requires forall i, j :: 0 <= i < j < |edits| ==> !AtStage(edits[j], edits[i].id, edits[i].stage)
    requires var front := edits[..|edits| - 1];
      && (forall i :: 0 <= i < |front| && AtStage(front[i], id, s) ==>
            TagQty(mid, s, t) == Retagged(p, s, t, front[i].count, add, remove))
      && ((forall i :: 0 <= i < |front| ==> !AtStage(front[i], id, s)) ==> TagQty(mid, s, t) == TagQty(p, s, t))
    requires var e := edits[|edits| - 1];
      TagQty(after, s, t) ==
        if AtStage(e, id, s) then Retagged(mid, s, t, e.count, add, remove) else TagQty(mid, s, t)
    ensures forall i :: 0 <= i < |edits| && AtStage(edits[i], id, s) ==>
        TagQty(after, s, t) == Retagged(p, s, t, edits[i].count, add, remove)
    ensures (forall i :: 0 <= i < |edits| ==> !AtStage(edits[i], id, s)) ==> TagQty(after, s, t) == TagQty(p, s, t)
  {
    var front, last := edits[..|edits| - 1], |edits| - 1;
    assert forall i :: 0 <= i < last ==> front[i] == edits[i];
    if AtStage(edits[last], id, s) {
      forall i | 0 <= i < last ensures !AtStage(front[i], id, s) {
        assert !AtStage(edits[last], edits[i].id, edits[i].stage);
      }
    }
  }
}
