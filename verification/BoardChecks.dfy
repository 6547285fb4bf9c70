/** Compare-and-set on a print's rows: a write goes through exactly when the row still is as it was read. */
module BoardChecks {
  import opened Options
  import opened Sums
  import opened Cohorts
  import opened Takes
  import opened Board
  import opened BoardEdits

  /** The tag's row still has the count that was read, and that covers the copies to be taken off. */
  ghost predicate Covered(p: Print, s: Stage, tag: Tag, copies: nat) {
    copies == 0 || (Slot(s, tag.id) in p.tags && TagQty(p, s, tag.id) == tag.count && copies <= tag.count)
  }

  /** Taking copies off a tag row: none are left where all go, and no other row changes. */
  lemma {:induction false} TakeOffIff(p: Print, s: Stage, tag: Tag, copies: nat)
    ensures TakeOff(p, s, tag, copies).Some? <==> Covered(p, s, tag, copies)
    ensures TakeOff(p, s, tag, copies).Some? ==>
              var q := TakeOff(p, s, tag, copies).value;
              && q.stages == p.stages && q.quantity == p.quantity
              && (forall slot :: slot != Slot(s, tag.id) ==> Look(q.tags, slot) == Look(p.tags, slot))
              && (0 < copies < tag.count ==> Look(q.tags, Slot(s, tag.id)) == Some(tag.count - copies))
              && (0 < copies == tag.count ==> Look(q.tags, Slot(s, tag.id)) == None)
              && (copies == 0 ==> q == p)
  {
  }

  /** The copies planned to go off a tag. */
  ghost function Going(removed: seq<map<TagId, nat>>, t: TagId): nat {
    Sum(removed, Getting(t))
  }

  lemma {:induction false} OthersStillRead(
      p: Print, s: Stage, tags: seq<Tag>, removed: seq<map<TagId, nat>>, slot: Slot)
    requires RemoveTagCopies(p, s, tags, removed).Some?
    requires forall i :: 0 <= i < |tags| ==> slot != Slot(s, tags[i].id)
    ensures Look(RemoveTagCopies(p, s, tags, removed).value.tags, slot) == Look(p.tags, slot)
    decreases |tags|
  {
    if tags != [] {
      var front, tag := tags[..|tags| - 1], tags[|tags| - 1];
      assert forall i :: 0 <= i < |front| ==> front[i] == tags[i];
      OthersStillRead(p, s, front, removed, slot);
      TakeOffIff(RemoveTagCopies(p, s, front, removed).value, s, tag, Going(removed, tag.id));
    }
  }

  /** The removal of planned copies is refused exactly when some tag that loses copies was changed since it was read. */
  lemma {:induction false} RemovalIff(p: Print, s: Stage, tags: seq<Tag>, removed: seq<map<TagId, nat>>)
    requires DistinctTags(tags)
    ensures RemoveTagCopies(p, s, tags, removed).Some? <==>
              forall i :: 0 <= i < |tags| ==> Covered(p, s, tags[i], Going(removed, tags[i].id))
    decreases |tags|
  {
    if tags != [] {
      var last := |tags| - 1;
      var front, tag := tags[..last], tags[last];
      assert forall i :: 0 <= i < last ==> front[i] == tags[i];
      RemovalIff(p, s, front, removed);
      if RemoveTagCopies(p, s, front, removed).Some? {
        var q := RemoveTagCopies(p, s, front, removed).value;
        OthersStillRead(p, s, front, removed, Slot(s, tag.id));
        assert Look(q.tags, Slot(s, tag.id)) == Look(p.tags, Slot(s, tag.id));
        TakeOffIff(q, s, tag, Going(removed, tag.id));
      }
      assert (forall i :: 0 <= i < |tags| ==> Covered(p, s, tags[i], Going(removed, tags[i].id))) ==>
        Covered(p, s, tags[last], Going(removed, tags[last].id));
    }
  }

  /**
   * Copies move between two stages of the print exactly when the source has the count that was read, and that covers
   * them; the stages' places and completion change only as the move says.
   */
  lemma {:induction false} MoveIff(p: Print, m: Move, read: int)
    requires m.from != m.to
    ensures MoveCopies(p, m, read).Some? <==>
        m.from in p.stages && m.to in p.stages && p.stages[m.from].quantity == read && m.count <= read
    ensures MoveCopies(p, m, read).Some? ==>
              var q, left, target := MoveCopies(p, m, read).value, p.stages[m.from], p.stages[m.to];
              && q.tags == p.tags && q.quantity == p.quantity
              && (forall s :: s != m.from && s != m.to ==> Look(q.stages, s) == Look(p.stages, s))
              && m.from in q.stages && m.to in q.stages
              && q.stages[m.from].quantity == left.quantity - m.count && q.stages[m.from].order == left.order
              && q.stages[m.to].quantity == target.quantity + m.count
              && q.stages[m.to].order == (if target.quantity == 0 then left.order else target.order)
              && q.stages[m.to].completedAt == (if m.to == Done then Some(m.movedAt) else target.completedAt)
              && q.stages[m.from].completedAt ==
                (if m.from == Done && left.quantity == m.count then None else left.completedAt)
  {
  }

  /** A stage is lowered exactly when it still has the count that was read. */
  lemma {:induction false} ShrinkIff(p: Print, s: Stage, read: nat, copies: nat)
    requires copies <= read
    ensures Shrink(p, s, read, copies).Some? <==> s in p.stages && p.stages[s].quantity == read
    ensures Shrink(p, s, read, copies).Some? ==>
              var q := Shrink(p, s, read, copies).value;
              q.tags == p.tags && q.quantity == p.quantity && PlacesKept(p, q)
                && forall r :: Qty(q, r) == Qty(p, r) - if r == s then copies else 0
  {
  }
}
