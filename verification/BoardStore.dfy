/** The repository's board rows, updated in place; a refused transaction leaves them as they were. */
module BoardStore {
  import opened Options
  import opened Sums
  import opened Cohorts
  import opened Takes
  import opened Board
  import opened BoardBatch
  import opened BoardPlans
  import opened BoardGroups
  import opened BoardEdits
  import opened BoardDeletes

  datatype Source = Source(id: PrintId, from: Stage)

  /** The moves whose print and stage have not been handled yet. */
  ghost function Unseen(moves: seq<Move>, seen: set<Source>): seq<Move> {
    if moves == [] then []
    else (if Source(moves[0].id, moves[0].from) in seen then [] else [moves[0]]) + Unseen(moves[1..], seen)
  }

  lemma {:induction false} UnseenOf(moves: seq<Move>, seen: set<Source>, id: PrintId, from: Stage)
    requires Source(id, from) !in seen
    ensures Of(Unseen(moves, seen), id, from) == Of(moves, id, from)
    ensures NotOf(Unseen(moves, seen), id, from) == Unseen(moves, seen + {Source(id, from)})
    decreases |moves|
  {
    if moves != [] {
      UnseenOf(moves[1..], seen, id, from);
      var head, rest := moves[0], Unseen(moves[1..], seen);
      if Source(head.id, head.from) in seen {
        assert Unseen(moves, seen) == rest;
      } else {
        OfHead(head, rest, id, from);
        assert Unseen(moves, seen) == [head] + rest;
      }
      assert Source(head.id, head.from) in seen + {Source(id, from)} <==>
        Source(head.id, head.from) in seen || SameSource(head, id, from);
    }
  }

  lemma {:induction false} OfHead(head: Move, rest: seq<Move>, id: PrintId, from: Stage)
    ensures Of([head] + rest, id, from) == (if SameSource(head, id, from) then [head] else []) + Of(rest, id, from)
    ensures NotOf([head] + rest, id, from) ==
        (if SameSource(head, id, from) then [] else [head]) + NotOf(rest, id, from)
  {
    assert ([head] + rest)[1..] == rest;
  }

  lemma {:induction false} NothingSeen(moves: seq<Move>)
    ensures Unseen(moves, {}) == moves
    decreases |moves|
  {
    if moves != [] {
      NothingSeen(moves[1..]);
    }
  }

  /** Moves of a source not seen so far all lie ahead. */
  lemma {:induction false} OfAhead(moves: seq<Move>, n: nat, id: PrintId, from: Stage)
    requires n <= |moves| && forall i :: 0 <= i < n ==> !SameSource(moves[i], id, from)
    ensures Of(moves, id, from) == Of(moves[n..], id, from)
    decreases n
  {
    if n > 0 {
      assert moves[1..][n - 1..] == moves[n..];
      forall i | 0 <= i < n - 1 ensures !SameSource(moves[1..][i], id, from) {
        assert !SameSource(moves[i + 1], id, from);
      }
      OfAhead(moves[1..], n - 1, id, from);
    }
  }

  method CopiesTaken(removed: seq<map<TagId, nat>>, id: TagId) returns (copies: nat)
    ensures copies == Sum(removed, Getting(id))
  {
    copies := 0;
    for n := 0 to |removed|
      invariant copies == Sum(removed[..n], Getting(id))
    {
      assert removed[..n + 1][..n] == removed[..n];
      copies := copies + Get(removed[n], id);
    }
    assert removed[..|removed|] == removed;
  }

  lemma {:induction false} RemovePrefix(p: Print, s: Stage, tags: seq<Tag>, removed: seq<map<TagId, nat>>, n: nat)
    requires n <= |tags| && RemoveTagCopies(p, s, tags[..n], removed).None?
    ensures RemoveTagCopies(p, s, tags, removed).None?
    decreases |tags|
  {
    if n < |tags| {
      assert tags[..|tags| - 1][..n] == tags[..n];
      RemovePrefix(p, s, tags[..|tags| - 1], removed, n);
    } else {
      assert tags[..n] == tags;
    }
  }

  lemma {:induction false} MoveEachPrefix(p: Print, steps: seq<Step>, quantity: nat, n: nat)
    requires n <= |steps| && MoveEach(p, steps[..n], quantity).None?
    ensures MoveEach(p, steps, quantity).None?
    decreases |steps|
  {
    if n < |steps| {
      assert steps[..|steps| - 1][..n] == steps[..n];
      MoveEachPrefix(p, steps[..|steps| - 1], quantity, n);
    } else {
      assert steps[..n] == steps;
    }
  }

  lemma {:induction false} MoveEachNext(p: Print, steps: seq<Step>, quantity: nat, n: nat, q: Print)
    requires n < |steps| && MoveEach(p, steps[..n], quantity) == Some(q)
    ensures MoveEach(p, steps[..n + 1], quantity) == MoveStep(q, steps[n], quantity - Sum(steps[..n], COUNT))
    ensures Sum(steps[..n + 1], COUNT) == Sum(steps[..n], COUNT) + steps[n].move.count
  {
    assert steps[..n + 1] == steps[..n] + [steps[n]];
    MoveEachAppend(p, steps[..n], steps[n], quantity);
    SumAppend(steps[..n], steps[n], COUNT);
  }

  /** The first unhandled move leads its print and stage; handling them leaves the moves of the other sources. */
  lemma {:induction false} HandleNext(prints: Prints, catalog: seq<TagId>, moves: seq<Move>, n: nat, seen: set<Source>)
    requires n < |moves| && Source(moves[n].id, moves[n].from) !in seen
    requires AllSeen(moves[..n], seen)
    ensures var id, from := moves[n].id, moves[n].from;
      MoveCards(prints, catalog, Unseen(moves[n..], seen)) ==
        if id !in prints then None
        else
          match MoveStage(prints[id], catalog, from, Of(moves, id, from))
          case None => None
          case Some(r) => MoveCards(prints[id := r], catalog, Unseen(moves[n + 1..], seen + {Source(id, from)}))
  {
    var id, from := moves[n].id, moves[n].from;
    var ahead := moves[n..];
    assert ahead[0] == moves[n] && ahead[1..] == moves[n + 1..];
    forall i | 0 <= i < n ensures !SameSource(moves[i], id, from) {
      assert moves[..n][i] == moves[i];
    }
    OfAhead(moves, n, id, from);
    UnseenOf(ahead, seen, id, from);
    UnseenSkips(ahead, seen + {Source(id, from)});
    assert Unseen(ahead, seen)[0] == moves[n];
  }

  ghost predicate AllSeen(moves: seq<Move>, seen: set<Source>) {
    forall i :: 0 <= i < |moves| ==> Source(moves[i].id, moves[i].from) in seen
  }

  lemma {:induction false} SeenNext(moves: seq<Move>, n: nat, was: set<Source>, seen: set<Source>)
    requires n < |moves| && AllSeen(moves[..n], was) && was <= seen && Source(moves[n].id, moves[n].from) in seen
    ensures AllSeen(moves[..n + 1], seen)
  {
    var front := moves[..n + 1];
    forall i | 0 <= i < |front| ensures Source(front[i].id, front[i].from) in seen {
      assert i < n ==> moves[..n][i] == front[i];
    }
  }

  lemma {:induction false} UnseenSkips(moves: seq<Move>, seen: set<Source>)
    requires moves != [] && Source(moves[0].id, moves[0].from) in seen
    ensures Unseen(moves, seen) == Unseen(moves[1..], seen)
  {
  }

  /** Rows that have the same tags added to the same rows are equal. */
  lemma {:induction false} AddedUnique(p: Print, q: Print, r: Print, s: Stage, taken: map<TagId, nat>)
    requires Added(p, q, s, taken) && Added(p, r, s, taken)
    ensures q == r
  {
    forall slot | slot in q.tags ensures slot in r.tags && q.tags[slot] == r.tags[slot] {
      assert TagQty(q, slot.stage, slot.tag) == TagQty(r, slot.stage, slot.tag);
    }
    assert q.tags == r.tags;
  }

  lemma {:induction false} NothingAdded(p: Print, s: Stage)
    ensures Added(p, p, s, map[])
  {
    var none: map<TagId, nat> := map[];
    forall t ensures Get(none, t) == 0 {}
    assert Added(p, p, s, none);
  }

  /** Takes copies off the stage's tags, failing when a count changed since `tags` was read. */
  method RemoveTags(rows: Print, s: Stage, tags: seq<Tag>, removed: seq<map<TagId, nat>>) returns (r: Option<Print>)
    ensures r == RemoveTagCopies(rows, s, tags, removed)
  {
    var row := rows;
    for n := 0 to |tags|
      invariant RemoveTagCopies(rows, s, tags[..n], removed) == Some(row)
    {
      var copies := CopiesTaken(removed, tags[n].id);
      assert tags[..n + 1][..n] == tags[..n];
      var taken := TakeOff(row, s, tags[n], copies);
      if taken.None? {
        RemovePrefix(rows, s, tags, removed, n + 1);
        return None;
      }
      row := taken.value;
    }
    assert tags[..|tags|] == tags;
    r := Some(row);
  }

  lemma {:induction false} OneFewer(taken: map<TagId, nat>, tags: set<TagId>, t: TagId)
    requires t in tags && tags <= taken.Keys
    ensures (taken - tags)[t := taken[t]] == taken - (tags - {t})
  {
  }

  lemma {:induction false} AllAdded(rows: Print, row: Print, s: Stage, taken: map<TagId, nat>)
    requires Added(rows, row, s, taken - {})
    ensures row == AddTaken(rows, s, taken)
  {
    assert taken - {} == taken;
    AddTakenAdds(rows, s, taken);
    AddedUnique(rows, row, AddTaken(rows, s, taken), s, taken);
  }

  /** Adds the copies a move took along to the target's tags, creating the rows it lacks. */
  method AddTags(rows: Print, s: Stage, taken: map<TagId, nat>) returns (row: Print)
    ensures row == AddTaken(rows, s, taken)
  {
    row := rows;
    var tags := taken.Keys;
    assert taken - tags == map[];
    NothingAdded(rows, s);
    while tags != {}
      invariant tags <= taken.Keys && Added(rows, row, s, taken - tags)
      decreases |tags|
    {
      var t :| t in tags;
      AddedNext(rows, row, s, taken - tags, t, taken[t]);
      OneFewer(taken, tags, t);
      row := AddTagCopies(row, s, t, taken[t]);
      tags := tags - {t};
    }
    AllAdded(rows, row, s, taken);
  }

  /** Moves one step's copies and brings the tags they carry to the target. */
  method CarryOut(row: Print, step: Step, remaining: int) returns (r: Option<Print>)
    ensures r == MoveStep(row, step, remaining)
  {
    var moved := MoveCopies(row, step.move, remaining);
    if moved.None? {
      return None;
    }
    var next := AddTags(moved.value, step.move.to, step.taken);
    r := Some(next);
  }

  /** A step that is refused ends the move; one that goes through takes it one step further. */
  lemma {:induction false} StepDecides(
      rows: Print, steps: seq<Step>, quantity: nat, n: nat, row: Print, r: Option<Print>)
    requires n < |steps| && MoveEach(rows, steps[..n], quantity) == Some(row)
    requires r == MoveStep(row, steps[n], quantity - Sum(steps[..n], COUNT))
    ensures r.None? ==> MoveEach(rows, steps, quantity).None?
    ensures r.Some? ==> MoveEach(rows, steps[..n + 1], quantity) == r
    ensures Sum(steps[..n + 1], COUNT) == Sum(steps[..n], COUNT) + steps[n].move.count
  {
    MoveEachNext(rows, steps, quantity, n, row);
    if r.None? {
      MoveEachPrefix(rows, steps, quantity, n + 1);
    }
  }

  /** Carries out the steps in order; the count checked is what the steps before left. */
  method MoveSteps(rows: Print, steps: seq<Step>, quantity: nat) returns (r: Option<Print>)
    ensures r == MoveEach(rows, steps, quantity)
  {
    var row, remaining: int := rows, quantity;
    for n := 0 to |steps|
      invariant remaining == quantity - Sum(steps[..n], COUNT)
      invariant MoveEach(rows, steps[..n], quantity) == Some(row)
    {
      var moved := CarryOut(row, steps[n], remaining);
      StepDecides(rows, steps, quantity, n, row, moved);
      if moved.None? {
        return None;
      }
      remaining, row := remaining - steps[n].move.count, moved.value;
    }
    assert steps[..|steps|] == steps;
    r := Some(row);
  }

  lemma {:induction false} RetagPrefix(prints: Prints, edits: seq<TagEdit>, add: seq<TagId>, remove: seq<TagId>, n: nat)
    requires n <= |edits| && RetagAll(prints, edits[..n], add, remove).None?
    ensures RetagAll(prints, edits, add, remove).None?
    decreases |edits|
  {
    if n < |edits| {
      assert edits[..|edits| - 1][..n] == edits[..n];
      RetagPrefix(prints, edits[..|edits| - 1], add, remove, n);
    } else {
      assert edits[..n] == edits;
    }
  }

  lemma {:induction false} RetagNext(
      prints: Prints, edits: seq<TagEdit>, add: seq<TagId>, remove: seq<TagId>, n: nat, mid: Prints)
    requires n < |edits| && RetagAll(prints, edits[..n], add, remove) == Some(mid)
    ensures var e := edits[n];
      var edited := if e.id in mid then Retag(mid[e.id], e.stage, e.count, add, remove) else None;
      RetagAll(prints, edits[..n + 1], add, remove) == if edited.None? then None else Some(mid[e.id := edited.value])
  {
    assert edits[..n + 1][..n] == edits[..n];
  }

  method CopiesNamed(ds: seq<Deletion>) returns (total: nat)
    ensures total == Sum(ds, DELETED)
  {
    total := 0;
    for n := 0 to |ds|
      invariant total == Sum(ds[..n], DELETED)
    {
      assert ds[..n + 1][..n] == ds[..n];
      total := total + ds[n].count;
    }
    assert ds[..|ds|] == ds;
  }

  /** Whether every stage holds the cards named in it. */
  method HoldStages(row: Print, catalog: seq<TagId>, ds: seq<Deletion>) returns (hold: bool)
    ensures hold == StagesHold(row, catalog, ds)
  {
    var rest := ds;
    while rest != []
      invariant StagesHold(row, catalog, rest) == StagesHold(row, catalog, ds)
      decreases |rest|
    {
      var s := rest[0].stage;
      var plan := PlanCohortTakes(Qty(row, s), StageTags(row, catalog, s), DeletionTakes(InStage(rest, s)));
      if plan.None? {
        return false;
      }
      rest := NotInStage(rest, s);
    }
    hold := true;
  }

  /** Takes the named cards out of a stage whose copy count has not changed since it was read. */
  method RemoveStage(row: Print, catalog: seq<TagId>, s: Stage, ds: seq<Deletion>) returns (r: Option<Print>)
    ensures r == DeleteFromStage(row, catalog, s, ds)
  {
    var quantity, tags := Qty(row, s), StageTags(row, catalog, s);
    var plan := PlanCohortTakes(quantity, tags, DeletionTakes(ds));
    if plan.None? {
      return None;
    }
    var removed := RemoveTags(row, s, tags, plan.value);
    var total := CopiesNamed(ds);
    r := if removed.Some? then Shrink(removed.value, s, quantity, total) else None;
  }

  method RemoveStages(row: Print, catalog: seq<TagId>, ds: seq<Deletion>) returns (r: Option<Print>)
    ensures r == DeleteStages(row, catalog, ds)
  {
    var now, rest := row, ds;
    while rest != []
      invariant DeleteStages(now, catalog, rest) == DeleteStages(row, catalog, ds)
      decreases |rest|
    {
      var s := rest[0].stage;
      var next := RemoveStage(now, catalog, s, InStage(rest, s));
      if next.None? {
        return None;
      }
      now := next.value;
      rest := NotInStage(rest, s);
    }
    r := Some(now);
  }

  method RemoveCards(row: Print, catalog: seq<TagId>, ds: seq<Deletion>) returns (r: Option<Print>)
    ensures r == DeleteCards(row, catalog, ds)
  {
    r := RemoveStages(row, catalog, ds);
    var total := CopiesNamed(ds);
    r := if r.None? then None else LowerQuantity(r.value, total);
  }

  class Repository {
    /** The rows of every print, keyed by print. */
    var prints: Prints
    /** The tags in the order in which they are given to copies. */
    var catalog: seq<TagId>

    ghost predicate Valid()
      reads this
    {
      SoundBoard(prints, catalog)
    }

    constructor (tags: seq<TagId>)
      requires NoRepeats(tags)
      ensures Valid() && prints == map[] && catalog == tags
    {
      prints, catalog := map[], tags;
    }

    method InsertRequest(id: PrintId, quantity: nat)
      requires Valid() && id !in prints
      modifies this`prints
      ensures Valid() && id in prints && AllInTodo(prints[id], quantity)
      ensures forall other :: other != id ==> Look(prints, other) == Look(old(prints), other)
    {
      NewPrintSound(quantity, catalog);
      prints := prints[id := NewPrint(quantity)];
    }

    /** Checks that the stage still holds the cards, then moves the copies and the tags they carry. */
    method MoveStageCards(id: PrintId, from: Stage, moves: seq<Move>) returns (ok: bool)
      requires id in prints
      modifies this`prints
      ensures ok <==> MoveStage(old(prints[id]), catalog, from, moves).Some?
      ensures ok ==> prints == old(prints)[id := MoveStage(old(prints[id]), catalog, from, moves).value]
    {
      var quantity, tags := Qty(prints[id], from), StageTags(prints[id], catalog, from);
      var plan := PlanCohortTakes(quantity, tags, TakesOf(moves));
      if plan.None? {
        return false;
      }
      var removed := RemoveTags(prints[id], from, tags, plan.value);
      if removed.None? {
        return false;
      }
      var moved := MoveSteps(removed.value, Steps(moves, plan.value), quantity);
      if moved.None? {
        return false;
      }
      prints := prints[id := moved.value];
      ok := true;
    }

    /** Handles each print and stage once, at its first mention. */
    method MoveAll(moves: seq<Move>) returns (ok: bool)
      modifies this`prints
      ensures ok <==> MoveCards(old(prints), catalog, moves).Some?
      ensures ok ==> prints == MoveCards(old(prints), catalog, moves).value
    {
      var seen: set<Source> := {};
      ghost var goal := MoveCards(prints, catalog, moves);
      NothingSeen(moves);
      assert moves[0..] == moves;
      for n := 0 to |moves|
        invariant AllSeen(moves[..n], seen)
        invariant MoveCards(prints, catalog, Unseen(moves[n..], seen)) == goal
      {
        var id, from := moves[n].id, moves[n].from;
        if Source(id, from) in seen {
          UnseenSkips(moves[n..], seen);
          assert moves[n..][1..] == moves[n + 1..];
          SeenNext(moves, n, seen, seen);
          continue;
        }
        HandleNext(prints, catalog, moves, n, seen);
        if id !in prints {
          return false;
        }
        ok := MoveStageCards(id, from, Of(moves, id, from));
        if !ok {
          return;
        }
        SeenNext(moves, n, seen, seen + {Source(id, from)});
        seen := seen + {Source(id, from)};
      }
      ok := true;
    }

    /** Moves a batch of cards in one transaction. */
    method MoveCopiesBatch(moves: seq<Move>) returns (ok: bool)
      requires Valid() && Checked(moves)
      modifies this`prints
      ensures Valid()
      ensures ok <==> MoveCards(old(prints), catalog, moves).Some?
      ensures prints == if ok then MoveCards(old(prints), catalog, moves).value else old(prints)
      ensures SameTotals(old(prints), prints)
    {
      var before := prints;
      ok := MoveAll(moves);
      if ok {
        MoveCardsKeeps(before, catalog, moves);
      } else {
        prints := before;
      }
    }

    /** Moves every card carrying the tag in one transaction. */
    method MoveTag(tag: TagId, from: Stage, to: Stage, inputs: seq<Tagged>, now: int) returns (ok: bool)
      requires Valid() && from != to
      modifies this`prints
      ensures Valid() && SameTotals(old(prints), prints)
      ensures ok <==> Current(old(prints), tag, from, inputs)
      ensures ok ==> MoveGroup(old(prints), catalog, tag, from, to, inputs, now) == Some(prints)
      ensures !ok ==> prints == old(prints)
      ensures ok ==> forall i :: 0 <= i < |inputs| ==> TagQty(prints[inputs[i].id], from, tag) == 0
    {
      var before := prints;
      var moves := GroupMoves(prints, catalog, tag, from, to, inputs, now);
      if moves.None? {
        ok := false;
      } else {
        ok := MoveAll(moves.value);
        GroupMovesChecked(before, catalog, tag, from, to, inputs, now);
      }
      if ok {
        MoveCardsKeeps(before, catalog, moves.value);
      } else {
        prints := before;
      }
      MoveGroupIff(before, catalog, tag, from, to, inputs, now);
      if ok {
        MoveGroupEmptiesTag(before, catalog, tag, from, to, inputs, now);
      }
    }

    /** Changes a print's quantity; the new total goes to the first stage. */
    method UpdateQuantity(id: PrintId, quantity: nat) returns (ok: bool)
      requires Valid()
      modifies this`prints
      ensures Valid()
      ensures ok <==> id in old(prints) && SetQuantity(old(prints[id]), quantity).Some?
      ensures prints == if ok then old(prints)[id := SetQuantity(old(prints[id]), quantity).value] else old(prints)
    {
      if id !in prints {
        return false;
      }
      var changed := SetQuantity(prints[id], quantity);
      if changed.None? {
        return false;
      }
      SetQuantityKeeps(prints[id], catalog, quantity);
      prints := prints[id := changed.value];
      ok := true;
    }

    /** Edits the tags of some copies of each print and stage named. */
    method UpdateCopyTags(edits: seq<TagEdit>, add: seq<TagId>, remove: seq<TagId>) returns (ok: bool)
      requires Valid() && NoRepeats(add) && forall t :: t in add ==> t in catalog && t !in remove
      requires forall i :: 0 <= i < |edits| ==> edits[i].count > 0
      modifies this`prints
      ensures Valid() && SameCopies(old(prints), prints)
      ensures ok <==> forall i :: 0 <= i < |edits| ==> EditFits(old(prints), edits[i])
      ensures ok <==> RetagAll(old(prints), edits, add, remove).Some?
      ensures prints == if ok then RetagAll(old(prints), edits, add, remove).value else old(prints)
    {
      var before := prints;
      RetagAllKeeps(before, catalog, edits, add, remove);
      for n := 0 to |edits|
        invariant RetagAll(before, edits[..n], add, remove) == Some(prints)
      {
        RetagNext(before, edits, add, remove, n, prints);
        var e := edits[n];
        var edited := if e.id in prints then Retag(prints[e.id], e.stage, e.count, add, remove) else None;
        if edited.None? {
          RetagPrefix(before, edits, add, remove, n + 1);
          prints := before;
          return false;
        }
        prints := prints[e.id := edited.value];
      }
      assert edits[..|edits|] == edits;
      ok := true;
    }

    /** Takes the named cards out of one print, or, when all its copies are named, the print. */
    method DeletePrintCards(id: PrintId, ds: seq<Deletion>, whole: bool) returns (ok: bool)
      modifies this`prints
      ensures ok <==> DeleteOne(old(prints), catalog, id, ds, whole).Some?
      ensures prints == if ok then DeleteOne(old(prints), catalog, id, ds, whole).value else old(prints)
    {
      if id !in prints {
        return false;
      }
      if whole {
        ok := HoldStages(prints[id], catalog, ds);
        var total := CopiesNamed(ds);
        ok := ok && prints[id].quantity == total;
        if ok {
          prints := prints - {id};
        }
      } else {
        var row := RemoveCards(prints[id], catalog, ds);
        ok := row.Some?;
        if ok {
          prints := prints[id := row.value];
        }
      }
    }

    /** Deletes a batch of cards in one transaction. */
    method DeleteCopiesBatch(inputs: seq<CardDeletion>) returns (ok: bool)
      requires Valid() && CheckedDeletions(inputs)
      modifies this`prints
      ensures Valid() && OthersKept(old(prints), prints, catalog, inputs)
      ensures ok <==> DeleteBatch(old(prints), catalog, inputs).Some?
      ensures prints == if ok then DeleteBatch(old(prints), catalog, inputs).value else old(prints)
    {
      var before := prints;
      ghost var goal := DeleteBatch(prints, catalog, inputs);
      var rest := inputs;
      while rest != []
        invariant DeleteBatch(prints, catalog, rest) == goal
        decreases |rest|
      {
        var id := rest[0].id;
        ok := DeletePrintCards(id, DeletionsOf(rest, id), Whole(rest, id));
        if !ok {
          prints := before;
          return;
        }
        rest := OtherPrints(rest, id);
      }
      ok := true;
      DeleteBatchKeeps(before, catalog, inputs);
    }
  }
}
