/** Deletions planned from the cards the board has drawn. */
module BoardDeletionPlans {
  import opened Options
  import opened Sums
  import opened Cohorts
  import opened Takes
  import opened Board
  import opened BoardBatch
  import opened BoardEdits
  import opened BoardDeletes
  import opened BoardPlans

  /** One deletion per selected card, naming exactly its tags and all its copies. */
  function StageDeletions(sel: Selection): (r: seq<CardDeletion>)
    ensures |r| == |sel.cards|
    ensures forall i :: 0 <= i < |r| ==>
        r[i] == CardDeletion(sel.id, Deletion(sel.stage, sel.cards[i].count, sel.cards[i].tags), false)
  {
    seq(|sel.cards|, i requires 0 <= i < |sel.cards| =>
      CardDeletion(sel.id, Deletion(sel.stage, sel.cards[i].count, sel.cards[i].tags), false))
  }

  function BatchDeletions(stages: seq<Selection>): seq<CardDeletion> {
    if stages == [] then [] else BatchDeletions(stages[..|stages| - 1]) + StageDeletions(stages[|stages| - 1])
  }

  /** The service marks a print as going as a whole when all its copies are named. */
  ghost function Marked(prints: Prints, inputs: seq<CardDeletion>): (r: seq<CardDeletion>)
    ensures |r| == |inputs|
    ensures forall i :: 0 <= i < |r| ==> r[i].id == inputs[i].id && r[i].deletion == inputs[i].deletion
    ensures forall i :: 0 <= i < |r| ==> r[i].whole == NamesAll(prints, inputs, inputs[i].id)
  {
    seq(|inputs|, i requires 0 <= i < |inputs| => inputs[i].(whole := NamesAll(prints, inputs, inputs[i].id)))
  }

  ghost predicate NamesAll(prints: Prints, inputs: seq<CardDeletion>, id: PrintId) {
    id in prints && Sum(DeletionsOf(inputs, id), DELETED) == prints[id].quantity
  }

  ghost predicate NamesDrawn(prints: Prints, catalog: seq<TagId>, c: CardDeletion) {
    && c.id in prints && c.deletion.count > 0 && NoRepeats(c.deletion.tagIds)
    && NamesOne(StageCards(prints[c.id], catalog, c.deletion.stage), Take(c.deletion.count, Some(c.deletion.tagIds)))
  }

  predicate SameDeleted(c: CardDeletion, d: CardDeletion) {
    c.id == d.id && c.deletion.stage == d.deletion.stage && SameCard(c.deletion.tagIds, d.deletion.tagIds)
  }

  /** Every deletion names a drawn card, and no card is named twice. */
  ghost predicate NamesDrawnCards(prints: Prints, catalog: seq<TagId>, inputs: seq<CardDeletion>) {
    && (forall i :: 0 <= i < |inputs| ==> NamesDrawn(prints, catalog, inputs[i]))
    && (forall i, j :: 0 <= i < j < |inputs| ==> !SameDeleted(inputs[i], inputs[j]))
  }

  lemma {:induction false} StageNames(prints: Prints, catalog: seq<TagId>, sel: Selection)
    requires SoundBoard(prints, catalog) && GoodStage(prints, catalog, sel)
    ensures NamesDrawnCards(prints, catalog, StageDeletions(sel))
  {
    var cs, r := StageCards(prints[sel.id], catalog, sel.stage), StageDeletions(sel);
    StageTagsRead(prints[sel.id], catalog, sel.stage);
    DrawSplits(Qty(prints[sel.id], sel.stage), StageTags(prints[sel.id], catalog, sel.stage));
    forall i | 0 <= i < |r| ensures NamesDrawn(prints, catalog, r[i]) {
      assert sel.cards[i] in cs;
      var k :| 0 <= k < |cs| && cs[k] == sel.cards[i];
      assert SameCard(cs[k].tags, r[i].deletion.tagIds);
    }
    forall i, j | 0 <= i < j < |r| ensures !SameDeleted(r[i], r[j]) {
      assert !SameCard(sel.cards[i].tags, sel.cards[j].tags);
    }
  }

  ghost predicate OfSomeStage(stages: seq<Selection>, c: CardDeletion) {
    exists k :: 0 <= k < |stages| && stages[k].id == c.id && stages[k].stage == c.deletion.stage
  }

  lemma {:induction false} BothName(
      prints: Prints, catalog: seq<TagId>, before: seq<CardDeletion>, more: seq<CardDeletion>)
    requires NamesDrawnCards(prints, catalog, before) && NamesDrawnCards(prints, catalog, more)
    requires forall i, j :: 0 <= i < |before| && 0 <= j < |more| ==> !SameDeleted(before[i], more[j])
    ensures NamesDrawnCards(prints, catalog, before + more)
  {
    var all := before + more;
    forall i | 0 <= i < |all| ensures all[i] == if i < |before| then before[i] else more[i - |before|] {}
  }

  lemma {:induction false} BatchOfStages(stages: seq<Selection>)
    ensures forall i :: 0 <= i < |BatchDeletions(stages)| ==> OfSomeStage(stages, BatchDeletions(stages)[i])
    decreases |stages|
  {
    if stages != [] {
      var front, last := stages[..|stages| - 1], stages[|stages| - 1];
      BatchOfStages(front);
      var before, more, all := BatchDeletions(front), StageDeletions(last), BatchDeletions(stages);
      forall i | 0 <= i < |all| ensures OfSomeStage(stages, all[i]) {
        if i < |before| {
          assert OfSomeStage(front, before[i]);
          var k :| 0 <= k < |front| && front[k].id == all[i].id && front[k].stage == all[i].deletion.stage;
          assert stages[k] == front[k];
        } else {
          assert all[i] == more[i - |before|];
          assert stages[|stages| - 1].id == all[i].id;
        }
      }
    }
  }

  lemma {:induction false} BatchNames(prints: Prints, catalog: seq<TagId>, stages: seq<Selection>)
    requires SoundBoard(prints, catalog) && GoodStages(prints, catalog, stages)
    ensures NamesDrawnCards(prints, catalog, BatchDeletions(stages))
    decreases |stages|
  {
    if stages != [] {
      var front, last := stages[..|stages| - 1], stages[|stages| - 1];
      forall k | 0 <= k < |front| ensures front[k] == stages[k] {}
      BatchNames(prints, catalog, front);
      assert GoodStage(prints, catalog, stages[|stages| - 1]);
      StageNames(prints, catalog, last);
      var before, more := BatchDeletions(front), StageDeletions(last);
      BatchOfStages(front);
      forall i, j | 0 <= i < |before| && 0 <= j < |more| ensures !SameDeleted(before[i], more[j]) {
        assert OfSomeStage(front, before[i]);
        var k :| 0 <= k < |front| && front[k].id == before[i].id && front[k].stage == before[i].deletion.stage;
        assert stages[k].id != last.id || stages[k].stage != last.stage;
      }
      BothName(prints, catalog, before, more);
    }
  }

  /** The deletion of all of a selected card's copies. */
  ghost predicate DeletesCard(sel: Selection, i: nat, c: CardDeletion)
    requires i < |sel.cards|
  {
    c == CardDeletion(sel.id, Deletion(sel.stage, sel.cards[i].count, sel.cards[i].tags), false)
  }

  ghost predicate ForSomeCard(stages: seq<Selection>, c: CardDeletion) {
    exists k, i :: 0 <= k < |stages| && 0 <= i < |stages[k].cards| && DeletesCard(stages[k], i, c)
  }

  ghost const CARDS: Selection -> nat := (sel: Selection) => |sel.cards|

  /** The batch holds a deletion of every selected card, whole, and no other: one for each. */
  lemma {:induction false} EveryCardDeleted(stages: seq<Selection>)
    ensures forall c :: c in BatchDeletions(stages) <==> ForSomeCard(stages, c)
    ensures |BatchDeletions(stages)| == Sum(stages, CARDS)
    decreases |stages|
  {
    if stages != [] {
      var front, last := stages[..|stages| - 1], stages[|stages| - 1];
      EveryCardDeleted(front);
      assert stages == front + [last];
      SumAppend(front, last, CARDS);
      forall c ensures c in BatchDeletions(stages) <==> ForSomeCard(stages, c) {
        LastStagesCards(stages, c);
      }
    }
  }

  lemma {:induction false} LastStagesCards(stages: seq<Selection>, c: CardDeletion)
    requires stages != []
    ensures var front, last := stages[..|stages| - 1], stages[|stages| - 1];
      ForSomeCard(stages, c) <==> ForSomeCard(front, c) || c in StageDeletions(last)
  {
    var front, last := stages[..|stages| - 1], stages[|stages| - 1];
    if ForSomeCard(front, c) {
      var k, i :| 0 <= k < |front| && 0 <= i < |front[k].cards| && DeletesCard(front[k], i, c);
      assert DeletesCard(stages[k], i, c);
    }
    if c in StageDeletions(last) {
      var i :| 0 <= i < |last.cards| && StageDeletions(last)[i] == c;
      assert DeletesCard(stages[|stages| - 1], i, c);
    }
    if ForSomeCard(stages, c) {
      var k, i :| 0 <= k < |stages| && 0 <= i < |stages[k].cards| && DeletesCard(stages[k], i, c);
      if k < |front| {
        assert DeletesCard(front[k], i, c);
      } else {
        assert StageDeletions(last)[i] == c;
      }
    }
  }

  // ---------------------------------------------------------------------------------------------
  // One print's deletions
  // ---------------------------------------------------------------------------------------------

  predicate Separate(d: Deletion, e: Deletion) {
    d.stage != e.stage || !SameCard(d.tagIds, e.tagIds)
  }

  ghost predicate AllSeparate(ds: seq<Deletion>) {
    forall i, j :: 0 <= i < j < |ds| ==> Separate(ds[i], ds[j])
  }

  ghost predicate DrawnCard(p: Print, catalog: seq<TagId>, d: Deletion) {
    NamesOne(StageCards(p, catalog, d.stage), Take(d.count, Some(d.tagIds)))
  }

  ghost predicate CardsApart(p: Print, catalog: seq<TagId>, ds: seq<Deletion>) {
    (forall i :: 0 <= i < |ds| ==> DrawnCard(p, catalog, ds[i])) && AllSeparate(ds)
  }

  lemma {:induction false} SeparateHead(d: Deletion, ds: seq<Deletion>)
    requires AllSeparate(ds) && forall j :: 0 <= j < |ds| ==> Separate(d, ds[j])
    ensures AllSeparate([d] + ds)
  {
    var all := [d] + ds;
    forall i, j | 0 <= i < j < |all| ensures Separate(all[i], all[j]) {
      assert all[j] == ds[j - 1];
      assert i > 0 ==> all[i] == ds[i - 1];
    }
  }

  ghost predicate Among(inputs: seq<CardDeletion>, id: PrintId, d: Deletion) {
    exists k :: 0 <= k < |inputs| && inputs[k].id == id && inputs[k].deletion == d
  }

  lemma {:induction false} DeletionsAmong(inputs: seq<CardDeletion>, id: PrintId)
    ensures forall i :: 0 <= i < |DeletionsOf(inputs, id)| ==> Among(inputs, id, DeletionsOf(inputs, id)[i])
    decreases |inputs|
  {
    if inputs != [] {
      var rest, all := inputs[1..], DeletionsOf(inputs, id);
      DeletionsAmong(rest, id);
      forall d | Among(rest, id, d) ensures Among(inputs, id, d) {
        var k :| 0 <= k < |rest| && rest[k].id == id && rest[k].deletion == d;
        assert inputs[k + 1] == rest[k];
      }
      forall i | 0 <= i < |all| ensures Among(inputs, id, all[i]) {
        if inputs[0].id == id && i == 0 {
          assert inputs[0].deletion == all[0];
        } else {
          var ds := DeletionsOf(rest, id);
          assert all[i] == if inputs[0].id == id then ds[i - 1] else ds[i];
        }
      }
    }
  }

  lemma {:induction false} DeletionsSeparate(inputs: seq<CardDeletion>, id: PrintId)
    requires forall i, j :: 0 <= i < j < |inputs| ==> !SameDeleted(inputs[i], inputs[j])
    ensures AllSeparate(DeletionsOf(inputs, id))
    decreases |inputs|
  {
    if inputs != [] {
      var rest := inputs[1..];
      forall i, j | 0 <= i < j < |rest| ensures !SameDeleted(rest[i], rest[j]) {
        assert !SameDeleted(inputs[i + 1], inputs[j + 1]);
      }
      DeletionsSeparate(rest, id);
      if inputs[0].id == id {
        var ds := DeletionsOf(rest, id);
        DeletionsAmong(rest, id);
        forall j | 0 <= j < |ds| ensures Separate(inputs[0].deletion, ds[j]) {
          assert Among(rest, id, ds[j]);
          var k :| 0 <= k < |rest| && rest[k].id == id && rest[k].deletion == ds[j];
          assert !SameDeleted(inputs[0], inputs[k + 1]);
        }
        SeparateHead(inputs[0].deletion, ds);
      }
    }
  }

  lemma {:induction false} DeletionsOfApart(prints: Prints, catalog: seq<TagId>, inputs: seq<CardDeletion>, id: PrintId)
    requires NamesDrawnCards(prints, catalog, inputs) && id in prints
    ensures CardsApart(prints[id], catalog, DeletionsOf(inputs, id))
  {
    var ds := DeletionsOf(inputs, id);
    DeletionsAmong(inputs, id);
    DeletionsSeparate(inputs, id);
    forall i | 0 <= i < |ds| ensures DrawnCard(prints[id], catalog, ds[i]) {
      assert Among(inputs, id, ds[i]);
      var k :| 0 <= k < |inputs| && inputs[k].id == id && inputs[k].deletion == ds[i];
      assert NamesDrawn(prints, catalog, inputs[k]);
    }
  }

  lemma {:induction false} InStageSeparate(ds: seq<Deletion>, s: Stage)
    requires AllSeparate(ds)
    ensures AllSeparate(InStage(ds, s))
    decreases |ds|
  {
    if ds != [] {
      var rest := ds[1..];
      forall i, j | 0 <= i < j < |rest| ensures Separate(rest[i], rest[j]) {
        assert Separate(ds[i + 1], ds[j + 1]);
      }
      InStageSeparate(rest, s);
      var mine := InStage(rest, s);
      forall j | 0 <= j < |mine| ensures Separate(ds[0], mine[j]) {
        assert mine[j] in rest;
        var k :| 0 <= k < |rest| && rest[k] == mine[j];
        assert Separate(ds[0], ds[k + 1]);
      }
      SeparateHead(ds[0], mine);
    }
  }

  lemma {:induction false} ApartHeld(p: Print, catalog: seq<TagId>, ds: seq<Deletion>, s: Stage)
    requires Sound(p, catalog) && NoRepeats(catalog) && CardsApart(p, catalog, ds)
    ensures StageHolds(p, catalog, ds, s) && Sum(InStage(ds, s), DELETED) <= Qty(p, s)
  {
    var mine := InStage(ds, s);
    var cs, takes := StageCards(p, catalog, s), DeletionTakes(mine);
    InStageSeparate(ds, s);
    StageTagsRead(p, catalog, s);
    DrawSplits(Qty(p, s), StageTags(p, catalog, s));
    forall i | 0 <= i < |takes| ensures NamesOne(cs, takes[i]) {
      assert mine[i].stage == s && mine[i] in ds;
      var k :| 0 <= k < |ds| && ds[k] == mine[i];
      assert DrawnCard(p, catalog, ds[k]);
    }
    forall i, j | 0 <= i < j < |takes| ensures !Clash(takes[i], takes[j]) {
      assert mine[i].stage == s && mine[j].stage == s && Separate(mine[i], mine[j]);
    }
    EachOnceFits(cs, takes);
    SumMatch(takes, mine, WANTED, DELETED);
  }

  lemma {:induction false} NoMoreThanAll(p: Print, catalog: seq<TagId>, ds: seq<Deletion>)
    requires Sound(p, catalog) && NoRepeats(catalog) && CardsApart(p, catalog, ds)
    ensures CardsHeld(p, catalog, ds) && Sum(ds, DELETED) <= p.quantity
  {
    forall s ensures StageHolds(p, catalog, ds, s) && Sum(InStage(ds, s), DELETED) <= Qty(p, s) {
      ApartHeld(p, catalog, ds, s);
    }
    StagesAddUp(ds);
  }

  // ---------------------------------------------------------------------------------------------
  // Never refused
  // ---------------------------------------------------------------------------------------------

  lemma {:induction false} MarkedOf(prints: Prints, inputs: seq<CardDeletion>, marked: seq<CardDeletion>, id: PrintId)
    requires |marked| == |inputs|
    requires forall i :: 0 <= i < |inputs| ==> marked[i].id == inputs[i].id && marked[i].deletion == inputs[i].deletion
    ensures DeletionsOf(marked, id) == DeletionsOf(inputs, id)
    decreases |inputs|
  {
    if inputs != [] {
      MarkedOf(prints, inputs[1..], marked[1..], id);
    }
  }

  /** Any selection of drawn cards, overlapping or not, makes a batch of deletions that is accepted. */
  lemma {:induction false} SelectionDeleted(prints: Prints, catalog: seq<TagId>, entries: seq<Selection>)
    requires SoundBoard(prints, catalog)
    requires forall n :: 0 <= n < |entries| ==> DrawnFrom(prints, catalog, entries[n])
    ensures DeleteBatch(prints, catalog, Marked(prints, BatchDeletions(Merged(entries)))).Some?
  {
    var inputs := BatchDeletions(Merged(entries));
    var marked := Marked(prints, inputs);
    MergedGood(prints, catalog, entries);
    BatchNames(prints, catalog, Merged(entries));
    forall i | 0 <= i < |marked|
      ensures FitsIn(prints, catalog, marked, marked[i].id)
      ensures marked[i].deletion.count > 0 && NoRepeats(marked[i].deletion.tagIds)
    {
      var id := inputs[i].id;
      assert NamesDrawn(prints, catalog, inputs[i]);
      DeletionsOfApart(prints, catalog, inputs, id);
      NoMoreThanAll(prints[id], catalog, DeletionsOf(inputs, id));
      MarkedOf(prints, inputs, marked, id);
      assert marked[i].whole ==> Whole(marked, id);
    }
    DeleteBatchIff(prints, catalog, marked);
  }
}
