/** Moves planned from the cards the board has drawn: selections, and whole tags. */
module BoardPlans {
  import opened Options
  import opened Sums
  import opened Cohorts
  import opened Takes
  import opened Board
  import opened BoardBatch

  function StageCards(p: Print, catalog: seq<TagId>, s: Stage): seq<Cohort> {
    Draw(Qty(p, s), StageTags(p, catalog, s))
  }

  /** The move names a card the board draws now and asks for no more copies than it has. */
  ghost predicate NamesCard(prints: Prints, catalog: seq<TagId>, m: Move) {
    && m.id in prints && m.from != m.to && m.count > 0
    && NamesOne(StageCards(prints[m.id], catalog, m.from), Take(m.count, m.tagIds))
  }

  predicate SameTarget(m: Move, n: Move) {
    m.id == n.id && m.from == n.from && Clash(Take(m.count, m.tagIds), Take(n.count, n.tagIds))
  }

  ghost predicate Apart(moves: seq<Move>) {
    forall i, j :: 0 <= i < j < |moves| ==> !SameTarget(moves[i], moves[j])
  }

  /** Every move names a drawn card, and no card is named twice. */
  ghost predicate NamesCards(prints: Prints, catalog: seq<TagId>, moves: seq<Move>) {
    (forall i :: 0 <= i < |moves| ==> NamesCard(prints, catalog, moves[i])) && Apart(moves)
  }

  lemma {:induction false} OfApart(moves: seq<Move>, id: PrintId, from: Stage)
    requires Apart(moves)
    ensures Apart(Of(moves, id, from))
    decreases |moves|
  {
    if moves != [] {
      forall i, j | 0 <= i < j < |moves[1..]| ensures !SameTarget(moves[1..][i], moves[1..][j]) {
        assert !SameTarget(moves[i + 1], moves[j + 1]);
      }
      OfApart(moves[1..], id, from);
      var rest := Of(moves[1..], id, from);
      forall j | 0 <= j < |rest| ensures !SameTarget(moves[0], rest[j]) {
        assert rest[j] in moves[1..];
        var k :| 0 <= k < |moves[1..]| && moves[1..][k] == rest[j];
        assert !SameTarget(moves[0], moves[k + 1]);
      }
      if SameSource(moves[0], id, from) {
        assert Of(moves, id, from) == [moves[0]] + rest;
      } else {
        assert Of(moves, id, from) == rest;
      }
    }
  }

  /** Moves that name drawn cards fit every stage they leave. */
  lemma {:induction false} NamedCardsFit(
      prints: Prints, catalog: seq<TagId>, moves: seq<Move>, id: PrintId, from: Stage)
    requires SoundBoard(prints, catalog) && NamesCards(prints, catalog, moves) && id in prints
    ensures StageFits(prints, catalog, moves, id, from)
  {
    var mine := Of(moves, id, from);
    var cs, takes := StageCards(prints[id], catalog, from), TakesOf(mine);
    OfApart(moves, id, from);
    StageTagsRead(prints[id], catalog, from);
    DrawSplits(Qty(prints[id], from), StageTags(prints[id], catalog, from));
    forall i | 0 <= i < |takes| ensures NamesOne(cs, takes[i]) {
      assert mine[i] in moves;
      assert NamesCard(prints, catalog, mine[i]);
    }
    forall i, j | 0 <= i < j < |takes| ensures !Clash(takes[i], takes[j]) {
      assert !SameTarget(mine[i], mine[j]);
    }
    EachOnceFits(cs, takes);
  }

  /** Plans made from drawn cards are never refused. */
  lemma {:induction false} NamedCardsAccepted(prints: Prints, catalog: seq<TagId>, moves: seq<Move>)
    requires SoundBoard(prints, catalog) && NamesCards(prints, catalog, moves) && NoTargetIsSource(moves)
    ensures MoveCards(prints, catalog, moves).Some?
  {
    forall i | 0 <= i < |moves|
      ensures moves[i].from != moves[i].to && moves[i].count > 0
      ensures StageFits(prints, catalog, moves, moves[i].id, moves[i].from)
    {
      assert NamesCard(prints, catalog, moves[i]);
      NamedCardsFit(prints, catalog, moves, moves[i].id, moves[i].from);
    }
    MoveCardsIffFits(prints, catalog, moves);
  }

  // ---------------------------------------------------------------------------------------------
  // Selected cards
  // ---------------------------------------------------------------------------------------------

  /** Cards of one print in one stage, as one selection entry covers them. */
  datatype Selection = Selection(id: PrintId, stage: Stage, cards: seq<Cohort>)

  ghost predicate DrawnFrom(prints: Prints, catalog: seq<TagId>, sel: Selection) {
    sel.id in prints && forall i :: 0 <= i < |sel.cards| ==>
      sel.cards[i] in StageCards(prints[sel.id], catalog, sel.stage)
  }

  function FindStage(stages: seq<Selection>, id: PrintId, s: Stage): (r: Option<nat>)
    ensures r.Some? ==> r.value < |stages| && stages[r.value].id == id && stages[r.value].stage == s
    ensures r.None? ==> forall k :: 0 <= k < |stages| ==> stages[k].id != id || stages[k].stage != s
  {
    if stages == [] then None
    else
      var earlier := FindStage(stages[..|stages| - 1], id, s);
      if earlier.Some? then earlier
      else if stages[|stages| - 1].id == id && stages[|stages| - 1].stage == s then Some(|stages| - 1)
      else None
  }

  /** `Map.set` under the card's key: a card met again keeps its place. */
  function PutCard(cards: seq<Cohort>, c: Cohort): seq<Cohort> {
    match FindCard(cards, c.tags)
    case None => cards + [c]
    case Some(k) => cards[k := c]
  }

  function PutCards(cards: seq<Cohort>, more: seq<Cohort>): seq<Cohort> {
    if more == [] then cards else PutCard(PutCards(cards, more[..|more| - 1]), more[|more| - 1])
  }

  function AddEntry(stages: seq<Selection>, entry: Selection): seq<Selection> {
    match FindStage(stages, entry.id, entry.stage)
    case None => stages + [Selection(entry.id, entry.stage, PutCards([], entry.cards))]
    case Some(k) => stages[k := Selection(entry.id, entry.stage, PutCards(stages[k].cards, entry.cards))]
  }

  /** Overlapping entries merged, so that every selected card counts once. */
  function Merged(entries: seq<Selection>): seq<Selection> {
    if entries == [] then [] else AddEntry(Merged(entries[..|entries| - 1]), entries[|entries| - 1])
  }

  method SelectedCohorts(entries: seq<Selection>) returns (stages: seq<Selection>)
    ensures stages == Merged(entries)
  {
    stages := [];
    for n := 0 to |entries|
      invariant stages == Merged(entries[..n])
    {
      var entry := entries[n];
      assert entries[..n + 1][..n] == entries[..n];
      var found := FindStage(stages, entry.id, entry.stage);
      ghost var start := if found.Some? then stages[found.value].cards else [];
      var cards := if found.Some? then stages[found.value].cards else [];
      for m := 0 to |entry.cards|
        invariant cards == PutCards(start, entry.cards[..m])
      {
        assert entry.cards[..m + 1][..m] == entry.cards[..m];
        cards := PutCard(cards, entry.cards[m]);
      }
      assert entry.cards[..|entry.cards|] == entry.cards;
      var merged := Selection(entry.id, entry.stage, cards);
      stages := if found.None? then stages + [merged] else stages[found.value := merged];
    }
    assert entries[..|entries|] == entries;
  }

  /** The cards of a merged stage: all drawn on the board, none twice. */
  ghost predicate GoodStage(prints: Prints, catalog: seq<TagId>, sel: Selection) {
    DrawnFrom(prints, catalog, sel) && DistinctCards(sel.cards)
  }

  ghost predicate GoodStages(prints: Prints, catalog: seq<TagId>, stages: seq<Selection>) {
    && (forall k :: 0 <= k < |stages| ==> GoodStage(prints, catalog, stages[k]))
    && (forall k, l :: 0 <= k < l < |stages| ==> stages[k].id != stages[l].id || stages[k].stage != stages[l].stage)
  }

  lemma {:induction false} PutCardsGood(prints: Prints, catalog: seq<TagId>, sel: Selection, more: seq<Cohort>)
    requires GoodStage(prints, catalog, sel) && DrawnFrom(prints, catalog, Selection(sel.id, sel.stage, more))
    ensures GoodStage(prints, catalog, Selection(sel.id, sel.stage, PutCards(sel.cards, more)))
    decreases |more|
  {
    if more != [] {
      var front, c := more[..|more| - 1], more[|more| - 1];
      var drawn := Selection(sel.id, sel.stage, more);
      assert drawn.cards[|more| - 1] in StageCards(prints[sel.id], catalog, sel.stage);
      forall i | 0 <= i < |front| ensures front[i] in StageCards(prints[sel.id], catalog, sel.stage) {
        assert drawn.cards[i] == front[i];
      }
      PutCardsGood(prints, catalog, sel, front);
      PutCardGood(prints, catalog, Selection(sel.id, sel.stage, PutCards(sel.cards, front)), c);
    }
  }

  lemma {:induction false} PutCardGood(prints: Prints, catalog: seq<TagId>, sel: Selection, c: Cohort)
    requires GoodStage(prints, catalog, sel) && c in StageCards(prints[sel.id], catalog, sel.stage)
    ensures GoodStage(prints, catalog, Selection(sel.id, sel.stage, PutCard(sel.cards, c)))
  {
    var found := FindCard(sel.cards, c.tags);
    var cards := PutCard(sel.cards, c);
    forall i, j | 0 <= i < |cards| && 0 <= j < |cards| && i != j ensures !SameCard(cards[i].tags, cards[j].tags) {
      if found.Some? {
        assert !SameCard(sel.cards[i].tags, sel.cards[j].tags);
      }
    }
  }

  lemma {:induction false} MergedGood(prints: Prints, catalog: seq<TagId>, entries: seq<Selection>)
    requires forall n :: 0 <= n < |entries| ==> DrawnFrom(prints, catalog, entries[n])
    ensures GoodStages(prints, catalog, Merged(entries))
    decreases |entries|
  {
    if entries != [] {
      var front, entry := entries[..|entries| - 1], entries[|entries| - 1];
      MergedGood(prints, catalog, front);
      assert DrawnFrom(prints, catalog, entries[|entries| - 1]);
      var stages := Merged(front);
      var found := FindStage(stages, entry.id, entry.stage);
      if found.Some? {
        PutCardsGood(prints, catalog, stages[found.value], entry.cards);
      } else {
        PutCardsGood(prints, catalog, Selection(entry.id, entry.stage, []), entry.cards);
      }
    }
  }

  /** The card is in the merged stages, under its own print and stage. */
  ghost predicate Kept(stages: seq<Selection>, id: PrintId, s: Stage, tags: seq<TagId>) {
    exists k :: 0 <= k < |stages| && stages[k].id == id && stages[k].stage == s && HasCard(stages[k].cards, tags)
  }

  lemma {:induction false} PutCardsKeeps(cards: seq<Cohort>, more: seq<Cohort>, tags: seq<TagId>)
    requires HasCard(cards, tags) || HasCard(more, tags)
    ensures HasCard(PutCards(cards, more), tags)
    decreases |more|
  {
    if more != [] {
      var front, c := more[..|more| - 1], more[|more| - 1];
      var before, after := PutCards(cards, front), PutCards(cards, more);
      var found := FindCard(before, c.tags);
      var place := if found.Some? then found.value else |before|;
      assert after[place] == c;
      if HasCard(cards, tags) || HasCard(front, tags) {
        PutCardsKeeps(cards, front, tags);
        var k :| 0 <= k < |before| && SameCard(before[k].tags, tags);
        assert SameCard(after[k].tags, tags);
      } else {
        assert SameCard(after[place].tags, tags);
      }
    }
  }

  /** Merging drops no selected card. */
  lemma {:induction false} MergedKeeps(entries: seq<Selection>, n: nat, tags: seq<TagId>)
    requires n < |entries| && HasCard(entries[n].cards, tags)
    ensures Kept(Merged(entries), entries[n].id, entries[n].stage, tags)
    decreases |entries|
  {
    var front, entry := entries[..|entries| - 1], entries[|entries| - 1];
    var before, after := Merged(front), Merged(entries);
    var found := FindStage(before, entry.id, entry.stage);
    if n < |front| {
      MergedKeeps(front, n, tags);
      var k :| 0 <= k < |before| && before[k].id == entries[n].id && before[k].stage == entries[n].stage
        && HasCard(before[k].cards, tags);
      if found == Some(k) {
        PutCardsKeeps(before[k].cards, entry.cards, tags);
      }
      assert after[k].id == entries[n].id && after[k].stage == entries[n].stage && HasCard(after[k].cards, tags);
    } else {
      var k := if found.Some? then found.value else |before|;
      PutCardsKeeps(if found.Some? then before[k].cards else [], entry.cards, tags);
      assert after[k].id == entry.id && after[k].stage == entry.stage && HasCard(after[k].cards, tags);
    }
  }

  // ---------------------------------------------------------------------------------------------
  // Moves for selected cards
  // ---------------------------------------------------------------------------------------------

  /** The copies of a card that go, and what is left to choose afterwards. */
  function Share(count: nat, remaining: Option<nat>): nat {
    if remaining.None? then count else Min(count, remaining.value)
  }

  function Rest(count: nat, remaining: Option<nat>): Option<nat> {
    if remaining.None? then None else Some(remaining.value - Share(count, remaining))
  }

  /** One move per card in `order`, until the chosen number of copies is reached; no number chosen means all. */
  function CardMoves(sel: Selection, order: seq<nat>, to: Stage, remaining: Option<nat>, now: int): seq<Move>
    requires Within(order, |sel.cards|)
    decreases |order|
  {
    if order == [] then []
    else
      var card := sel.cards[order[0]];
      var moved, left := Share(card.count, remaining), Rest(card.count, remaining);
      (if moved > 0 then [Move(sel.id, sel.stage, to, moved, Some(card.tags), now)] else [])
      + CardMoves(sel, order[1..], to, left, now)
  }

  function Chosen(id: PrintId, counts: map<PrintId, nat>): Option<nat> {
    if id in counts then Some(counts[id]) else None
  }

  function StageMoves(sel: Selection, to: Stage, counts: map<PrintId, nat>, now: int): seq<Move> {
    CardMoves(sel, WholeOrder(sel.cards), to, Chosen(sel.id, counts), now)
  }

  function AllMoves(stages: seq<Selection>, to: Stage, counts: map<PrintId, nat>, now: int): seq<Move> {
    if stages == [] then []
    else AllMoves(stages[..|stages| - 1], to, counts, now) + StageMoves(stages[|stages| - 1], to, counts, now)
  }

  method BatchMoves(entries: seq<Selection>, to: Stage, counts: map<PrintId, nat>, now: int) returns (moves: seq<Move>)
    ensures moves == AllMoves(Merged(entries), to, counts, now)
  {
    var stages := SelectedCohorts(entries);
    moves := [];
    for k := 0 to |stages|
      invariant moves == AllMoves(stages[..k], to, counts, now)
    {
      assert stages[..k + 1][..k] == stages[..k];
      moves := moves + StageMoves(stages[k], to, counts, now);
    }
    assert stages[..|stages|] == stages;
  }

  /** The move takes copies of one of the cards in `order`. */
  ghost predicate OfCard(sel: Selection, order: seq<nat>, to: Stage, m: Move)
    requires Within(order, |sel.cards|)
  {
    && m.id == sel.id && m.from == sel.stage && m.to == to && m.count > 0
    && exists n ::
      0 <= n < |order| && m.tagIds == Some(sel.cards[order[n]].tags) && m.count <= sel.cards[order[n]].count
  }

  lemma {:induction false} OfCardLater(sel: Selection, order: seq<nat>, to: Stage, m: Move)
    requires Within(order, |sel.cards|) && order != [] && OfCard(sel, order[1..], to, m)
    ensures OfCard(sel, order, to, m)
  {
    var rest := order[1..];
    var n :| 0 <= n < |rest| && m.tagIds == Some(sel.cards[rest[n]].tags) && m.count <= sel.cards[rest[n]].count;
    assert rest[n] == order[n + 1];
  }

  lemma {:induction false} CardMovesFrom(sel: Selection, order: seq<nat>, to: Stage, remaining: Option<nat>, now: int)
    requires DistinctCards(sel.cards) && Positions(sel.cards, order)
    ensures forall m :: m in CardMoves(sel, order, to, remaining, now) ==> OfCard(sel, order, to, m)
    ensures Apart(CardMoves(sel, order, to, remaining, now))
    decreases |order|
  {
    if order != [] {
      var card, rest := sel.cards[order[0]], order[1..];
      var moved, left := Share(card.count, remaining), Rest(card.count, remaining);
      CardMovesFrom(sel, rest, to, left, now);
      var more := CardMoves(sel, rest, to, left, now);
      forall m | m in more ensures OfCard(sel, order, to, m) {
        OfCardLater(sel, order, to, m);
      }
      if moved > 0 {
        var m := Move(sel.id, sel.stage, to, moved, Some(card.tags), now);
        assert OfCard(sel, order, to, m);
        forall i | 0 <= i < |more| ensures !SameTarget(m, more[i]) {
          assert OfCard(sel, rest, to, more[i]);
          var n :| 0 <= n < |rest| && more[i].tagIds == Some(sel.cards[rest[n]].tags);
          assert rest[n] == order[n + 1];
        }
        assert CardMoves(sel, order, to, remaining, now) == [m] + more;
      } else {
        assert CardMoves(sel, order, to, remaining, now) == more;
      }
    }
  }

  lemma {:induction false} CardMovesName(
      prints: Prints, catalog: seq<TagId>, sel: Selection, order: seq<nat>, to: Stage, remaining: Option<nat>, now: int)
    requires GoodStage(prints, catalog, sel) && Positions(sel.cards, order) && sel.stage != to
    ensures var moves := CardMoves(sel, order, to, remaining, now);
      && NamesCards(prints, catalog, moves)
      && (forall i :: 0 <= i < |moves| ==> moves[i].id == sel.id && moves[i].from == sel.stage && moves[i].to == to)
  {
    CardMovesFrom(sel, order, to, remaining, now);
    var moves := CardMoves(sel, order, to, remaining, now);
    var cs := StageCards(prints[sel.id], catalog, sel.stage);
    forall i | 0 <= i < |moves| ensures NamesCard(prints, catalog, moves[i]) && OfCard(sel, order, to, moves[i]) {
      var m := moves[i];
      assert m in moves;
      var n :| 0 <= n < |order| && m.tagIds == Some(sel.cards[order[n]].tags) && m.count <= sel.cards[order[n]].count;
      var k :| 0 <= k < |cs| && cs[k] == sel.cards[order[n]];
      assert SameCard(cs[k].tags, Take(m.count, m.tagIds).tagIds.value);
    }
  }

  ghost predicate OfStage(stages: seq<Selection>, to: Stage, m: Move) {
    m.to == to && exists k :: 0 <= k < |stages| && m.id == stages[k].id && m.from == stages[k].stage
  }

  lemma {:induction false} StagesApart(stages: seq<Selection>, to: Stage, m: Move, n: Move)
    requires stages != [] && OfStage(stages[..|stages| - 1], to, m)
    requires n.id == stages[|stages| - 1].id && n.from == stages[|stages| - 1].stage
    requires forall k, l :: 0 <= k < l < |stages| ==> stages[k].id != stages[l].id || stages[k].stage != stages[l].stage
    ensures !SameTarget(m, n) && OfStage(stages, to, m)
  {
    var front := stages[..|stages| - 1];
    var k :| 0 <= k < |front| && m.id == front[k].id && m.from == front[k].stage;
    assert stages[k] == front[k];
  }

  lemma {:induction false} AllMovesName(
      prints: Prints, catalog: seq<TagId>, stages: seq<Selection>, to: Stage, counts: map<PrintId, nat>, now: int)
    requires GoodStages(prints, catalog, stages) && forall k :: 0 <= k < |stages| ==> stages[k].stage != to
    ensures NamesCards(prints, catalog, AllMoves(stages, to, counts, now))
    ensures forall m :: m in AllMoves(stages, to, counts, now) ==> OfStage(stages, to, m)
    decreases |stages|
  {
    if stages != [] {
      var front, last := stages[..|stages| - 1], stages[|stages| - 1];
      assert GoodStage(prints, catalog, stages[|stages| - 1]) && stages[|stages| - 1].stage != to;
      forall k | 0 <= k < |front| ensures front[k] == stages[k] {}
      AllMovesName(prints, catalog, front, to, counts, now);
      CardMovesName(prints, catalog, last, WholeOrder(last.cards), to, Chosen(last.id, counts), now);
      var before, more := AllMoves(front, to, counts, now), StageMoves(last, to, counts, now);
      forall i, j | 0 <= i < |before| && 0 <= j < |more| ensures !SameTarget(before[i], more[j]) {
        assert OfStage(front, to, before[i]);
        StagesApart(stages, to, before[i], more[j]);
      }
      NamesBoth(prints, catalog, before, more);
      forall m | m in before + more ensures OfStage(stages, to, m) {
        if m in before {
          StagesApart(stages, to, m, Move(last.id, last.stage, to, 0, None, now));
        } else {
          var j :| 0 <= j < |more| && more[j] == m;
          assert m.id == stages[|stages| - 1].id && m.from == stages[|stages| - 1].stage;
        }
      }
    }
  }

  lemma {:induction false} NamesBoth(prints: Prints, catalog: seq<TagId>, before: seq<Move>, more: seq<Move>)
    requires NamesCards(prints, catalog, before) && NamesCards(prints, catalog, more)
    requires forall i, j :: 0 <= i < |before| && 0 <= j < |more| ==> !SameTarget(before[i], more[j])
    ensures NamesCards(prints, catalog, before + more)
  {
    var all := before + more;
    forall i | 0 <= i < |all| ensures NamesCard(prints, catalog, all[i]) {
      assert all[i] == if i < |before| then before[i] else more[i - |before|];
    }
  }

  /** Any selection of drawn cards, overlapping or not, makes a batch that is accepted. */
  lemma {:induction false} SelectionAccepted(
      prints: Prints, catalog: seq<TagId>, entries: seq<Selection>, to: Stage, counts: map<PrintId, nat>, now: int)
    requires SoundBoard(prints, catalog)
    requires forall n :: 0 <= n < |entries| ==> DrawnFrom(prints, catalog, entries[n]) && entries[n].stage != to
    ensures MoveCards(prints, catalog, AllMoves(Merged(entries), to, counts, now)).Some?
  {
    MergedGood(prints, catalog, entries);
    MergedStages(entries, to);
    AllMovesName(prints, catalog, Merged(entries), to, counts, now);
    var moves := AllMoves(Merged(entries), to, counts, now);
    forall i | 0 <= i < |moves| ensures moves[i].from != to && moves[i].to == to {
      assert NamesCard(prints, catalog, moves[i]);
      assert moves[i] in moves;
      assert OfStage(Merged(entries), to, moves[i]);
    }
    NamedCardsAccepted(prints, catalog, moves);
  }

  lemma {:induction false} MergedStages(entries: seq<Selection>, to: Stage)
    requires forall n :: 0 <= n < |entries| ==> entries[n].stage != to
    ensures forall k :: 0 <= k < |Merged(entries)| ==> Merged(entries)[k].stage != to
    decreases |entries|
  {
    if entries != [] {
      MergedStages(entries[..|entries| - 1], to);
    }
  }

  /** The chosen number of copies is moved, or all of them when the cards hold fewer or no number was chosen. */
  lemma {:induction false} CardMovesAmount(sel: Selection, order: seq<nat>, to: Stage, remaining: Option<nat>, now: int)
    requires Within(order, |sel.cards|)
    ensures Sum(TakesOf(CardMoves(sel, order, to, remaining, now)), WANTED)
         == Share(Held(sel.cards, order), remaining)
    decreases |order|
  {
    if order != [] {
      var card := sel.cards[order[0]];
      var moved, left := Share(card.count, remaining), Rest(card.count, remaining);
      CardMovesAmount(sel, order[1..], to, left, now);
      var more := CardMoves(sel, order[1..], to, left, now);
      if moved > 0 {
        FirstMoveAmount(Move(sel.id, sel.stage, to, moved, Some(card.tags), now), more);
      } else {
        assert CardMoves(sel, order, to, remaining, now) == more;
      }
    }
  }

  lemma {:induction false} FirstMoveAmount(m: Move, more: seq<Move>)
    ensures Sum(TakesOf([m] + more), WANTED) == m.count + Sum(TakesOf(more), WANTED)
  {
    assert TakesOf([m] + more) == [Take(m.count, m.tagIds)] + TakesOf(more);
    SumPrepend(Take(m.count, m.tagIds), TakesOf(more), WANTED);
  }

  lemma {:induction false} StageMovesAmount(sel: Selection, to: Stage, counts: map<PrintId, nat>, now: int)
    ensures Sum(TakesOf(StageMoves(sel, to, counts, now)), WANTED)
         == if sel.id in counts then Min(counts[sel.id], Total(sel.cards)) else Total(sel.cards)
  {
    CardMovesAmount(sel, WholeOrder(sel.cards), to, Chosen(sel.id, counts), now);
    WholeOrderHeld(sel.cards, sel.cards);
  }
}
