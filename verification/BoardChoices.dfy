/** Which of the selected cards' copies move when fewer are chosen than the cards have. */
module BoardChoices {
  import opened Options
  import opened Sums
  import opened Cohorts
  import opened Takes
  import opened FewestTags
  import opened Board
  import opened BoardBatch
  import opened BoardPlans

  /** The copies a move takes of the card carrying these tags. */
  ghost function OffCard(tags: seq<TagId>): Move -> nat {
    (m: Move) => if m.tagIds.Some? && SameCard(tags, m.tagIds.value) then m.count else 0
  }

  ghost function Moved(moves: seq<Move>, c: Cohort): nat {
    Sum(moves, OffCard(c.tags))
  }

  /** No card gives more than it has, and each of `order` only after those before it have gone whole. */
  ghost predicate MovedInTurn(cards: seq<Cohort>, order: seq<nat>, remaining: Option<nat>, moves: seq<Move>)
    requires Within(order, |cards|)
  {
    && (forall k :: 0 <= k < |cards| ==> Moved(moves, cards[k]) <= cards[k].count)
    && (forall k :: 0 <= k < |cards| && (k !in order || remaining == Some(0)) ==> Moved(moves, cards[k]) == 0)
    && forall m, n :: 0 <= m < n < |order| && Moved(moves, cards[order[n]]) > 0 ==>
      Moved(moves, cards[order[m]]) == cards[order[m]].count
  }

  lemma {:induction false} OneMoreMoved(
      cards: seq<Cohort>, order: seq<nat>, remaining: Option<nat>, first: seq<Move>, more: seq<Move>)
    requires DistinctCards(cards) && Positions(cards, order) && order != []
    requires var card := cards[order[0]];
      && MovedInTurn(cards, order[1..], Rest(card.count, remaining), more)
      && forall k :: 0 <= k < |cards| ==>
        Moved(first, cards[k]) == if k == order[0] then Share(card.count, remaining) else 0
    ensures MovedInTurn(cards, order, remaining, first + more)
  {
    var rest := order[1..];
    assert order[0] !in rest;
    forall k | 0 <= k < |cards|
      ensures Moved(first + more, cards[k]) == Moved(first, cards[k]) + Moved(more, cards[k])
    {
      SumConcat(first, more, OffCard(cards[k].tags));
    }
    forall k | 0 <= k < |cards| && (k !in order || remaining == Some(0)) ensures Moved(first + more, cards[k]) == 0 {
      assert k in rest ==> k in order;
    }
    forall m, n | 0 <= m < n < |order| && Moved(first + more, cards[order[n]]) > 0
      ensures Moved(first + more, cards[order[m]]) == cards[order[m]].count
    {
      assert order[n] == rest[n - 1];
      if m > 0 {
        assert order[m] == rest[m - 1];
      }
    }
  }

  lemma {:induction false} FirstMoved(cards: seq<Cohort>, k: nat, m: Move)
    requires DistinctCards(cards) && k < |cards| && m.tagIds == Some(cards[k].tags)
    ensures forall j :: 0 <= j < |cards| ==> Moved([m], cards[j]) == if j == k then m.count else 0
  {
    forall j | 0 <= j < |cards| ensures Moved([m], cards[j]) == if j == k then m.count else 0 {
      assert [m][..0] == [];
      assert Sum([m], OffCard(cards[j].tags)) == OffCard(cards[j].tags)(m);
      assert j == k <==> SameCard(cards[j].tags, cards[k].tags);
    }
  }

  lemma {:induction false} CardsMovedInTurn(
      sel: Selection, order: seq<nat>, to: Stage, remaining: Option<nat>, now: int)
    requires DistinctCards(sel.cards) && Positions(sel.cards, order)
    ensures MovedInTurn(sel.cards, order, remaining, CardMoves(sel, order, to, remaining, now))
    decreases |order|
  {
    if order != [] {
      var card, rest := sel.cards[order[0]], order[1..];
      var moved, left := Share(card.count, remaining), Rest(card.count, remaining);
      CardsMovedInTurn(sel, rest, to, left, now);
      var first := if moved > 0 then [Move(sel.id, sel.stage, to, moved, Some(card.tags), now)] else [];
      if moved > 0 {
        FirstMoved(sel.cards, order[0], first[0]);
      }
      OneMoreMoved(sel.cards, order, remaining, first, CardMoves(sel, rest, to, left, now));
    }
  }

  /** The cards as the moves leave them. */
  ghost function LeftBehind(cards: seq<Cohort>, moves: seq<Move>): seq<Cohort>
    requires forall k :: 0 <= k < |cards| ==> Moved(moves, cards[k]) <= cards[k].count
  {
    seq(|cards|, k requires 0 <= k < |cards| => Cohort(cards[k].count - Moved(moves, cards[k]), cards[k].tags))
  }

  /**
   * The moves of one stage's selected cards take no more copies of a card than it has, and copies of a card only once
   * every card with fewer tags, or with as many and selected earlier, goes whole.
   */
  lemma {:induction false} ChosenFewestFirst(sel: Selection, to: Stage, counts: map<PrintId, nat>, now: int)
    requires DistinctCards(sel.cards)
    ensures var moves := StageMoves(sel, to, counts, now);
      && (forall k :: 0 <= k < |sel.cards| ==> Moved(moves, sel.cards[k]) <= sel.cards[k].count)
      && FewestFirst(sel.cards, LeftBehind(sel.cards, moves))
  {
    var order := WholeOrder(sel.cards);
    CardsMovedInTurn(sel, order, to, Chosen(sel.id, counts), now);
    var moves := StageMoves(sel, to, counts, now);
    var left := LeftBehind(sel.cards, moves);
    forall m, n | 0 <= m < n < |order| && left[order[n]].count < sel.cards[order[n]].count
      ensures left[order[m]].count == 0
    {
      assert Moved(moves, sel.cards[order[n]]) > 0;
    }
    InTurnIsFewestFirst(sel.cards, left);
  }

  // ---------------------------------------------------------------------------------------------
  // No stage of the selection is passed over
  // ---------------------------------------------------------------------------------------------

  ghost predicate AllFrom(moves: seq<Move>, id: PrintId, s: Stage) {
    forall i :: 0 <= i < |moves| ==> moves[i].id == id && moves[i].from == s
  }

  lemma {:induction false} OfOneSource(moves: seq<Move>, id: PrintId, from: Stage, of: PrintId, at: Stage)
    requires AllFrom(moves, of, at)
    ensures Of(moves, id, from) == if id == of && from == at then moves else []
    decreases |moves|
  {
    if moves != [] {
      OfOneSource(moves[1..], id, from, of, at);
    }
  }

  lemma {:induction false} BothFrom(a: seq<Move>, b: seq<Move>, id: PrintId, s: Stage)
    requires AllFrom(a, id, s) && AllFrom(b, id, s)
    ensures AllFrom(a + b, id, s)
  {
  }

  lemma {:induction false} CardsOfOneSource(
      sel: Selection, order: seq<nat>, to: Stage, remaining: Option<nat>, now: int)
    requires Within(order, |sel.cards|)
    ensures AllFrom(CardMoves(sel, order, to, remaining, now), sel.id, sel.stage)
    decreases |order|
  {
    if order != [] {
      var card := sel.cards[order[0]];
      var moved, left := Share(card.count, remaining), Rest(card.count, remaining);
      CardsOfOneSource(sel, order[1..], to, left, now);
      var first := if moved > 0 then [Move(sel.id, sel.stage, to, moved, Some(card.tags), now)] else [];
      BothFrom(first, CardMoves(sel, order[1..], to, left, now), sel.id, sel.stage);
    }
  }

  ghost predicate StagesDiffer(stages: seq<Selection>) {
    forall k, l :: 0 <= k < l < |stages| ==> stages[k].id != stages[l].id || stages[k].stage != stages[l].stage
  }

  lemma {:induction false} OfOneStage(
      sel: Selection, to: Stage, counts: map<PrintId, nat>, now: int, id: PrintId, s: Stage)
    ensures var more := StageMoves(sel, to, counts, now);
      Of(more, id, s) == if sel.id == id && sel.stage == s then more else []
  {
    CardsOfOneSource(sel, WholeOrder(sel.cards), to, Chosen(sel.id, counts), now);
    OfOneSource(StageMoves(sel, to, counts, now), id, s, sel.id, sel.stage);
  }

  /** What the selected stages move out of one stage of one print. */
  ghost function MovesOut(
      stages: seq<Selection>, to: Stage, counts: map<PrintId, nat>, now: int, id: PrintId, s: Stage): seq<Move> {
    if stages == [] then []
    else
      var last := stages[|stages| - 1];
      MovesOut(stages[..|stages| - 1], to, counts, now, id, s)
      + if last.id == id && last.stage == s then StageMoves(last, to, counts, now) else []
  }

  lemma {:induction false} MovesOfStage(
      stages: seq<Selection>, to: Stage, counts: map<PrintId, nat>, now: int, id: PrintId, s: Stage)
    ensures Of(AllMoves(stages, to, counts, now), id, s) == MovesOut(stages, to, counts, now, id, s)
    decreases |stages|
  {
    if stages != [] {
      var front, last := stages[..|stages| - 1], stages[|stages| - 1];
      MovesOfStage(front, to, counts, now, id, s);
      OfConcat(AllMoves(front, to, counts, now), StageMoves(last, to, counts, now), id, s);
      OfOneStage(last, to, counts, now, id, s);
    }
  }

  ghost predicate NotSelected(stages: seq<Selection>, id: PrintId, s: Stage) {
    forall k :: 0 <= k < |stages| ==> stages[k].id != id || stages[k].stage != s
  }

  lemma {:induction false} NoneOut(
      stages: seq<Selection>, to: Stage, counts: map<PrintId, nat>, now: int, id: PrintId, s: Stage)
    requires NotSelected(stages, id, s)
    ensures MovesOut(stages, to, counts, now, id, s) == []
    decreases |stages|
  {
    if stages != [] {
      NoneOut(stages[..|stages| - 1], to, counts, now, id, s);
    }
  }

  lemma {:induction false} OneStageOut(
      stages: seq<Selection>, to: Stage, counts: map<PrintId, nat>, now: int, k: nat)
    requires StagesDiffer(stages) && k < |stages|
    ensures MovesOut(stages, to, counts, now, stages[k].id, stages[k].stage) == StageMoves(stages[k], to, counts, now)
    decreases |stages|
  {
    var front, id, s := stages[..|stages| - 1], stages[k].id, stages[k].stage;
    if k < |front| {
      assert front[k] == stages[k];
      OneStageOut(front, to, counts, now, k);
    } else {
      NoneOut(front, to, counts, now, id, s);
    }
  }

  lemma {:induction false} MergedDiffer(entries: seq<Selection>)
    ensures StagesDiffer(Merged(entries))
    decreases |entries|
  {
    if entries != [] {
      MergedDiffer(entries[..|entries| - 1]);
    }
  }

  /** The batch moves, out of every selected stage, just the copies chosen there, and none out of other stages. */
  lemma {:induction false} EveryStageMoves(entries: seq<Selection>, to: Stage, counts: map<PrintId, nat>, now: int)
    ensures var stages, moves := Merged(entries), AllMoves(Merged(entries), to, counts, now);
      && (forall k :: 0 <= k < |stages| ==>
            Of(moves, stages[k].id, stages[k].stage) == StageMoves(stages[k], to, counts, now))
      && forall id, s :: NotSelected(stages, id, s) ==> Of(moves, id, s) == []
  {
    var stages := Merged(entries);
    MergedDiffer(entries);
    forall id, s | NotSelected(stages, id, s)
      ensures Of(AllMoves(stages, to, counts, now), id, s) == []
    {
      MovesOfStage(stages, to, counts, now, id, s);
      NoneOut(stages, to, counts, now, id, s);
    }
    forall k | 0 <= k < |stages|
      ensures Of(AllMoves(stages, to, counts, now), stages[k].id, stages[k].stage) ==
          StageMoves(stages[k], to, counts, now)
    {
      MovesOfStage(stages, to, counts, now, stages[k].id, stages[k].stage);
      OneStageOut(stages, to, counts, now, k);
    }
  }
}
