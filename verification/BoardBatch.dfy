/** Batches of card moves over many prints: what they keep, and exactly when they are accepted. */
module BoardBatch {
  import opened Options
  import opened Sums
  import opened Cohorts
  import opened Takes
  import opened Board

  type Prints = map<PrintId, Print>

  predicate SameSource(m: Move, id: PrintId, from: Stage) {
    m.id == id && m.from == from
  }

  function Of(moves: seq<Move>, id: PrintId, from: Stage): (r: seq<Move>)
    ensures |r| <= |moves|
    ensures forall i :: 0 <= i < |r| ==> SameSource(r[i], id, from) && r[i] in moves
  {
    if moves == [] then []
    else (if SameSource(moves[0], id, from) then [moves[0]] else []) + Of(moves[1..], id, from)
  }

  function NotOf(moves: seq<Move>, id: PrintId, from: Stage): (r: seq<Move>)
    ensures |r| <= |moves| && (moves != [] && SameSource(moves[0], id, from) ==> |r| < |moves|)
    ensures forall i :: 0 <= i < |r| ==> !SameSource(r[i], id, from) && r[i] in moves
  {
    if moves == [] then []
    else (if SameSource(moves[0], id, from) then [] else [moves[0]]) + NotOf(moves[1..], id, from)
  }

  /** Each print and stage in turn, in order of first mention, moves the cards named for it; any refusal undoes all. */
  ghost function MoveCards(prints: Prints, catalog: seq<TagId>, moves: seq<Move>): Option<Prints>
    decreases |moves|
  {
    if moves == [] then Some(prints)
    else
      var id, from := moves[0].id, moves[0].from;
      if id !in prints then None
      else
        match MoveStage(prints[id], catalog, from, Of(moves, id, from))
        case None => None
        case Some(r) => MoveCards(prints[id := r], catalog, NotOf(moves, id, from))
  }

  ghost predicate SoundBoard(prints: Prints, catalog: seq<TagId>) {
    NoRepeats(catalog) && forall id :: id in prints ==> Sound(prints[id], catalog)
  }

  /** What `planCopyMove` checks of every move. */
  ghost predicate Checked(moves: seq<Move>) {
    forall i :: 0 <= i < |moves| ==> moves[i].from != moves[i].to && moves[i].count > 0
  }

  lemma {:induction false} PartsChecked(moves: seq<Move>, id: PrintId, from: Stage)
    requires Checked(moves)
    ensures MovesFrom(Of(moves, id, from), from) && Checked(Of(moves, id, from)) && Checked(NotOf(moves, id, from))
  {
    forall m | m in moves ensures m.from != m.to && m.count > 0 {
      var i :| 0 <= i < |moves| && moves[i] == m;
    }
  }

  /**
   * Copies and tags are only moved about: no print gains or loses a copy, and no tag gains or loses a copy of a print.
   */
  ghost predicate SameTotals(before: Prints, after: Prints) {
    && after.Keys == before.Keys
    && forall id :: id in before ==> SameTotal(before[id], after[id])
  }

  ghost predicate SameTotal(before: Print, after: Print) {
    after.quantity == before.quantity && forall t :: TagTotal(after, t) == TagTotal(before, t)
  }

  lemma {:induction false} TotalsChain(a: Prints, b: Prints, c: Prints)
    requires SameTotals(a, b) && SameTotals(b, c)
    ensures SameTotals(a, c)
  {
    forall id | id in a ensures SameTotal(a[id], c[id]) {
      assert SameTotal(a[id], b[id]) && SameTotal(b[id], c[id]);
    }
  }

  lemma {:induction false} OneStageKeeps(
      prints: Prints, catalog: seq<TagId>, id: PrintId, from: Stage, moves: seq<Move>)
    requires SoundBoard(prints, catalog) && MovesFrom(moves, from)
    requires id in prints && MoveStage(prints[id], catalog, from, moves).Some?
    ensures var mid := prints[id := MoveStage(prints[id], catalog, from, moves).value];
      SoundBoard(mid, catalog) && SameTotals(prints, mid)
  {
    MoveStageKeeps(prints[id], catalog, from, moves);
    var r := MoveStage(prints[id], catalog, from, moves).value;
    assert SameTotal(prints[id], r);
    forall other | other in prints && other != id ensures SameTotal(prints[other], prints[id := r][other]) {}
  }

  /** An accepted batch keeps every print's invariant and all totals. */
  lemma {:induction false} MoveCardsKeeps(prints: Prints, catalog: seq<TagId>, moves: seq<Move>)
    requires SoundBoard(prints, catalog) && Checked(moves) && MoveCards(prints, catalog, moves).Some?
    ensures SoundBoard(MoveCards(prints, catalog, moves).value, catalog)
    ensures SameTotals(prints, MoveCards(prints, catalog, moves).value)
    decreases |moves|
  {
    if moves != [] {
      var id, from := moves[0].id, moves[0].from;
      PartsChecked(moves, id, from);
      OneStageKeeps(prints, catalog, id, from, Of(moves, id, from));
      var mid := prints[id := MoveStage(prints[id], catalog, from, Of(moves, id, from)).value];
      MoveCardsKeeps(mid, catalog, NotOf(moves, id, from));
      TotalsChain(prints, mid, MoveCards(prints, catalog, moves).value);
    }
  }

  // ---------------------------------------------------------------------------------------------
  // Exactly when a batch is accepted
  // ---------------------------------------------------------------------------------------------

  /** No stage is both left and entered by the batch's moves of one print. */
  ghost predicate NoTargetIsSource(moves: seq<Move>) {
    forall i, j :: 0 <= i < |moves| && 0 <= j < |moves| && moves[i].id == moves[j].id ==> moves[i].to != moves[j].from
  }

  ghost predicate StageFits(prints: Prints, catalog: seq<TagId>, moves: seq<Move>, id: PrintId, from: Stage) {
    && id in prints
    && Fits(Draw(Qty(prints[id], from), StageTags(prints[id], catalog, from)), TakesOf(Of(moves, id, from)))
  }

  ghost predicate AllFit(prints: Prints, catalog: seq<TagId>, moves: seq<Move>) {
    forall i :: 0 <= i < |moves| ==> StageFits(prints, catalog, moves, moves[i].id, moves[i].from)
  }

  lemma {:induction false} OfNotOf(moves: seq<Move>, id: PrintId, from: Stage, id': PrintId, from': Stage)
    requires id' != id || from' != from
    ensures Of(NotOf(moves, id, from), id', from') == Of(moves, id', from')
    decreases |moves|
  {
    if moves != [] {
      OfNotOf(moves[1..], id, from, id', from');
      if !SameSource(moves[0], id, from) {
        assert NotOf(moves, id, from)[1..] == NotOf(moves[1..], id, from);
      } else {
        assert NotOf(moves, id, from) == NotOf(moves[1..], id, from);
      }
    }
  }

  lemma {:induction false} OfConcat(a: seq<Move>, b: seq<Move>, id: PrintId, from: Stage)
    ensures Of(a + b, id, from) == Of(a, id, from) + Of(b, id, from)
    decreases |a|
  {
    if a == [] {
      assert a + b == b;
    } else {
      assert (a + b)[1..] == a[1..] + b;
      OfConcat(a[1..], b, id, from);
    }
  }

  lemma {:induction false} NotOfConcat(a: seq<Move>, b: seq<Move>, id: PrintId, from: Stage)
    ensures NotOf(a + b, id, from) == NotOf(a, id, from) + NotOf(b, id, from)
    decreases |a|
  {
    if a == [] {
      assert a + b == b;
    } else {
      assert (a + b)[1..] == a[1..] + b;
      NotOfConcat(a[1..], b, id, from);
    }
  }

  /** Parting a batch keeps the order of the moves: each in its turn goes to its own part. */
  lemma {:induction false} PartsKeepOrder(a: seq<Move>, m: Move, b: seq<Move>, id: PrintId, from: Stage)
    ensures var mine := m.id == id && m.from == from;
      && Of(a + [m] + b, id, from) == Of(a, id, from) + (if mine then [m] else []) + Of(b, id, from)
      && NotOf(a + [m] + b, id, from) == NotOf(a, id, from) + (if mine then [] else [m]) + NotOf(b, id, from)
  {
    OfConcat(a + [m], b, id, from);
    OfConcat(a, [m], id, from);
    NotOfConcat(a + [m], b, id, from);
    NotOfConcat(a, [m], id, from);
    OneMoveParted(m, id, from);
  }

  lemma {:induction false} OneMoveParted(m: Move, id: PrintId, from: Stage)
    ensures Of([m], id, from) == if m.id == id && m.from == from then [m] else []
    ensures NotOf([m], id, from) == if m.id == id && m.from == from then [] else [m]
  {
    assert [m][1..] == [];
  }

  lemma {:induction false} Partition(moves: seq<Move>, id: PrintId, from: Stage, m: Move)
    ensures m in moves <==> m in Of(moves, id, from) || m in NotOf(moves, id, from)
    decreases |moves|
  {
    if moves != [] {
      Partition(moves[1..], id, from, m);
      assert moves == [moves[0]] + moves[1..];
    }
  }

  /** A stage reads the same when its counts are the same. */
  lemma {:induction false} StageTagsFrame(p: Print, r: Print, catalog: seq<TagId>, s: Stage)
    requires forall slot :: slot in p.tags ==> p.tags[slot] > 0
    requires forall slot :: slot in r.tags ==> r.tags[slot] > 0
    requires forall t :: TagQty(r, s, t) == TagQty(p, s, t)
    ensures StageTags(r, catalog, s) == StageTags(p, catalog, s)
    decreases |catalog|
  {
    if catalog != [] {
      StageTagsFrame(p, r, catalog[..|catalog| - 1], s);
      var id := catalog[|catalog| - 1];
      assert TagQty(r, s, id) == TagQty(p, s, id);
      assert Slot(s, id) in p.tags ==> p.tags[Slot(s, id)] > 0;
      assert Slot(s, id) in r.tags ==> r.tags[Slot(s, id)] > 0;
    }
  }

  /** A step leaves every stage it neither empties nor fills as it was. */
  lemma {:induction false} OtherStagesKept(p: Print, catalog: seq<TagId>, from: Stage, moves: seq<Move>, s: Stage)
    requires Sound(p, catalog) && NoRepeats(catalog) && MovesFrom(moves, from)
    requires MoveStage(p, catalog, from, moves).Some?
    requires s != from && forall i :: 0 <= i < |moves| ==> moves[i].to != s
    ensures var r := MoveStage(p, catalog, from, moves).value;
      Qty(r, s) == Qty(p, s) && StageTags(r, catalog, s) == StageTags(p, catalog, s)
  {
    MoveStageMoves(p, catalog, from, moves);
    var r, steps := MoveStage(p, catalog, from, moves).value, PlannedSteps(p, catalog, from, moves);
    SumZero(steps, Into(s));
    forall t ensures TagQty(r, s, t) == TagQty(p, s, t) {
      SumZero(steps, TagInto(s, t));
      assert TagQty(r, s, t) + (if s == from then Sum(steps, TagTaken(t)) else 0) ==
        TagQty(p, s, t) + Sum(steps, TagInto(s, t));
    }
    StageTagsFrame(p, r, catalog, s);
  }

  lemma {:induction false} FitsKept(prints: Prints, catalog: seq<TagId>, moves: seq<Move>, m: Move)
    requires SoundBoard(prints, catalog) && Checked(moves) && NoTargetIsSource(moves)
    requires moves != [] && moves[0].id in prints
    requires MoveStage(prints[moves[0].id], catalog, moves[0].from, Of(moves, moves[0].id, moves[0].from)).Some?
    requires m in NotOf(moves, moves[0].id, moves[0].from)
    ensures var id, from := moves[0].id, moves[0].from;
      var after := prints[id := MoveStage(prints[id], catalog, from, Of(moves, id, from)).value];
      StageFits(after, catalog, NotOf(moves, id, from), m.id, m.from) <==>
        StageFits(prints, catalog, moves, m.id, m.from)
  {
    var id, from := moves[0].id, moves[0].from;
    var mine := Of(moves, id, from);
    var r := MoveStage(prints[id], catalog, from, mine).value;
    RestElsewhere(moves, id, from, m);
    OfNotOf(moves, id, from, m.id, m.from);
    if m.id == id {
      PartsChecked(moves, id, from);
      MineApart(moves, id, from, m);
      OtherStagesKept(prints[id], catalog, from, mine, m.from);
    }
  }

  lemma {:induction false} RestElsewhere(moves: seq<Move>, id: PrintId, from: Stage, m: Move)
    requires m in NotOf(moves, id, from)
    ensures m.id != id || m.from != from
  {
    var rest := NotOf(moves, id, from);
    var i :| 0 <= i < |rest| && rest[i] == m;
    assert !SameSource(rest[i], id, from);
  }

  lemma {:induction false} MineApart(moves: seq<Move>, id: PrintId, from: Stage, m: Move)
    requires NoTargetIsSource(moves) && m in NotOf(moves, id, from) && m.id == id
    ensures forall i :: 0 <= i < |Of(moves, id, from)| ==> Of(moves, id, from)[i].to != m.from
  {
    var mine := Of(moves, id, from);
    Partition(moves, id, from, m);
    var j :| 0 <= j < |moves| && moves[j] == m;
    forall i | 0 <= i < |mine| ensures mine[i].to != m.from {
      var k :| 0 <= k < |moves| && moves[k] == mine[i];
      assert moves[k].to != moves[j].from;
    }
  }

  lemma {:induction false} RestApart(moves: seq<Move>, id: PrintId, from: Stage)
    requires NoTargetIsSource(moves)
    ensures NoTargetIsSource(NotOf(moves, id, from))
  {
    var rest := NotOf(moves, id, from);
    forall i, j | 0 <= i < |rest| && 0 <= j < |rest| && rest[i].id == rest[j].id ensures rest[i].to != rest[j].from {
      var k :| 0 <= k < |moves| && moves[k] == rest[i];
      var l :| 0 <= l < |moves| && moves[l] == rest[j];
      assert moves[k].to != moves[l].from;
    }
  }

  /** A batch is accepted exactly when every stage it names holds the cards and copies named for it. */
  lemma {:induction false} MoveCardsIffFits(prints: Prints, catalog: seq<TagId>, moves: seq<Move>)
    requires SoundBoard(prints, catalog) && Checked(moves) && NoTargetIsSource(moves)
    ensures MoveCards(prints, catalog, moves).Some? <==> AllFit(prints, catalog, moves)
    decreases |moves|
  {
    if moves != [] {
      var id, from := moves[0].id, moves[0].from;
      var mine, rest := Of(moves, id, from), NotOf(moves, id, from);
      if id in prints {
        PartsChecked(moves, id, from);
        MoveStageMoves(prints[id], catalog, from, mine);
        assert StageFits(prints, catalog, moves, id, from) <==> MoveStage(prints[id], catalog, from, mine).Some?;
        if MoveStage(prints[id], catalog, from, mine).Some? {
          OneStageKeeps(prints, catalog, id, from, mine);
          RestApart(moves, id, from);
          MoveCardsIffFits(prints[id := MoveStage(prints[id], catalog, from, mine).value], catalog, rest);
          RestFits(prints, catalog, moves);
        }
      }
    }
  }

  lemma {:induction false} RestFits(prints: Prints, catalog: seq<TagId>, moves: seq<Move>)
    requires SoundBoard(prints, catalog) && Checked(moves) && NoTargetIsSource(moves)
    requires moves != [] && moves[0].id in prints
    requires MoveStage(prints[moves[0].id], catalog, moves[0].from, Of(moves, moves[0].id, moves[0].from)).Some?
    requires StageFits(prints, catalog, moves, moves[0].id, moves[0].from)
    ensures var id, from := moves[0].id, moves[0].from;
      var after := prints[id := MoveStage(prints[id], catalog, from, Of(moves, id, from)).value];
      AllFit(after, catalog, NotOf(moves, id, from)) <==> AllFit(prints, catalog, moves)
  {
    var id, from := moves[0].id, moves[0].from;
    var after := prints[id := MoveStage(prints[id], catalog, from, Of(moves, id, from)).value];
    var rest := NotOf(moves, id, from);
    if AllFit(after, catalog, rest) {
      forall i | 0 <= i < |moves| ensures StageFits(prints, catalog, moves, moves[i].id, moves[i].from) {
        if !SameSource(moves[i], id, from) {
          Partition(moves, id, from, moves[i]);
          FitsKept(prints, catalog, moves, moves[i]);
          var j :| 0 <= j < |rest| && rest[j] == moves[i];
          assert StageFits(after, catalog, rest, rest[j].id, rest[j].from);
        }
      }
    }
    if AllFit(prints, catalog, moves) {
      forall j | 0 <= j < |rest| ensures StageFits(after, catalog, rest, rest[j].id, rest[j].from) {
        FitsKept(prints, catalog, moves, rest[j]);
        var i :| 0 <= i < |moves| && moves[i] == rest[j];
        assert StageFits(prints, catalog, moves, moves[i].id, moves[i].from);
      }
    }
  }

  /** The board after the cards of one print's stage have moved; as it was when they cannot. */
  ghost function StageMoved(prints: Prints, catalog: seq<TagId>, moves: seq<Move>, id: PrintId, from: Stage): Prints {
    if StageFits(prints, catalog, moves, id, from) && MoveStage(prints[id], catalog, from, Of(moves, id, from)).Some?
    then prints[id := MoveStage(prints[id], catalog, from, Of(moves, id, from)).value]
    else prints
  }

  /** Every stage named holds its cards once the stages named before it have moved theirs, into it as well. */
  ghost predicate FitInTurn(prints: Prints, catalog: seq<TagId>, moves: seq<Move>)
    decreases |moves|
  {
    moves != [] ==>
      && StageFits(prints, catalog, moves, moves[0].id, moves[0].from)
      && FitInTurn(StageMoved(prints, catalog, moves, moves[0].id, moves[0].from), catalog,
          NotOf(moves, moves[0].id, moves[0].from))
  }

  /**
   * Any batch, also one that enters stages it leaves, is accepted exactly when every stage holds its cards in its turn.
   */
  lemma {:induction false} MoveCardsIffFitInTurn(prints: Prints, catalog: seq<TagId>, moves: seq<Move>)
    requires SoundBoard(prints, catalog) && Checked(moves)
    ensures MoveCards(prints, catalog, moves).Some? <==> FitInTurn(prints, catalog, moves)
    decreases |moves|
  {
    if moves != [] && moves[0].id in prints {
      var id, from := moves[0].id, moves[0].from;
      var mine := Of(moves, id, from);
      PartsChecked(moves, id, from);
      MoveStageMoves(prints[id], catalog, from, mine);
      if MoveStage(prints[id], catalog, from, mine).Some? {
        MoveStageKeeps(prints[id], catalog, from, mine);
        MoveCardsIffFitInTurn(prints[id := MoveStage(prints[id], catalog, from, mine).value], catalog,
          NotOf(moves, id, from));
      }
    }
  }
}
