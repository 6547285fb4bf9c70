/** Moving a tag: every card carrying it leaves the stage, with all the tags those cards carry. */
module BoardGroups {
  import opened Options
  import opened Sums
  import opened Cohorts
  import opened Takes
  import opened Board
  import opened BoardBatch
  import opened BoardPlans
  import opened BoardRefinement

  /** A print with the number of its copies that carry the tag, as the caller read it. */
  datatype Tagged = Tagged(id: PrintId, count: nat)

  function TagMoves(cs: seq<Cohort>, tag: TagId, id: PrintId, from: Stage, to: Stage, now: int): (r: seq<Move>)
    ensures forall i :: 0 <= i < |r| ==>
        r[i].id == id && r[i].from == from && r[i].to == to && r[i].movedAt == now && r[i].tagIds.Some?
  {
    if cs == [] then []
    else
      var c := cs[|cs| - 1];
      TagMoves(cs[..|cs| - 1], tag, id, from, to, now)
      + if tag in c.tags then [Move(id, from, to, c.count, Some(c.tags), now)] else []
  }

  function GroupMoves(
      prints: Prints, catalog: seq<TagId>, tag: TagId, from: Stage, to: Stage, inputs: seq<Tagged>,
      now: int): Option<seq<Move>> {
    if inputs == [] then Some([])
    else
      var input := inputs[|inputs| - 1];
      match GroupMoves(prints, catalog, tag, from, to, inputs[..|inputs| - 1], now)
      case None => None
      case Some(moves) =>
        if || input.id !in prints || Slot(from, tag) !in prints[input.id].tags
           || prints[input.id].tags[Slot(from, tag)] != input.count
        then None
        else Some(moves + TagMoves(StageCards(prints[input.id], catalog, from), tag, input.id, from, to, now))
  }

  ghost function MoveGroup(
      prints: Prints, catalog: seq<TagId>, tag: TagId, from: Stage, to: Stage, inputs: seq<Tagged>,
      now: int): Option<Prints> {
    match GroupMoves(prints, catalog, tag, from, to, inputs, now)
    case None => None
    case Some(moves) => MoveCards(prints, catalog, moves)
  }

  /** The inputs name each print once, with the count the tag has there now. */
  ghost predicate Current(prints: Prints, tag: TagId, from: Stage, inputs: seq<Tagged>) {
    && (forall i :: 0 <= i < |inputs| ==>
         inputs[i].id in prints && Slot(from, tag) in prints[inputs[i].id].tags
           && prints[inputs[i].id].tags[Slot(from, tag)] == inputs[i].count)
    && (forall i, j :: 0 <= i < j < |inputs| ==> inputs[i].id != inputs[j].id)
  }

  lemma {:induction false} TagMovesCarry(cs: seq<Cohort>, tag: TagId, id: PrintId, from: Stage, to: Stage, now: int)
    ensures Sum(TagMoves(cs, tag, id, from, to, now), LeavesBearing(from, tag)) == CopiesWith(cs, tag)
    decreases |cs|
  {
    if cs != [] {
      var front, c := cs[..|cs| - 1], cs[|cs| - 1];
      TagMovesCarry(front, tag, id, from, to, now);
      var before := TagMoves(front, tag, id, from, to, now);
      if tag in c.tags {
        SumAppend(before, Move(id, from, to, c.count, Some(c.tags), now), LeavesBearing(from, tag));
      } else {
        assert TagMoves(cs, tag, id, from, to, now) == before;
      }
    }
  }

  lemma {:induction false} AllBear(moves: seq<Move>, from: Stage, tag: TagId)
    requires forall i :: 0 <= i < |moves| ==> moves[i].from == from
    ensures Sum(moves, Bears(tag)) == Sum(moves, LeavesBearing(from, tag))
  {
    SumMatch(moves, moves, Bears(tag), LeavesBearing(from, tag));
  }

  /** The moves for one print name some of its cards, each once. */
  ghost predicate NamesSome(cs: seq<Cohort>, moves: seq<Move>) {
    && (forall i :: 0 <= i < |moves| ==>
          && moves[i].count > 0 && moves[i].tagIds.Some?
          && NoRepeats(moves[i].tagIds.value) && NamesOne(cs, Take(moves[i].count, moves[i].tagIds)))
    && Apart(moves)
  }

  lemma {:induction false} TagMovesName(
      cs: seq<Cohort>, all: seq<Cohort>, tag: TagId, id: PrintId, from: Stage, to: Stage, now: int)
    requires Cards(all) && |cs| <= |all| && all[..|cs|] == cs
    ensures NamesSome(all, TagMoves(cs, tag, id, from, to, now))
    ensures forall i :: 0 <= i < |TagMoves(cs, tag, id, from, to, now)| ==>
              exists k :: 0 <= k < |cs| && TagMoves(cs, tag, id, from, to, now)[i].tagIds == Some(all[k].tags)
    decreases |cs|
  {
    if cs != [] {
      var last := |cs| - 1;
      var c := cs[last];
      assert all[..last] == cs[..last] && all[last] == c;
      TagMovesName(cs[..last], all, tag, id, from, to, now);
      var before := TagMoves(cs[..last], tag, id, from, to, now);
      if tag in c.tags {
        var m := Move(id, from, to, c.count, Some(c.tags), now);
        assert SameCard(all[last].tags, Take(m.count, m.tagIds).tagIds.value);
        CardsAreDistinct(all);
        forall i | 0 <= i < |before| ensures !SameTarget(before[i], m) {
          var k :| 0 <= k < last && before[i].tagIds == Some(all[k].tags);
          assert !SameCard(all[k].tags, all[last].tags);
        }
        assert TagMoves(cs, tag, id, from, to, now) == before + [m];
      } else {
        assert TagMoves(cs, tag, id, from, to, now) == before;
      }
    }
  }

  lemma {:induction false} OfPrintConcat(a: seq<Move>, b: seq<Move>, id: PrintId)
    ensures OfPrint(a + b, id) == OfPrint(a, id) + OfPrint(b, id)
    decreases |a|
  {
    if a == [] {
      assert a + b == b;
    } else {
      assert (a + b)[1..] == a[1..] + b;
      OfPrintConcat(a[1..], b, id);
    }
  }

  lemma {:induction false} OfPrintAll(moves: seq<Move>, id: PrintId, of: PrintId)
    requires forall i :: 0 <= i < |moves| ==> moves[i].id == of
    ensures OfPrint(moves, id) == if id == of then moves else []
    decreases |moves|
  {
    if moves != [] {
      OfPrintAll(moves[1..], id, of);
    }
  }

  ghost function InputMoves(
      prints: Prints, catalog: seq<TagId>, tag: TagId, from: Stage, to: Stage, id: PrintId, now: int): seq<Move>
    requires id in prints
  {
    TagMoves(StageCards(prints[id], catalog, from), tag, id, from, to, now)
  }

  ghost predicate FromInputs(inputs: seq<Tagged>, from: Stage, to: Stage, now: int, m: Move) {
    m.from == from && m.to == to && m.movedAt == now && exists i :: 0 <= i < |inputs| && inputs[i].id == m.id
  }

  lemma {:induction false} LaterInputs(inputs: seq<Tagged>, from: Stage, to: Stage, now: int, m: Move)
    requires inputs != [] && FromInputs(inputs[..|inputs| - 1], from, to, now, m)
    ensures FromInputs(inputs, from, to, now, m)
  {
    var i :| 0 <= i < |inputs| - 1 && inputs[..|inputs| - 1][i].id == m.id;
    assert inputs[i].id == m.id;
  }

  ghost predicate SentBy(inputs: seq<Tagged>, from: Stage, to: Stage, now: int, moves: seq<Move>) {
    forall i :: 0 <= i < |moves| ==>
      FromInputs(inputs, from, to, now, moves[i]) && MovesInto([moves[i]], moves[i].id, to, now)
  }

  ghost predicate ByInput(
      prints: Prints, catalog: seq<TagId>, tag: TagId, from: Stage, to: Stage, inputs: seq<Tagged>, now: int,
      moves: seq<Move>) {
    forall i :: 0 <= i < |inputs| ==> PlanOf(prints, catalog, tag, from, to, now, moves, inputs[i].id)
  }

  /** The planned moves name the tag's cards of every input, and nothing else. */
  lemma {:induction false} GroupMovesName(
      prints: Prints, catalog: seq<TagId>, tag: TagId, from: Stage, to: Stage, inputs: seq<Tagged>, now: int)
    requires SoundBoard(prints, catalog) && from != to && Current(prints, tag, from, inputs)
    ensures GroupMoves(prints, catalog, tag, from, to, inputs, now).Some?
    ensures var moves := GroupMoves(prints, catalog, tag, from, to, inputs, now).value;
      NamesCards(prints, catalog, moves) && SentBy(inputs, from, to, now, moves)
        && ByInput(prints, catalog, tag, from, to, inputs, now, moves)
    decreases |inputs|
  {
    if inputs != [] {
      var front, input := inputs[..|inputs| - 1], inputs[|inputs| - 1];
      assert inputs[|inputs| - 1].id in prints && Slot(from, tag) in prints[inputs[|inputs| - 1].id].tags;
      forall i | 0 <= i < |front| ensures front[i] == inputs[i] && inputs[i].id != inputs[|inputs| - 1].id {}
      GroupMovesName(prints, catalog, tag, from, to, front, now);
      var before := GroupMoves(prints, catalog, tag, from, to, front, now).value;
      var more := InputMoves(prints, catalog, tag, from, to, input.id, now);
      InputMovesName(prints, catalog, tag, from, to, input.id, now);
      forall i, j | 0 <= i < |before| && 0 <= j < |more| ensures !SameTarget(before[i], more[j]) {
        assert FromInputs(front, from, to, now, before[i]);
      }
      NamesBoth(prints, catalog, before, more);
      SentNext(inputs, from, to, now, before, more);
      ByInputNext(prints, catalog, tag, from, to, inputs, now, before, more);
    }
  }

  lemma {:induction false} SentNext(
      inputs: seq<Tagged>, from: Stage, to: Stage, now: int, before: seq<Move>, more: seq<Move>)
    requires inputs != [] && SentBy(inputs[..|inputs| - 1], from, to, now, before)
    requires forall i :: 0 <= i < |more| ==>
               more[i].from == from && more[i].id == inputs[|inputs| - 1].id
                 && MovesInto([more[i]], more[i].id, to, now)
    ensures SentBy(inputs, from, to, now, before + more)
  {
    var moves := before + more;
    forall i | 0 <= i < |moves|
      ensures FromInputs(inputs, from, to, now, moves[i]) && MovesInto([moves[i]], moves[i].id, to, now)
    {
      if i < |before| {
        assert FromInputs(inputs[..|inputs| - 1], from, to, now, before[i]);
        LaterInputs(inputs, from, to, now, before[i]);
      } else {
        var m := more[i - |before|];
        assert moves[i] == m && [m][0] == m && inputs[|inputs| - 1].id == m.id;
      }
    }
  }

  /** What the moves of a print are, when the print is an input. */
  ghost predicate PlanOf(
      prints: Prints, catalog: seq<TagId>, tag: TagId, from: Stage, to: Stage, now: int, moves: seq<Move>,
      id: PrintId) {
    id in prints && OfPrint(moves, id) == InputMoves(prints, catalog, tag, from, to, id, now)
  }

  lemma {:induction false} ByInputNext(
      prints: Prints, catalog: seq<TagId>, tag: TagId, from: Stage, to: Stage, inputs: seq<Tagged>, now: int,
      before: seq<Move>, more: seq<Move>)
    requires inputs != [] && inputs[|inputs| - 1].id in prints
    requires forall i :: 0 <= i < |inputs| - 1 ==> inputs[i].id != inputs[|inputs| - 1].id
    requires more == InputMoves(prints, catalog, tag, from, to, inputs[|inputs| - 1].id, now)
    requires forall i :: 0 <= i < |before| ==> FromInputs(inputs[..|inputs| - 1], from, to, now, before[i])
    requires ByInput(prints, catalog, tag, from, to, inputs[..|inputs| - 1], now, before)
    ensures ByInput(prints, catalog, tag, from, to, inputs, now, before + more)
  {
    var front, last := inputs[..|inputs| - 1], inputs[|inputs| - 1].id;
    forall i | 0 <= i < |front| ensures front[i] == inputs[i] && front[i].id != last {}
    NoneOfPrint(before, front, from, to, now, last);
    AddedPrint(before, more, last, last);
    forall i | 0 <= i < |inputs| ensures PlanOf(prints, catalog, tag, from, to, now, before + more, inputs[i].id) {
      if i < |front| {
        assert PlanOf(prints, catalog, tag, from, to, now, before, front[i].id);
        AddedPrint(before, more, last, front[i].id);
      }
    }
  }

  lemma {:induction false} AddedPrint(before: seq<Move>, more: seq<Move>, of: PrintId, id: PrintId)
    requires forall i :: 0 <= i < |more| ==> more[i].id == of
    ensures OfPrint(before + more, id) == OfPrint(before, id) + if id == of then more else []
  {
    OfPrintConcat(before, more, id);
    OfPrintAll(more, id, of);
  }

  lemma {:induction false} NoneOfPrint(
      moves: seq<Move>, inputs: seq<Tagged>, from: Stage, to: Stage, now: int, id: PrintId)
    requires forall i :: 0 <= i < |moves| ==> FromInputs(inputs, from, to, now, moves[i])
    requires forall i :: 0 <= i < |inputs| ==> inputs[i].id != id
    ensures OfPrint(moves, id) == []
  {
    forall i | 0 <= i < |moves| ensures moves[i].id != id {
      assert FromInputs(inputs, from, to, now, moves[i]);
    }
    OfPrintNone(moves, id);
  }

  lemma {:induction false} OfPrintNone(moves: seq<Move>, id: PrintId)
    requires forall i :: 0 <= i < |moves| ==> moves[i].id != id
    ensures OfPrint(moves, id) == []
    decreases |moves|
  {
    if moves != [] {
      OfPrintNone(moves[1..], id);
    }
  }

  lemma {:induction false} InputMovesName(
      prints: Prints, catalog: seq<TagId>, tag: TagId, from: Stage, to: Stage, id: PrintId, now: int)
    requires SoundBoard(prints, catalog) && from != to && id in prints
    ensures var more := InputMoves(prints, catalog, tag, from, to, id, now);
      NamesCards(prints, catalog, more) && forall i :: 0 <= i < |more| ==> MovesInto([more[i]], id, to, now)
  {
    var cs := StageCards(prints[id], catalog, from);
    var more := InputMoves(prints, catalog, tag, from, to, id, now);
    StageTagsRead(prints[id], catalog, from);
    DrawSplits(Qty(prints[id], from), StageTags(prints[id], catalog, from));
    assert cs[..|cs|] == cs;
    TagMovesName(cs, cs, tag, id, from, to, now);
    forall i | 0 <= i < |more| ensures NamesCard(prints, catalog, more[i]) && MovesInto([more[i]], id, to, now) {}
  }

  /** Moving a tag is never refused, empties the tag out of the source stage, and loses no tagged copy. */
  lemma {:induction false} MoveGroupEmptiesTag(
      prints: Prints, catalog: seq<TagId>, tag: TagId, from: Stage, to: Stage, inputs: seq<Tagged>, now: int)
    requires SoundBoard(prints, catalog) && from != to && Current(prints, tag, from, inputs)
    ensures MoveGroup(prints, catalog, tag, from, to, inputs, now).Some?
    ensures var after := MoveGroup(prints, catalog, tag, from, to, inputs, now).value;
      && SoundBoard(after, catalog) && SameTotals(prints, after)
      && forall i :: 0 <= i < |inputs| ==>
           && TagQty(after[inputs[i].id], from, tag) == 0
           && TagQty(after[inputs[i].id], to, tag) == TagQty(prints[inputs[i].id], to, tag) + inputs[i].count
  {
    GroupMovesName(prints, catalog, tag, from, to, inputs, now);
    var moves := GroupMoves(prints, catalog, tag, from, to, inputs, now).value;
    forall i | 0 <= i < |moves|
      ensures moves[i].from != moves[i].to && moves[i].count > 0 && moves[i].from == from && moves[i].to == to
    {
      assert FromInputs(inputs, from, to, now, moves[i]);
      assert NamesCard(prints, catalog, moves[i]);
    }
    NamedCardsAccepted(prints, catalog, moves);
    MoveCardsKeeps(prints, catalog, moves);
    var after := MoveCards(prints, catalog, moves).value;
    forall i | 0 <= i < |inputs|
      ensures TagQty(after[inputs[i].id], from, tag) == 0
      ensures TagQty(after[inputs[i].id], to, tag) == TagQty(prints[inputs[i].id], to, tag) + inputs[i].count
    {
      assert PlanOf(prints, catalog, tag, from, to, now, moves, inputs[i].id);
      InputEmptied(prints, catalog, tag, from, to, inputs[i], moves, now);
    }
  }

  lemma {:induction false} InputEmptied(
      prints: Prints, catalog: seq<TagId>, tag: TagId, from: Stage, to: Stage, input: Tagged, moves: seq<Move>,
      now: int)
    requires SoundBoard(prints, catalog) && from != to
    requires input.id in prints && Slot(from, tag) in prints[input.id].tags
    requires prints[input.id].tags[Slot(from, tag)] == input.count
    requires MoveCards(prints, catalog, moves).Some?
    requires OfPrint(moves, input.id) == InputMoves(prints, catalog, tag, from, to, input.id, now)
    ensures var after := MoveCards(prints, catalog, moves).value;
      && input.id in after
      && TagQty(after[input.id], from, tag) == 0
      && TagQty(after[input.id], to, tag) == TagQty(prints[input.id], to, tag) + input.count
  {
    var p, mine := prints[input.id], OfPrint(moves, input.id);
    BatchByPrint(prints, catalog, moves, input.id);
    InputMovesName(prints, catalog, tag, from, to, input.id, now);
    TogetherInto(mine, input.id, to, now);
    ServerEffect(p, catalog, input.id, mine, to, now);
    TagMovesCarry(StageCards(p, catalog, from), tag, input.id, from, to, now);
    CarriedCount(p, catalog, from, tag);
    CarriedOver(p, MovePrint(p, catalog, input.id, mine).value, mine, from, to, now, tag);
  }

  lemma {:induction false} TogetherInto(moves: seq<Move>, id: PrintId, to: Stage, now: int)
    requires forall i :: 0 <= i < |moves| ==> MovesInto([moves[i]], id, to, now)
    ensures MovesInto(moves, id, to, now)
  {
    forall i | 0 <= i < |moves|
      ensures moves[i].id == id && moves[i].to == to && moves[i].from != to && moves[i].count > 0
      ensures moves[i].movedAt == now && moves[i].tagIds.Some? && NoRepeats(moves[i].tagIds.value)
    {
      assert MovesInto([moves[i]], id, to, now);
      assert [moves[i]][0] == moves[i];
    }
  }

  lemma {:induction false} CarriedOver(
      p: Print, r: Print, mine: seq<Move>, from: Stage, to: Stage, now: int, tag: TagId)
    requires Effect(ServerView(p), ServerView(r), mine, to, now) && from != to
    requires forall i :: 0 <= i < |mine| ==> mine[i].from == from
    ensures TagQty(r, from, tag) == TagQty(p, from, tag) - Sum(mine, LeavesBearing(from, tag))
    ensures TagQty(r, to, tag) == TagQty(p, to, tag) + Sum(mine, LeavesBearing(from, tag))
  {
    AllBear(mine, from, tag);
    SumMatch(mine, mine, LeavesBearing(to, tag), (m: Move) => 0);
    SumZero(mine, (m: Move) => 0);
    var v, w := ServerView(p), ServerView(r);
    assert w.tagged(from, tag) == v.tagged(from, tag) - Sum(mine, LeavesBearing(from, tag));
    assert w.tagged(to, tag) == v.tagged(to, tag) - Sum(mine, LeavesBearing(to, tag)) + Sum(mine, Bears(tag));
  }

  /** The cards drawn for a stage carry every tag on exactly the copies its row counts. */
  lemma {:induction false} CarriedCount(p: Print, catalog: seq<TagId>, s: Stage, tag: TagId)
    requires Sound(p, catalog) && NoRepeats(catalog) && Slot(s, tag) in p.tags
    ensures CopiesWith(StageCards(p, catalog, s), tag) == p.tags[Slot(s, tag)]
  {
    var tags := StageTags(p, catalog, s);
    StageTagsRead(p, catalog, s);
    DrawSplits(Qty(p, s), tags);
    assert tag in Ids(tags);
    var n :| 0 <= n < |tags| && tags[n].id == tag;
    assert CopiesWith(Draw(Qty(p, s), tags), tags[n].id) == Min(tags[n].count, Qty(p, s));
  }

  /** Whatever the inputs, the planned moves are ones the callers' checks would pass. */
  lemma {:induction false} GroupMovesChecked(
      prints: Prints, catalog: seq<TagId>, tag: TagId, from: Stage, to: Stage, inputs: seq<Tagged>, now: int)
    requires SoundBoard(prints, catalog) && from != to && GroupMoves(prints, catalog, tag, from, to, inputs, now).Some?
    ensures Checked(GroupMoves(prints, catalog, tag, from, to, inputs, now).value)
    decreases |inputs|
  {
    if inputs != [] {
      GroupMovesChecked(prints, catalog, tag, from, to, inputs[..|inputs| - 1], now);
      InputMovesName(prints, catalog, tag, from, to, inputs[|inputs| - 1].id, now);
      var more := InputMoves(prints, catalog, tag, from, to, inputs[|inputs| - 1].id, now);
      forall i | 0 <= i < |more| ensures more[i].from != more[i].to && more[i].count > 0 {
        assert NamesCard(prints, catalog, more[i]);
      }
    }
  }

  // ---------------------------------------------------------------------------------------------
  // When a tag's move is refused
  // ---------------------------------------------------------------------------------------------

  /** The input gives the count the tag has there now. */
  predicate Counted(prints: Prints, tag: TagId, from: Stage, input: Tagged) {
    input.id in prints && Slot(from, tag) in prints[input.id].tags
      && prints[input.id].tags[Slot(from, tag)] == input.count
  }

  /** Planning is refused exactly when some input's count is not the one the tag has now. */
  lemma {:induction false} PlannedIffCounted(
      prints: Prints, catalog: seq<TagId>, tag: TagId, from: Stage, to: Stage, inputs: seq<Tagged>, now: int)
    ensures GroupMoves(prints, catalog, tag, from, to, inputs, now).Some? <==>
              forall i :: 0 <= i < |inputs| ==> Counted(prints, tag, from, inputs[i])
    decreases |inputs|
  {
    if inputs != [] {
      var last := |inputs| - 1;
      PlannedIffCounted(prints, catalog, tag, from, to, inputs[..last], now);
      assert forall i :: 0 <= i < last ==> inputs[..last][i] == inputs[i];
      assert (forall i :: 0 <= i < |inputs| ==> Counted(prints, tag, from, inputs[i])) ==>
        Counted(prints, tag, from, inputs[last]);
    }
  }

  /** The copies asked of a print with `n` copies of the tag, `n` for each time it is named. */
  ghost function Asked(inputs: seq<Tagged>, id: PrintId, n: nat): nat {
    if inputs == [] then 0 else Asked(inputs[..|inputs| - 1], id, n) + if inputs[|inputs| - 1].id == id then n else 0
  }

  lemma {:induction false} AskedTwice(inputs: seq<Tagged>, i: nat, j: nat, n: nat)
    requires i < j < |inputs| && inputs[i].id == inputs[j].id
    ensures Asked(inputs, inputs[i].id, n) >= n + n
    decreases |inputs|
  {
    var last := |inputs| - 1;
    if j < last {
      AskedTwice(inputs[..last], i, j, n);
    } else {
      AskedOnce(inputs[..last], i, n);
    }
  }

  lemma {:induction false} AskedOnce(inputs: seq<Tagged>, i: nat, n: nat)
    requires i < |inputs|
    ensures Asked(inputs, inputs[i].id, n) >= n
    decreases |inputs|
  {
    var last := |inputs| - 1;
    if i < last {
      AskedOnce(inputs[..last], i, n);
    }
  }

  /** Moves of the print out of the stage that carry the tag's copies, `times` times over. */
  ghost predicate Carries(moves: seq<Move>, id: PrintId, from: Stage, to: Stage, now: int, tag: TagId, total: nat) {
    && (forall i :: 0 <= i < |moves| ==> moves[i].from == from && MovesInto([moves[i]], id, to, now))
    && Sum(moves, LeavesBearing(from, tag)) == total
  }

  lemma {:induction false} CarriesBoth(
      before: seq<Move>, more: seq<Move>, id: PrintId, from: Stage, to: Stage, now: int, tag: TagId, m: nat, n: nat)
    requires Carries(before, id, from, to, now, tag, m) && Carries(more, id, from, to, now, tag, n)
    ensures Carries(before + more, id, from, to, now, tag, m + n)
  {
    SumConcat(before, more, LeavesBearing(from, tag));
  }

  lemma {:induction false} InputCarries(
      prints: Prints, catalog: seq<TagId>, tag: TagId, from: Stage, to: Stage, id: PrintId, now: int)
    requires SoundBoard(prints, catalog) && from != to && id in prints && Slot(from, tag) in prints[id].tags
    ensures Carries(
              InputMoves(prints, catalog, tag, from, to, id, now), id, from, to, now, tag,
              TagQty(prints[id], from, tag))
  {
    InputMovesName(prints, catalog, tag, from, to, id, now);
    TagMovesCarry(StageCards(prints[id], catalog, from), tag, id, from, to, now);
    CarriedCount(prints[id], catalog, from, tag);
  }

  lemma {:induction false} PlannedNext(
      prints: Prints, catalog: seq<TagId>, tag: TagId, from: Stage, to: Stage, inputs: seq<Tagged>, now: int,
      id: PrintId)
    requires SoundBoard(prints, catalog) && from != to && inputs != []
    requires GroupMoves(prints, catalog, tag, from, to, inputs, now).Some?
    ensures var front, input := inputs[..|inputs| - 1], inputs[|inputs| - 1];
      && Counted(prints, tag, from, input)
      && GroupMoves(prints, catalog, tag, from, to, front, now).Some?
      && OfPrint(GroupMoves(prints, catalog, tag, from, to, inputs, now).value, id) ==
        OfPrint(GroupMoves(prints, catalog, tag, from, to, front, now).value, id) +
          if id == input.id then InputMoves(prints, catalog, tag, from, to, id, now) else []
  {
    var front, input := inputs[..|inputs| - 1], inputs[|inputs| - 1];
    InputMovesName(prints, catalog, tag, from, to, input.id, now);
    AddedPrint(
      GroupMoves(prints, catalog, tag, from, to, front, now).value,
      InputMoves(prints, catalog, tag, from, to, input.id, now), input.id, id);
  }

  /** The moves of a print carry the tag's copies as often as the print is named. */
  lemma {:induction false} CarriedAsAsked(
      prints: Prints, catalog: seq<TagId>, tag: TagId, from: Stage, to: Stage, inputs: seq<Tagged>, now: int,
      id: PrintId)
    requires SoundBoard(prints, catalog) && from != to && id in prints
    requires GroupMoves(prints, catalog, tag, from, to, inputs, now).Some?
    ensures Carries(
              OfPrint(GroupMoves(prints, catalog, tag, from, to, inputs, now).value, id), id, from, to, now, tag,
              Asked(inputs, id, TagQty(prints[id], from, tag)))
    decreases |inputs|
  {
    if inputs != [] {
      var front := inputs[..|inputs| - 1];
      PlannedNext(prints, catalog, tag, from, to, inputs, now, id);
      CarriedAsAsked(prints, catalog, tag, from, to, front, now, id);
      var before := OfPrint(GroupMoves(prints, catalog, tag, from, to, front, now).value, id);
      var n := TagQty(prints[id], from, tag);
      if id == inputs[|inputs| - 1].id {
        InputCarries(prints, catalog, tag, from, to, id, now);
        CarriesBoth(
          before, InputMoves(prints, catalog, tag, from, to, id, now), id, from, to, now, tag, Asked(front, id, n), n);
      } else {
        assert before + [] == before;
      }
    }
  }

  /** A print whose tag goes had at least as many copies as were asked of it. */
  lemma {:induction false} HadWhatWasAsked(
      prints: Prints, catalog: seq<TagId>, tag: TagId, from: Stage, to: Stage, inputs: seq<Tagged>, now: int,
      id: PrintId)
    requires SoundBoard(prints, catalog) && from != to && id in prints
    requires MoveGroup(prints, catalog, tag, from, to, inputs, now).Some?
    ensures Asked(inputs, id, TagQty(prints[id], from, tag)) <= TagQty(prints[id], from, tag)
  {
    var moves := GroupMoves(prints, catalog, tag, from, to, inputs, now).value;
    CarriedAsAsked(prints, catalog, tag, from, to, inputs, now, id);
    BatchByPrint(prints, catalog, moves, id);
    var p, mine := prints[id], OfPrint(moves, id);
    TogetherInto(mine, id, to, now);
    ServerEffect(p, catalog, id, mine, to, now);
    CarriedOver(p, MovePrint(p, catalog, id, mine).value, mine, from, to, now, tag);
  }

  /** A print that is named twice would have to give its tagged copies twice, and it does not have them. */
  lemma {:induction false} NamedTwiceRefused(
      prints: Prints, catalog: seq<TagId>, tag: TagId, from: Stage, to: Stage, inputs: seq<Tagged>, now: int,
      i: nat, j: nat)
    requires SoundBoard(prints, catalog) && from != to && i < j < |inputs| && inputs[i].id == inputs[j].id
    ensures MoveGroup(prints, catalog, tag, from, to, inputs, now).None?
  {
    var id := inputs[i].id;
    PlannedIffCounted(prints, catalog, tag, from, to, inputs, now);
    if MoveGroup(prints, catalog, tag, from, to, inputs, now).Some? {
      assert Counted(prints, tag, from, inputs[i]);
      assert TagQty(prints[id], from, tag) > 0;
      AskedTwice(inputs, i, j, TagQty(prints[id], from, tag));
      HadWhatWasAsked(prints, catalog, tag, from, to, inputs, now, id);
    }
  }

  /** Moving a tag goes through exactly when every print is named once, with the count the tag has there now. */
  lemma {:induction false} MoveGroupIff(
      prints: Prints, catalog: seq<TagId>, tag: TagId, from: Stage, to: Stage, inputs: seq<Tagged>, now: int)
    requires SoundBoard(prints, catalog) && from != to
    ensures MoveGroup(prints, catalog, tag, from, to, inputs, now).Some? <==> Current(prints, tag, from, inputs)
  {
    if Current(prints, tag, from, inputs) {
      MoveGroupEmptiesTag(prints, catalog, tag, from, to, inputs, now);
    } else {
      PlannedIffCounted(prints, catalog, tag, from, to, inputs, now);
      forall i, j | 0 <= i < j < |inputs| && inputs[i].id == inputs[j].id
        ensures MoveGroup(prints, catalog, tag, from, to, inputs, now).None?
      {
        NamedTwiceRefused(prints, catalog, tag, from, to, inputs, now, i, j);
      }
      if MoveGroup(prints, catalog, tag, from, to, inputs, now).Some? {
        forall i | 0 <= i < |inputs|
          ensures inputs[i].id in prints && Slot(from, tag) in prints[inputs[i].id].tags
          ensures prints[inputs[i].id].tags[Slot(from, tag)] == inputs[i].count
        {
          assert Counted(prints, tag, from, inputs[i]);
        }
      }
    }
  }
}
