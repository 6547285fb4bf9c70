/** The client folds a batch's moves one by one, the server plans all moves out of a stage at once: both end alike. */
module BoardRefinement {
  import opened Options
  import opened Sums
  import opened Cohorts
  import opened Takes
  import opened Board
  import opened BoardBatch

  /** What the board shows of a print, wherever it is kept. */
  datatype View = View(counts: Stage -> int, orders: Stage -> Option<int>, tagged: (Stage, TagId) -> int,
    completedAt: Option<int>)

  ghost function Order(p: Print, s: Stage): Option<int> {
    if s in p.stages then p.stages[s].order else None
  }

  ghost function CompletedAt(p: Print): Option<int> {
    if Done in p.stages then p.stages[Done].completedAt else None
  }

  ghost function ServerView(p: Print): View {
    View((s: Stage) => Qty(p, s), (s: Stage) => Order(p, s), (s: Stage, t: TagId) => TagQty(p, s, t), CompletedAt(p))
  }

  // ---------------------------------------------------------------------------------------------
  // The effect of a list of moves into one stage
  // ---------------------------------------------------------------------------------------------

  ghost const MOVED: Move -> nat := (m: Move) => m.count

  ghost function Leaves(s: Stage): Move -> nat {
    (m: Move) => if m.from == s then m.count else 0
  }

  ghost function Bears(t: TagId): Move -> nat {
    (m: Move) => if m.tagIds.Some? && t in m.tagIds.value then m.count else 0
  }

  ghost function LeavesBearing(s: Stage, t: TagId): Move -> nat {
    (m: Move) => if m.from == s && m.tagIds.Some? && t in m.tagIds.value then m.count else 0
  }

  /** Exact-card moves of one print into `to`, as the board sends them. */
  ghost predicate MovesInto(moves: seq<Move>, id: PrintId, to: Stage, now: int) {
    forall i :: 0 <= i < |moves| ==>
      && moves[i].id == id && moves[i].to == to && moves[i].from != to && moves[i].count > 0
      && moves[i].movedAt == now && moves[i].tagIds.Some? && NoRepeats(moves[i].tagIds.value)
  }

  ghost predicate CountsMoved(v: View, w: View, moves: seq<Move>, to: Stage) {
    forall s :: w.counts(s) == v.counts(s) - Sum(moves, Leaves(s)) + if s == to then Sum(moves, MOVED) else 0
  }

  ghost predicate OrdersMoved(v: View, w: View, moves: seq<Move>, to: Stage) {
    forall s :: w.orders(s) == if s == to && moves != [] && v.counts(to) == 0 then v.orders(moves[0].from)
      else v.orders(s)
  }

  ghost predicate TagsMoved(v: View, w: View, moves: seq<Move>, to: Stage) {
    forall s, t :: w.tagged(s, t) ==
      v.tagged(s, t) - Sum(moves, LeavesBearing(s, t)) + if s == to then Sum(moves, Bears(t)) else 0
  }

  ghost predicate CompletionMoved(v: View, w: View, moves: seq<Move>, to: Stage, now: int) {
    w.completedAt ==
      if moves != [] && to == Done then Some(now)
      else if Sum(moves, Leaves(Done)) > 0 && w.counts(Done) == 0 then None
      else v.completedAt
  }

  ghost predicate Effect(v: View, w: View, moves: seq<Move>, to: Stage, now: int) {
    CountsMoved(v, w, moves, to) && OrdersMoved(v, w, moves, to) && TagsMoved(v, w, moves, to)
      && CompletionMoved(v, w, moves, to, now)
  }

  ghost predicate SameView(v: View, w: View) {
    && (forall s :: v.counts(s) == w.counts(s) && v.orders(s) == w.orders(s))
    && (forall s, t :: v.tagged(s, t) == w.tagged(s, t))
    && v.completedAt == w.completedAt
  }

  ghost predicate NonNegative(v: View) {
    forall s :: v.counts(s) >= 0
  }

  /** Effects of consecutive lists compose, however the moves are interleaved, as long as the first move comes first. */
  lemma {:induction false} EffectsCompose(
      u: View, v: View, w: View, first: seq<Move>, second: seq<Move>, all: seq<Move>, to: Stage, now: int, id: PrintId)
    requires MovesInto(first, id, to, now) && MovesInto(second, id, to, now)
    requires Effect(u, v, first, to, now) && Effect(v, w, second, to, now)
    requires NonNegative(u) && NonNegative(v) && NonNegative(w)
    requires multiset(all) == multiset(first + second) && first != [] && all != [] && all[0] == first[0]
    ensures Effect(u, w, all, to, now)
  {
    SumsCompose(first, second, all);
    SumZero(first, MOVED);
    SumZero(first, Leaves(to));
    assert first[0] in first;
    assert v.counts(to) > 0 by {
      SumCovers(first, 0, MOVED);
      forall m | m in first ensures Leaves(to)(m) == 0 {
        var i :| 0 <= i < |first| && first[i] == m;
      }
    }
    forall s ensures w.counts(s) == u.counts(s) - Sum(all, Leaves(s)) + if s == to then Sum(all, MOVED) else 0 {
      assert Sum(all, Leaves(s)) == Sum(first, Leaves(s)) + Sum(second, Leaves(s));
    }
    forall s, t
      ensures w.tagged(s, t) ==
          u.tagged(s, t) - Sum(all, LeavesBearing(s, t)) + if s == to then Sum(all, Bears(t)) else 0
    {
      assert Sum(all, LeavesBearing(s, t)) == Sum(first, LeavesBearing(s, t)) + Sum(second, LeavesBearing(s, t));
    }
    assert Sum(all, Leaves(Done)) == Sum(first, Leaves(Done)) + Sum(second, Leaves(Done));
  }

  lemma {:induction false} SumsCompose(first: seq<Move>, second: seq<Move>, all: seq<Move>)
    requires multiset(all) == multiset(first + second)
    ensures Sum(all, MOVED) == Sum(first, MOVED) + Sum(second, MOVED)
    ensures forall s :: Sum(all, Leaves(s)) == Sum(first, Leaves(s)) + Sum(second, Leaves(s))
    ensures forall t :: Sum(all, Bears(t)) == Sum(first, Bears(t)) + Sum(second, Bears(t))
    ensures forall s, t ::
        Sum(all, LeavesBearing(s, t)) == Sum(first, LeavesBearing(s, t)) + Sum(second, LeavesBearing(s, t))
  {
    forall weight: Move -> nat ensures Sum(all, weight) == Sum(first, weight) + Sum(second, weight) {
      SumPermutation(all, first + second, weight);
      SumConcat(first, second, weight);
    }
  }

  // ---------------------------------------------------------------------------------------------
  // The server: all moves out of a stage at once
  // ---------------------------------------------------------------------------------------------

  ghost predicate Uniform(steps: seq<Step>, to: Stage, now: int) {
    forall i :: 0 <= i < |steps| ==> steps[i].move.to == to && steps[i].move.count > 0 && steps[i].move.movedAt == now
  }

  ghost predicate Stamped(q: Print, r: Print, from: Stage, steps: seq<Step>, to: Stage, now: int) {
    && (forall s :: Order(r, s) == if s == to && steps != [] && Qty(q, to) == 0 then Order(q, from) else Order(q, s))
    && CompletedAt(r) ==
       if steps != [] && to == Done then Some(now)
       else if steps != [] && from == Done && Qty(r, Done) == 0 then None
       else CompletedAt(q)
  }

  lemma {:induction false} MoveCopiesStamps(p: Print, m: Move)
    requires HasStages(p) && m.from != m.to && 0 < m.count <= Qty(p, m.from)
    ensures var q := MoveCopies(p, m, Qty(p, m.from)).value;
      && (forall s :: Order(q, s) == if s == m.to && Qty(p, m.to) == 0 then Order(p, m.from) else Order(p, s))
      && CompletedAt(q) ==
         if m.to == Done then Some(m.movedAt)
         else if m.from == Done && Qty(q, Done) == 0 then None
         else CompletedAt(p)
  {
    var q := MoveCopies(p, m, Qty(p, m.from)).value;
    forall s ensures Order(q, s) == if s == m.to && Qty(p, m.to) == 0 then Order(p, m.from) else Order(p, s) {
      assert s in q.stages;
    }
    assert Done in q.stages;
  }

  lemma {:induction false} StampsNext(
      q: Print, r: Print, front: seq<Step>, step: Step, from: Stage, to: Stage, now: int)
    requires HasStages(q) && HasStages(r) && Stamped(q, r, from, front, to, now)
    requires step.move.from == from && step.move.to == to && from != to && step.move.movedAt == now
    requires 0 < step.move.count <= Qty(r, from)
    requires Qty(r, to) == 0 <==> front == [] && Qty(q, to) == 0
    ensures Stamped(q, AddTaken(MoveCopies(r, step.move, Qty(r, from)).value, to, step.taken), from,
        front + [step], to, now)
  {
    MoveCopiesStamps(r, step.move);
    var moved := MoveCopies(r, step.move, Qty(r, from)).value;
    AddTakenAdds(moved, to, step.taken);
    var landed := AddTaken(moved, to, step.taken);
    assert landed.stages == moved.stages;
    assert CompletedAt(landed) == CompletedAt(moved);
    forall s ensures Order(landed, s) == if s == to && Qty(q, to) == 0 then Order(q, from) else Order(q, s) {
      assert Order(landed, s) == Order(moved, s);
      assert Order(r, from) == Order(q, from);
      assert Order(r, s) == if s == to && front != [] && Qty(q, to) == 0 then Order(q, from) else Order(q, s);
    }
  }

  /** The target takes the source's place in the order when it was empty, and completion follows the last stage. */
  lemma {:induction false} MoveEachStamps(
      q: Print, steps: seq<Step>, from: Stage, to: Stage, now: int, known: set<TagId>)
    requires HasStages(q) && KnownRows(q, known) && StepsFrom(steps, from, known) && Uniform(steps, to, now)
    requires Sum(steps, COUNT) <= Qty(q, from)
    ensures MoveEach(q, steps, Qty(q, from)).Some?
    ensures Stamped(q, MoveEach(q, steps, Qty(q, from)).value, from, steps, to, now)
    decreases |steps|
  {
    if steps != [] {
      var front, step := steps[..|steps| - 1], steps[|steps| - 1];
      forall i | 0 <= i < |front| ensures front[i] == steps[i] {}
      assert steps == front + [step] && step == steps[|steps| - 1];
      SumAppend(front, step, COUNT);
      MoveEachStamps(q, front, from, to, now, known);
      LastStamps(q, front, step, from, to, now, known);
    }
  }

  lemma {:induction false} LastStamps(
      q: Print, front: seq<Step>, step: Step, from: Stage, to: Stage, now: int, known: set<TagId>)
    requires HasStages(q) && KnownRows(q, known) && StepsFrom(front, from, known) && Uniform(front, to, now)
    requires step.move.from == from && step.move.to == to && from != to && step.move.movedAt == now
    requires step.move.count > 0
    requires Sum(front, COUNT) + step.move.count <= Qty(q, from)
    requires MoveEach(q, front, Qty(q, from)).Some?
    requires Stamped(q, MoveEach(q, front, Qty(q, from)).value, from, front, to, now)
    ensures MoveEach(q, front + [step], Qty(q, from)).Some?
    ensures Stamped(q, MoveEach(q, front + [step], Qty(q, from)).value, from, front + [step], to, now)
  {
    MoveEachLands(q, front, from, known);
    NothingIntoSource(front, from, known);
    IntoTarget(front, to, now);
    var r := MoveEach(q, front, Qty(q, from)).value;
    assert Qty(r, from) == Qty(q, from) - Sum(front, COUNT);
    MoveEachAppend(q, front, step, Qty(q, from));
    StampsNext(q, r, front, step, from, to, now);
  }

  lemma {:induction false} IntoTarget(steps: seq<Step>, to: Stage, now: int)
    requires Uniform(steps, to, now)
    ensures Sum(steps, Into(to)) == 0 <==> steps == []
    ensures forall s :: s != to ==> Sum(steps, Into(s)) == 0
    ensures Sum(steps, Into(to)) == Sum(steps, COUNT)
    ensures forall t :: Sum(steps, TagInto(to, t)) == Sum(steps, TagTaken(t))
    ensures forall s, t :: s != to ==> Sum(steps, TagInto(s, t)) == 0
  {
    SumMatch(steps, steps, Into(to), COUNT);
    forall t ensures Sum(steps, TagInto(to, t)) == Sum(steps, TagTaken(t)) {
      SumMatch(steps, steps, TagInto(to, t), TagTaken(t));
    }
    forall s | s != to ensures Sum(steps, Into(s)) == 0 {
      SumZero(steps, Into(s));
    }
    forall s, t | s != to ensures Sum(steps, TagInto(s, t)) == 0 {
      SumZero(steps, TagInto(s, t));
    }
    if steps != [] {
      SumCovers(steps, 0, Into(to));
    }
  }

  /** A planned exact-card step takes exactly its copies from exactly its tags. */
  lemma {:induction false} StepsBear(
      moves: seq<Move>, removed: seq<map<TagId, nat>>, id: PrintId, from: Stage, to: Stage, now: int, known: set<TagId>)
    requires MovesInto(moves, id, to, now) && |removed| == |moves|
    requires forall i :: 0 <= i < |moves| ==> moves[i].from == from && Entry(TakesOf(moves)[i], removed[i], known)
    ensures var steps := Steps(moves, removed);
      && Sum(steps, COUNT) == Sum(moves, MOVED) == Sum(moves, Leaves(from))
      && (forall s :: s != from ==> Sum(moves, Leaves(s)) == 0)
      && (forall t :: Sum(steps, TagTaken(t)) == Sum(moves, Bears(t)) == Sum(moves, LeavesBearing(from, t)))
      && (forall s, t :: s != from ==> Sum(moves, LeavesBearing(s, t)) == 0)
  {
    var steps := Steps(moves, removed);
    SumMatch(steps, moves, COUNT, MOVED);
    SumMatch(moves, moves, MOVED, Leaves(from));
    forall s | s != from ensures Sum(moves, Leaves(s)) == 0 {
      SumMatch(moves, moves, Leaves(s), (m: Move) => 0);
      SumZero(moves, (m: Move) => 0);
    }
    forall t ensures Sum(steps, TagTaken(t)) == Sum(moves, Bears(t)) == Sum(moves, LeavesBearing(from, t)) {
      forall i | 0 <= i < |steps| ensures TagTaken(t)(steps[i]) == Bears(t)(moves[i]) {
        assert Entry(TakesOf(moves)[i], removed[i], known);
        assert t in Elements(moves[i].tagIds.value) <==> t in moves[i].tagIds.value;
      }
      SumMatch(steps, moves, TagTaken(t), Bears(t));
      SumMatch(moves, moves, Bears(t), LeavesBearing(from, t));
    }
    forall s, t | s != from ensures Sum(moves, LeavesBearing(s, t)) == 0 {
      SumMatch(moves, moves, LeavesBearing(s, t), (m: Move) => 0);
      SumZero(moves, (m: Move) => 0);
    }
  }

  /** The server's step on one stage has the effect of its moves. */
  lemma {:induction false} MoveStageEffect(
      p: Print, catalog: seq<TagId>, moves: seq<Move>, id: PrintId, from: Stage, to: Stage, now: int)
    requires Sound(p, catalog) && NoRepeats(catalog) && MovesInto(moves, id, to, now) && moves != []
    requires forall i :: 0 <= i < |moves| ==> moves[i].from == from
    requires MoveStage(p, catalog, from, moves).Some?
    ensures Sound(MoveStage(p, catalog, from, moves).value, catalog)
    ensures Effect(ServerView(p), ServerView(MoveStage(p, catalog, from, moves).value), moves, to, now)
  {
    var r := MoveStage(p, catalog, from, moves).value;
    assert moves[0].from == from && moves[0].to == to;
    assert MovesFrom(moves, from);
    MoveStageMoves(p, catalog, from, moves);
    MoveStageKeeps(p, catalog, from, moves);
    var removed := PlanTakes(Qty(p, from), StageTags(p, catalog, from), TakesOf(moves)).value;
    PlannedEffect(p, catalog, r, moves, removed, id, from, to, now);
  }

  lemma {:induction false} PlannedEffect(
      p: Print, catalog: seq<TagId>, r: Print, moves: seq<Move>, removed: seq<map<TagId, nat>>, id: PrintId,
      from: Stage, to: Stage, now: int)
    requires Sound(p, catalog) && NoRepeats(catalog) && MovesInto(moves, id, to, now) && moves != [] && HasStages(r)
    requires forall i :: 0 <= i < |moves| ==> moves[i].from == from
    requires Planned(p, catalog, from, moves, removed) && Moves(p, r, from, Steps(moves, removed))
    requires PlanTakes(Qty(p, from), StageTags(p, catalog, from), TakesOf(moves)) == Some(removed)
    requires MoveStage(p, catalog, from, moves) == Some(r)
    ensures Effect(ServerView(p), ServerView(r), moves, to, now)
  {
    var steps := Steps(moves, removed);
    assert moves[0].from == from && moves[0].to == to;
    StepsBear(moves, removed, id, from, to, now, Ids(StageTags(p, catalog, from)));
    assert Uniform(steps, to, now);
    IntoTarget(steps, to, now);
    assert CountsMoved(ServerView(p), ServerView(r), moves, to) by {
      StageCountsEffect(p, r, steps, moves, from, to);
    }
    assert TagsMoved(ServerView(p), ServerView(r), moves, to) by {
      StageTagsEffect(p, r, steps, moves, from, to);
    }
    MoveStageStamps(p, catalog, moves, from, to, now, removed);
    SumCovers(moves, 0, MOVED);
  }

  lemma {:induction false} StageCountsEffect(
      p: Print, r: Print, steps: seq<Step>, moves: seq<Move>, from: Stage, to: Stage)
    requires HasStages(p) && Moves(p, r, from, steps) && from != to
    requires Sum(steps, COUNT) == Sum(moves, MOVED) == Sum(moves, Leaves(from)) == Sum(steps, Into(to))
    requires forall s :: s != from ==> Sum(moves, Leaves(s)) == 0
    requires forall s :: s != to ==> Sum(steps, Into(s)) == 0
    ensures CountsMoved(ServerView(p), ServerView(r), moves, to)
  {
    forall s ensures Qty(r, s) == Qty(p, s) - Sum(moves, Leaves(s)) + if s == to then Sum(moves, MOVED) else 0 {
      assert Qty(r, s) + (if s == from then Sum(steps, COUNT) else 0) == Qty(p, s) + Sum(steps, Into(s));
    }
  }

  lemma {:induction false} StageTagsEffect(
      p: Print, r: Print, steps: seq<Step>, moves: seq<Move>, from: Stage, to: Stage)
    requires HasStages(p) && Moves(p, r, from, steps) && from != to
    requires forall t ::
        Sum(steps, TagTaken(t)) == Sum(moves, Bears(t)) == Sum(moves, LeavesBearing(from, t)) ==
          Sum(steps, TagInto(to, t))
    requires forall s, t :: s != from ==> Sum(moves, LeavesBearing(s, t)) == 0
    requires forall s, t :: s != to ==> Sum(steps, TagInto(s, t)) == 0
    ensures TagsMoved(ServerView(p), ServerView(r), moves, to)
  {
    forall s, t
      ensures TagQty(r, s, t) ==
          TagQty(p, s, t) - Sum(moves, LeavesBearing(s, t)) + if s == to then Sum(moves, Bears(t)) else 0
    {
      assert TagQty(r, s, t) + (if s == from then Sum(steps, TagTaken(t)) else 0) ==
        TagQty(p, s, t) + Sum(steps, TagInto(s, t));
      assert Sum(steps, TagTaken(t)) == Sum(moves, Bears(t));
    }
  }

  lemma {:induction false} MoveStageStamps(
      p: Print, catalog: seq<TagId>, moves: seq<Move>, from: Stage, to: Stage, now: int, removed: seq<map<TagId, nat>>)
    requires Sound(p, catalog) && NoRepeats(catalog) && Planned(p, catalog, from, moves, removed)
    requires PlanTakes(Qty(p, from), StageTags(p, catalog, from), TakesOf(moves)) == Some(removed)
    requires Uniform(Steps(moves, removed), to, now)
    ensures MoveStage(p, catalog, from, moves).Some?
    ensures Stamped(p, MoveStage(p, catalog, from, moves).value, from, Steps(moves, removed), to, now)
  {
    ReadyToMove(p, catalog, from, moves, removed);
    var q, steps := RemoveTagCopies(p, from, StageTags(p, catalog, from), removed).value, Steps(moves, removed);
    MoveEachStamps(q, steps, from, to, now, Elements(catalog));
    MoveStageIsMoveEach(p, catalog, moves, from, removed, q);
    StampedFrame(p, q, MoveEach(q, steps, Qty(q, from)).value, from, steps, to, now);
  }

  lemma {:induction false} MoveStageIsMoveEach(
      p: Print, catalog: seq<TagId>, moves: seq<Move>, from: Stage, removed: seq<map<TagId, nat>>, q: Print)
    requires PlanTakes(Qty(p, from), StageTags(p, catalog, from), TakesOf(moves)) == Some(removed)
    requires |removed| == |moves|
    requires RemoveTagCopies(p, from, StageTags(p, catalog, from), removed) == Some(q) && Qty(q, from) == Qty(p, from)
    ensures MoveStage(p, catalog, from, moves) == MoveEach(q, Steps(moves, removed), Qty(q, from))
  {
  }

  lemma {:induction false} StampedFrame(
      p: Print, q: Print, r: Print, from: Stage, steps: seq<Step>, to: Stage, now: int)
    requires p.stages == q.stages && Stamped(q, r, from, steps, to, now)
    ensures Stamped(p, r, from, steps, to, now)
  {
    forall s ensures Order(p, s) == Order(q, s) && Qty(p, s) == Qty(q, s) {}
  }

  // ---------------------------------------------------------------------------------------------
  // The server: one print's share of a batch
  // ---------------------------------------------------------------------------------------------

  ghost predicate AllOf(moves: seq<Move>, id: PrintId) {
    forall i :: 0 <= i < |moves| ==> moves[i].id == id
  }

  function OfPrint(moves: seq<Move>, id: PrintId): (r: seq<Move>)
    ensures forall i :: 0 <= i < |r| ==> r[i].id == id && r[i] in moves
  {
    if moves == [] then []
    else (if moves[0].id == id then [moves[0]] else []) + OfPrint(moves[1..], id)
  }

  /** What a batch does to the one print all its moves name. */
  ghost function MovePrint(p: Print, catalog: seq<TagId>, id: PrintId, moves: seq<Move>): Option<Print>
    requires AllOf(moves, id)
    decreases |moves|
  {
    if moves == [] then Some(p)
    else
      var from := moves[0].from;
      match MoveStage(p, catalog, from, Of(moves, id, from))
      case None => None
      case Some(r) => MovePrint(r, catalog, id, NotOf(moves, id, from))
  }

  lemma {:induction false} PrintOfStage(moves: seq<Move>, id: PrintId, from: Stage)
    ensures Of(OfPrint(moves, id), id, from) == Of(moves, id, from)
    ensures NotOf(OfPrint(moves, id), id, from) == OfPrint(NotOf(moves, id, from), id)
    decreases |moves|
  {
    if moves != [] {
      PrintOfStage(moves[1..], id, from);
      var rest := OfPrint(moves[1..], id);
      if moves[0].id == id {
        assert OfPrint(moves, id)[1..] == rest;
      } else {
        assert OfPrint(moves, id) == rest;
      }
      if !SameSource(moves[0], id, from) {
        assert NotOf(moves, id, from)[1..] == NotOf(moves[1..], id, from);
      } else {
        assert NotOf(moves, id, from) == NotOf(moves[1..], id, from);
      }
    }
  }

  lemma {:induction false} OtherPrintKept(moves: seq<Move>, id: PrintId, from: Stage, other: PrintId)
    requires other != id
    ensures OfPrint(NotOf(moves, id, from), other) == OfPrint(moves, other)
    decreases |moves|
  {
    if moves != [] {
      OtherPrintKept(moves[1..], id, from, other);
      if !SameSource(moves[0], id, from) {
        assert NotOf(moves, id, from)[1..] == NotOf(moves[1..], id, from);
      } else {
        assert NotOf(moves, id, from) == NotOf(moves[1..], id, from);
      }
    }
  }

  /** A batch treats every print by its own moves alone. */
  lemma {:induction false} BatchByPrint(prints: Prints, catalog: seq<TagId>, moves: seq<Move>, id: PrintId)
    requires MoveCards(prints, catalog, moves).Some? && id in prints
    ensures id in MoveCards(prints, catalog, moves).value
    ensures MovePrint(prints[id], catalog, id, OfPrint(moves, id)) == Some(MoveCards(prints, catalog, moves).value[id])
    decreases |moves|
  {
    if moves != [] {
      var first, from := moves[0].id, moves[0].from;
      var r := MoveStage(prints[first], catalog, from, Of(moves, first, from)).value;
      BatchByPrint(prints[first := r], catalog, NotOf(moves, first, from), id);
      if id == first {
        PrintOfStage(moves, id, from);
        assert OfPrint(moves, id)[0] == moves[0];
      } else {
        OtherPrintKept(moves, first, from, id);
      }
    }
  }

  lemma {:induction false} HeadInFront(head: Move, tail: seq<Move>, mine: seq<Move>, rest: seq<Move>)
    requires multiset(tail) == multiset(mine + rest)
    ensures multiset([head] + tail) == multiset([head] + mine + rest)
    ensures multiset([head] + tail) == multiset(mine + ([head] + rest))
  {
    assert multiset(mine + rest) == multiset(mine) + multiset(rest);
    assert multiset([head] + mine + rest) == multiset{head} + multiset(mine) + multiset(rest);
    assert multiset(mine + ([head] + rest)) == multiset(mine) + (multiset{head} + multiset(rest));
  }

  lemma {:induction false} PartsAddUp(moves: seq<Move>, id: PrintId, from: Stage)
    ensures multiset(moves) == multiset(Of(moves, id, from) + NotOf(moves, id, from))
    decreases |moves|
  {
    if moves != [] {
      PartsAddUp(moves[1..], id, from);
      HeadInFront(moves[0], moves[1..], Of(moves[1..], id, from), NotOf(moves[1..], id, from));
      assert moves == [moves[0]] + moves[1..];
    }
  }

  /** The server's whole batch has the effect of the print's moves. */
  lemma {:induction false} ServerEffect(
      p: Print, catalog: seq<TagId>, id: PrintId, moves: seq<Move>, to: Stage, now: int)
    requires Sound(p, catalog) && NoRepeats(catalog) && MovesInto(moves, id, to, now) && AllOf(moves, id)
    requires MovePrint(p, catalog, id, moves).Some?
    ensures Effect(ServerView(p), ServerView(MovePrint(p, catalog, id, moves).value), moves, to, now)
    decreases |moves|
  {
    if moves != [] {
      var from := moves[0].from;
      var mine, rest := Of(moves, id, from), NotOf(moves, id, from);
      PartsAddUp(moves, id, from);
      forall i | 0 <= i < |mine| ensures mine[i] in moves {}
      forall i | 0 <= i < |rest| ensures rest[i] in moves {}
      assert mine[0] == moves[0];
      MoveStageEffect(p, catalog, mine, id, from, to, now);
      var r := MoveStage(p, catalog, from, mine).value;
      ServerEffect(r, catalog, id, rest, to, now);
      EffectsCompose(ServerView(p), ServerView(r), ServerView(MovePrint(p, catalog, id, moves).value), mine, rest,
        moves, to, now, id);
    }
  }

  // ---------------------------------------------------------------------------------------------
  // The client: one move at a time
  // ---------------------------------------------------------------------------------------------

  /** One tag of one stage as the client keeps it, in a list. */
  datatype TagCount = TagCount(slot: Slot, count: nat)

  datatype Override = Override(
    counts: map<Stage, int>, orders: map<Stage, Option<int>>, groups: seq<TagCount>, completedAt: Option<int>)

  predicate HasSlot(groups: seq<TagCount>, slot: Slot) {
    exists g :: g in groups && g.slot == slot
  }

  /** What one listed tag becomes when `count` copies carrying exactly `tagIds` move. */
  function MovedTag(
      g: TagCount, all: seq<TagCount>, from: Stage, to: Stage, count: nat, tagIds: seq<TagId>): seq<TagCount> {
    if g.slot.tag !in tagIds || (g.slot.stage != from && g.slot.stage != to) then [g]
    else if g.slot.stage == to then [TagCount(g.slot, g.count + count)]
    else
      (if g.count > count then [TagCount(g.slot, g.count - count)] else [])
      + (if HasSlot(all, Slot(to, g.slot.tag)) then [] else [TagCount(Slot(to, g.slot.tag), count)])
  }

  function MovedTags(
      groups: seq<TagCount>, all: seq<TagCount>, from: Stage, to: Stage, count: nat,
      tagIds: seq<TagId>): seq<TagCount> {
    if groups == [] then []
    else
      var last := |groups| - 1;
      MovedTags(groups[..last], all, from, to, count, tagIds) + MovedTag(groups[last], all, from, to, count, tagIds)
  }

  predicate HasCounts(o: Override) {
    forall s: Stage :: s in o.counts && s in o.orders
  }

  /** Moves `count` copies of the card carrying exactly the move's tags, and only those tags. */
  function MoveOverride(o: Override, m: Move): Override
    requires HasCounts(o) && m.tagIds.Some?
  {
    var counts := o.counts[m.from := o.counts[m.from] - m.count][m.to := o.counts[m.to] + m.count];
    Override(
      counts,
      if o.counts[m.to] > 0 then o.orders else o.orders[m.to := o.orders[m.from]],
      MovedTags(o.groups, o.groups, m.from, m.to, m.count, m.tagIds.value),
      if m.to == Done then Some(m.movedAt) else if m.from == Done && counts[m.from] == 0 then None else o.completedAt)
  }

  function FoldMoves(o: Override, moves: seq<Move>): (r: Override)
    requires HasCounts(o) && forall i :: 0 <= i < |moves| ==> moves[i].tagIds.Some?
    ensures HasCounts(r)
  {
    if moves == [] then o else MoveOverride(FoldMoves(o, moves[..|moves| - 1]), moves[|moves| - 1])
  }

  // ---------------------------------------------------------------------------------------------
  // The client's list of tags
  // ---------------------------------------------------------------------------------------------

  /** What an entry is counted as: itself, or the copies it stands for. */
  datatype Measure = ONE | COPIES_HELD

  ghost function Measured(f: Measure, n: nat): nat {
    if f.ONE? then 1 else n
  }

  ghost function At(slot: Slot, f: Measure): TagCount -> nat {
    (g: TagCount) => if g.slot == slot then Measured(f, g.count) else 0
  }

  ghost function Listed(groups: seq<TagCount>, slot: Slot): nat {
    Sum(groups, At(slot, COPIES_HELD))
  }

  /** No tag is listed twice for a stage. */
  ghost predicate UniqueSlots(groups: seq<TagCount>) {
    forall slot :: Sum(groups, At(slot, ONE)) <= 1
  }

  ghost function ClientView(o: Override): View {
    View(
      (s: Stage) => if s in o.counts then o.counts[s] else 0,
      (s: Stage) => if s in o.orders then o.orders[s] else None,
      (s: Stage, t: TagId) => Listed(o.groups, Slot(s, t)),
      o.completedAt)
  }

  lemma {:induction false} UniqueFront(groups: seq<TagCount>)
    requires UniqueSlots(groups) && groups != []
    ensures UniqueSlots(groups[..|groups| - 1])
  {
    forall slot ensures Sum(groups[..|groups| - 1], At(slot, ONE)) <= 1 {
      assert Sum(groups, At(slot, ONE)) <= 1;
    }
  }

  /** A weight that only looks at one slot sums to what the one entry for the slot weighs. */
  lemma {:induction false} SumAtSlot(groups: seq<TagCount>, slot: Slot, weight: TagCount -> nat)
    requires UniqueSlots(groups)
    requires forall g :: g in groups && g.slot != slot ==> weight(g) == 0
    ensures !HasSlot(groups, slot) ==> Sum(groups, weight) == 0
    ensures forall g :: g in groups && g.slot == slot ==> Sum(groups, weight) == weight(g)
    decreases |groups|
  {
    if groups != [] {
      var front, last := groups[..|groups| - 1], groups[|groups| - 1];
      UniqueFront(groups);
      assert groups == front + [last];
      SumAtSlot(front, slot, weight);
      if last.slot == slot {
        assert Sum(groups, At(slot, ONE)) <= 1;
        SumZero(front, At(slot, ONE));
        forall g | g in front ensures g.slot != slot {
          assert At(slot, ONE)(g) == 0;
        }
        SumZero(front, weight);
      } else {
        assert HasSlot(groups, slot) <==> HasSlot(front, slot);
      }
    }
  }

  lemma {:induction false} AbsentOrListed(groups: seq<TagCount>, slot: Slot)
    requires UniqueSlots(groups)
    ensures !HasSlot(groups, slot) ==> Listed(groups, slot) == 0
    ensures forall g :: g in groups && g.slot == slot ==> Listed(groups, slot) == g.count
  {
    SumAtSlot(groups, slot, At(slot, COPIES_HELD));
  }

  /** What one listed tag contributes to a slot after the move. */
  ghost function After(slot: Slot, f: Measure, all: seq<TagCount>, m: Move): TagCount -> nat
    requires m.tagIds.Some?
  {
    (g: TagCount) =>
      if slot.tag !in m.tagIds.value || (slot.stage != m.from && slot.stage != m.to) then
        if g.slot == slot then Measured(f, g.count) else 0
      else if slot.stage == m.to then
        if g.slot == slot then Measured(f, g.count + m.count)
        else if g.slot == Slot(m.from, slot.tag) && !HasSlot(all, slot) then Measured(f, m.count)
        else 0
      else if g.slot == slot && g.count > m.count then Measured(f, g.count - m.count)
      else 0
  }

  lemma {:induction false} SumOne(g: TagCount, weight: TagCount -> nat)
    ensures Sum([g], weight) == weight(g)
    ensures forall h :: Sum([g] + [h], weight) == weight(g) + weight(h)
  {
    assert [g][..0] == [];
    forall h ensures Sum([g] + [h], weight) == weight(g) + weight(h) {
      SumAppend([g], h, weight);
    }
  }

  lemma {:induction false} MovedTagSum(g: TagCount, slot: Slot, f: Measure, all: seq<TagCount>, m: Move)
    requires m.tagIds.Some? && m.from != m.to
    ensures Sum(MovedTag(g, all, m.from, m.to, m.count, m.tagIds.value), At(slot, f)) == After(slot, f, all, m)(g)
  {
    var weight := At(slot, f);
    if g.slot.tag !in m.tagIds.value || (g.slot.stage != m.from && g.slot.stage != m.to) {
      SumOne(g, weight);
    } else if g.slot.stage == m.to {
      SumOne(TagCount(g.slot, g.count + m.count), weight);
    } else {
      LeavingTagSum(g, slot, f, all, m);
    }
  }

  lemma {:induction false} LeavingTagSum(g: TagCount, slot: Slot, f: Measure, all: seq<TagCount>, m: Move)
    requires m.tagIds.Some? && m.from != m.to && g.slot.tag in m.tagIds.value && g.slot.stage == m.from
    ensures Sum(MovedTag(g, all, m.from, m.to, m.count, m.tagIds.value), At(slot, f)) == After(slot, f, all, m)(g)
  {
    var weight := At(slot, f);
    var kept := if g.count > m.count then [TagCount(g.slot, g.count - m.count)] else [];
    var made := if HasSlot(all, Slot(m.to, g.slot.tag)) then [] else [TagCount(Slot(m.to, g.slot.tag), m.count)];
    assert MovedTag(g, all, m.from, m.to, m.count, m.tagIds.value) == kept + made;
    SumConcat(kept, made, weight);
    if g.count > m.count {
      SumOne(TagCount(g.slot, g.count - m.count), weight);
    }
    SumOne(TagCount(Slot(m.to, g.slot.tag), m.count), weight);
  }

  lemma {:induction false} MovedTagsSum(groups: seq<TagCount>, slot: Slot, f: Measure, all: seq<TagCount>, m: Move)
    requires m.tagIds.Some? && m.from != m.to
    ensures Sum(MovedTags(groups, all, m.from, m.to, m.count, m.tagIds.value), At(slot, f)) ==
        Sum(groups, After(slot, f, all, m))
    decreases |groups|
  {
    if groups != [] {
      var front, last := groups[..|groups| - 1], groups[|groups| - 1];
      MovedTagsSum(front, slot, f, all, m);
      MovedTagSum(last, slot, f, all, m);
      SumConcat(
        MovedTags(front, all, m.from, m.to, m.count, m.tagIds.value),
        MovedTag(last, all, m.from, m.to, m.count, m.tagIds.value),
        At(slot, f));
    }
  }

  /** The move carries its tags from one stage to the other, entry by entry, and keeps the list free of repeats. */
  lemma {:induction false} MovedTagsLand(groups: seq<TagCount>, slot: Slot, m: Move)
    requires UniqueSlots(groups) && m.tagIds.Some? && m.from != m.to && m.count > 0
    requires slot.tag in m.tagIds.value ==> m.count <= Listed(groups, Slot(m.from, slot.tag))
    ensures var after := MovedTags(groups, groups, m.from, m.to, m.count, m.tagIds.value);
      && Sum(after, At(slot, ONE)) <= 1
      && Listed(after, slot) == Listed(groups, slot)
         + (if slot.stage == m.to && slot.tag in m.tagIds.value then m.count else 0)
         - (if slot.stage == m.from && slot.tag in m.tagIds.value then m.count else 0)
  {
    MovedTagsSum(groups, slot, ONE, groups, m);
    MovedTagsSum(groups, slot, COPIES_HELD, groups, m);
    assert Sum(groups, At(slot, ONE)) <= 1;
    if slot.tag !in m.tagIds.value || (slot.stage != m.from && slot.stage != m.to) {
      SumMatch(groups, groups, After(slot, ONE, groups, m), At(slot, ONE));
      SumMatch(groups, groups, After(slot, COPIES_HELD, groups, m), At(slot, COPIES_HELD));
    } else {
      var source := Slot(m.from, slot.tag);
      AbsentOrListed(groups, source);
      assert HasSlot(groups, source);
      if slot.stage == m.from {
        LeavesSlot(groups, slot, m);
      } else {
        EntersSlot(groups, slot, m);
      }
    }
  }

  lemma {:induction false} LeavesSlot(groups: seq<TagCount>, slot: Slot, m: Move)
    requires UniqueSlots(groups) && m.tagIds.Some? && m.from != m.to && slot.tag in m.tagIds.value
    requires slot.stage == m.from && HasSlot(groups, slot) && m.count <= Listed(groups, slot)
    ensures Sum(groups, After(slot, ONE, groups, m)) <= 1
    ensures Sum(groups, After(slot, COPIES_HELD, groups, m)) == Listed(groups, slot) - m.count
  {
    var g :| g in groups && g.slot == slot;
    AbsentOrListed(groups, slot);
    SumAtSlot(groups, slot, After(slot, ONE, groups, m));
    SumAtSlot(groups, slot, After(slot, COPIES_HELD, groups, m));
  }

  lemma {:induction false} EntersSlot(groups: seq<TagCount>, slot: Slot, m: Move)
    requires UniqueSlots(groups) && m.tagIds.Some? && m.from != m.to && slot.tag in m.tagIds.value
    requires slot.stage == m.to && HasSlot(groups, Slot(m.from, slot.tag))
    ensures Sum(groups, After(slot, ONE, groups, m)) <= 1
    ensures Sum(groups, After(slot, COPIES_HELD, groups, m)) == Listed(groups, slot) + m.count
  {
    var here := if HasSlot(groups, slot) then slot else Slot(m.from, slot.tag);
    var g :| g in groups && g.slot == here;
    AbsentOrListed(groups, slot);
    SumAtSlot(groups, here, After(slot, ONE, groups, m));
    SumAtSlot(groups, here, After(slot, COPIES_HELD, groups, m));
  }

  // ---------------------------------------------------------------------------------------------
  // Folding the moves gives what the server computes
  // ---------------------------------------------------------------------------------------------

  lemma {:induction false} SingleSums(m: Move)
    ensures forall weight: Move -> nat :: Sum([m], weight) == weight(m)
  {
    forall weight: Move -> nat ensures Sum([m], weight) == weight(m) {
      assert [m][..0] == [];
    }
  }

  lemma {:induction false} ClientStep(o: Override, m: Move)
    requires HasCounts(o) && UniqueSlots(o.groups) && m.tagIds.Some? && m.from != m.to && m.count > 0
    requires m.count <= o.counts[m.from] && o.counts[m.to] >= 0
    requires forall t :: t in m.tagIds.value ==> m.count <= Listed(o.groups, Slot(m.from, t))
    ensures UniqueSlots(MoveOverride(o, m).groups)
    ensures Effect(ClientView(o), ClientView(MoveOverride(o, m)), [m], m.to, m.movedAt)
  {
    var r := MoveOverride(o, m);
    var v, w := ClientView(o), ClientView(r);
    SingleSums(m);
    forall slot ensures Sum(r.groups, At(slot, ONE)) <= 1 {
      MovedTagsLand(o.groups, slot, m);
    }
    forall s, t
      ensures w.tagged(s, t) ==
          v.tagged(s, t) - Sum([m], LeavesBearing(s, t)) + if s == m.to then Sum([m], Bears(t)) else 0
    {
      MovedTagsLand(o.groups, Slot(s, t), m);
      assert LeavesBearing(s, t)(m) == if m.from == s && t in m.tagIds.value then m.count else 0;
      assert Bears(t)(m) == if t in m.tagIds.value then m.count else 0;
    }
    forall s ensures w.counts(s) == v.counts(s) - Sum([m], Leaves(s)) + if s == m.to then Sum([m], MOVED) else 0 {
      assert Leaves(s)(m) == if m.from == s then m.count else 0;
    }
    assert Leaves(Done)(m) == if m.from == Done then m.count else 0;
  }

  /** The client's copies and tags cover what the moves take from them. */
  ghost predicate Covers(v: View, moves: seq<Move>) {
    && (forall s :: Sum(moves, Leaves(s)) <= v.counts(s))
    && (forall s, t :: Sum(moves, LeavesBearing(s, t)) <= v.tagged(s, t))
  }

  lemma {:induction false} FrontCovered(v: View, moves: seq<Move>)
    requires moves != [] && Covers(v, moves)
    ensures Covers(v, moves[..|moves| - 1])
  {
    var front := moves[..|moves| - 1];
    forall s ensures Sum(front, Leaves(s)) <= v.counts(s) {
      assert Sum(moves, Leaves(s)) <= v.counts(s);
    }
    forall s, t ensures Sum(front, LeavesBearing(s, t)) <= v.tagged(s, t) {
      assert Sum(moves, LeavesBearing(s, t)) <= v.tagged(s, t);
    }
  }

  /** After the earlier moves the card of the last one still has its copies and tags. */
  lemma {:induction false} LastCovered(v: View, w: View, moves: seq<Move>, id: PrintId, to: Stage, now: int)
    requires MovesInto(moves, id, to, now) && moves != [] && Covers(v, moves)
    requires CountsMoved(v, w, moves[..|moves| - 1], to) && TagsMoved(v, w, moves[..|moves| - 1], to)
    ensures var m := moves[|moves| - 1];
      m.count <= w.counts(m.from) && forall t :: t in m.tagIds.value ==> m.count <= w.tagged(m.from, t)
    ensures NonNegative(w)
  {
    var front, m := moves[..|moves| - 1], moves[|moves| - 1];
    assert m.from != to && m.tagIds.Some?;
    assert Sum(moves, Leaves(m.from)) == Sum(front, Leaves(m.from)) + m.count;
    forall t | t in m.tagIds.value ensures m.count <= w.tagged(m.from, t) {
      assert Sum(moves, LeavesBearing(m.from, t)) == Sum(front, LeavesBearing(m.from, t)) + m.count;
      assert Sum(moves, LeavesBearing(m.from, t)) <= v.tagged(m.from, t);
    }
    FrontCovered(v, moves);
    forall s ensures w.counts(s) >= 0 {
      assert Sum(front, Leaves(s)) <= v.counts(s);
    }
  }

  lemma {:induction false} ClientEffect(o: Override, moves: seq<Move>, id: PrintId, to: Stage, now: int)
    requires HasCounts(o) && UniqueSlots(o.groups) && MovesInto(moves, id, to, now)
    requires Covers(ClientView(o), moves)
    ensures UniqueSlots(FoldMoves(o, moves).groups)
    ensures Effect(ClientView(o), ClientView(FoldMoves(o, moves)), moves, to, now)
    decreases |moves|
  {
    var u := ClientView(o);
    if moves != [] {
      var front, m := moves[..|moves| - 1], moves[|moves| - 1];
      FrontCovered(u, moves);
      forall i | 0 <= i < |front| ensures front[i] == moves[i] {}
      ClientEffect(o, front, id, to, now);
      var q := FoldMoves(o, front);
      LastCovered(u, ClientView(q), moves, id, to, now);
      assert moves[|moves| - 1] == m;
      forall t | t in m.tagIds.value ensures m.count <= Listed(q.groups, Slot(m.from, t)) {
        assert m.count <= ClientView(q).tagged(m.from, t);
      }
      assert ClientView(q).counts(to) >= 0 && ClientView(q).counts(m.from) >= m.count;
      ClientStep(q, m);
      FoldCompose(o, q, moves, id, to, now);
    }
  }

  lemma {:induction false} FoldCompose(o: Override, q: Override, moves: seq<Move>, id: PrintId, to: Stage, now: int)
    requires HasCounts(o) && HasCounts(q) && MovesInto(moves, id, to, now) && moves != []
    requires Covers(ClientView(o), moves)
    requires Effect(ClientView(o), ClientView(q), moves[..|moves| - 1], to, now) && NonNegative(ClientView(q))
    requires Effect(ClientView(q), ClientView(MoveOverride(q, moves[|moves| - 1])), [moves[|moves| - 1]], to, now)
    requires moves[|moves| - 1].count <= q.counts[moves[|moves| - 1].from]
    ensures Effect(ClientView(o), ClientView(MoveOverride(q, moves[|moves| - 1])), moves, to, now)
  {
    var front, m := moves[..|moves| - 1], moves[|moves| - 1];
    var u, v, w := ClientView(o), ClientView(q), ClientView(MoveOverride(q, m));
    assert moves == front + [m];
    forall s ensures u.counts(s) >= 0 {
      assert Sum(moves, Leaves(s)) <= u.counts(s);
    }
    assert NonNegative(w) by {
      SingleSums(m);
      forall s ensures w.counts(s) >= 0 {
        assert Leaves(s)(m) == if m.from == s then m.count else 0;
        assert v.counts(s) >= 0;
      }
    }
    if front == [] {
      assert moves == [m];
      NoEffect(u, v, to, now);
      EffectFrom(u, v, w, [m], to, now);
    } else {
      assert moves[0] == front[0];
      EffectsCompose(u, v, w, front, [m], moves, to, now, id);
    }
  }

  lemma {:induction false} NoEffect(u: View, v: View, to: Stage, now: int)
    requires Effect(u, v, [], to, now)
    ensures SameView(u, v)
  {
  }

  lemma {:induction false} EffectFrom(u: View, v: View, w: View, moves: seq<Move>, to: Stage, now: int)
    requires SameView(u, v) && Effect(v, w, moves, to, now)
    ensures Effect(u, w, moves, to, now)
  {
    forall s ensures u.counts(s) == v.counts(s) && u.orders(s) == v.orders(s) {}
    forall s, t
      ensures w.tagged(s, t) ==
          u.tagged(s, t) - Sum(moves, LeavesBearing(s, t)) + if s == to then Sum(moves, Bears(t)) else 0
    {
      assert u.tagged(s, t) == v.tagged(s, t);
    }
  }

  lemma {:induction false} EffectUnique(u: View, v: View, w: View, moves: seq<Move>, to: Stage, now: int)
    requires Effect(u, v, moves, to, now) && Effect(u, w, moves, to, now)
    ensures SameView(v, w)
  {
    forall s, t ensures v.tagged(s, t) == w.tagged(s, t) {
      assert v.tagged(s, t) ==
        u.tagged(s, t) - Sum(moves, LeavesBearing(s, t)) + if s == to then Sum(moves, Bears(t)) else 0;
    }
  }

  lemma {:induction false} AcceptedCovers(v: View, w: View, moves: seq<Move>, id: PrintId, to: Stage, now: int)
    requires MovesInto(moves, id, to, now) && Effect(v, w, moves, to, now) && NonNegative(w) && NonNegative(v)
    requires forall s, t :: v.tagged(s, t) >= 0 && w.tagged(s, t) >= 0
    ensures Covers(v, moves)
  {
    SumMatch(moves, moves, Leaves(to), (m: Move) => 0);
    SumZero(moves, (m: Move) => 0);
    forall s ensures Sum(moves, Leaves(s)) <= v.counts(s) {
      assert w.counts(s) >= 0 && v.counts(s) >= 0;
    }
    forall s, t ensures Sum(moves, LeavesBearing(s, t)) <= v.tagged(s, t) {
      if s == to {
        SumMatch(moves, moves, LeavesBearing(to, t), (m: Move) => 0);
      }
      assert w.tagged(s, t) >= 0 && v.tagged(s, t) >= 0;
    }
  }

  /** For a batch the server accepts, the client's fold shows exactly what the server stores for the print. */
  lemma {:induction false} FoldMatchesServer(
      p: Print, catalog: seq<TagId>, id: PrintId, o: Override, moves: seq<Move>, to: Stage, now: int)
    requires Sound(p, catalog) && NoRepeats(catalog) && MovesInto(moves, id, to, now) && AllOf(moves, id)
    requires MovePrint(p, catalog, id, moves).Some?
    requires HasCounts(o) && UniqueSlots(o.groups) && SameView(ClientView(o), ServerView(p))
    ensures SameView(ClientView(FoldMoves(o, moves)), ServerView(MovePrint(p, catalog, id, moves).value))
  {
    var r := MovePrint(p, catalog, id, moves).value;
    ServerEffect(p, catalog, id, moves, to, now);
    EffectFrom(ClientView(o), ServerView(p), ServerView(r), moves, to, now);
    forall s ensures ClientView(o).counts(s) >= 0 {
      assert ClientView(o).counts(s) == ServerView(p).counts(s);
    }
    AcceptedCovers(ClientView(o), ServerView(r), moves, id, to, now);
    ClientEffect(o, moves, id, to, now);
    EffectUnique(ClientView(o), ClientView(FoldMoves(o, moves)), ServerView(r), moves, to, now);
  }

  // ---------------------------------------------------------------------------------------------
  // The whole board
  // ---------------------------------------------------------------------------------------------

  lemma {:induction false} OfPrintAppend(moves: seq<Move>, m: Move, id: PrintId)
    ensures OfPrint(moves + [m], id) == OfPrint(moves, id) + if m.id == id then [m] else []
    decreases |moves|
  {
    if moves != [] {
      assert (moves + [m])[1..] == moves[1..] + [m];
      OfPrintAppend(moves[1..], m, id);
    }
  }

  /** What the board shows of a print: its override, or else what was loaded. */
  function Shown(loaded: map<PrintId, Override>, overrides: map<PrintId, Override>, id: PrintId): Override
    requires id in loaded
  {
    if id in overrides then overrides[id] else loaded[id]
  }

  ghost predicate ExactMoves(moves: seq<Move>) {
    forall i :: 0 <= i < |moves| ==> moves[i].tagIds.Some?
  }

  /** The print shows the fold of its own moves over what it showed before. */
  ghost predicate Folded(
      loaded: map<PrintId, Override>, overrides: map<PrintId, Override>, next: map<PrintId, Override>, moves: seq<Move>,
      id: PrintId)
    requires id in loaded && HasCounts(Shown(loaded, overrides, id))
  {
    ExactMoves(OfPrint(moves, id))
      && Shown(loaded, next, id) == FoldMoves(Shown(loaded, overrides, id), OfPrint(moves, id))
  }

  lemma {:induction false} FoldedNext(
      loaded: map<PrintId, Override>, overrides: map<PrintId, Override>, next: map<PrintId, Override>,
      moves: seq<Move>, m: Move, id: PrintId)
    requires id in loaded && HasCounts(Shown(loaded, overrides, id)) && m.id in loaded && m.tagIds.Some?
    requires Folded(loaded, overrides, next, moves, id) && HasCounts(Shown(loaded, next, m.id))
    ensures Folded(loaded, overrides, next[m.id := MoveOverride(Shown(loaded, next, m.id), m)], moves + [m], id)
  {
    OfPrintAppend(moves, m, id);
    var mine := OfPrint(moves, id);
    if m.id == id {
      assert (mine + [m])[..|mine|] == mine;
    } else {
      assert mine + [] == mine;
    }
  }

  ghost predicate AllFolded(
      loaded: map<PrintId, Override>, overrides: map<PrintId, Override>, next: map<PrintId, Override>, moves: seq<Move>)
    requires AllCounted(loaded, overrides)
  {
    forall id :: id in loaded ==> Folded(loaded, overrides, next, moves, id)
  }

  ghost predicate AllCounted(loaded: map<PrintId, Override>, overrides: map<PrintId, Override>) {
    forall id :: id in loaded ==> HasCounts(Shown(loaded, overrides, id))
  }

  lemma {:induction false} AllFoldedNext(
      loaded: map<PrintId, Override>, overrides: map<PrintId, Override>, next: map<PrintId, Override>,
      moves: seq<Move>, n: nat)
    requires AllCounted(loaded, overrides) && n < |moves| && AllFolded(loaded, overrides, next, moves[..n])
    requires moves[n].id in loaded && moves[n].tagIds.Some?
    ensures HasCounts(Shown(loaded, next, moves[n].id))
    ensures AllFolded(loaded, overrides,
        next[moves[n].id := MoveOverride(Shown(loaded, next, moves[n].id), moves[n])], moves[..n + 1])
  {
    var m, done := moves[n], moves[..n];
    assert moves[..n + 1] == done + [m];
    assert Folded(loaded, overrides, next, done, m.id);
    forall id | id in loaded
      ensures Folded(loaded, overrides, next[m.id := MoveOverride(Shown(loaded, next, m.id), m)], done + [m], id)
    {
      FoldedNext(loaded, overrides, next, done, m, id);
    }
  }

  method MoveOverrides(loaded: map<PrintId, Override>, overrides: map<PrintId, Override>, moves: seq<Move>)
    returns (next: map<PrintId, Override>)
    requires AllCounted(loaded, overrides)
    requires ExactMoves(moves) && forall i :: 0 <= i < |moves| ==> moves[i].id in loaded
    ensures AllFolded(loaded, overrides, next, moves)
  {
    next := overrides;
    NothingFolded(loaded, overrides, moves);
    for n := 0 to |moves|
      invariant AllFolded(loaded, overrides, next, moves[..n])
    {
      AllFoldedNext(loaded, overrides, next, moves, n);
      next := next[moves[n].id := MoveOverride(Shown(loaded, next, moves[n].id), moves[n])];
    }
    AllMoves(moves);
  }

  lemma {:induction false} AllMoves(moves: seq<Move>)
    ensures moves[..|moves|] == moves
  {
  }

  lemma {:induction false} NothingFolded(
      loaded: map<PrintId, Override>, overrides: map<PrintId, Override>, moves: seq<Move>)
    requires AllCounted(loaded, overrides)
    ensures AllFolded(loaded, overrides, overrides, moves[..0])
  {
    assert moves[..0] == [];
    forall id | id in loaded ensures Folded(loaded, overrides, overrides, [], id) {}
  }

  /**
   * For an accepted batch into one stage that none of its moves leaves, every print the client draws is what the server
   * stores.
   */
  lemma {:induction false} OptimisticBatchMatchesServer(
      prints: Prints, catalog: seq<TagId>, moves: seq<Move>, to: Stage, now: int, id: PrintId, o: Override)
    requires SoundBoard(prints, catalog) && MoveCards(prints, catalog, moves).Some? && id in prints
    requires forall i :: 0 <= i < |moves| ==> MovesInto([moves[i]], moves[i].id, to, now)
    requires HasCounts(o) && UniqueSlots(o.groups) && SameView(ClientView(o), ServerView(prints[id]))
    ensures ExactMoves(OfPrint(moves, id)) && id in MoveCards(prints, catalog, moves).value
    ensures SameView(ClientView(FoldMoves(o, OfPrint(moves, id))),
        ServerView(MoveCards(prints, catalog, moves).value[id]))
  {
    var mine := OfPrint(moves, id);
    forall i | 0 <= i < |mine| ensures MovesInto([mine[i]], id, to, now) {
      var j :| 0 <= j < |moves| && moves[j] == mine[i];
      assert MovesInto([moves[j]], moves[j].id, to, now);
    }
    forall i | 0 <= i < |mine|
      ensures mine[i].id == id && mine[i].to == to && mine[i].from != to && mine[i].count > 0
      ensures mine[i].movedAt == now && mine[i].tagIds.Some? && NoRepeats(mine[i].tagIds.value)
    {
      assert MovesInto([mine[i]], id, to, now);
      assert [mine[i]][0] == mine[i];
    }
    BatchByPrint(prints, catalog, moves, id);
    FoldMatchesServer(prints[id], catalog, id, o, mine, to, now);
  }
}
