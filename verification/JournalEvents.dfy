/**
 * Runs in which operations, sessions and moves on the board happen in any order: whose model is lost, and since when.
 */
module JournalEvents {
  import opened Options
  import opened Journal
  import opened JournalStates
  import opened JournalRewrites
  import opened JournalLeftovers

  datatype Event =
    | Begins(id: Id, op: Operation)
    | GoesOn(id: Id, spoiled: bool)
    | HappensAgain(id: Id)
    | Stages(uploadId: Id, bytes: Bytes)
    | Drops(uploadId: Id, session: bool, part: bool)
    | MovesOnBoard(requestId: Id, path: Path)

  ghost predicate Unclaimed(u: Id, w: World) {
    u !in w.uploads && forall a :: a in w.journal && HasSession(w.journal[a].op) ==> w.journal[a].op.uploadId != u
  }

  function Pointed(w: World, r: Id, p: Path): World
    requires r in w.requests
  {
    WithRow(w, r, w.requests[r].(filePath := Some(p)))
  }

  /** A move on the board writes the path that was read before; writing the path that is there changes nothing. */
  ghost function Repointed(h: History, r: Id, p: Path, w: World): History
    requires r in w.requests
  {
    if w.requests[r].filePath == Some(p) then h
    else Pruned(Rewritten(h, r, w.requests[r].(filePath := Some(p)), w), Pointed(w, r, p))
  }

  ghost predicate Happens(e: Event, h: History, v: World, g: History, w: World) {
    match e
    case Begins(id, op) =>
      Offered(id, op, h, v) && Free(op, v) && Begun(op, v) && w == Opened(id, op, v) && g == Started(h, id, op, v)
    case GoesOn(id, spoiled) =>
      Step(id, h, v, w, spoiled) && g == Pruned(Noted(h, v.journal[id].op, spoiled), w)
    case HappensAgain(id) =>
      Replay(id, h, v, w) && g == Pruned(Recalled(h, v.journal[id].op, v, w), w)
    case Stages(u, bytes) =>
      Unclaimed(u, v) && w == Staged(v, u, bytes) && g == h
    case Drops(u, session, part) =>
      && (session && u in v.uploads ==> v.uploads[u].completed.None?)
      && w == Without(v, u, session, part) && g == Bereft(h, u, session, part, v)
    case MovesOnBoard(r, p) =>
      r in v.requests && KeyOf(p, r) && w == Pointed(v, r, p) && g == Repointed(h, r, p, v)
  }

  lemma {:induction false} PointedThere(w: World, r: Id, p: Path)
    requires r in w.requests && w.requests[r].filePath == Some(p)
    ensures Pointed(w, r, p) == w
  {
    assert w.requests[r := w.requests[r].(filePath := Some(p))] == w.requests;
  }

  /** Whatever happens at a reachable state leads to a reachable state. */
  lemma {:induction false} EventKeepsSound(e: Event, h: History, v: World, g: History, w: World)
    requires Sound(h, v) && Happens(e, h, v, g, w)
    ensures Sound(g, w)
  {
    match e {
      case Begins(id, op) => BeginKeepsSound(id, op, h, v);
      case GoesOn(id, spoiled) => StepKeepsSound(id, h, v, w, spoiled);
      case HappensAgain(id) => ReplayKeepsSound(id, h, v, w);
      case Stages(u, bytes) => StagingKeepsSound(h, v, u, bytes);
      case Drops(u, session, part) => DropKeepsSound(u, session, part, h, v);
      case MovesOnBoard(r, p) =>
        if v.requests[r].filePath == Some(p) {
          PointedThere(v, r, p);
        } else {
          RewriteKeepsCore(r, v.requests[r].(filePath := Some(p)), h, v);
          PrunedIsSound(Rewritten(h, r, v.requests[r].(filePath := Some(p)), v), w);
        }
    }
  }

  // ---------------------------------------------------------------------------------------------
  // Runs
  // ---------------------------------------------------------------------------------------------

  ghost predicate Run(events: seq<Event>, hs: seq<History>, ws: seq<World>) {
    && |hs| == |ws| == |events| + 1 && Sound(hs[0], ws[0])
    && forall i :: 0 <= i < |events| ==> Happens(events[i], hs[i], ws[i], hs[i + 1], ws[i + 1])
  }

  ghost predicate SoundAt(hs: seq<History>, ws: seq<World>, i: nat)
    requires i < |hs| == |ws|
  {
    Sound(hs[i], ws[i])
  }

  lemma {:induction false} SoundFromStart(hs: seq<History>, ws: seq<World>, n: nat)
    requires n < |hs| == |ws| && SoundAt(hs, ws, 0)
    requires forall i :: 0 <= i < n && SoundAt(hs, ws, i) ==> SoundAt(hs, ws, i + 1)
    ensures SoundAt(hs, ws, n)
  {
    if n > 0 {
      SoundFromStart(hs, ws, n - 1);
      var before: nat := n - 1;
      assert SoundAt(hs, ws, before) ==> SoundAt(hs, ws, before + 1);
    }
  }

  /** Every state of every run is sound. */
  lemma {:induction false} RunStaysSound(events: seq<Event>, hs: seq<History>, ws: seq<World>, n: nat)
    requires Run(events, hs, ws) && n < |ws|
    ensures Sound(hs[n], ws[n])
  {
    forall i | 0 <= i < n && SoundAt(hs, ws, i) ensures SoundAt(hs, ws, i + 1) {
      EventKeepsSound(events[i], hs[i], ws[i], hs[i + 1], ws[i + 1]);
    }
    SoundFromStart(hs, ws, n);
  }

  /** At every reachable state a model is gone exactly while it is being moved or since it was lost. */
  lemma {:induction false} NoModelDangles(h: History, w: World, r: Id)
    requires Sound(h, w)
    ensures Dangling(r, w) ==> BeingMoved(r, w) || r in h.astray
    ensures r in h.astray && !BeingMoved(r, w) ==> Dangling(r, w)
    ensures w.journal == map[] ==> (Dangling(r, w) <==> r in h.astray)
  {
    assert r in h.astray ==> Lost(r, w);
  }

  // ---------------------------------------------------------------------------------------------
  // What loses a model
  // ---------------------------------------------------------------------------------------------

  /**
   * An error is swallowed; a leftover inserts a deleted request again; a leftover attach whose session has gone, or a
   * move on the board that read the path earlier, points the row at a file that is not safely there.
   */
  ghost predicate Loses(e: Event, r: Id, h: History, v: World) {
    match e
    case GoesOn(id, spoiled) => spoiled && id in v.journal && Target(v.journal[id].op) == r
    case HappensAgain(id) =>
      && id in v.journal && Target(v.journal[id].op) == r
      && (Revives(v.journal[id].op, v)
          || (v.journal[id].op.AttachModel? && r in v.requests && v.journal[id].op.uploadId !in v.uploads
              && !SafePath(r, v.journal[id].op.dest, h, v)))
    case MovesOnBoard(q, p) => q == r && r in v.requests && v.requests[r].filePath != Some(p) && !SafePath(r, p, h, v)
    case _ => false
  }

  /** Whether the leftover wrote its row: a complete run does, one cut short need not. */
  ghost predicate Wrote(e: Event, v: World, w: World) {
    e.HappensAgain? ==> w.requests != v.requests
  }

  lemma {:induction false} AgainLosesIff(id: Id, h: History, v: World, w: World, r: Id)
    requires Replay(id, h, v, w)
    ensures r in Recalled(h, v.journal[id].op, v, w).astray <==>
              r in h.astray || (Loses(HappensAgain(id), r, h, v) && w.requests != v.requests)
  {
    if w.requests != v.requests {
      RowAgain(id, h, v, w);
    }
  }

  /** A model is astray after an event exactly when it was before, or the event lost it, and it has not been found. */
  lemma {:induction false} AstrayIff(e: Event, h: History, v: World, g: History, w: World, r: Id)
    requires Sound(h, v) && Happens(e, h, v, g, w)
    ensures r in g.astray <==> (r in h.astray || (Loses(e, r, h, v) && Wrote(e, v, w))) && Lost(r, w)
  {
    EventKeepsSound(e, h, v, g, w);
    assert r in g.astray ==> Lost(r, w);
    if e.HappensAgain? {
      AgainLosesIff(e.id, h, v, w, r);
    }
  }

  /** At the `k`-th state, by the event before it or from the start, and at every state since. */
  ghost predicate LostSince(events: seq<Event>, hs: seq<History>, ws: seq<World>, r: Id, k: nat, n: nat)
    requires |hs| == |ws| == |events| + 1 && n < |ws|
  {
    && k <= n
    && (if k == 0 then r in hs[0].astray
        else Loses(events[k - 1], r, hs[k - 1], ws[k - 1]) && Wrote(events[k - 1], ws[k - 1], ws[k]))
    && forall j :: k <= j <= n ==> Lost(r, ws[j])
  }

  /** An event lost the request's model, or it was gone from the start, and it has not been found since. */
  ghost predicate StillLost(events: seq<Event>, hs: seq<History>, ws: seq<World>, r: Id, n: nat)
    requires |hs| == |ws| == |events| + 1 && n < |ws|
  {
    exists k: nat :: LostSince(events, hs, ws, r, k, n)
  }

  /** The event before the `n`-th state lost the model. */
  ghost predicate JustLost(events: seq<Event>, hs: seq<History>, ws: seq<World>, r: Id, n: nat)
    requires |hs| == |ws| == |events| + 1 && 0 < n < |ws|
  {
    Loses(events[n - 1], r, hs[n - 1], ws[n - 1]) && Wrote(events[n - 1], ws[n - 1], ws[n])
  }

  lemma {:induction false} LostLonger(events: seq<Event>, hs: seq<History>, ws: seq<World>, r: Id, n: nat)
    requires |hs| == |ws| == |events| + 1 && 0 < n < |ws|
    ensures StillLost(events, hs, ws, r, n) <==>
              Lost(r, ws[n]) && (StillLost(events, hs, ws, r, n - 1) || JustLost(events, hs, ws, r, n))
  {
    var before: nat := n - 1;
    if StillLost(events, hs, ws, r, n) {
      var k: nat :| LostSince(events, hs, ws, r, k, n);
      assert k < n ==> LostSince(events, hs, ws, r, k, before);
    }
    if Lost(r, ws[n]) {
      if StillLost(events, hs, ws, r, before) {
        var k: nat :| LostSince(events, hs, ws, r, k, before);
        assert LostSince(events, hs, ws, r, k, n);
      }
      if JustLost(events, hs, ws, r, n) {
        assert LostSince(events, hs, ws, r, n, n);
      }
    }
  }

  /** In every run, a model is astray exactly when some event lost it and it has been gone ever since. */
  lemma {:induction false} AstrayInRunIff(events: seq<Event>, hs: seq<History>, ws: seq<World>, r: Id, n: nat)
    requires Run(events, hs, ws) && n < |ws|
    ensures r in hs[n].astray <==> StillLost(events, hs, ws, r, n)
  {
    if n == 0 {
      assert r in hs[0].astray ==> LostSince(events, hs, ws, r, 0, 0);
    } else {
      AstrayInRunIff(events, hs, ws, r, n - 1);
      RunStaysSound(events, hs, ws, n - 1);
      AstrayIff(events[n - 1], hs[n - 1], ws[n - 1], hs[n], ws[n], r);
      LostLonger(events, hs, ws, r, n);
    }
  }

  /**
   * Once the journal is empty, the models that are gone are those that some event lost and that were not found since.
   */
  lemma {:induction false} GoneAtRestIff(events: seq<Event>, hs: seq<History>, ws: seq<World>, r: Id)
    requires Run(events, hs, ws) && ws[|events|].journal == map[]
    ensures Dangling(r, ws[|events|]) <==> StillLost(events, hs, ws, r, |events|)
  {
    RunStaysSound(events, hs, ws, |events|);
    NoModelDangles(hs[|events|], ws[|events|], r);
    AstrayInRunIff(events, hs, ws, r, |events|);
  }

  // ---------------------------------------------------------------------------------------------
  // A move on the board
  // ---------------------------------------------------------------------------------------------

  /** With no swap or deletion of the request under way, the write keeps its model exactly when the file is there. */
  lemma {:induction false} MoveKeepsModelIff(r: Id, p: Path, h: History, v: World, g: History, w: World)
    requires Sound(h, v) && Happens(MovesOnBoard(r, p), h, v, g, w) && !BeingMoved(r, v)
    ensures r !in g.astray <==> p in v.store
    ensures Dangling(r, w) <==> p !in v.store
  {
    assert BeingMoved(r, w) == BeingMoved(r, v);
    EventKeepsSound(MovesOnBoard(r, p), h, v, g, w);
    NoModelDangles(g, w, r);
  }

  /** The request's row is written: its operation is recorded, a leftover writes it again, or a move writes its path. */
  ghost predicate Records(e: Event, r: Id, v: World, w: World) {
    match e
    case GoesOn(id, _) => id in v.journal && Target(v.journal[id].op) == r && Done(v.journal[id].op, w)
    case HappensAgain(id) => id in v.journal && Target(v.journal[id].op) == r && w.requests != v.requests
    case MovesOnBoard(q, _) => q == r
    case _ => false
  }

  lemma {:induction false} RowHolds(e: Event, h: History, v: World, g: History, w: World, r: Id)
    requires Happens(e, h, v, g, w) && !Records(e, r, v, w)
    ensures Look(w.requests, r) == Look(v.requests, r)
  {
    if e.GoesOn? {
      AllOrNothing(e.id, v.journal[e.id].op, h.starts[e.id], v, w, e.spoiled);
    } else if e.HappensAgain? && w.requests != v.requests {
      RowAgain(e.id, h, v, w);
    }
  }

  lemma {:induction false} HeldThroughout(ws: seq<World>, r: Id, m: nat, n: nat)
    requires m <= n < |ws| && forall i :: m <= i < n ==> Look(ws[i + 1].requests, r) == Look(ws[i].requests, r)
    ensures Look(ws[n].requests, r) == Look(ws[m].requests, r)
  {
    if m < n {
      HeldThroughout(ws, r, m, n - 1);
      assert Look(ws[n - 1 + 1].requests, r) == Look(ws[n - 1].requests, r);
    }
  }

  /** Writing back the path that was read changes nothing when nothing was recorded on the request in between. */
  lemma {:induction false} ReadBackChangesNothing(
      events: seq<Event>, hs: seq<History>, ws: seq<World>, r: Id, p: Path, m: nat, n: nat)
    requires Run(events, hs, ws) && m <= n < |events| && events[n] == MovesOnBoard(r, p)
    requires r in ws[m].requests && ws[m].requests[r].filePath == Some(p)
    requires forall i :: m <= i < n ==> !Records(events[i], r, ws[i], ws[i + 1])
    ensures ws[n + 1] == ws[n] && hs[n + 1] == hs[n]
  {
    forall i | m <= i < n ensures Look(ws[i + 1].requests, r) == Look(ws[i].requests, r) {
      RowHolds(events[i], hs[i], ws[i], hs[i + 1], ws[i + 1], r);
    }
    HeldThroughout(ws, r, m, n);
    PointedThere(ws[n], r, p);
  }

  // ---------------------------------------------------------------------------------------------
  // A leftover that is refused
  // ---------------------------------------------------------------------------------------------

  ghost predicate Deletes(e: Event, r: Id, v: World, w: World) {
    && e.GoesOn? && e.id in v.journal && v.journal[e.id].op.DeleteRequest? && v.journal[e.id].op.requestId == r
    && Done(v.journal[e.id].op, w)
  }

  lemma {:induction false} StuckOverStep(id: Id, h: History, v: World, w: World, spoiled: bool, k: Id)
    requires Sound(h, v) && Step(id, h, v, w, spoiled) && k in v.journal && Stuck(v.journal[k], v)
    requires !Deletes(GoesOn(id, spoiled), v.journal[k].op.requestId, v, w)
    ensures k in w.journal && w.journal[k] == v.journal[k] && Stuck(v.journal[k], w)
  {
    var op, that := v.journal[k].op, v.journal[id].op;
    StuckIff(k, h, v);
    assert Look(w.journal, k) == Look(v.journal, k);
    assert PairSound(id, k, h, v);
    assert SessionFollows(that, op.uploadId, v, w);
    AllOrNothing(id, that, h.starts[id], v, w, spoiled);
    assert Look(w.requests, op.requestId) == Look(v.requests, op.requestId) || Target(that) == op.requestId;
  }

  lemma {:induction false} StuckOverReplay(id: Id, h: History, v: World, w: World, k: Id)
    requires Sound(h, v) && Replay(id, h, v, w) && k in v.journal && Stuck(v.journal[k], v)
    ensures k in w.journal && w.journal[k] == v.journal[k] && Stuck(v.journal[k], w)
  {
    if id == k {
      StuckStays(id, h, v, w);
    } else {
      assert Look(w.journal, k) == Look(v.journal, k);
      if w.requests != v.requests {
        RowAgain(id, h, v, w);
      }
    }
  }

  /** Whatever happens, a refused leftover stays in the journal and is refused until its request is deleted. */
  lemma {:induction false} StuckUntilDeleted(e: Event, h: History, v: World, g: History, w: World, k: Id)
    requires Sound(h, v) && Happens(e, h, v, g, w) && k in v.journal && Stuck(v.journal[k], v)
    requires !Deletes(e, v.journal[k].op.requestId, v, w)
    ensures k in w.journal && w.journal[k] == v.journal[k] && Stuck(w.journal[k], w)
  {
    if e.GoesOn? {
      StuckOverStep(e.id, h, v, w, e.spoiled, k);
    } else if e.HappensAgain? {
      StuckOverReplay(e.id, h, v, w, k);
    } else {
      StuckIff(k, h, v);
    }
  }
}
