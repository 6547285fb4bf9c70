/**
 * Rows that are written over, sessions that are dropped and committed operations that are carried out again, while
 * others are in progress: what the invariant keeps of all that.
 */
module JournalRewrites {
  import opened Options
  import opened Journal
  import opened JournalStates

  // ---------------------------------------------------------------------------------------------
  // A request's row is written over
  // ---------------------------------------------------------------------------------------------

  function WithRow(w: World, r: Id, row: Row): World {
    w.(requests := w.requests[r := row])
  }

  /** Every operation in progress is taken to have begun with the new row. */
  function Rebased(starts: map<Id, World>, r: Id, row: Row): map<Id, World> {
    map a | a in starts :: if r in starts[a].requests then WithRow(starts[a], r, row) else starts[a]
  }

  /** A model swap of the request that is in progress. */
  ghost predicate Swaps(a: Id, r: Id, w: World) {
    a in w.journal && Active(w.journal[a]) && w.journal[a].op.AttachModel? && w.journal[a].op.requestId == r
  }

  /** The file is there, and it is where the request's model stays or comes back to if a swap of it is undone. */
  ghost predicate SafePath(r: Id, p: Path, h: History, w: World) {
    && (BeingMoved(r, w) || p in w.store)
    && forall a :: Swaps(a, r, w) && a in h.starts ==>
        && p != w.journal[a].op.dest
        && if Originals(Replaced(w.journal[a].op), p) then p in h.starts[a].store else p in w.store
  }

  ghost function Rewritten(h: History, r: Id, row: Row, w: World): History
    requires row.filePath.Some?
  {
    h.(starts := Rebased(h.starts, r, row), outdated := h.outdated + {r},
       astray := if SafePath(r, row.filePath.value, h, w) then h.astray else h.astray + {r})
  }

  ghost predicate Rewrite(r: Id, row: Row, h: History, w: World) {
    Core(h, w) && r in w.requests && row.filePath.Some? && KeyOf(row.filePath.value, r)
  }

  lemma {:induction false} RebasedBegun(op: Operation, r: Id, row: Row, s: World)
    requires Begun(op, s)
    ensures Begun(op, if r in s.requests then WithRow(s, r, row) else s)
  {
  }

  lemma {:induction false} RebasedRow(op: Operation, r: Id, row: Row, s: World, w: World)
    requires RowKept(op, s, w) && r in w.requests
    ensures RowKept(op, if r in s.requests then WithRow(s, r, row) else s, WithRow(w, r, row))
  {
  }

  lemma {:induction false} RebasedGoes(id: Id, r: Id, row: Row, h: History, w: World)
    requires Rewrite(r, row, h, w) && id in w.journal && Active(w.journal[id]) && EntrySound(id, h, w)
    ensures var s := Rebased(h.starts, r, row)[id];
      Begun(w.journal[id].op, s) && Going(id, w.journal[id].op, s, WithRow(w, r, row))
  {
    var op := w.journal[id].op;
    RebasedBegun(op, r, row, h.starts[id]);
    RebasedRow(op, r, row, h.starts[id], w);
  }

  lemma {:induction false} RewriteKeepsEntry(id: Id, r: Id, row: Row, h: History, w: World)
    requires Rewrite(r, row, h, w) && id in w.journal && EntrySound(id, h, w)
    ensures EntrySound(id, Rewritten(h, r, row, w), WithRow(w, r, row))
  {
    var op, z := w.journal[id].op, WithRow(w, r, row);
    if Active(w.journal[id]) {
      RebasedGoes(id, r, row, h, w);
      assert op.AttachModel? && op.requestId == r ==> Swaps(id, r, w);
    } else if !op.DeleteRequest? && Target(op) != r && Arriving(op.dest, w) {
      SameJournalArrives(op.dest, w, z);
    }
  }

  lemma {:induction false} SameJournalArrives(p: Path, w: World, z: World)
    requires w.journal == z.journal && Arriving(p, w)
    ensures Arriving(p, z)
  {
  }

  /** What a row is pointed at may be gone: the request is then noted as astray; all else stays as it was. */
  lemma {:induction false} RewriteKeepsCore(r: Id, row: Row, h: History, w: World)
    requires Rewrite(r, row, h, w)
    ensures Core(Rewritten(h, r, row, w), WithRow(w, r, row))
  {
    var g, z := Rewritten(h, r, row, w), WithRow(w, r, row);
    forall id | id in z.journal ensures EntrySound(id, g, z) {
      RewriteKeepsEntry(id, r, row, h, w);
    }
    forall a, b | a in z.journal && b in z.journal && a != b ensures PairSound(a, b, g, z) {
      assert PairSound(a, b, h, w);
    }
    forall q | q !in g.astray && Dangling(q, z) ensures BeingMoved(q, z) {
      assert BeingMoved(q, w) == BeingMoved(q, z);
      assert q != r ==> Dangling(q, w);
    }
  }

  // ---------------------------------------------------------------------------------------------
  // A session, or the part that was staged for it, is dropped
  // ---------------------------------------------------------------------------------------------

  /** Without the upload's session, its staged part, or both. */
  function Without(w: World, u: Id, session: bool, part: bool): World {
    w.(uploads := if session then w.uploads - {u} else w.uploads,
       staged := if part then w.staged - {Part(u)} else w.staged)
  }

  predicate Published(a: Id, w: World) {
    a in w.journal && HasSession(w.journal[a].op) && w.journal[a].op.dest in w.store
  }

  /**
   * Every operation in progress is taken to have begun without them; a part that was published before is not missed.
   */
  function Bereft(h: History, u: Id, session: bool, part: bool, w: World): History {
    h.(starts := map a | a in h.starts :: Without(h.starts[a], u, session, part && !Published(a, w)))
  }

  ghost predicate Drop(u: Id, session: bool, h: History, w: World) {
    Core(h, w) && (session && u in w.uploads ==> w.uploads[u].completed.None?)
  }

  lemma {:induction false} TrashIsInMove(xs: seq<Asset>, before: Store, now: Store)
    requires AllInTrash(xs, before, now)
    ensures AllInMove(xs, before, now)
  {
    forall i | 0 <= i < |xs| ensures InMove(xs[i], before, now) {
      assert InTrash(xs[i], before, now);
    }
  }

  /** A part that is on its way has landed, or was never there. */
  lemma {:induction false} BereftPart(op: Operation, u: Id, session: bool, part: bool, s0: World, w: World)
    requires HasSession(op) && op.part == Part(op.uploadId)
    ensures var s, z := Without(s0, u, session, part && op.dest !in w.store), Without(w, u, session, part);
      && (Landed(op.part, op.dest, s0, w) ==> Landed(op.part, op.dest, s, z))
      && (NotLanded(op.part, op.dest, s0, w) ==> NotLanded(op.part, op.dest, s, z))
      && (Landing(op.part, op.dest, s0, w) ==> Landing(op.part, op.dest, s, z) || NotLanded(op.part, op.dest, s, z))
      && (op.part !in s0.staged ==> op.part !in s.staged)
      && (Landing(op.part, op.dest, s0, w) && !Landing(op.part, op.dest, s, z) ==> op.part !in s.staged)
  {
  }

  lemma {:induction false} BereftAttach(id: Id, u: Id, session: bool, part: bool, h: History, w: World)
    requires Drop(u, session, h, w) && id in w.journal && Active(w.journal[id]) && EntrySound(id, h, w)
    requires w.journal[id].op.AttachModel?
    ensures var s := Bereft(h, u, session, part, w).starts[id];
      AttachGoing(w.journal[id].op, w.journal[id].state, s, Without(w, u, session, part))
  {
    var op, s0 := w.journal[id].op, h.starts[id];
    BereftPart(op, u, session, part, s0, w);
    if AllInTrash(Replaced(op), s0.store, w.store) {
      TrashIsInMove(Replaced(op), s0.store, w.store);
    }
  }

  lemma {:induction false} BereftUpload(id: Id, u: Id, session: bool, part: bool, h: History, w: World)
    requires Drop(u, session, h, w) && id in w.journal && Active(w.journal[id]) && EntrySound(id, h, w)
    requires w.journal[id].op.UploadModel?
    ensures var s := Bereft(h, u, session, part, w).starts[id];
      UploadGoing(w.journal[id].op, w.journal[id].state, s, Without(w, u, session, part))
  {
    BereftPart(w.journal[id].op, u, session, part, h.starts[id], w);
  }

  lemma {:induction false} BereftGoes(id: Id, u: Id, session: bool, part: bool, h: History, w: World)
    requires Drop(u, session, h, w) && id in w.journal && Active(w.journal[id]) && EntrySound(id, h, w)
    ensures var s := Bereft(h, u, session, part, w).starts[id];
      Begun(w.journal[id].op, s) && Going(id, w.journal[id].op, s, Without(w, u, session, part))
  {
    var op := w.journal[id].op;
    if op.AttachModel? {
      BereftAttach(id, u, session, part, h, w);
    } else if op.UploadModel? {
      BereftUpload(id, u, session, part, h, w);
    }
  }

  lemma {:induction false} DropKeepsEntry(id: Id, u: Id, session: bool, part: bool, h: History, w: World)
    requires Drop(u, session, h, w) && id in w.journal && EntrySound(id, h, w)
    ensures EntrySound(id, Bereft(h, u, session, part, w), Without(w, u, session, part))
  {
    if Active(w.journal[id]) {
      BereftGoes(id, u, session, part, h, w);
    } else if !w.journal[id].op.DeleteRequest? && Arriving(w.journal[id].op.dest, w) {
      SameJournalArrives(w.journal[id].op.dest, w, Without(w, u, session, part));
    }
  }

  /** An open session may be given up or expire at any moment, with the part that was staged for it or without it. */
  lemma {:induction false} DropKeepsSound(u: Id, session: bool, part: bool, h: History, w: World)
    requires Drop(u, session, h, w) && Sound(h, w)
    ensures Sound(Bereft(h, u, session, part, w), Without(w, u, session, part))
  {
    var g, z := Bereft(h, u, session, part, w), Without(w, u, session, part);
    forall id | id in z.journal ensures EntrySound(id, g, z) {
      DropKeepsEntry(id, u, session, part, h, w);
    }
    forall a, b | a in z.journal && b in z.journal && a != b ensures PairSound(a, b, g, z) {
      assert PairSound(a, b, h, w);
    }
    forall r ensures Dangling(r, z) == Dangling(r, w) && BeingMoved(r, z) == BeingMoved(r, w) {
    }
    forall r | r in h.astray ensures Lost(r, z) {
      assert Lost(r, w);
    }
  }

  // ---------------------------------------------------------------------------------------------
  // A deleted request is inserted again
  // ---------------------------------------------------------------------------------------------

  /** Nothing in progress is about the request. */
  ghost predicate Idle(r: Id, w: World) {
    forall a :: a in w.journal && Active(w.journal[a]) ==> !Uses(w.journal[a].op, r)
  }

  function Reinserted(h: History, r: Id): History {
    h.(astray := h.astray + {r}, revived := h.revived + {r})
  }

  lemma {:induction false} InsertKeepsEntry(id: Id, r: Id, row: Row, h: History, w: World)
    requires Core(h, w) && r !in w.requests && Idle(r, w) && id in w.journal && EntrySound(id, h, w)
    ensures EntrySound(id, Reinserted(h, r), WithRow(w, r, row))
  {
    var op, z := w.journal[id].op, WithRow(w, r, row);
    if Active(w.journal[id]) {
      assert !Uses(op, r);
      GoingSees(id, op, h.starts[id], w, z);
    } else if !op.DeleteRequest? && Target(op) != r && Arriving(op.dest, w) {
      SameJournalArrives(op.dest, w, z);
    }
  }

  lemma {:induction false} InsertKeepsCore(r: Id, row: Row, h: History, w: World)
    requires Core(h, w) && r !in w.requests && Idle(r, w) && row.filePath.Some? && KeyOf(row.filePath.value, r)
    ensures Core(Reinserted(h, r), WithRow(w, r, row))
  {
    var g, z := Reinserted(h, r), WithRow(w, r, row);
    forall id | id in z.journal ensures EntrySound(id, g, z) {
      InsertKeepsEntry(id, r, row, h, w);
    }
    forall a, b | a in z.journal && b in z.journal && a != b ensures PairSound(a, b, g, z) {
      assert PairSound(a, b, h, w);
    }
    forall q | q !in g.astray && Dangling(q, z) ensures BeingMoved(q, z) {
      assert BeingMoved(q, w) == BeingMoved(q, z) && Dangling(q, w);
    }
  }

  // ---------------------------------------------------------------------------------------------
  // A committed operation's trash is purged and it leaves the journal
  // ---------------------------------------------------------------------------------------------

  ghost predicate Tidied(id: Id, op: Operation, v: World, w: World) {
    && OnlyTrashGone(Discards(op), v.store, w.store) && w.staged == v.staged && w.uploads == v.uploads
    && w.requests == v.requests && (forall i :: i != id ==> Look(w.journal, i) == Look(v.journal, i))
    && (id in w.journal ==> w.journal[id] == Entry(op, Committed))
  }

  ghost predicate Tidy(id: Id, h: History, v: World, w: World) {
    Core(h, v) && id in v.journal && !Active(v.journal[id]) && EntrySound(id, h, v)
      && Tidied(id, v.journal[id].op, v, w)
  }

  lemma {:induction false} OnlyOwnTrashGoes(id: Id, op: Operation, v: Store, w: Store, p: Path)
    requires Keyed(id, op) && OnlyTrashGone(Discards(op), v, w) && !(p.Trash? && p.operation == id)
    ensures Look(w, p) == Look(v, p)
  {
    assert AssetsKeyed(Discards(op), op.requestId, id);
  }

  lemma {:induction false} ActiveKeepsInTidy(id: Id, h: History, v: World, w: World, a: Id)
    requires Tidy(id, h, v, w) && a in v.journal && Active(v.journal[a]) && a != id && EntrySound(a, h, v)
    ensures ActiveSound(a, v.journal[a].op, h, w)
  {
    var op := v.journal[a].op;
    forall p | Reads(op, p) ensures Look(w.store, p) == Look(v.store, p) {
      KeysSay(a, op, p);
      OnlyOwnTrashGoes(id, v.journal[id].op, v.store, w.store, p);
    }
    GoingSees(a, op, h.starts[a], v, w);
    if op.AttachModel? && op.requestId in w.requests && w.requests[op.requestId].filePath.Some? {
      OnlyOwnTrashGoes(id, v.journal[id].op, v.store, w.store, w.requests[op.requestId].filePath.value);
    }
  }

  lemma {:induction false} TidyKeepsEntry(id: Id, h: History, v: World, w: World, a: Id)
    requires Tidy(id, h, v, w) && a in w.journal
    ensures a in v.journal && w.journal[a] == v.journal[a] && EntrySound(a, h, w)
  {
    assert a != id ==> Look(w.journal, a) == Look(v.journal, a);
    assert EntrySound(a, h, v);
    var op := v.journal[a].op;
    if Active(v.journal[a]) {
      ActiveKeepsInTidy(id, h, v, w, a);
    } else if !op.DeleteRequest? {
      OnlyOwnTrashGoes(id, v.journal[id].op, v.store, w.store, op.dest);
      if Arriving(op.dest, v) {
        StillArriving(id, h, v, w, op.dest);
      }
    }
  }

  lemma {:induction false} ModelsInTidy(id: Id, h: History, v: World, w: World, r: Id)
    requires Tidy(id, h, v, w)
    ensures Dangling(r, w) == Dangling(r, v) && (BeingMoved(r, v) ==> BeingMoved(r, w))
  {
    if r in v.requests && v.requests[r].filePath.Some? {
      OnlyOwnTrashGoes(id, v.journal[id].op, v.store, w.store, v.requests[r].filePath.value);
    }
    if BeingMoved(r, v) {
      var j :| j in v.journal && Active(v.journal[j]) && MovesModelOf(v.journal[j].op, r);
      assert Look(w.journal, j) == Look(v.journal, j);
    }
  }

  lemma {:induction false} TidyKeepsCore(id: Id, h: History, v: World, w: World)
    requires Tidy(id, h, v, w)
    ensures Core(h, w)
  {
    forall a | a in w.journal ensures EntrySound(a, h, w) {
      TidyKeepsEntry(id, h, v, w, a);
    }
    forall a, b | a in w.journal && b in w.journal && a != b ensures PairSound(a, b, h, w) {
      TidyKeepsEntry(id, h, v, w, a);
      TidyKeepsEntry(id, h, v, w, b);
      assert PairSound(a, b, h, v);
    }
    forall r | r !in h.astray && Dangling(r, w) ensures BeingMoved(r, w) {
      ModelsInTidy(id, h, v, w, r);
    }
  }

  // ---------------------------------------------------------------------------------------------
  // Carrying out a committed operation again
  // ---------------------------------------------------------------------------------------------

  ghost predicate Replay(id: Id, h: History, v: World, w: World) {
    && Core(h, v) && id in v.journal && !Active(v.journal[id]) && EntrySound(id, h, v)
    && Replayed(id, v.journal[id].op, v, w)
  }

  /**
   * It wrote its request's row: a request that had been deleted is back, or one that is there names the older model.
   */
  ghost function Recalled(h: History, op: Operation, v: World, w: World): History {
    if w.requests == v.requests then h
    else if Revives(op, v) then Reinserted(h, Target(op))
    else if op.AttachModel? && op.requestId in v.requests then
      Rewritten(h, op.requestId, AttachedRow(v.requests[op.requestId], op), v)
    else h
  }

  /** A row changes only where the request had been deleted, or where an attach's session has gone. */
  lemma {:induction false} RowAgain(id: Id, h: History, v: World, w: World)
    requires Replay(id, h, v, w) && w.requests != v.requests
    ensures var op := v.journal[id].op;
      && (Revives(op, v) || (op.AttachModel? && op.requestId in v.requests && op.uploadId !in v.uploads))
      && (Revives(op, v) ==> Idle(Target(op), v))
      && (Revives(op, v) ==> w.requests == v.requests[Target(op) := NewRow(op.fileName, op.dest)])
      && (!Revives(op, v) ==>
            w.requests == v.requests[op.requestId := AttachedRow(v.requests[op.requestId], op)])
  {
    var op := v.journal[id].op;
    if Revives(op, v) {
      forall a | a in v.journal && Active(v.journal[a]) ensures !Uses(v.journal[a].op, Target(op)) {
        assert EntrySound(a, h, v) && PairSound(a, id, h, v);
      }
    }
  }

  lemma {:induction false} ReplayKeepsCore(id: Id, h: History, v: World, w: World)
    requires Replay(id, h, v, w)
    ensures Core(Recalled(h, v.journal[id].op, v, w), w)
  {
    var op := v.journal[id].op;
    var g, m := Recalled(h, op, v, w), v.(requests := w.requests);
    if w.requests == v.requests {
      assert m == v;
    } else {
      RowAgain(id, h, v, w);
      if Revives(op, v) {
        InsertKeepsCore(Target(op), NewRow(op.fileName, op.dest), h, v);
      } else {
        RewriteKeepsCore(op.requestId, AttachedRow(v.requests[op.requestId], op), h, v);
      }
    }
    assert Core(g, m);
    assert EntrySound(id, g, m);
    TidyKeepsCore(id, g, m, w);
  }

  /**
   * Carrying a committed operation out again keeps the state sound; a deleted request it inserts is noted as revived,
   * and where it points a row at a model that is gone, as astray.
   */
  lemma {:induction false} ReplayKeepsSound(id: Id, h: History, v: World, w: World)
    requires Replay(id, h, v, w)
    ensures Sound(Pruned(Recalled(h, v.journal[id].op, v, w), w), w)
  {
    ReplayKeepsCore(id, h, v, w);
    PrunedIsSound(Recalled(h, v.journal[id].op, v, w), w);
  }
}
