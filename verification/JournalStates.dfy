/**
 * What every reachable state of rows, store and journal keeps, whatever begins, goes on, fails or crashes in between.
 */
module JournalStates {
  import opened Options
  import opened Journal

  /**
   * Where each operation began; the requests whose model was lost to an error that a rollback swallowed or to a row
   * that names a file that is gone, and has not been found since; those of which an older file was read, or which were
   * pointed at one, after their model had been replaced; and those that were inserted again after a deletion.
   */
  datatype History = History(starts: map<Id, World>, astray: set<Id>, outdated: set<Id>, revived: set<Id>)

  predicate Active(entry: Entry) {
    entry.state != Committed
  }

  ghost predicate Dangling(r: Id, w: World) {
    r in w.requests && w.requests[r].filePath.Some? && w.requests[r].filePath.value !in w.store
  }

  ghost predicate MovesModelOf(op: Operation, r: Id) {
    (op.DeleteRequest? || op.AttachModel?) && op.requestId == r
  }

  /** A delete or a model swap of the request is still moving its files. */
  ghost predicate BeingMoved(r: Id, w: World) {
    exists id :: id in w.journal && Active(w.journal[id]) && MovesModelOf(w.journal[id].op, r)
  }

  // ---------------------------------------------------------------------------------------------
  // The invariant
  // ---------------------------------------------------------------------------------------------

  /** What the operation stored under its key is gone unless it is the request's model. */
  ghost predicate OnlyAsModel(op: Operation, s: World) {
    !op.DeleteRequest? && Target(op) in s.requests && op.dest in s.store ==>
      s.requests[Target(op)].filePath == Some(op.dest)
  }

  /** A model swap in progress brings a new model to the key. */
  ghost predicate Arriving(p: Path, w: World) {
    exists a :: a in w.journal && Active(w.journal[a]) && w.journal[a].op.AttachModel? && w.journal[a].op.dest == p
  }

  ghost predicate ModelOnly(op: Operation, w: World) {
    OnlyAsModel(op, w) || (!op.DeleteRequest? && Arriving(op.dest, w))
  }

  /** The request keeps its model if the swap is undone: the model is put back, or stays where it is. */
  ghost predicate ModelSafe(op: Operation, s0: World, w: World)
    requires op.AttachModel?
  {
    op.requestId in w.requests && w.requests[op.requestId].filePath.Some? ==>
      var p := w.requests[op.requestId].filePath.value;
      p != op.dest && if Originals(Replaced(op), p) then p in s0.store else p in w.store
  }

  ghost predicate ActiveSound(id: Id, op: Operation, h: History, w: World) {
    && id in h.starts && Begun(op, h.starts[id]) && Going(id, op, h.starts[id], w)
    && (!op.UploadModel? ==> op.requestId in w.requests)
    && (!Inserts(op) && op.requestId !in h.outdated ==> Covers(Discards(op), op.requestId, h.starts[id]))
    && (op.AttachModel? && op.requestId !in h.astray ==> ModelSafe(op, h.starts[id], w))
  }

  ghost predicate CommittedSound(op: Operation, h: History, w: World) {
    && SessionClosed(op, w)
    && (Target(op) !in h.outdated ==>
          ModelOnly(op, w) && (!op.DeleteRequest? && Target(op) !in w.requests ==> op.dest !in w.store))
  }

  ghost predicate EntrySound(id: Id, h: History, w: World)
    requires id in w.journal
  {
    && Keyed(id, w.journal[id].op)
    && if Active(w.journal[id]) then ActiveSound(id, w.journal[id].op, h, w) else CommittedSound(w.journal[id].op, h, w)
  }

  /**
   * Two operations at once: different uploads, different new requests, and on one request only after the other is
   * committed.
   */
  ghost predicate PairSound(a: Id, b: Id, h: History, w: World)
    requires a in w.journal && b in w.journal
  {
    var x, y := w.journal[a].op, w.journal[b].op;
    && (HasSession(x) && HasSession(y) ==> x.uploadId != y.uploadId)
    && (Inserts(x) && Inserts(y) ==> Target(x) != Target(y))
    && (Active(w.journal[a]) ==>
          && (Active(w.journal[b]) ==> Unrelated(x, y))
          && (Inserts(x) ==> !Uses(y, Target(x)))
          && (!Active(w.journal[b]) && Target(y) == x.requestId ==>
                b < a && a in h.starts && (x.requestId !in h.outdated ==> OnlyAsModel(y, h.starts[a]))))
  }

  /** Closed sessions name requests that are there, and a request's model has one of the request's keys. */
  ghost predicate RowsSound(w: World) {
    && (forall u :: u in w.uploads && w.uploads[u].completed.Some? ==> w.uploads[u].completed.value in w.requests)
    && (forall r :: r in w.requests && w.requests[r].filePath.Some? ==> KeyOf(w.requests[r].filePath.value, r))
  }

  /** The request's model is not where the row says. */
  ghost predicate Lost(r: Id, w: World) {
    Dangling(r, w) || BeingMoved(r, w)
  }

  /** But for the ones that went astray, no request points at a model that is gone, except while it is being moved. */
  ghost predicate Core(h: History, w: World) {
    && (forall id :: id in w.journal ==> EntrySound(id, h, w))
    && (forall a, b :: a in w.journal && b in w.journal && a != b ==> PairSound(a, b, h, w))
    && RowsSound(w)
    && forall r :: r !in h.astray && Dangling(r, w) ==> BeingMoved(r, w)
  }

  ghost predicate Sound(h: History, w: World) {
    Core(h, w) && forall r :: r in h.astray ==> Lost(r, w)
  }

  /** A model that has been found, or whose request has gone, is not astray any more. */
  ghost function Pruned(h: History, w: World): History {
    h.(astray := set r | r in h.astray && Lost(r, w))
  }

  lemma {:induction false} PrunedIsSound(h: History, w: World)
    requires Core(h, w)
    ensures Sound(Pruned(h, w), w)
  {
    var g := Pruned(h, w);
    forall id | id in w.journal ensures EntrySound(id, g, w) {
      assert EntrySound(id, h, w);
      if Active(w.journal[id]) && w.journal[id].op.AttachModel? {
        assert MovesModelOf(w.journal[id].op, w.journal[id].op.requestId);
        assert BeingMoved(w.journal[id].op.requestId, w);
      }
    }
    forall a, b | a in w.journal && b in w.journal && a != b ensures PairSound(a, b, g, w) {
      assert PairSound(a, b, h, w);
    }
  }

  // ---------------------------------------------------------------------------------------------
  // One operation's effects
  // ---------------------------------------------------------------------------------------------

  /** Dropped because of an error that a rollback swallowed, or that made a repeat give up: rows and sessions stay. */
  ghost predicate Spoiled(id: Id, op: Operation, s0: World, v: World, w: World) {
    && (op.AttachModel? || op.RepeatRequest?) && id !in w.journal && w.requests == v.requests && w.uploads == v.uploads
    && (op.AttachModel? ==> AllInMove(Replaced(op), s0.store, w.store) && op.dest !in w.store)
  }

  /** What an operation in progress may come to in one go, complete or cut short. */
  ghost predicate Stepped(id: Id, op: Operation, s0: World, v: World, w: World, spoiled: bool) {
    && OnlyTouched(id, op, v, w) && w.journal.Keys <= v.journal.Keys
    && if spoiled then Spoiled(id, op, s0, v, w) else Going(id, op, s0, w) || Settled(id, op, s0, w)
  }

  function Noted(h: History, op: Operation, spoiled: bool): History {
    if spoiled then h.(astray := h.astray + {Target(op)}) else h
  }

  /** Row and session are as they were. */
  ghost predicate Unrecorded(op: Operation, v: World, w: World) {
    && Look(w.requests, Target(op)) == Look(v.requests, Target(op))
    && (forall u :: Look(w.uploads, u) == Look(v.uploads, u))
  }

  /** Row and session have been written, or the request with its sessions and assets has gone. */
  ghost predicate Done(op: Operation, w: World) {
    if op.DeleteRequest? then
      && op.requestId !in w.requests && NoSessionOf(op.requestId, w)
      && forall p :: Originals(op.assets, p) ==> p !in w.store
    else
      && Target(op) in w.requests && w.requests[Target(op)].filePath == Some(op.dest) && op.dest in w.store
      && SessionClosed(op, w)
      && (op.AttachModel? ==> forall p :: Originals(Replaced(op), p) ==> p !in w.store)
  }

  lemma {:induction false} AssetsGone(xs: seq<Asset>, before: Store, now: Store, p: Path)
    requires AllInTrash(xs, before, now) || AllPurging(xs, before, now) || AllPurged(xs, now)
    requires Originals(xs, p)
    ensures p !in now
  {
    var i :| 0 <= i < |xs| && xs[i].original == p;
    assert InTrash(xs[i], before, now) || Purging(xs[i], before, now) || Purged(xs[i], now);
  }

  /**
   * An operation in progress has recorded nothing yet; then it records all at once, or is undone and records nothing.
   */
  lemma {:induction false} AllOrNothing(id: Id, op: Operation, s0: World, v: World, w: World, spoiled: bool)
    requires Begun(op, s0) && Going(id, op, s0, v) && Active(v.journal[id]) && Stepped(id, op, s0, v, w, spoiled)
    ensures Unrecorded(op, v, w) || Done(op, w)
    ensures Unrecorded(op, v, w) <== spoiled || (id in w.journal && Active(w.journal[id]))
    ensures id in w.journal && !Active(w.journal[id]) ==> Done(op, w)
    ensures op.DeleteRequest? && id !in w.journal ==> Done(op, w)
  {
    if !spoiled {
      NotYet(id, op, s0, v, w);
    }
  }

  lemma {:induction false} NotYet(id: Id, op: Operation, s0: World, v: World, w: World)
    requires Begun(op, s0) && Going(id, op, s0, v) && Active(v.journal[id])
    requires OnlyTouched(id, op, v, w) && (Going(id, op, s0, w) || Settled(id, op, s0, w))
    ensures Unrecorded(op, v, w) || Done(op, w)
    ensures id in w.journal && Active(w.journal[id]) ==> Unrecorded(op, v, w)
    ensures id in w.journal && !Active(w.journal[id]) ==> Done(op, w)
    ensures op.DeleteRequest? && id !in w.journal ==> Done(op, w)
  {
    var xs := Discards(op);
    forall p | Originals(xs, p)
      ensures AllInTrash(xs, s0.store, w.store) || AllPurging(xs, s0.store, w.store) || AllPurged(xs, w.store) ==>
                p !in w.store
    {
      if AllInTrash(xs, s0.store, w.store) || AllPurging(xs, s0.store, w.store) || AllPurged(xs, w.store) {
        AssetsGone(xs, s0.store, w.store, p);
      }
    }
    if !Done(op, w) || (id in w.journal && Active(w.journal[id])) {
      forall u ensures Look(w.uploads, u) == Look(v.uploads, u) {
        assert SessionFollows(op, u, v, w);
      }
    }
  }

  // ---------------------------------------------------------------------------------------------
  // A step of an operation in progress keeps the invariant
  // ---------------------------------------------------------------------------------------------

  ghost predicate Step(id: Id, h: History, v: World, w: World, spoiled: bool) {
    && Core(h, v) && id in v.journal && Active(v.journal[id]) && EntrySound(id, h, v)
    && Stepped(id, v.journal[id].op, h.starts[id], v, w, spoiled)
  }

  /** What an operation's keys do not reach stays. */
  lemma {:induction false} FarKeyStays(id: Id, op: Operation, v: World, w: World, p: Path)
    requires Keyed(id, op) && OnlyTouched(id, op, v, w) && p.OfRequest?
    requires p.request != Target(op) || (!Originals(Discards(op), p) && (op.DeleteRequest? || op.dest != p))
    ensures Look(w.store, p) == Look(v.store, p)
  {
    KeysSay(id, op, p);
    forall i | 0 <= i < |Discards(op)|
      ensures Discards(op)[i].trash != p && (p.request == Target(op) ==> Discards(op)[i].original != p)
    {
      assert AssetsKeyed(Discards(op), op.requestId, id);
      assert Discards(op)[i].original == p ==> Originals(Discards(op), p);
    }
  }

  /** An undone or half done operation has put nothing at a place that was empty. */
  lemma {:induction false} WasThere(id: Id, op: Operation, s0: World, v: World, w: World, spoiled: bool, p: Path)
    requires Begun(op, s0) && Stepped(id, op, s0, v, w, spoiled)
    requires id in w.journal ==> Active(w.journal[id])
    requires op.AttachModel? || op.DeleteRequest?
    requires Originals(Discards(op), p) && p in w.store
    ensures p in s0.store
  {
    var i :| 0 <= i < |Discards(op)| && Discards(op)[i].original == p;
    var x := Discards(op)[i];
    if !spoiled && id !in w.journal {
      if op.AttachModel? && op.part !in s0.staged {
        assert Back(x, s0.store, w.store);
      } else {
        AssetsGone(Discards(op), s0.store, w.store, p);
      }
    } else {
      assert InMove(x, s0.store, w.store) || InTrash(x, s0.store, w.store) || Purging(x, s0.store, w.store);
    }
  }

  lemma {:induction false} ArrivingIsOwn(id: Id, h: History, v: World, p: Path)
    requires Core(h, v) && id in v.journal && Active(v.journal[id])
    requires KeyOf(p, Target(v.journal[id].op)) && Arriving(p, v)
    ensures v.journal[id].op.AttachModel? && v.journal[id].op.dest == p
  {
    var a :| a in v.journal && Active(v.journal[a]) && v.journal[a].op.AttachModel? && v.journal[a].op.dest == p;
    assert EntrySound(a, h, v);
    assert a != id ==> PairSound(a, id, h, v);
  }

  lemma {:induction false} UndoneNotLanded(id: Id, op: Operation, s0: World, v: World, w: World, spoiled: bool)
    requires Begun(op, s0) && Stepped(id, op, s0, v, w, spoiled) && id !in w.journal && op.AttachModel? && !Done(op, w)
    ensures op.dest !in w.store
  {
    if !spoiled {
      forall q | Originals(Replaced(op), q) && AllPurged(Replaced(op), w.store) ensures q !in w.store {
        AssetsGone(Replaced(op), s0.store, w.store, q);
      }
    }
  }

  /** A key that an older operation stored under is empty, or still the request's model, while a newer one goes on. */
  lemma {:induction false} OlderModel(id: Id, c: Operation, h: History, v: World, w: World, spoiled: bool)
    requires Step(id, h, v, w, spoiled)
    requires !Inserts(v.journal[id].op) && Target(v.journal[id].op) == Target(c) && !c.DeleteRequest?
    requires KeyOf(c.dest, Target(c)) && ModelOnly(c, v) && OnlyAsModel(c, h.starts[id])
    requires Target(c) !in h.outdated
    ensures ModelOnly(c, w)
    ensures v.journal[id].op.DeleteRequest? && Done(v.journal[id].op, w) ==> c.dest !in w.store
  {
    var op, s0 := v.journal[id].op, h.starts[id];
    assert Covers(Discards(op), op.requestId, s0);
    AllOrNothing(id, op, s0, v, w, spoiled);
    if op.AttachModel? && op.dest == c.dest {
      if !Done(op, w) && id !in w.journal {
        UndoneNotLanded(id, op, s0, v, w, spoiled);
      } else {
        assert id in w.journal && Active(w.journal[id]) ==> Arriving(c.dest, w);
      }
    } else if c.dest in w.store {
      if Arriving(c.dest, v) {
        ArrivingIsOwn(id, h, v, c.dest);
      }
      OlderKey(id, c, h, v, w, spoiled);
    }
  }

  lemma {:induction false} OlderKey(id: Id, c: Operation, h: History, v: World, w: World, spoiled: bool)
    requires Step(id, h, v, w, spoiled)
    requires !Inserts(v.journal[id].op) && Target(v.journal[id].op) == Target(c) && !c.DeleteRequest?
    requires KeyOf(c.dest, Target(c)) && OnlyAsModel(c, v) && OnlyAsModel(c, h.starts[id])
    requires Target(c) !in h.outdated
    requires v.journal[id].op.DeleteRequest? || v.journal[id].op.dest != c.dest
    ensures OnlyAsModel(c, w) && (Done(v.journal[id].op, w) ==> c.dest !in w.store)
  {
    var op, s0 := v.journal[id].op, h.starts[id];
    assert Covers(Discards(op), op.requestId, s0);
    if c.dest in w.store {
      AllOrNothing(id, op, s0, v, w, spoiled);
      if Originals(Discards(op), c.dest) {
        if !Done(op, w) {
          WasThere(id, op, s0, v, w, spoiled, c.dest);
        }
      } else {
        FarKeyStays(id, op, v, w, c.dest);
      }
    }
  }

  lemma {:induction false} StillArriving(id: Id, h: History, v: World, w: World, p: Path)
    requires Core(h, v) && id in v.journal && Arriving(p, v)
    requires Active(v.journal[id]) ==> !KeyOf(p, Target(v.journal[id].op))
    requires forall i :: i != id ==> Look(w.journal, i) == Look(v.journal, i)
    ensures Arriving(p, w)
  {
    var a :| a in v.journal && Active(v.journal[a]) && v.journal[a].op.AttachModel? && v.journal[a].op.dest == p;
    assert EntrySound(a, h, v);
    assert a != id;
    assert Look(w.journal, a) == Look(v.journal, a);
  }

  lemma {:induction false} OlderKeeps(id: Id, a: Id, h: History, v: World, w: World, spoiled: bool)
    requires Step(id, h, v, w, spoiled) && a != id && a in v.journal && !Active(v.journal[a])
    requires PairSound(id, a, h, v) && EntrySound(a, h, v)
    ensures CommittedSound(v.journal[a].op, Noted(h, v.journal[id].op, spoiled), w)
  {
    var op, c := v.journal[id].op, v.journal[a].op;
    if Target(c) == Target(op) {
      OlderOfSameRequest(id, a, h, v, w, spoiled);
    } else if !c.DeleteRequest? {
      assert Look(w.requests, Target(c)) == Look(v.requests, Target(c));
      FarKeyStays(id, op, v, w, c.dest);
      if Arriving(c.dest, v) {
        StillArriving(id, h, v, w, c.dest);
      }
      if HasSession(c) {
        SessionStays(id, a, h, v, w);
      }
    }
  }

  lemma {:induction false} SessionStays(id: Id, a: Id, h: History, v: World, w: World)
    requires id in v.journal && a in v.journal && !Active(v.journal[a]) && PairSound(id, a, h, v) && EntrySound(a, h, v)
    requires OnlyTouched(id, v.journal[id].op, v, w) && HasSession(v.journal[a].op)
    requires Target(v.journal[a].op) != Target(v.journal[id].op)
    ensures Look(w.uploads, v.journal[a].op.uploadId) == Look(v.uploads, v.journal[a].op.uploadId)
  {
    assert SessionFollows(v.journal[id].op, v.journal[a].op.uploadId, v, w);
  }

  lemma {:induction false} OlderOfSameRequest(id: Id, a: Id, h: History, v: World, w: World, spoiled: bool)
    requires Step(id, h, v, w, spoiled) && a != id && a in v.journal && !Active(v.journal[a])
    requires PairSound(id, a, h, v) && EntrySound(a, h, v) && Target(v.journal[a].op) == Target(v.journal[id].op)
    ensures CommittedSound(v.journal[a].op, Noted(h, v.journal[id].op, spoiled), w)
  {
    var op, c, s0 := v.journal[id].op, v.journal[a].op, h.starts[id];
    AllOrNothing(id, op, s0, v, w, spoiled);
    if !c.DeleteRequest? && Target(c) !in h.outdated {
      OlderModel(id, c, h, v, w, spoiled);
    }
    if HasSession(c) {
      assert SessionFollows(op, c.uploadId, v, w);
      assert Unrecorded(op, v, w) ==> Look(w.uploads, c.uploadId) == Look(v.uploads, c.uploadId);
    }
  }

  lemma {:induction false} OtherGoesOn(id: Id, a: Id, h: History, v: World, w: World, spoiled: bool)
    requires Step(id, h, v, w, spoiled) && a != id && a in v.journal && Active(v.journal[a])
    requires PairSound(a, id, h, v) && EntrySound(a, h, v)
    ensures ActiveSound(a, v.journal[a].op, Noted(h, v.journal[id].op, spoiled), w)
  {
    var op, that := v.journal[a].op, v.journal[id].op;
    UnrelatedDisjoint(a, op, id, that);
    assert HasSession(op) ==> SessionKept(op.uploadId, h.starts[a], v);
    OthersSee(a, op, id, that, v, w);
    GoingSees(a, op, h.starts[a], v, w);
    assert Look(w.requests, op.requestId) == Look(v.requests, op.requestId);
    if op.AttachModel? && op.requestId !in h.astray && v.requests[op.requestId].filePath.Some? {
      FarKeyStays(id, that, v, w, v.requests[op.requestId].filePath.value);
    }
  }

  lemma {:induction false} EntriesKeep(id: Id, h: History, v: World, w: World, spoiled: bool, a: Id)
    requires Step(id, h, v, w, spoiled) && a in w.journal
    ensures a in v.journal && w.journal[a].op == v.journal[a].op && (a != id ==> w.journal[a] == v.journal[a])
    ensures EntrySound(a, Noted(h, v.journal[id].op, spoiled), w)
  {
    assert EntrySound(a, h, v);
    if a != id {
      assert Look(w.journal, a) == Look(v.journal, a);
      assert PairSound(a, id, h, v) && PairSound(id, a, h, v);
      if Active(v.journal[a]) {
        OtherGoesOn(id, a, h, v, w, spoiled);
      } else {
        OlderKeeps(id, a, h, v, w, spoiled);
      }
    } else {
      AllOrNothing(id, v.journal[id].op, h.starts[id], v, w, spoiled);
      var r := v.journal[id].op.requestId;
      assert Look(w.requests, r) == Look(v.requests, r) || Done(v.journal[id].op, w);
      OwnModelSafe(id, h, v, w, spoiled);
    }
  }

  lemma {:induction false} OwnModelSafe(id: Id, h: History, v: World, w: World, spoiled: bool)
    requires Step(id, h, v, w, spoiled)
    ensures var op := v.journal[id].op;
      op.AttachModel? && op.requestId !in h.astray && Unrecorded(op, v, w) ==> ModelSafe(op, h.starts[id], w)
  {
    var op := v.journal[id].op;
    if op.AttachModel? && op.requestId !in h.astray && Unrecorded(op, v, w) && v.requests[op.requestId].filePath.Some? {
      var p := v.requests[op.requestId].filePath.value;
      if !Originals(Replaced(op), p) {
        FarKeyStays(id, op, v, w, p);
      }
    }
  }

  lemma {:induction false} PairsKeep(id: Id, h: History, v: World, w: World, spoiled: bool, a: Id, b: Id)
    requires Step(id, h, v, w, spoiled) && a in w.journal && b in w.journal && a != b
    ensures PairSound(a, b, Noted(h, v.journal[id].op, spoiled), w)
  {
    EntriesKeep(id, h, v, w, spoiled, a);
    EntriesKeep(id, h, v, w, spoiled, b);
    assert PairSound(a, b, h, v);
  }

  lemma {:induction false} RowsKeep(id: Id, h: History, v: World, w: World, spoiled: bool)
    requires Step(id, h, v, w, spoiled)
    ensures RowsSound(w)
  {
    var op := v.journal[id].op;
    AllOrNothing(id, op, h.starts[id], v, w, spoiled);
    forall u | u in w.uploads && w.uploads[u].completed.Some? ensures w.uploads[u].completed.value in w.requests {
      assert SessionFollows(op, u, v, w);
      var r := w.uploads[u].completed.value;
      assert Look(w.requests, r) == Look(v.requests, r) || r == Target(op);
    }
    forall r | r in w.requests && w.requests[r].filePath.Some? ensures KeyOf(w.requests[r].filePath.value, r) {
      assert Look(w.requests, r) == Look(v.requests, r) || r == Target(op);
    }
  }

  lemma {:induction false} OtherModelsKeep(id: Id, h: History, v: World, w: World, spoiled: bool, r: Id)
    requires Step(id, h, v, w, spoiled) && r != Target(v.journal[id].op)
    ensures Dangling(r, w) == Dangling(r, v) && (BeingMoved(r, v) ==> BeingMoved(r, w))
  {
    var op := v.journal[id].op;
    assert Look(w.requests, r) == Look(v.requests, r);
    if r in v.requests && v.requests[r].filePath.Some? {
      FarKeyStays(id, op, v, w, v.requests[r].filePath.value);
    }
    if BeingMoved(r, v) {
      var j :| j in v.journal && Active(v.journal[j]) && MovesModelOf(v.journal[j].op, r);
      assert Look(w.journal, j) == Look(v.journal, j);
    }
  }

  lemma {:induction false} OwnModelKeeps(id: Id, h: History, v: World, w: World, spoiled: bool)
    requires Step(id, h, v, w, spoiled)
    requires Target(v.journal[id].op) !in Noted(h, v.journal[id].op, spoiled).astray
    ensures Dangling(Target(v.journal[id].op), w) ==> BeingMoved(Target(v.journal[id].op), w)
  {
    var op, s0 := v.journal[id].op, h.starts[id];
    AllOrNothing(id, op, s0, v, w, spoiled);
    if op.AttachModel? && !Done(op, w) && id !in w.journal && v.requests[op.requestId].filePath.Some? {
      var p := v.requests[op.requestId].filePath.value;
      OwnModelSafe(id, h, v, w, spoiled);
      UndoneIsBack(id, op, s0, v, w);
      if Originals(Replaced(op), p) {
        var i :| 0 <= i < |Replaced(op)| && Replaced(op)[i].original == p;
        assert Back(Replaced(op)[i], s0.store, w.store);
      }
    } else if (op.AttachModel? || op.DeleteRequest?) && id in w.journal && Active(w.journal[id]) {
      assert MovesModelOf(w.journal[id].op, Target(op));
    }
  }

  lemma {:induction false} UndoneIsBack(id: Id, op: Operation, s0: World, v: World, w: World)
    requires Begun(op, s0) && Stepped(id, op, s0, v, w, false) && id !in w.journal && op.AttachModel? && !Done(op, w)
    ensures AllBack(Replaced(op), s0.store, w.store)
  {
    forall q | Originals(Replaced(op), q) && AllPurged(Replaced(op), w.store) ensures q !in w.store {
      AssetsGone(Replaced(op), s0.store, w.store, q);
    }
  }

  lemma {:induction false} StepKeepsCore(id: Id, h: History, v: World, w: World, spoiled: bool)
    requires Step(id, h, v, w, spoiled)
    ensures Core(Noted(h, v.journal[id].op, spoiled), w)
  {
    var op := v.journal[id].op;
    var g := Noted(h, op, spoiled);
    forall a | a in w.journal ensures EntrySound(a, g, w) {
      EntriesKeep(id, h, v, w, spoiled, a);
    }
    forall a, b | a in w.journal && b in w.journal && a != b ensures PairSound(a, b, g, w) {
      PairsKeep(id, h, v, w, spoiled, a, b);
    }
    RowsKeep(id, h, v, w, spoiled);
    forall r | r !in g.astray && Dangling(r, w) ensures BeingMoved(r, w) {
      if r == Target(op) {
        OwnModelKeeps(id, h, v, w, spoiled);
      } else {
        OtherModelsKeep(id, h, v, w, spoiled, r);
      }
    }
  }

  /** Whatever an operation in progress comes to, complete or cut short, the state stays sound. */
  lemma {:induction false} StepKeepsSound(id: Id, h: History, v: World, w: World, spoiled: bool)
    requires Step(id, h, v, w, spoiled)
    ensures Sound(Pruned(Noted(h, v.journal[id].op, spoiled), w), w)
  {
    StepKeepsCore(id, h, v, w, spoiled);
    PrunedIsSound(Noted(h, v.journal[id].op, spoiled), w);
  }

  // ---------------------------------------------------------------------------------------------
  // Beginning an operation keeps the invariant
  // ---------------------------------------------------------------------------------------------

  /** No operation in the journal is about the request. */
  ghost predicate Unused(r: Id, journal: map<Id, Entry>) {
    forall a :: a in journal ==> !Uses(journal[a].op, r)
  }

  /** What makes an operation one that may begin: it is the newest, and what was made for it is its own. */
  ghost predicate Offered(id: Id, op: Operation, h: History, w: World) {
    && Keyed(id, op)
    && (HasSession(op) ==> op.uploadId in w.uploads)
    && (forall a :: a in w.journal ==> a < id)
    && (Inserts(op) ==> Target(op) !in w.requests && Unused(Target(op), w.journal))
  }

  /** Nothing uncommitted is in its way. */
  ghost predicate Free(op: Operation, w: World) {
    && (forall a :: a in w.journal && Active(w.journal[a]) ==> w.journal[a].op.requestId != op.requestId)
    && (HasSession(op) ==> forall a :: a in w.journal && HasSession(w.journal[a].op) ==>
      w.journal[a].op.uploadId != op.uploadId)
  }

  /** What it throws away was read earlier, and the request's model has been replaced since. */
  ghost predicate Stale(op: Operation, w: World) {
    !Inserts(op) && !Covers(Discards(op), op.requestId, w)
  }

  ghost function Started(h: History, id: Id, op: Operation, w: World): History {
    h.(starts := h.starts[id := w], outdated := if Stale(op, w) then h.outdated + {op.requestId} else h.outdated)
  }

  function Opened(id: Id, op: Operation, w: World): World {
    w.(journal := w.journal[id := Entry(op, Prepared)])
  }

  lemma {:induction false} OthersUnrelated(id: Id, op: Operation, h: History, w: World, a: Id)
    requires Sound(h, w) && Offered(id, op, h, w) && Free(op, w) && Begun(op, w)
    requires a in w.journal && Active(w.journal[a])
    ensures Unrelated(op, w.journal[a].op) && Unrelated(w.journal[a].op, op)
  {
    assert EntrySound(a, h, w);
  }

  /** A request nothing is in the way of has its model, unless that went astray. */
  lemma {:induction false} NotBeingMoved(op: Operation, h: History, w: World)
    requires Core(h, w) && Free(op, w) && op.requestId !in h.astray
    ensures !Dangling(op.requestId, w)
  {
    forall a | a in w.journal && Active(w.journal[a]) ensures !MovesModelOf(w.journal[a].op, op.requestId) {
    }
  }

  lemma {:induction false} JustBegun(id: Id, op: Operation, w: World)
    requires Begun(op, w)
    ensures Going(id, op, w, Opened(id, op, w)) && (!op.UploadModel? ==> op.requestId in w.requests)
  {
  }

  lemma {:induction false} NewEntrySound(id: Id, op: Operation, h: History, w: World)
    requires Sound(h, w) && Offered(id, op, h, w) && Free(op, w) && Begun(op, w)
    ensures EntrySound(id, Started(h, id, op, w), Opened(id, op, w))
  {
    JustBegun(id, op, w);
    if op.requestId !in h.astray {
      NotBeingMoved(op, h, w);
    }
    if op.AttachModel? && w.requests[op.requestId].filePath.Some? {
      var p := w.requests[op.requestId].filePath.value;
      if Originals(Replaced(op), p) {
        var i :| 0 <= i < |Replaced(op)| && Replaced(op)[i].original == p;
        assert Touches(Replaced(op), p);
      }
    }
  }

  /**
   * An operation that begins at any reachable state, with others half done or left over, leads to a reachable state.
   */
  lemma {:induction false} BeginKeepsSound(id: Id, op: Operation, h: History, w: World)
    requires Sound(h, w) && Offered(id, op, h, w) && Free(op, w) && Begun(op, w)
    ensures Sound(Started(h, id, op, w), Opened(id, op, w))
  {
    var g, z := Started(h, id, op, w), Opened(id, op, w);
    NewEntrySound(id, op, h, w);
    forall a | a in z.journal ensures EntrySound(a, g, z) {
      if a != id {
        assert EntrySound(a, h, w);
        if Active(w.journal[a]) {
          GoingSees(a, w.journal[a].op, h.starts[a], w, z);
        } else if !w.journal[a].op.DeleteRequest? && Arriving(w.journal[a].op.dest, w) {
          ArrivingOnceMore(w.journal[a].op.dest, w, z);
        }
      }
    }
    forall a, b | a in z.journal && b in z.journal && a != b ensures PairSound(a, b, g, z) {
      if a == id {
        BeginPairs(id, op, h, w, b);
      } else if b == id {
        BeginPairs(id, op, h, w, a);
      } else {
        assert PairSound(a, b, h, w);
      }
    }
    forall r | BeingMoved(r, w) ensures BeingMoved(r, z) {
      var j :| j in w.journal && Active(w.journal[j]) && MovesModelOf(w.journal[j].op, r);
      assert j in z.journal && z.journal[j] == w.journal[j];
    }
    forall r | r in h.astray ensures Lost(r, z) {
      assert Lost(r, w);
    }
  }

  lemma {:induction false} ArrivingOnceMore(p: Path, w: World, z: World)
    requires Arriving(p, w) && forall a :: a in w.journal ==> a in z.journal && z.journal[a] == w.journal[a]
    ensures Arriving(p, z)
  {
    var a :| a in w.journal && Active(w.journal[a]) && w.journal[a].op.AttachModel? && w.journal[a].op.dest == p;
    assert z.journal[a] == w.journal[a];
  }

  lemma {:induction false} BeginPairs(id: Id, op: Operation, h: History, w: World, b: Id)
    requires Sound(h, w) && Offered(id, op, h, w) && Free(op, w) && Begun(op, w) && b in w.journal && b != id
    ensures PairSound(id, b, Started(h, id, op, w), Opened(id, op, w))
    ensures PairSound(b, id, Started(h, id, op, w), Opened(id, op, w))
  {
    var c := w.journal[b].op;
    assert EntrySound(b, h, w);
    if Active(w.journal[b]) {
      OthersUnrelated(id, op, h, w, b);
    } else if !c.DeleteRequest? && Target(c) == op.requestId {
      forall a | a in w.journal && Active(w.journal[a]) && w.journal[a].op.AttachModel?
        ensures w.journal[a].op.dest != c.dest
      {
        assert EntrySound(a, h, w);
      }
    }
  }

  function Staged(w: World, u: Id, bytes: Bytes): World {
    w.(uploads := w.uploads[u := Upload(|bytes|, None)], staged := w.staged[Part(u) := bytes])
  }

  /** So does a new session with the part staged for it. */
  lemma {:induction false} StagingKeepsSound(h: History, w: World, u: Id, bytes: Bytes)
    requires Sound(h, w) && u !in w.uploads
    requires forall a :: a in w.journal && HasSession(w.journal[a].op) ==> w.journal[a].op.uploadId != u
    ensures Sound(h, Staged(w, u, bytes))
  {
    var z := Staged(w, u, bytes);
    forall a | a in z.journal ensures EntrySound(a, h, z) {
      assert EntrySound(a, h, w);
      if Active(w.journal[a]) {
        GoingSees(a, w.journal[a].op, h.starts[a], w, z);
      }
    }
    forall a, b | a in z.journal && b in z.journal && a != b ensures PairSound(a, b, h, z) {
      assert PairSound(a, b, h, w);
    }
    forall r | BeingMoved(r, w) ensures BeingMoved(r, z) {
      var j :| j in w.journal && Active(w.journal[j]) && MovesModelOf(w.journal[j].op, r);
      assert j in z.journal && z.journal[j] == w.journal[j];
    }
    forall r | r in h.astray ensures Lost(r, z) {
      assert Lost(r, w);
    }
  }

  /** A quiet service, all of whose models are there, is where everything may begin. */
  lemma {:induction false} QuietIsSound(w: World)
    requires w.journal == map[] && RowsSound(w) && forall r :: !Dangling(r, w)
    ensures Sound(History(map[], {}, {}, {}), w)
  {
  }
}
