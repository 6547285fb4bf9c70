/**
 * Committed operations that a failed purge or finish left in the journal: which of them still change a row, and when.
 */
module JournalLeftovers {
  import opened Options
  import opened Journal
  import opened JournalStates
  import opened JournalRewrites

  /** The one operation in progress that an undisturbed run cannot carry out: a repeat whose source is gone. */
  predicate SourceLost(entry: Entry, store: Store) {
    entry.op.RepeatRequest? && entry.state == Prepared && entry.op.source !in store
  }

  predicate Stuck(entry: Entry, w: World) {
    !Active(entry) && Jammed(entry.op, w)
  }

  /** An operation at which an undisturbed run ends with an error. */
  predicate Blocked(entry: Entry, w: World) {
    SourceLost(entry, w.store) || Stuck(entry, w)
  }

  predicate Reviving(entry: Entry, w: World) {
    !Active(entry) && Revives(entry.op, w)
  }

  ghost predicate NoneRevives(w: World) {
    forall id :: id in w.journal ==> !Reviving(w.journal[id], w)
  }

  ghost predicate NoSourceLost(w: World) {
    forall id :: id in w.journal ==> !SourceLost(w.journal[id], w.store)
  }

  /** A leftover inserts its request again exactly when it inserts requests and that one has been deleted since. */
  lemma {:induction false} RevivesIffDeleted(id: Id, h: History, w: World)
    requires Sound(h, w) && id in w.journal && !Active(w.journal[id])
    ensures Reviving(w.journal[id], w) <==> Inserts(w.journal[id].op) && Target(w.journal[id].op) !in w.requests
  {
    assert EntrySound(id, h, w);
  }

  /** Its insertion is refused exactly when it is an upload whose request is there and whose session is not. */
  lemma {:induction false} StuckIff(id: Id, h: History, w: World)
    requires Sound(h, w) && id in w.journal && !Active(w.journal[id])
    ensures var op := w.journal[id].op;
      Stuck(w.journal[id], w) <==> op.UploadModel? && op.requestId in w.requests && op.uploadId !in w.uploads
  {
    assert EntrySound(id, h, w);
  }

  /** A refusal changes nothing, so it is refused again for as long as the request is there. */
  lemma {:induction false} StuckStays(id: Id, h: History, v: World, w: World)
    requires Replay(id, h, v, w) && Stuck(v.journal[id], v)
    ensures w == v
  {
    forall p ensures Look(w.store, p) == Look(v.store, p) {
      assert !IsTrash(Discards(v.journal[id].op), p);
    }
    forall i ensures Look(w.journal, i) == Look(v.journal, i) {
    }
    LookUnique(v.store, w.store);
    LookUnique(v.journal, w.journal);
  }

  /** Deleting the request once more lets the leftover in: it inserts the request again. */
  lemma {:induction false} DeletedOnceMore(id: Id, h: History, v: World, w: World, k: Id)
    requires Step(id, h, v, w, false) && v.journal[id].op.DeleteRequest? && Done(v.journal[id].op, w)
    requires k in v.journal && Stuck(v.journal[k], v) && v.journal[k].op.requestId == v.journal[id].op.requestId
    ensures k in w.journal && w.journal[k] == v.journal[k] && Reviving(w.journal[k], w)
  {
    var op := v.journal[k].op;
    assert Look(w.journal, k) == Look(v.journal, k);
    assert SessionFollows(v.journal[id].op, op.uploadId, v, w);
    assert EntrySound(k, h, v);
  }

  /** The session that would say that the operation was recorded is there, or there is no row left to write. */
  predicate Anchored(entry: Entry, w: World) {
    HasSession(entry.op) && entry.op.uploadId !in w.uploads ==>
      !Active(entry) && entry.op.AttachModel? && entry.op.requestId !in w.requests
  }

  ghost predicate AllAnchored(w: World) {
    forall id :: id in w.journal ==> Anchored(w.journal[id], w)
  }

  /** With its session there and its request not deleted, a leftover is carried out again without changing a row. */
  lemma {:induction false} ReplayChangesNoRow(id: Id, h: History, v: World, w: World)
    requires Replay(id, h, v, w) && !Reviving(v.journal[id], v) && Anchored(v.journal[id], v)
    ensures w.requests == v.requests && Recalled(h, v.journal[id].op, v, w) == h && !Stuck(v.journal[id], v)
  {
    if w.requests != v.requests {
      RowAgain(id, h, v, w);
    }
  }

  // ---------------------------------------------------------------------------------------------
  // What a step does to the operations behind it
  // ---------------------------------------------------------------------------------------------

  lemma {:induction false} SourceKept(id: Id, h: History, v: World, w: World, spoiled: bool, k: Id)
    requires Step(id, h, v, w, spoiled) && k in v.journal && k != id
    ensures SourceLost(v.journal[k], w.store) == SourceLost(v.journal[k], v.store)
  {
    assert EntrySound(k, h, v) && PairSound(k, id, h, v);
    var op := v.journal[k].op;
    if op.RepeatRequest? && Active(v.journal[k]) {
      KeysSay(id, v.journal[id].op, op.source);
    }
  }

  lemma {:induction false} LeftoverKept(id: Id, h: History, v: World, w: World, spoiled: bool, k: Id)
    requires Step(id, h, v, w, spoiled) && k in v.journal && k != id && !Active(v.journal[k])
    requires Inserts(v.journal[k].op)
    requires Target(v.journal[k].op) != v.journal[id].op.requestId
    ensures Jammed(v.journal[k].op, w) == Jammed(v.journal[k].op, v)
    ensures Revives(v.journal[k].op, w) == Revives(v.journal[k].op, v)
  {
    var c, op := v.journal[k].op, v.journal[id].op;
    assert EntrySound(k, h, v) && EntrySound(id, h, v) && PairSound(id, k, h, v);
    assert Target(c) != Target(op);
    assert Look(w.requests, Target(c)) == Look(v.requests, Target(c));
    if HasSession(c) {
      SessionStays(id, k, h, v, w);
    }
  }

  /** A step leaves the prospects of every newer operation as they were. */
  lemma {:induction false} NewerKept(id: Id, h: History, v: World, w: World, spoiled: bool, k: Id)
    requires Step(id, h, v, w, spoiled) && k in v.journal && id < k
    ensures Blocked(v.journal[k], w) == Blocked(v.journal[k], v)
    ensures Reviving(v.journal[k], w) == Reviving(v.journal[k], v)
  {
    SourceKept(id, h, v, w, spoiled, k);
    assert PairSound(id, k, h, v);
    if !Active(v.journal[k]) && Inserts(v.journal[k].op) {
      LeftoverKept(id, h, v, w, spoiled, k);
    }
  }

  /** So does carrying out a committed operation again. */
  lemma {:induction false} OthersKeptInReplay(id: Id, h: History, v: World, w: World, k: Id)
    requires Replay(id, h, v, w) && k in v.journal && id != k
    ensures Blocked(v.journal[k], w) == Blocked(v.journal[k], v)
    ensures Reviving(v.journal[k], w) == Reviving(v.journal[k], v)
  {
    assert EntrySound(k, h, v) && PairSound(id, k, h, v);
    var op := v.journal[k].op;
    if w.requests != v.requests {
      RowAgain(id, h, v, w);
      assert Inserts(op) ==> (Target(op) in w.requests <==> Target(op) in v.requests);
    }
    if op.RepeatRequest? {
      OnlyOwnTrashGoes(id, v.journal[id].op, v.store, w.store, op.source);
    }
  }

  /** Nothing starts to revive as long as no older leftover that inserts a request is passed over. */
  lemma {:induction false} StepRevivesNone(id: Id, h: History, v: World, w: World, spoiled: bool)
    requires Step(id, h, v, w, spoiled) && NoneRevives(v)
    requires forall k :: k in v.journal && k < id && !Active(v.journal[k]) ==> !Inserts(v.journal[k].op)
    ensures NoneRevives(w)
  {
    forall k | k in w.journal ensures !Reviving(w.journal[k], w) {
      if k == id {
        AllOrNothing(id, v.journal[id].op, h.starts[id], v, w, spoiled);
      } else {
        assert Look(w.journal, k) == Look(v.journal, k);
        assert PairSound(id, k, h, v);
        if !Active(v.journal[k]) && Inserts(v.journal[k].op) {
          LeftoverKept(id, h, v, w, spoiled, k);
        }
      }
    }
  }

  lemma {:induction false} StepLosesNoSource(id: Id, h: History, v: World, w: World, spoiled: bool)
    requires Step(id, h, v, w, spoiled) && NoSourceLost(v)
    ensures NoSourceLost(w)
  {
    forall k | k in w.journal ensures !SourceLost(w.journal[k], w.store) {
      if k != id {
        assert Look(w.journal, k) == Look(v.journal, k);
        SourceKept(id, h, v, w, spoiled, k);
      }
    }
  }

  /** No session that an operation in the journal still needs goes while operations are carried out in order. */
  lemma {:induction false} StepKeepsAnchored(id: Id, h: History, v: World, w: World, spoiled: bool)
    requires Step(id, h, v, w, spoiled) && AllAnchored(v)
    requires forall k :: k in v.journal && k < id && !Active(v.journal[k]) ==> !Inserts(v.journal[k].op)
    ensures AllAnchored(w)
  {
    forall k | k in w.journal ensures Anchored(w.journal[k], w) {
      if k == id {
        OwnStaysAnchored(id, h, v, w, spoiled);
      } else {
        assert Look(w.journal, k) == Look(v.journal, k);
        OtherStaysAnchored(id, h, v, w, spoiled, k);
      }
    }
  }

  lemma {:induction false} OwnStaysAnchored(id: Id, h: History, v: World, w: World, spoiled: bool)
    requires Step(id, h, v, w, spoiled) && Anchored(v.journal[id], v) && id in w.journal
    ensures Anchored(w.journal[id], w)
  {
    var op := v.journal[id].op;
    AllOrNothing(id, op, h.starts[id], v, w, spoiled);
    assert HasSession(op) ==> Look(w.uploads, op.uploadId).Some? by {
      assert HasSession(op) && Unrecorded(op, v, w) ==> Look(w.uploads, op.uploadId) == Look(v.uploads, op.uploadId);
    }
  }

  lemma {:induction false} OtherStaysAnchored(id: Id, h: History, v: World, w: World, spoiled: bool, k: Id)
    requires Step(id, h, v, w, spoiled) && k in v.journal && k != id && Anchored(v.journal[k], v)
    requires k < id && !Active(v.journal[k]) ==> !Inserts(v.journal[k].op)
    ensures Anchored(v.journal[k], w)
  {
    var op, that := v.journal[k].op, v.journal[id].op;
    assert EntrySound(k, h, v) && PairSound(id, k, h, v) && PairSound(k, id, h, v);
    if HasSession(op) {
      assert SessionFollows(that, op.uploadId, v, w);
      assert Look(w.requests, op.requestId) == Look(v.requests, op.requestId) || Target(that) == op.requestId;
    }
  }

  lemma {:induction false} ReplayKeepsProspects(id: Id, h: History, v: World, w: World)
    requires Replay(id, h, v, w)
    ensures NoSourceLost(v) ==> NoSourceLost(w)
    ensures NoneRevives(v) && AllAnchored(v) ==>
        NoneRevives(w) && AllAnchored(w) && w.requests == v.requests && Recalled(h, v.journal[id].op, v, w) == h
  {
    forall k | k in w.journal ensures k in v.journal && w.journal[k] == v.journal[k] {
      assert k != id ==> Look(w.journal, k) == Look(v.journal, k);
    }
    if NoneRevives(v) && AllAnchored(v) {
      ReplayChangesNoRow(id, h, v, w);
    }
    forall k | k in w.journal && NoSourceLost(v) ensures !SourceLost(w.journal[k], w.store) {
      if k != id {
        OthersKeptInReplay(id, h, v, w, k);
      }
    }
  }
}
