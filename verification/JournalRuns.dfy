/** Recovery runs, crashed ones and a last one, over whatever the journal held: where they all end. */
module JournalRuns {
  import opened Options
  import opened Journal
  import opened JournalStates
  import opened JournalRewrites

  /** An operation that was in progress goes on or is settled; one that was committed waits, or its trash is purged. */
  ghost predicate InPlay(id: Id, h: History, w0: World, w: World)
    requires id in w0.journal
  {
    if Active(w0.journal[id]) then
      && id in h.starts
      && (Going(id, w0.journal[id].op, h.starts[id], w) || Settled(id, w0.journal[id].op, h.starts[id], w))
    else if id in w.journal then w.journal[id] == w0.journal[id]
    else TrashGone(Discards(w0.journal[id].op), w.store)
  }

  ghost predicate SomeWrites(w0: World, p: Path) {
    exists id :: id in w0.journal && Active(w0.journal[id]) && Writes(w0.journal[id].op, p)
  }

  ghost predicate SomeDiscards(w0: World, p: Path) {
    exists id :: id in w0.journal && !Active(w0.journal[id]) && IsTrash(Discards(w0.journal[id].op), p)
  }

  ghost predicate SomeWritesPart(w0: World, p: Path) {
    exists id :: id in w0.journal && Active(w0.journal[id]) && WritesPart(w0.journal[id].op, p)
  }

  ghost predicate SomeTargets(w0: World, r: Id) {
    exists id :: id in w0.journal && Active(w0.journal[id]) && Target(w0.journal[id].op) == r
  }

  ghost predicate SomeWritesSession(w0: World, u: Id) {
    exists id :: id in w0.journal && Active(w0.journal[id]) && WritesSession(w0.journal[id].op, u)
  }

  ghost predicate SomeDropsSession(w0: World, u: Id) {
    exists id :: id in w0.journal && Active(w0.journal[id]) && DropsSession(w0.journal[id].op, u, w0)
  }

  ghost predicate FileKept(w0: World, w: World, p: Path) {
    SomeWrites(w0, p) || Look(w.store, p) == Look(w0.store, p) || (SomeDiscards(w0, p) && p !in w.store)
  }

  ghost predicate SessionKeptOrDropped(w0: World, w: World, u: Id) {
    SomeWritesSession(w0, u) || Look(w.uploads, u) == Look(w0.uploads, u) || (SomeDropsSession(w0, u)
      && u !in w.uploads)
  }

  /** What no operation touches is as it was. */
  ghost predicate RestKept(w0: World, w: World) {
    && (forall p :: FileKept(w0, w, p))
    && (forall p :: SomeWritesPart(w0, p) || Look(w.staged, p) == Look(w0.staged, p))
    && (forall r :: SomeTargets(w0, r) || Look(w.requests, r) == Look(w0.requests, r))
    && (forall u :: SessionKeptOrDropped(w0, w, u))
    && w.journal.Keys <= w0.journal.Keys
  }

  /** A moment of some run: every operation is in play or was spoiled by an error on the way. */
  ghost predicate Underway(h: History, w0: World, w: World, spoiled: set<Id>) {
    && RestKept(w0, w)
    && forall id :: id in w0.journal ==> if id in spoiled then id !in w.journal else InPlay(id, h, w0, w)
  }

  /** Every reachable state is one recovery may start from. */
  lemma {:induction false} StartsUnderway(h: History, w0: World, spoiled: set<Id>)
    requires Sound(h, w0) && spoiled !! w0.journal.Keys
    ensures Underway(h, w0, w0, spoiled)
  {
    forall id | id in w0.journal ensures InPlay(id, h, w0, w0) {
      assert EntrySound(id, h, w0);
    }
    forall p ensures FileKept(w0, w0, p) {
    }
    forall u ensures SessionKeptOrDropped(w0, w0, u) {
    }
  }

  // ---------------------------------------------------------------------------------------------
  // A step of an operation in progress
  // ---------------------------------------------------------------------------------------------

  lemma {:induction false} WasActive(h: History, w0: World, v: World, spoiled: set<Id>, id: Id)
    requires Sound(h, w0) && Underway(h, w0, v, spoiled) && id in v.journal
    ensures id in w0.journal && id !in spoiled && v.journal[id].op == w0.journal[id].op
    ensures Active(v.journal[id]) ==> Active(w0.journal[id])
    ensures Active(w0.journal[id]) ==>
        id in h.starts && Begun(v.journal[id].op, h.starts[id]) && Going(id, v.journal[id].op, h.starts[id], v)
    ensures Keyed(id, v.journal[id].op)
  {
    assert EntrySound(id, h, w0) && InPlay(id, h, w0, v);
  }

  lemma {:induction false} SettledOwnSession(id: Id, op: Operation, s0: World, v: World)
    requires Begun(op, s0) && (Going(id, op, s0, v) || Settled(id, op, s0, v))
    ensures OwnSession(op, v)
  {
  }

  lemma {:induction false} OtherStaysInPlay(h: History, w0: World, v: World, w: World, id: Id, other: Id)
    requires Sound(h, w0) && id in w0.journal && Active(w0.journal[id]) && OnlyTouched(id, w0.journal[id].op, v, w)
    requires other in w0.journal && other != id && InPlay(other, h, w0, v)
    ensures InPlay(other, h, w0, w)
  {
    var op, that := w0.journal[other].op, w0.journal[id].op;
    assert EntrySound(other, h, w0) && EntrySound(id, h, w0) && PairSound(other, id, h, w0);
    if Active(w0.journal[other]) {
      UnrelatedDisjoint(other, op, id, that);
      SettledOwnSession(other, op, h.starts[other], v);
      OthersSee(other, op, id, that, v, w);
      if Going(other, op, h.starts[other], v) {
        GoingSees(other, op, h.starts[other], v, w);
      } else {
        SettledSees(other, op, h.starts[other], v, w);
      }
    } else {
      assert Look(w.journal, other) == Look(v.journal, other);
      if other !in w.journal {
        TrashStaysGone(other, op, id, that, v, w);
      }
    }
  }

  lemma {:induction false} TrashStaysGone(other: Id, op: Operation, id: Id, that: Operation, v: World, w: World)
    requires Keyed(other, op) && Keyed(id, that) && other != id && OnlyTouched(id, that, v, w)
    requires TrashGone(Discards(op), v.store)
    ensures TrashGone(Discards(op), w.store)
  {
    assert AssetsKeyed(Discards(op), op.requestId, other);
    forall i | 0 <= i < |Discards(op)| ensures Discards(op)[i].trash !in w.store {
      KeysSay(id, that, Discards(op)[i].trash);
    }
  }

  lemma {:induction false} RestStaysKept(h: History, w0: World, v: World, w: World, id: Id)
    requires Sound(h, w0) && RestKept(w0, v)
    requires id in w0.journal && Active(w0.journal[id]) && OnlyTouched(id, w0.journal[id].op, v, w)
    requires w.journal.Keys <= v.journal.Keys
    ensures RestKept(w0, w)
  {
    var op := w0.journal[id].op;
    forall p ensures FileKept(w0, w, p) {
      assert FileKept(w0, v, p);
    }
    forall u ensures SessionKeptOrDropped(w0, w, u) {
      assert SessionKeptOrDropped(w0, v, u) && SessionFollows(op, u, v, w);
    }
  }

  /** One operation's effects leave all others where they were. */
  lemma {:induction false} StepStaysUnderway(
      h: History, w0: World, v: World, w: World, id: Id, was: set<Id>, spoiled: bool)
    requires Sound(h, w0) && Underway(h, w0, v, was) && id in v.journal && Active(v.journal[id]) && id in h.starts
    requires Stepped(id, v.journal[id].op, h.starts[id], v, w, spoiled)
    ensures Underway(h, w0, w, if spoiled then was + {id} else was)
  {
    WasActive(h, w0, v, was, id);
    RestStaysKept(h, w0, v, w, id);
    forall other | other in w0.journal && other !in was && other != id ensures InPlay(other, h, w0, w) {
      assert InPlay(other, h, w0, v);
      OtherStaysInPlay(h, w0, v, w, id, other);
    }
  }

  // ---------------------------------------------------------------------------------------------
  // Carrying out a committed operation again
  // ---------------------------------------------------------------------------------------------

  lemma {:induction false} PurgingGoesOn(xs: seq<Asset>, before: Store, v: Store, w: Store)
    requires AllPurging(xs, before, v) && OnlyTrashGone(xs, v, w)
    ensures AllPurging(xs, before, w) && (TrashGone(xs, w) ==> AllPurged(xs, w))
  {
    forall i | 0 <= i < |xs| ensures Purging(xs[i], before, w) && (TrashGone(xs, w) ==> Purged(xs[i], w)) {
      assert Purging(xs[i], before, v);
      assert Look(w, xs[i].original) == Look(v, xs[i].original);
      assert Look(w, xs[i].trash) == Look(v, xs[i].trash) || xs[i].trash !in w;
    }
  }

  lemma {:induction false} CommittedGoesOn(id: Id, op: Operation, s0: World, v: World, w: World)
    requires Keyed(id, op) && Begun(op, s0) && Going(id, op, s0, v) && !Active(v.journal[id])
    requires Replayed(id, op, v, w) && w.requests == v.requests
    ensures Going(id, op, s0, w) || Settled(id, op, s0, w)
  {
    forall p: Path | p.OfRequest? ensures Look(w.store, p) == Look(v.store, p) {
      OnlyOwnTrashGoes(id, op, v.store, w.store, p);
    }
    if op.AttachModel? {
      PurgingGoesOn(Replaced(op), s0.store, v.store, w.store);
    } else if op.DeleteRequest? {
      PurgingGoesOn(op.assets, s0.store, v.store, w.store);
    }
  }

  lemma {:induction false} OtherSeesReplay(h: History, w0: World, v: World, w: World, id: Id, other: Id)
    requires Sound(h, w0) && id in w0.journal && Replayed(id, w0.journal[id].op, v, w) && w.requests == v.requests
    requires other in w0.journal && other != id && InPlay(other, h, w0, v)
    ensures InPlay(other, h, w0, w)
  {
    var op, that := w0.journal[other].op, w0.journal[id].op;
    assert EntrySound(other, h, w0) && EntrySound(id, h, w0);
    assert Look(w.journal, other) == Look(v.journal, other);
    if Active(w0.journal[other]) {
      forall p | Reads(op, p) ensures Look(w.store, p) == Look(v.store, p) {
        KeysSay(other, op, p);
        OnlyOwnTrashGoes(id, that, v.store, w.store, p);
      }
      if Going(other, op, h.starts[other], v) {
        GoingSees(other, op, h.starts[other], v, w);
      } else {
        SettledSees(other, op, h.starts[other], v, w);
      }
    }
  }

  lemma {:induction false} ReplayStaysUnderway(h: History, w0: World, v: World, w: World, id: Id, spoiled: set<Id>)
    requires Sound(h, w0) && Underway(h, w0, v, spoiled) && id in v.journal && !Active(v.journal[id])
    requires Replayed(id, v.journal[id].op, v, w) && w.requests == v.requests
    ensures Underway(h, w0, w, spoiled)
  {
    WasActive(h, w0, v, spoiled, id);
    var op := v.journal[id].op;
    forall other | other in w0.journal && other !in spoiled ensures InPlay(other, h, w0, w) {
      assert InPlay(other, h, w0, v);
      if other != id {
        OtherSeesReplay(h, w0, v, w, id, other);
      } else if Active(w0.journal[id]) {
        CommittedGoesOn(id, op, h.starts[id], v, w);
      }
    }
    forall other | other in w.journal ensures other in v.journal {
      assert other != id ==> Look(w.journal, other) == Look(v.journal, other);
    }
    forall p ensures FileKept(w0, w, p) {
      assert FileKept(w0, v, p);
      if Look(w.store, p) != Look(v.store, p) {
        assert IsTrash(Discards(op), p);
        assert SomeDiscards(w0, p) || Writes(op, p);
      }
    }
    forall u ensures SessionKeptOrDropped(w0, w, u) {
      assert SessionKeptOrDropped(w0, v, u);
    }
  }

  // ---------------------------------------------------------------------------------------------
  // What a settled operation has left in its request's row
  // ---------------------------------------------------------------------------------------------

  ghost predicate Names(row: Row, p: Path) {
    row.filePath == Some(p) || row.thumbnailPath == Some(p) || row.previewPath == Some(p)
  }

  /** A new request names its file and the key it was stored under, and nothing that is made from the file later. */
  lemma {:induction false} NewRequestRow(id: Id, op: Operation, s0: World, w: World)
    requires Inserts(op) && Settled(id, op, s0, w)
    requires if op.UploadModel? then op.part in s0.staged else op.source in s0.store
    ensures Target(op) in w.requests
    ensures var row := w.requests[Target(op)];
      && row.fileName == op.fileName && (forall p :: Names(row, p) <==> p == op.dest) && op.dest in w.store
  {
  }

  /**
   * A swap that is settled, with its part published, has given the row the new model and none of the replaced files;
   * a first model leaves what else the row names as it was.
   */
  lemma {:induction false} SwappedRow(id: Id, op: Operation, s0: World, w: World)
    requires op.AttachModel? && Begun(op, s0) && Settled(id, op, s0, w) && op.part in s0.staged
    ensures op.requestId in w.requests
    ensures var was, row := s0.requests[op.requestId], w.requests[op.requestId];
      && row.fileName == op.fileName && row.filePath == Some(op.dest) && op.dest in w.store
      && (forall i :: 0 <= i < |Replaced(op)| ==>
            !Names(row, Replaced(op)[i].original) && !Names(row, Replaced(op)[i].trash))
      && (op.replaced.Some? ==> forall p :: Names(row, p) <==> p == op.dest)
      && (op.replaced.None? ==> row.thumbnailPath == was.thumbnailPath && row.previewPath == was.previewPath)
  {
    forall i | 0 <= i < |Replaced(op)| ensures Replaced(op)[i].original != op.dest && Replaced(op)[i].trash != op.dest {
      assert Touches(Replaced(op), Replaced(op)[i].original) && Touches(Replaced(op), Replaced(op)[i].trash);
    }
  }

  // ---------------------------------------------------------------------------------------------
  // Where all runs end
  // ---------------------------------------------------------------------------------------------

  lemma {:induction false} SettledAlike(id: Id, op: Operation, s0: World, v: World, w: World)
    requires Begun(op, s0) && Settled(id, op, s0, v) && Settled(id, op, s0, w)
    ensures forall p :: Writes(op, p) ==> Look(v.store, p) == Look(w.store, p)
    ensures forall p :: WritesPart(op, p) ==> Look(v.staged, p) == Look(w.staged, p)
    ensures Look(v.requests, Target(op)) == Look(w.requests, Target(op))
    ensures forall u :: WritesSession(op, u) ==> Look(v.uploads, u) == Look(w.uploads, u)
  {
    forall p | Writes(op, p) ensures Look(v.store, p) == Look(w.store, p) {
    }
  }

  ghost predicate Ended(h: History, w0: World, w: World) {
    && Underway(h, w0, w, {}) && w.journal == map[]
    && forall id :: id in w0.journal && Active(w0.journal[id]) ==>
        id in h.starts && Begun(w0.journal[id].op, h.starts[id]) && Settled(id, w0.journal[id].op, h.starts[id], w)
  }

  lemma {:induction false} EndsSettled(h: History, w0: World, w: World, spoiled: set<Id>)
    requires Sound(h, w0) && Underway(h, w0, w, spoiled) && spoiled !! w0.journal.Keys && w.journal == map[]
    ensures Ended(h, w0, w)
  {
    forall id | id in w0.journal && Active(w0.journal[id])
      ensures id in h.starts && Begun(w0.journal[id].op, h.starts[id])
      ensures Settled(id, w0.journal[id].op, h.starts[id], w)
    {
      assert EntrySound(id, h, w0) && InPlay(id, h, w0, w);
    }
  }

  lemma {:induction false} FilesEndAlike(h: History, w0: World, v: World, w: World, p: Path)
    requires Ended(h, w0, v) && Ended(h, w0, w)
    ensures Look(v.store, p) == Look(w.store, p)
  {
    assert FileKept(w0, v, p) && FileKept(w0, w, p);
    if SomeWrites(w0, p) {
      var id :| id in w0.journal && Active(w0.journal[id]) && Writes(w0.journal[id].op, p);
      SettledAlike(id, w0.journal[id].op, h.starts[id], v, w);
    } else if SomeDiscards(w0, p) {
      var id :| id in w0.journal && !Active(w0.journal[id]) && IsTrash(Discards(w0.journal[id].op), p);
      assert InPlay(id, h, w0, v) && InPlay(id, h, w0, w);
    }
  }

  lemma {:induction false} SessionsEndAlike(h: History, w0: World, v: World, w: World, u: Id)
    requires Ended(h, w0, v) && Ended(h, w0, w)
    ensures Look(v.uploads, u) == Look(w.uploads, u)
  {
    assert SessionKeptOrDropped(w0, v, u) && SessionKeptOrDropped(w0, w, u);
    if SomeWritesSession(w0, u) {
      var id :| id in w0.journal && Active(w0.journal[id]) && WritesSession(w0.journal[id].op, u);
      SettledAlike(id, w0.journal[id].op, h.starts[id], v, w);
    } else if SomeDropsSession(w0, u) {
      var id :| id in w0.journal && Active(w0.journal[id]) && DropsSession(w0.journal[id].op, u, w0);
      var r := w0.journal[id].op.requestId;
      assert NoSessionOf(r, v) && NoSessionOf(r, w);
    }
  }

  /**
   * From any reachable state, however often the process crashed on the way, an empty journal means the same rows,
   * sessions, stored files and staged parts.
   */
  lemma {:induction false} AllRunsEndAlike(h: History, w0: World, v: World, w: World, spoiled: set<Id>)
    requires Sound(h, w0) && Underway(h, w0, v, spoiled) && Underway(h, w0, w, spoiled) && spoiled !! w0.journal.Keys
    requires v.journal == map[] && w.journal == map[]
    ensures v == w
  {
    EndsSettled(h, w0, v, spoiled);
    EndsSettled(h, w0, w, spoiled);
    forall p ensures Look(v.store, p) == Look(w.store, p) {
      FilesEndAlike(h, w0, v, w, p);
    }
    forall u ensures Look(v.uploads, u) == Look(w.uploads, u) {
      SessionsEndAlike(h, w0, v, w, u);
    }
    forall p ensures Look(v.staged, p) == Look(w.staged, p) {
      if SomeWritesPart(w0, p) {
        var id :| id in w0.journal && Active(w0.journal[id]) && WritesPart(w0.journal[id].op, p);
        SettledAlike(id, w0.journal[id].op, h.starts[id], v, w);
      }
    }
    forall r ensures Look(v.requests, r) == Look(w.requests, r) {
      if SomeTargets(w0, r) {
        var id :| id in w0.journal && Active(w0.journal[id]) && Target(w0.journal[id].op) == r;
        SettledAlike(id, w0.journal[id].op, h.starts[id], v, w);
      }
    }
    LookUnique(v.store, w.store);
    LookUnique(v.staged, w.staged);
    LookUnique(v.requests, w.requests);
    LookUnique(v.uploads, w.uploads);
  }
}
