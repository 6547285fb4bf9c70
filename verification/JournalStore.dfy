/** The service that carries operations out, effect by effect; a script says which effects fail and where it crashes. */
module JournalStore {
  import opened Options
  import opened SetSums
  import opened Journal
  import opened JournalStates
  import opened JournalRewrites
  import opened JournalEvents
  import opened JournalRuns
  import opened JournalLeftovers

  /** What becomes of the next effect; a torn write leaves a file's first bytes behind as the process crashes. */
  datatype Signal = Proceeds | Fails | Crashes | Tears(kept: nat)

  /** `Missing` is the error for a file that is not there; a crash is never caught. */
  datatype Outcome = Completed | Missing | Threw | Crashed

  predicate Failed(out: Outcome) {
    out == Threw || out == Crashed
  }

  /** A file of another size is in the way. */
  predicate Occupied(p: Path, size: nat, store: Store) {
    p in store && |store[p]| != size
  }

  /** Nothing fails; the process may still crash. */
  ghost predicate Calm(script: seq<Signal>) {
    forall i :: 0 <= i < |script| ==> !script[i].Fails?
  }

  ghost predicate Consumed(before: seq<Signal>, after: seq<Signal>) {
    |after| <= |before| && (Calm(before) ==> Calm(after))
  }

  /** Keys of different assets of one list differ. */
  lemma {:induction false} OthersStay(xs: seq<Asset>, i: nat, k: nat, v: Store, w: Store)
    requires Apart(xs) && i < |xs| && k < |xs| && i != k
    requires forall p :: p != xs[i].original && p != xs[i].trash ==> Look(w, p) == Look(v, p)
    ensures Look(w, xs[k].original) == Look(v, xs[k].original) && Look(w, xs[k].trash) == Look(v, xs[k].trash)
  {
  }

  lemma {:induction false} Touched(id: Id, op: Operation, u: World, v: World, w: World)
    requires OnlyTouched(id, op, u, v) && OnlyTouched(id, op, v, w) && u.uploads == v.uploads
    ensures OnlyTouched(id, op, u, w)
  {
    forall x ensures SessionFollows(op, x, u, w) {
      assert SessionFollows(op, x, v, w);
    }
  }

  lemma {:induction false} DestApart(op: Operation, s0: World, v: Store, w: Store)
    requires op.AttachModel? && Begun(op, s0) && AllInTrash(Replaced(op), s0.store, v)
    requires forall p :: p != op.dest ==> Look(w, p) == Look(v, p)
    ensures AllInTrash(Replaced(op), s0.store, w)
  {
    forall p | Touches(Replaced(op), p) ensures Look(w, p) == Look(v, p) {
      assert p != op.dest;
    }
    AssetsSee(Replaced(op), s0.store, v, w);
  }

  /** Purging what was replaced does not reach the new model. */
  lemma {:induction false} PurgeStaysApart(op: Operation, s0: World, v: Store, w: Store)
    requires op.AttachModel? && Begun(op, s0) && AllPurging(Replaced(op), s0.store, v)
    requires OnlyTrashGone(Replaced(op), v, w)
    ensures AllPurging(Replaced(op), s0.store, w) && (TrashGone(Replaced(op), w) ==> AllPurged(Replaced(op), w))
    ensures Look(w, op.dest) == Look(v, op.dest)
    ensures forall p :: !Touches(Replaced(op), p) ==> Look(w, p) == Look(v, p)
  {
    PurgingGoesOn(Replaced(op), s0.store, v, w);
  }

  /** A replaced asset was left behind in the trash. */
  ghost predicate Stranded(op: Operation, store: Store)
    requires op.AttachModel?
  {
    exists i :: 0 <= i < |Replaced(op)| && Replaced(op)[i].trash in store
  }

  /** One resumed operation's effects, complete or cut short, and what the history keeps of them. */
  ghost predicate Onward(id: Id, h: History, v: World, g: History, w: World, spoiled: bool) {
    && id in v.journal
    && if Active(v.journal[id]) then Happens(GoesOn(id, spoiled), h, v, g, w)
       else Happens(HappensAgain(id), h, v, g, w) && !spoiled
  }

  lemma {:induction false} OnwardKeepsSound(id: Id, h: History, v: World, g: History, w: World, spoiled: bool)
    requires Sound(h, v) && Onward(id, h, v, g, w, spoiled)
    ensures Sound(g, w) && w.journal.Keys <= v.journal.Keys
  {
    if Active(v.journal[id]) {
      StepKeepsSound(id, h, v, w, spoiled);
    } else {
      ReplayKeepsSound(id, h, v, w);
      forall i | i in w.journal ensures i in v.journal {
        assert i != id ==> Look(w.journal, i) == Look(v.journal, i);
      }
    }
  }

  /** No leftover changes a row, none is about to, and the run has got somewhere from where it started. */
  ghost predicate Recovering(h0: History, w0: World, h: History, w: World, spoiled: set<Id>) {
    && Sound(h0, w0) && h0.starts == h.starts && Underway(h0, w0, w, spoiled)
    && NoneRevives(w) && AllAnchored(w)
  }

  lemma {:induction false} OnwardRecovers(
      id: Id, h0: History, w0: World, h: History, v: World, g: History, w: World, was: set<Id>, spoiled: set<Id>)
    requires Recovering(h0, w0, h, v, was) && Onward(id, h, v, g, w, spoiled != was) && Sound(h, v)
    requires spoiled == was || spoiled == was + {id}
    requires forall k :: k in v.journal && k < id && !Active(v.journal[k]) ==> !Inserts(v.journal[k].op)
    ensures Recovering(h0, w0, g, w, spoiled) && (NoSourceLost(v) ==> NoSourceLost(w))
    ensures spoiled == was ==> g.astray <= h.astray
  {
    if Active(v.journal[id]) {
      StepRevivesNone(id, h, v, w, spoiled != was);
      StepKeepsAnchored(id, h, v, w, spoiled != was);
      StepStaysUnderway(h0, w0, v, w, id, was, spoiled != was);
      if NoSourceLost(v) {
        StepLosesNoSource(id, h, v, w, spoiled != was);
      }
    } else {
      ReplayKeepsProspects(id, h, v, w);
      ReplayStaysUnderway(h0, w0, v, w, id, was);
    }
  }

  /** Whatever is older than the next operation and still there is committed and inserts nothing. */
  lemma {:induction false} OlderTidy(order: seq<Id>, listed: map<Id, Entry>, journal: map<Id, Entry>, n: nat)
    requires Lists(order, listed) && n < |order| && TidyUpTo(order, journal, n) && journal.Keys <= listed.Keys
    ensures forall k :: k in journal && k < order[n] ==> !Active(journal[k]) && !Inserts(journal[k].op)
  {
    forall k | k in journal && k < order[n] ensures !Active(journal[k]) && !Inserts(journal[k].op) {
      var i :| 0 <= i < |order| && order[i] == k;
      assert i < n;
    }
  }

  /** What is behind the operation that was resumed keeps its prospects. */
  lemma {:induction false} NextProspects(
      order: seq<Id>, listed: map<Id, Entry>, first: World, h: History, v: World, g: History, w: World, n: nat,
      spoiled: bool)
    requires Lists(order, listed) && n < |order| && SameProspects(order, listed, first, v, n)
    requires StillListed(order, listed, v.journal, n)
    requires Onward(order[n], h, v, g, w, spoiled)
    ensures SameProspects(order, listed, first, w, n + 1)
  {
    forall k | n + 1 <= k < |order|
      ensures Blocked(listed[order[k]], w) == Blocked(listed[order[k]], first)
      ensures Reviving(listed[order[k]], w) == Reviving(listed[order[k]], first)
    {
      assert Look(v.journal, order[k]) == Some(listed[order[k]]);
      if Active(v.journal[order[n]]) {
        NewerKept(order[n], h, v, w, spoiled, order[k]);
      } else {
        OthersKeptInReplay(order[n], h, v, w, order[k]);
      }
    }
  }

  /** How far a run has got after `n` operations, undisturbed or not. */
  ghost predicate Along(
      order: seq<Id>, listed: map<Id, Entry>, first: World, was: set<Id>, h: History, w: World, n: nat,
      undisturbed: bool)
    requires Lists(order, listed) && n <= |order|
  {
    && w.journal.Keys <= listed.Keys && StillListed(order, listed, w.journal, n) && TidyUpTo(order, w.journal, n)
    && (undisturbed ==>
          && GoneUpTo(order, w.journal, n) && NoneBlockedUpTo(order, listed, first, n)
          && SameProspects(order, listed, first, w, n) && RevivedUpTo(order, listed, first, was, h.revived, n))
  }

  /** What an undisturbed resumption of the next operation comes to. */
  ghost predicate Undisturbed(id: Id, entry: Entry, h: History, v: World, g: History, w: World, out: Outcome) {
    && out == (if Blocked(entry, v) then Threw else Completed) && (id in w.journal <==> Stuck(entry, v))
    && (out == Completed ==> g.revived == if Reviving(entry, v) then h.revived + {Target(entry.op)} else h.revived)
  }

  lemma {:induction false} GoesFurther(
      order: seq<Id>, listed: map<Id, Entry>, first: World, was: set<Id>, h: History, v: World, g: History, w: World,
      n: nat, undisturbed: bool, spoiled: bool)
    requires Lists(order, listed) && n < |order| && Along(order, listed, first, was, h, v, n, undisturbed)
    requires Onward(order[n], h, v, g, w, spoiled) && w.journal.Keys <= v.journal.Keys
    requires forall i :: i != order[n] ==> Look(w.journal, i) == Look(v.journal, i)
    requires order[n] in w.journal ==> !Active(w.journal[order[n]]) && !Inserts(w.journal[order[n]].op)
    requires undisturbed ==> Undisturbed(order[n], listed[order[n]], h, v, g, w, Completed)
    ensures Along(order, listed, first, was, g, w, n + 1, undisturbed)
  {
    NextListed(order, listed, v.journal, w.journal, n);
    NextTidy(order, listed, v.journal, w.journal, n);
    if undisturbed {
      NextProspects(order, listed, first, h, v, g, w, n, spoiled);
      UndisturbedGoesFurther(order, listed, first, was, h, v, g, w, n);
    }
  }

  lemma {:induction false} NextTidy(
      order: seq<Id>, listed: map<Id, Entry>, v: map<Id, Entry>, w: map<Id, Entry>, n: nat)
    requires Lists(order, listed) && n < |order| && TidyUpTo(order, v, n)
    requires forall i :: i != order[n] ==> Look(w, i) == Look(v, i)
    requires order[n] in w ==> !Active(w[order[n]]) && !Inserts(w[order[n]].op)
    ensures TidyUpTo(order, w, n + 1)
  {
    forall k | 0 <= k < n ensures Look(w, order[k]) == Look(v, order[k]) {
      assert order[k] < order[n];
    }
  }

  lemma {:induction false} UndisturbedGoesFurther(
      order: seq<Id>, listed: map<Id, Entry>, first: World, was: set<Id>, h: History, v: World, g: History,
      w: World, n: nat)
    requires Lists(order, listed) && n < |order| && SameProspects(order, listed, first, v, n)
    requires NoneBlockedUpTo(order, listed, first, n) && RevivedUpTo(order, listed, first, was, h.revived, n)
    requires Undisturbed(order[n], listed[order[n]], h, v, g, w, Completed)
    ensures NoneBlockedUpTo(order, listed, first, n + 1) && RevivedUpTo(order, listed, first, was, g.revived, n + 1)
    ensures order[n] !in w.journal
  {
    assert Blocked(listed[order[n]], v) == Blocked(listed[order[n]], first);
    assert Reviving(listed[order[n]], v) == Reviving(listed[order[n]], first);
    NextRevived(order, listed, first, was, h.revived, g.revived, n);
  }

  lemma {:induction false} NextRevived(
      order: seq<Id>, listed: map<Id, Entry>, first: World, was: set<Id>, before: set<Id>, after: set<Id>, n: nat)
    requires Lists(order, listed) && n < |order| && RevivedUpTo(order, listed, first, was, before, n)
    requires after == if Reviving(listed[order[n]], first) then before + {Target(listed[order[n]].op)} else before
    ensures RevivedUpTo(order, listed, first, was, after, n + 1)
  {
    forall r ensures r in after <==>
      r in was || exists k :: 0 <= k < n + 1 && Reviving(listed[order[k]], first) && Target(listed[order[k]].op) == r
    {
      if k :| 0 <= k < n && Reviving(listed[order[k]], first) && Target(listed[order[k]].op) == r {
        assert 0 <= k < n + 1;
      }
    }
  }

  /**
   * What an undisturbed run comes to: it ends without an error exactly when nothing it starts with is blocked; it
   * empties the journal exactly when nothing is stuck and no lost source comes before the last operation; and if it
   * ends without an error, it has inserted again exactly the requests of the leftovers that revive.
   */
  ghost predicate RunEnds(
      order: seq<Id>, listed: map<Id, Entry>, first: World, was: set<Id>, revived: set<Id>, journal: map<Id, Entry>,
      out: Outcome)
    requires Lists(order, listed)
  {
    && out == (if NoneBlockedUpTo(order, listed, first, |order|) then Completed else Threw)
    && (journal == map[] <==>
        && (forall k :: 0 <= k < |order| - 1 ==> !SourceLost(listed[order[k]], first.store))
        && (forall k :: 0 <= k < |order| ==> !Stuck(listed[order[k]], first)))
    && (out == Completed ==> RevivedUpTo(order, listed, first, was, revived, |order|))
    && (order != [] && order[0] in journal ==> Stuck(listed[order[0]], first))
  }

  /** A run that ends with an error at the `n`-th operation leaves the ones behind it. */
  lemma {:induction false} EndsHere(
      order: seq<Id>, listed: map<Id, Entry>, first: World, was: set<Id>, revived: set<Id>,
      journal: map<Id, Entry>, n: nat)
    requires Lists(order, listed) && n < |order| && NoneBlockedUpTo(order, listed, first, n)
    requires Blocked(listed[order[n]], first)
    requires GoneUpTo(order, journal, n) && StillListed(order, listed, journal, n + 1) && journal.Keys <= listed.Keys
    requires order[n] in journal <==> Stuck(listed[order[n]], first)
    ensures RunEnds(order, listed, first, was, revived, journal, Threw)
  {
    assert !NoneBlockedUpTo(order, listed, first, |order|);
    if n + 1 < |order| {
      assert Look(journal, order[n + 1]) == Some(listed[order[n + 1]]);
    } else if order[n] !in journal {
      AllGone(order, listed, journal);
    }
  }

  lemma {:induction false} StopsHere(
      order: seq<Id>, listed: map<Id, Entry>, first: World, was: set<Id>, h: History, v: World,
      g: History, w: World, n: nat, out: Outcome)
    requires Lists(order, listed) && n < |order| && Along(order, listed, first, was, h, v, n, true)
    requires Undisturbed(order[n], listed[order[n]], h, v, g, w, out) && Failed(out) && w.journal.Keys <= v.journal.Keys
    requires forall i :: i != order[n] ==> Look(w.journal, i) == Look(v.journal, i)
    ensures RunEnds(order, listed, first, was, g.revived, w.journal, out)
  {
    NextListed(order, listed, v.journal, w.journal, n);
    forall k | 0 <= k < n ensures order[k] !in w.journal {
      assert Look(w.journal, order[k]) == Look(v.journal, order[k]);
    }
    assert Blocked(listed[order[n]], v) == Blocked(listed[order[n]], first);
    EndsHere(order, listed, first, was, g.revived, w.journal, n);
  }

  /** Either the run has got one operation further, or, undisturbed, it has come to what is said of its end. */
  lemma {:induction false} NextOperation(
      order: seq<Id>, listed: map<Id, Entry>, first: World, was: set<Id>, h: History, v: World, g: History, w: World,
      n: nat, undisturbed: bool, spoiled: bool, out: Outcome)
    requires Lists(order, listed) && n < |order| && Along(order, listed, first, was, h, v, n, undisturbed)
    requires Onward(order[n], h, v, g, w, spoiled) && w.journal.Keys <= v.journal.Keys
    requires (out == Completed || Failed(out))
    requires forall i :: i != order[n] ==> Look(w.journal, i) == Look(v.journal, i)
    requires out == Completed && order[n] in w.journal ==>
        !Active(w.journal[order[n]]) && !Inserts(w.journal[order[n]].op)
    requires undisturbed ==> Undisturbed(order[n], listed[order[n]], h, v, g, w, out)
    ensures out == Completed ==> Along(order, listed, first, was, g, w, n + 1, undisturbed)
    ensures undisturbed && Failed(out) ==> RunEnds(order, listed, first, was, g.revived, w.journal, out)
  {
    if out == Completed {
      GoesFurther(order, listed, first, was, h, v, g, w, n, undisturbed, spoiled);
    } else if undisturbed {
      StopsHere(order, listed, first, was, h, v, g, w, n, out);
    }
  }

  lemma {:induction false} EndsWhole(
      order: seq<Id>, listed: map<Id, Entry>, first: World, was: set<Id>, h: History, w: World)
    requires Lists(order, listed) && Along(order, listed, first, was, h, w, |order|, true)
    ensures RunEnds(order, listed, first, was, h.revived, w.journal, Completed)
  {
    AllGone(order, listed, w.journal);
  }

  lemma {:induction false} AllGone(order: seq<Id>, listed: map<Id, Entry>, journal: map<Id, Entry>)
    requires Lists(order, listed) && GoneUpTo(order, journal, |order| as nat) && journal.Keys <= listed.Keys
    ensures journal == map[]
  {
    forall id | id in listed ensures id !in journal {
      var i :| 0 <= i < |order| && order[i] == id;
      assert order[i] !in journal;
    }
  }

  /** What the service knows of an operation it resumes. */
  ghost predicate Fit(id: Id, entry: Entry, s0: World, w: World) {
    if Active(entry) then Begun(entry.op, s0) && Going(id, entry.op, s0, w) else SessionClosed(entry.op, w)
  }

  /** The operation's own effects, and nothing else, took it further. */
  ghost predicate CarriedOn(id: Id, op: Operation, s0: World, v: World, w: World) {
    OnlyTouched(id, op, v, w) && (Going(id, op, s0, w) || Settled(id, op, s0, w))
  }

  /** Carried out again, and gone from the journal unless its insertion is refused. */
  ghost predicate ReplayedInFull(id: Id, op: Operation, v: World, w: World, out: Outcome) {
    if Jammed(op, v) then out == Threw && w == v else out == Completed && id !in w.journal
  }

  /** The operations in the journal, oldest first. */
  ghost predicate Lists(order: seq<Id>, journal: map<Id, Entry>) {
    && (forall i, j :: 0 <= i < j < |order| ==> order[i] < order[j])
    && (forall i :: 0 <= i < |order| ==> order[i] in journal)
    && (forall id :: id in journal ==> id in order)
  }

  ghost predicate StillListed(order: seq<Id>, listed: map<Id, Entry>, journal: map<Id, Entry>, n: nat)
    requires Lists(order, listed)
  {
    forall k :: n <= k < |order| ==> Look(journal, order[k]) == Some(listed[order[k]])
  }

  ghost predicate GoneUpTo(order: seq<Id>, journal: map<Id, Entry>, n: nat)
    requires n <= |order|
  {
    forall k :: 0 <= k < n ==> order[k] !in journal
  }

  lemma {:induction false} NextListed(
      order: seq<Id>, listed: map<Id, Entry>, before: map<Id, Entry>, after: map<Id, Entry>, n: nat)
    requires Lists(order, listed) && n < |order| && StillListed(order, listed, before, n)
    requires forall i :: i != order[n] ==> Look(after, i) == Look(before, i)
    ensures StillListed(order, listed, after, n + 1)
    ensures GoneUpTo(order, before, n) && order[n] !in after ==> GoneUpTo(order, after, n + 1)
  {
    forall k | 0 <= k < |order| && k != n ensures Look(after, order[k]) == Look(before, order[k]) {
      assert order[k] != order[n];
    }
    forall k | n + 1 <= k < |order| ensures Look(after, order[k]) == Some(listed[order[k]]) {
      assert Look(before, order[k]) == Some(listed[order[k]]);
    }
    if GoneUpTo(order, before, n) {
      forall k | 0 <= k < n ensures order[k] !in after {
        assert order[k] !in before;
        assert Look(after, order[k]) == Look(before, order[k]);
      }
    }
  }

  /** On completion an operation has left the journal, or is committed and inserts nothing. */
  ghost predicate TidyUpTo(order: seq<Id>, journal: map<Id, Entry>, n: nat)
    requires n <= |order|
  {
    forall k :: 0 <= k < n && order[k] in journal ==> !Active(journal[order[k]]) && !Inserts(journal[order[k]].op)
  }

  /** The prospects of the operations from `n` on are what they were. */
  ghost predicate SameProspects(order: seq<Id>, listed: map<Id, Entry>, v: World, w: World, n: nat)
    requires Lists(order, listed)
  {
    forall k :: n <= k < |order| ==>
      && Blocked(listed[order[k]], w) == Blocked(listed[order[k]], v)
        && Reviving(listed[order[k]], w) == Reviving(listed[order[k]], v)
  }

  ghost predicate NoneBlockedUpTo(order: seq<Id>, listed: map<Id, Entry>, w: World, n: nat)
    requires Lists(order, listed) && n <= |order|
  {
    forall k :: 0 <= k < n ==> !Blocked(listed[order[k]], w)
  }

  ghost predicate RevivedUpTo(order: seq<Id>, listed: map<Id, Entry>, w: World, was: set<Id>, revived: set<Id>, n: nat)
    requires Lists(order, listed) && n <= |order|
  {
    forall r :: r in revived <==>
      r in was || exists k :: 0 <= k < n && Reviving(listed[order[k]], w) && Target(listed[order[k]].op) == r
  }

  lemma {:induction false} JournalShrinks(id: Id, op: Operation, v: World, w: World)
    requires OnlyTouched(id, op, v, w) && id in v.journal
    ensures w.journal.Keys <= v.journal.Keys
  {
    forall i | i in w.journal ensures i in v.journal {
      assert i != id ==> Look(w.journal, i) == Look(v.journal, i);
    }
  }

  ghost predicate Least(id: Id, ids: set<Id>) {
    id in ids && forall other :: other in ids ==> id <= other
  }

  method Oldest(ids: set<Id>) returns (least: Id)
    requires ids != {}
    ensures Least(least, ids)
  {
    least :| least in ids;
    var rest := ids - {least};
    while rest != {}
      invariant rest <= ids && least in ids && forall other :: other in ids ==> other in rest || least <= other
      decreases |rest|
    {
      var id :| id in rest;
      rest := rest - {id};
      least := if id < least then id else least;
    }
  }

  /** The listed operations come first and in order; the rest is newer. */
  ghost predicate ListedSoFar(order: seq<Id>, rest: set<Id>, ids: set<Id>) {
    && (forall i, j :: 0 <= i < j < |order| ==> order[i] < order[j])
    && (forall i :: 0 <= i < |order| ==> order[i] in ids)
    && (forall i, id :: 0 <= i < |order| && id in rest ==> order[i] < id)
    && (forall id :: id in ids ==> id in rest || id in order)
  }

  lemma {:induction false} NextOldest(order: seq<Id>, rest: set<Id>, ids: set<Id>, id: Id)
    requires ListedSoFar(order, rest, ids) && rest <= ids && Least(id, rest)
    ensures ListedSoFar(order + [id], rest - {id}, ids)
  {
    forall other | other in ids ensures other in rest - {id} || other in order + [id] {
    }
  }

  lemma {:induction false} NoneStuck(order: seq<Id>, h: History, w: World)
    requires Sound(h, w) && AllAnchored(w) && Lists(order, w.journal)
    ensures forall k :: 0 <= k < |order| ==> !Stuck(w.journal[order[k]], w)
  {
    forall k | 0 <= k < |order| ensures !Stuck(w.journal[order[k]], w) {
      assert Anchored(w.journal[order[k]], w);
      if !Active(w.journal[order[k]]) {
        StuckIff(order[k], h, w);
      }
    }
  }

  lemma {:induction false} SoundUnique(h: History, w: World)
    requires Sound(h, w)
    ensures UniqueKeys(w.journal)
  {
    forall a, b | a in w.journal && b in w.journal && a != b
      ensures Active(w.journal[a]) && Active(w.journal[b]) ==> w.journal[a].op.requestId != w.journal[b].op.requestId
      ensures HasSession(w.journal[a].op) && HasSession(w.journal[b].op) ==>
          w.journal[a].op.uploadId != w.journal[b].op.uploadId
    {
      assert PairSound(a, b, h, w);
    }
  }

  predicate TakesUpload(op: Operation, uploadId: Id) {
    HasSession(op) && op.uploadId == uploadId
  }

  predicate Busy(journal: map<Id, Entry>, requestId: Id) {
    exists id :: id in journal && Active(journal[id]) && journal[id].op.requestId == requestId
  }

  predicate UploadTaken(journal: map<Id, Entry>, uploadId: Id) {
    exists id :: id in journal && TakesUpload(journal[id].op, uploadId)
  }

  /** The journal's unique indexes: one uncommitted operation per request, one operation per upload. */
  ghost predicate UniqueKeys(journal: map<Id, Entry>) {
    && (forall a, b :: a in journal && b in journal && a != b && Active(journal[a]) && Active(journal[b]) ==>
          journal[a].op.requestId != journal[b].op.requestId)
    && (forall a, b :: a in journal && b in journal && a != b ==>
          HasSession(journal[a].op) && HasSession(journal[b].op) ==> journal[a].op.uploadId != journal[b].op.uploadId)
  }

  /** Whether an effect goes through is what the script says; after its end all do. */
  predicate GoesThrough(script: seq<Signal>, k: nat) {
    k < |script| ==> script[k] == Proceeds
  }

  /** How many effects a script makes fail. */
  ghost function Faults(script: seq<Signal>): nat {
    if script == [] then 0 else Faults(script[1..]) + if script[0] == Fails then 1 else 0
  }

  lemma {:induction false} CalmHasNoFaults(script: seq<Signal>)
    requires Calm(script)
    ensures Faults(script) == 0
  {
    if script != [] {
      assert forall i :: 0 <= i < |script| - 1 ==> script[1..][i] == script[i + 1];
      CalmHasNoFaults(script[1..]);
    }
  }

  class Service {
    var store: Store
    var staged: Store
    var requests: map<Id, Row>
    var uploads: map<Id, Upload>
    var journal: map<Id, Entry>
    var script: seq<Signal>
    /** Operations dropped because of an error that a rollback swallowed or that made a repeat give up. */
    ghost var spoiled: set<Id>

    ghost var history: History

    ghost function Now(): World
      reads this
    {
      World(store, staged, requests, uploads, journal)
    }

    /** The state is one that beginnings, resumptions, errors and crashes lead to. */
    ghost predicate Valid()
      reads this
    {
      Sound(history, Now()) && spoiled !! journal.Keys
    }

    /** A service that takes over rows and files with an empty journal. */
    constructor (w: World, ghost h: History)
      requires Sound(h, w)
      ensures Valid() && Now() == w && history == h && spoiled == {} && script == []
    {
      store, staged, requests, uploads, journal := w.store, w.staged, w.requests, w.uploads, w.journal;
      script, spoiled, history := [], {}, h;
    }

    /** Whether the next effect goes through. */
    method Effect() returns (out: Outcome)
      modifies this`script
      ensures Consumed(old(script), script) && (out == Completed || Failed(out))
      ensures script == if old(script) == [] then [] else old(script)[1..]
      ensures out == Completed <==> GoesThrough(old(script), 0)
      ensures out == Threw <==> old(script) != [] && old(script)[0] == Fails
    {
      if script == [] {
        return Completed;
      }
      var signal := script[0];
      script := script[1..];
      out := match signal case Proceeds => Completed case Fails => Threw case _ => Crashed;
    }

    // -------------------------------------------------------------------------------------------
    // The store
    // -------------------------------------------------------------------------------------------

    /** Moves an asset by copying it and deleting the original; a move already done is left alone. */
    method EnsureMoved(source: Path, destination: Path) returns (out: Outcome)
      modifies this`store, this`script
      ensures Consumed(old(script), script)
      ensures source == destination || (source !in old(store) && destination in old(store)) ==>
                out == Completed && store == old(store)
      ensures source != destination && source !in old(store) && destination !in old(store) ==>
                out == Missing && store == old(store)
      ensures source != destination && source in old(store) ==>
                var bytes := if destination in old(store) then old(store)[destination] else old(store)[source];
                var copied := old(store)[destination := bytes];
                if Occupied(destination, |old(store)[source]|, old(store)) then out == Threw && store == old(store)
                else
                  && (out == Completed ==> store == copied - {source})
                  && (out != Completed ==> Failed(out) && old(script) != [])
                  && (out != Completed ==> store == old(store) || store == copied)
                  && (out == Threw ==> Faults(script) < Faults(old(script)))
      ensures Faults(script) <= Faults(old(script))
    {
      if source == destination {
        return Completed;
      }
      if source !in store {
        return if destination in store then Completed else Missing;
      }
      if destination in store && |store[destination]| != |store[source]| {
        return Threw;
      }
      if destination !in store {
        out := Effect();
        if out != Completed {
          return;
        }
        store := store[destination := store[source]];
      }
      out := Effect();
      if out != Completed {
        return;
      }
      store := store - {source};
    }

    /**
     * However often a move is cut short, the file is always at one of its keys, and once done it stays where it went.
     */
    method MoveThroughCrashes(x: Asset, scripts: seq<seq<Signal>>)
      requires x.original != x.trash && x.original in store && x.trash !in store
      modifies this`store, this`script
      ensures store == old(store)[x.trash := old(store)[x.original]] - {x.original}
    {
      var out;
      for n := 0 to |scripts|
        invariant InMove(x, old(store), store)
        invariant forall p :: p != x.original && p != x.trash ==> Look(store, p) == Look(old(store), p)
      {
        script := scripts[n];
        out := EnsureMoved(x.original, x.trash);
      }
      script := [];
      ghost var last := store;
      out := EnsureMoved(x.original, x.trash);
      ghost var done := store;
      out := EnsureMoved(x.original, x.trash);
      assert store == done;
      ghost var goal := old(store)[x.trash := old(store)[x.original]] - {x.original};
      forall p ensures Look(done, p) == Look(goal, p) {
        if p != x.original && p != x.trash {
          assert Look(last, p) == Look(old(store), p);
        }
      }
      LookUnique(done, goal);
    }

    /** Takes every asset that is still there to the trash. */
    method MoveOut(assets: seq<Asset>, ghost before: Store) returns (out: Outcome)
      requires Apart(assets) && AllInMove(assets, before, store)
      modifies this`store, this`script
      ensures Consumed(old(script), script) && (out == Completed || Failed(out))
      ensures AllInMove(assets, before, store) && (out == Completed ==> AllInTrash(assets, before, store))
      ensures AllInTrash(assets, before, old(store)) ==> out == Completed && store == old(store)
      ensures old(script) == [] ==> out == Completed
      ensures forall p :: !Touches(assets, p) ==> Look(store, p) == Look(old(store), p)
    {
      for i := 0 to |assets|
        invariant Consumed(old(script), script)
        invariant AllInMove(assets, before, store)
        invariant AllInTrash(assets, before, old(store)) ==> store == old(store)
        invariant forall k :: 0 <= k < i ==> InTrash(assets[k], before, store)
        invariant forall p :: !Touches(assets, p) ==> Look(store, p) == Look(old(store), p)
      {
        var x := assets[i];
        ghost var was := store;
        if x.original in store || x.trash in store {
          out := EnsureMoved(x.original, x.trash);
          forall k | 0 <= k < |assets| && k != i
            ensures Look(store, assets[k].original) == Look(was, assets[k].original)
            ensures Look(store, assets[k].trash) == Look(was, assets[k].trash)
          {
            OthersStay(assets, i, k, was, store);
          }
          assert InMove(x, before, store);
          forall p | !Touches(assets, p) ensures Look(store, p) == Look(was, p) {
            assert p != x.original && p != x.trash;
          }
          if out != Completed {
            return;
          }
        }
        assert InTrash(x, before, store);
      }
      out := Completed;
    }

    /** Puts the assets back; each error swallowed on the way keeps at most one of them, in `lost`, in the trash. */
    method PutBack(assets: seq<Asset>, ghost before: Store) returns (out: Outcome, ghost lost: set<nat>)
      requires Apart(assets) && AllInMove(assets, before, store)
      modifies this`store, this`script
      ensures Consumed(old(script), script) && (out == Completed || out == Crashed)
      ensures AllInMove(assets, before, store)
      ensures out == Completed ==> forall k :: 0 <= k < |assets| && k !in lost ==> Back(assets[k], before, store)
      ensures old(script) == [] ==> out == Completed
      ensures forall k :: k in lost ==> k < |assets| && assets[k].trash in store
      ensures |lost| + Faults(script) <= Faults(old(script))
      ensures forall p :: !Touches(assets, p) ==> Look(store, p) == Look(old(store), p)
    {
      lost := {};
      for i := 0 to |assets|
        invariant Consumed(old(script), script) && |lost| + Faults(script) <= Faults(old(script))
        invariant AllInMove(assets, before, store)
        invariant forall k :: 0 <= k < i && k !in lost ==> Back(assets[k], before, store)
        invariant forall k :: k in lost ==> k < i && assets[k].trash in store
        invariant forall p :: !Touches(assets, p) ==> Look(store, p) == Look(old(store), p)
      {
        var x := assets[i];
        ghost var was := store;
        out := EnsureMoved(x.trash, x.original);
        forall k | 0 <= k < |assets| && k != i
          ensures Look(store, assets[k].original) == Look(was, assets[k].original)
          ensures Look(store, assets[k].trash) == Look(was, assets[k].trash)
        {
          OthersStay(assets, i, k, was, store);
        }
        assert InMove(x, before, store);
        forall p | !Touches(assets, p) ensures Look(store, p) == Look(was, p) {
          assert p != x.original && p != x.trash;
        }
        if out == Crashed {
          return;
        }
        if out == Threw {
          lost := lost + {i};
        }
      }
      out := Completed;
    }

    /** Purges the assets side by side, whatever becomes of the others; `all` says whether every purge went through. */
    method Purge(assets: seq<Asset>) returns (out: Outcome, all: bool)
      modifies this`store, this`script
      ensures Consumed(old(script), script) && (out == Completed || out == Crashed)
      ensures OnlyTrashGone(assets, old(store), store) && (out == Completed && all ==> TrashGone(assets, store))
      ensures out == Completed ==> forall k :: 0 <= k < |assets| && GoesThrough(old(script), k) ==>
                assets[k].trash !in store
      ensures out == Completed ==> (all <==> forall k :: 0 <= k < |assets| ==> GoesThrough(old(script), k))
      ensures old(script) == [] ==> out == Completed && all
    {
      all := true;
      for i := 0 to |assets|
        invariant Consumed(old(script), script) && (old(script) == [] ==> all)
        invariant OnlyTrashGone(assets, old(store), store)
        invariant script == if i < |old(script)| then old(script)[i..] else []
        invariant forall k :: 0 <= k < i && GoesThrough(old(script), k) ==> assets[k].trash !in store
        invariant all <==> forall k :: 0 <= k < i ==> GoesThrough(old(script), k)
      {
        out := Effect();
        assert out == Completed <==> GoesThrough(old(script), i);
        if out == Crashed {
          return;
        }
        if out == Threw {
          all := false;
        } else {
          assert IsTrash(assets, assets[i].trash);
          store := store - {assets[i].trash};
        }
      }
      out := Completed;
    }

    /** Publishes a staged part and then removes it; one already published is left alone. */
    method FinalizeUpload(part: Path, dest: Path) returns (out: Outcome)
      modifies this`store, this`staged, this`script
      ensures Consumed(old(script), script)
      ensures part !in old(staged) ==>
          store == old(store) && staged == old(staged) && out == if dest in store then Completed else Missing
      ensures part in old(staged) && dest in old(store) && |old(store)[dest]| != |old(staged)[part]| ==>
                out == Threw && store == old(store) && staged == old(staged)
      ensures part in old(staged) && (dest in old(store) ==> |old(store)[dest]| == |old(staged)[part]|) ==>
                var written := old(store)[dest := if dest in old(store) then old(store)[dest] else old(staged)[part]];
                && (out == Completed ==> store == written && staged == old(staged) - {part})
                && (out != Completed ==> Failed(out) && old(script) != [])
                && (out != Completed ==> staged == old(staged) && (store == old(store) || store == written))
    {
      if part !in staged {
        return if dest in store then Completed else Missing;
      }
      if dest in store && |store[dest]| != |staged[part]| {
        return Threw;
      }
      if dest !in store {
        out := Effect();
        if out != Completed {
          return;
        }
        store := store[dest := staged[part]];
      }
      out := Effect();
      if out != Completed {
        return;
      }
      staged := staged - {part};
    }

    // -------------------------------------------------------------------------------------------
    // The journal
    // -------------------------------------------------------------------------------------------

    method MarkAssetsMoved(id: Id) returns (out: Outcome)
      modifies this`journal, this`script
      ensures Calm(old(script)) ==> out != Threw
      ensures Consumed(old(script), script) && (out == Completed || Failed(out))
      ensures (old(script) == [] ==> out == Completed)
      ensures out != Completed ==> journal == old(journal)
      ensures out == Completed ==>
                journal == if id in old(journal) && old(journal)[id].state == Prepared
                           then old(journal)[id := Entry(old(journal)[id].op, AssetsMoved)] else old(journal)
    {
      out := Effect();
      if out == Completed && id in journal && journal[id].state == Prepared {
        journal := journal[id := Entry(journal[id].op, AssetsMoved)];
      }
    }

    method FinishOperation(id: Id) returns (out: Outcome)
      modifies this`journal, this`script
      ensures Consumed(old(script), script) && (out == Completed || Failed(out))
      ensures (old(script) == [] ==> out == Completed)
      ensures out != Completed ==> journal == old(journal)
      ensures out == Completed ==>
                journal == if id in old(journal) && old(journal)[id].state == Committed then old(journal) - {id}
                  else old(journal)
    {
      out := Effect();
      if out == Completed && id in journal && journal[id].state == Committed {
        journal := journal - {id};
      }
    }

    method AbandonOperation(id: Id) returns (out: Outcome)
      modifies this`journal, this`script
      ensures Consumed(old(script), script) && (out == Completed || Failed(out))
      ensures (old(script) == [] ==> out == Completed)
      ensures journal == if out == Completed then old(journal) - {id} else old(journal)
    {
      out := Effect();
      if out == Completed {
        journal := journal - {id};
      }
    }

    /**
     * Inserts the uploaded request and closes its session, unless the session says that was done before; a request
     * of that id that is there already is an error.
     */
    method CompleteUpload(id: Id, op: Operation) returns (out: Outcome)
      requires op.UploadModel?
      modifies this`requests, this`uploads, this`journal, this`script
      ensures Consumed(old(script), script) && (out == Completed || Failed(out))
      ensures old(script) == [] && id in old(journal) && old(journal)[id].op == op ==>
                out == if !Recorded(op, old(Now())) && op.requestId in old(requests) then Threw else Completed
      ensures out != Completed || Recorded(op, old(Now())) ==>
                requests == old(requests) && uploads == old(uploads) && journal == old(journal)
      ensures out == Completed ==> id in old(journal) && old(journal)[id].op == op
      ensures out == Completed && !Recorded(op, old(Now())) ==>
                && op.requestId !in old(requests)
                && requests == old(requests)[op.requestId := Row(op.fileName, Some(op.dest), None, None)]
                && uploads == (if op.uploadId in old(uploads)
                               then old(uploads)[op.uploadId := Upload(0, Some(op.requestId))] else old(uploads))
                && journal == old(journal)[id := Entry(op, Committed)]
    {
      out := Effect();
      if out != Completed {
        return;
      }
      if id !in journal || journal[id].op != op {
        return Threw;
      }
      if op.uploadId in uploads && uploads[op.uploadId].completed.Some? {
        return;
      }
      if op.requestId in requests {
        return Threw;
      }
      requests := requests[op.requestId := NewRow(op.fileName, op.dest)];
      if op.uploadId in uploads {
        uploads := uploads[op.uploadId := Upload(0, Some(op.requestId))];
      }
      journal := journal[id := Entry(op, Committed)];
    }

    /**
     * Points the request at its new model and closes the session, unless the session says that was done before; a
     * session cannot name a request that is not there.
     */
    method CompleteAttach(id: Id, op: Operation) returns (out: Outcome)
      requires op.AttachModel?
      modifies this`requests, this`uploads, this`journal, this`script
      ensures Consumed(old(script), script) && (out == Completed || Failed(out))
      ensures old(script) == [] && id in old(journal) && old(journal)[id].op == op ==>
                out == if !Recorded(op, old(Now())) && op.uploadId in old(uploads)
                  && op.requestId !in old(requests) then Threw else Completed
      ensures out != Completed || Recorded(op, old(Now())) ==>
                requests == old(requests) && uploads == old(uploads) && journal == old(journal)
      ensures out == Completed ==> id in old(journal) && old(journal)[id].op == op
      ensures out == Completed && !Recorded(op, old(Now())) ==>
                && requests == (if op.requestId in old(requests)
                                then old(requests)[op.requestId := AttachedRow(old(requests)[op.requestId], op)]
                                else old(requests))
                && (op.requestId in old(requests) ==>
                      var was, now := old(requests)[op.requestId], requests[op.requestId];
                      && now.fileName == op.fileName && now.filePath == Some(op.dest)
                      && now.thumbnailPath == (if op.replaced.Some? then None else was.thumbnailPath)
                      && now.previewPath == (if op.replaced.Some? then None else was.previewPath))
                && uploads == (if op.uploadId in old(uploads)
                               then old(uploads)[op.uploadId := Upload(0, Some(op.requestId))] else old(uploads))
                && journal == old(journal)[id := Entry(op, Committed)]
    {
      out := Effect();
      if out != Completed {
        return;
      }
      if id !in journal || journal[id].op != op {
        return Threw;
      }
      if op.uploadId in uploads && uploads[op.uploadId].completed.Some? {
        return;
      }
      if op.uploadId in uploads && op.requestId !in requests {
        return Threw;
      }
      if op.requestId in requests {
        requests := requests[op.requestId := AttachedRow(requests[op.requestId], op)];
      }
      if op.uploadId in uploads {
        uploads := uploads[op.uploadId := Upload(0, Some(op.requestId))];
      }
      journal := journal[id := Entry(op, Committed)];
    }

    /** Deletes the request's row, and with it the sessions that name it, once. */
    method CompleteDelete(id: Id, op: Operation) returns (out: Outcome)
      requires op.DeleteRequest?
      modifies this`requests, this`uploads, this`journal, this`script
      ensures Consumed(old(script), script) && (out == Completed || Failed(out))
      ensures old(script) == [] && (id in old(journal) ==> old(journal)[id].op == op) ==> out == Completed
      ensures out != Completed || id !in old(journal) || old(journal)[id].state == Committed ==>
                requests == old(requests) && uploads == old(uploads) && journal == old(journal)
      ensures out == Completed && id in old(journal) ==> old(journal)[id].op == op
      ensures out == Completed && id in old(journal) && old(journal)[id].state != Committed ==>
                && requests == old(requests) - {op.requestId} && uploads == SessionsWithout(old(uploads), op.requestId)
                && journal == old(journal)[id := Entry(op, Committed)]
    {
      out := Effect();
      if out != Completed || id !in journal {
        return;
      }
      if journal[id].op != op {
        return Threw;
      }
      if journal[id].state == Committed {
        return;
      }
      requests := requests - {op.requestId};
      uploads := SessionsWithout(uploads, op.requestId);
      journal := journal[id := Entry(op, Committed)];
    }

    /** Inserts the repeated request unless it is there already. */
    method CompleteRepeat(id: Id, op: Operation) returns (out: Outcome)
      requires op.RepeatRequest?
      modifies this`requests, this`journal, this`script
      ensures Consumed(old(script), script) && (out == Completed || Failed(out))
      ensures old(script) == [] && id in old(journal) && old(journal)[id].op == op ==> out == Completed
      ensures out != Completed ==> requests == old(requests) && journal == old(journal)
      ensures out == Completed ==>
                && id in old(journal) && old(journal)[id].op == op
                && requests == (if op.newRequestId in old(requests) then old(requests)
                                else old(requests)[op.newRequestId := Row(op.fileName, Some(op.dest), None, None)])
                && journal == old(journal)[id := Entry(op, Committed)]
    {
      out := Effect();
      if out != Completed {
        return;
      }
      if id !in journal || journal[id].op != op {
        return Threw;
      }
      if op.newRequestId !in requests {
        requests := requests[op.newRequestId := NewRow(op.fileName, op.dest)];
      }
      journal := journal[id := Entry(op, Committed)];
    }

    // -------------------------------------------------------------------------------------------
    // Resuming an operation from its stored state
    // -------------------------------------------------------------------------------------------

    /** The upload's part is published, or, when it is gone, the upload is dropped. */
    method PublishUpload(id: Id, op: Operation, ghost s0: World) returns (out: Outcome)
      requires op.UploadModel? && id in journal && journal[id] == Entry(op, Prepared)
      requires Begun(op, s0) && Going(id, op, s0, Now())
      modifies this`store, this`staged, this`journal, this`script
      ensures Consumed(old(script), script) && (old(script) == [] ==> !Failed(out))
      ensures OnlyTouched(id, op, old(Now()), Now())
      ensures Going(id, op, s0, Now()) || (out == Missing && Settled(id, op, s0, Now()))
      ensures out == Completed ==> journal[id].state == AssetsMoved
      ensures out == Missing ==> Settled(id, op, s0, Now())
    {
      out := FinalizeUpload(op.part, op.dest);
      if Failed(out) {
        return;
      }
      if out == Missing {
        out := DropUpload(id, op, s0);
      } else {
        out := MarkAssetsMoved(id);
      }
    }

    method DropUpload(id: Id, op: Operation, ghost s0: World) returns (out: Outcome)
      requires op.UploadModel? && id in journal && journal[id] == Entry(op, Prepared)
      requires Going(id, op, s0, Now()) && op.part !in s0.staged && op.dest !in store
      modifies this`store, this`journal, this`script
      ensures Consumed(old(script), script) && (old(script) == [] ==> !Failed(out)) && (out == Missing || Failed(out))
      ensures OnlyTouched(id, op, old(Now()), Now())
      ensures Failed(out) ==> Going(id, op, s0, Now())
      ensures out == Missing ==> Settled(id, op, s0, Now())
    {
      out := RemoveQuietly(op.dest);
      if out != Crashed {
        out := AbandonOperation(id);
      }
      return if out == Completed then Missing else out;
    }

    method RemoveQuietly(p: Path) returns (out: Outcome)
      modifies this`store, this`script
      ensures Consumed(old(script), script) && (out == Completed || out == Crashed)
      ensures (old(script) == [] ==> out == Completed)
      ensures store == old(store) || store == old(store) - {p}
      ensures old(script) == [] ==> p !in store
    {
      out := Effect();
      if out == Completed {
        store := store - {p};
      }
      if out == Threw {
        out := Completed;
      }
    }

    method ResumeUpload(id: Id, entry: Entry, ghost s0: World) returns (out: Outcome)
      requires entry.op.UploadModel? && id in journal && journal[id] == entry && Fit(id, entry, s0, Now())
      modifies this`store, this`staged, this`requests, this`uploads, this`journal, this`script
      ensures Consumed(old(script), script) && (out == Completed || Failed(out))
      ensures (out == Completed ==> id !in journal)
      ensures Active(entry) ==> CarriedOn(id, entry.op, s0, old(Now()), Now())
      ensures Active(entry) && old(script) == [] ==> out == Completed && Settled(id, entry.op, s0, Now())
      ensures !Active(entry) ==> Replayed(id, entry.op, old(Now()), Now())
      ensures !Active(entry) && old(script) == [] ==> ReplayedInFull(id, entry.op, old(Now()), Now(), out)
    {
      var op := entry.op;
      ghost var first := Now();
      if entry.state == Prepared {
        out := PublishUpload(id, op, s0);
        if out == Missing {
          return Completed;
        }
        if out != Completed {
          return;
        }
      }
      ghost var moved := Now();
      out := RecordUpload(id, op, s0);
      if Active(entry) {
        Touched(id, op, first, moved, Now());
      }
    }

    method RecordUpload(id: Id, op: Operation, ghost s0: World) returns (out: Outcome)
      requires op.UploadModel? && id in journal && journal[id].op == op && journal[id].state != Prepared
      requires Fit(id, journal[id], s0, Now())
      modifies this`requests, this`uploads, this`journal, this`script
      ensures Consumed(old(script), script) && (out == Completed || Failed(out))
      ensures (out == Completed ==> id !in journal)
      ensures Active(old(journal)[id]) ==> CarriedOn(id, op, s0, old(Now()), Now())
      ensures Active(old(journal)[id]) && old(script) == [] ==> out == Completed && Settled(id, op, s0, Now())
      ensures !Active(old(journal)[id]) ==> Replayed(id, op, old(Now()), Now())
      ensures !Active(old(journal)[id]) && old(script) == [] ==> ReplayedInFull(id, op, old(Now()), Now(), out)
    {
      out := CompleteUpload(id, op);
      if out == Completed {
        out := FinishOperation(id);
      }
    }

    /** Dropping the swap leaves the request on its old model, so its assets are put back first. */
    method Withdraw(id: Id, op: Operation, ghost s0: World) returns (out: Outcome)
      requires op.AttachModel? && id in journal && journal[id] == Entry(op, Prepared)
      requires Begun(op, s0) && Going(id, op, s0, Now()) && op.part !in s0.staged
      modifies this`store, this`journal, this`script, this`spoiled
      ensures Consumed(old(script), script) && (old(script) == [] ==> !Failed(out))
      ensures (Calm(old(script)) ==> spoiled == old(spoiled))
      ensures OnlyTouched(id, op, old(Now()), Now())
      ensures out == Missing || Failed(out)
      ensures spoiled == old(spoiled) || (spoiled == old(spoiled) + {id} && Stranded(op, store)
          && Spoiled(id, op, s0, old(Now()), Now()))
      ensures Failed(out) ==> Going(id, op, s0, Now()) && spoiled == old(spoiled)
      ensures out == Missing ==> id !in journal && (id in spoiled || Settled(id, op, s0, Now()))
    {
      var replaced := Replaced(op);
      out := RemoveQuietly(op.dest);
      if out == Crashed {
        return;
      }
      assert store == old(store);
      ghost var lost;
      if Calm(script) {
        CalmHasNoFaults(script);
      }
      out, lost := PutBack(replaced, s0.store);
      assert out == Completed && lost == {} ==> AllBack(replaced, s0.store, store);
      if out == Completed {
        out := AbandonOperation(id);
      }
      if out == Completed {
        if lost != {} {
          spoiled := spoiled + {id};
        }
        out := Missing;
      }
    }

    method PublishModel(id: Id, op: Operation, ghost s0: World) returns (out: Outcome)
      requires op.AttachModel? && id in journal && journal[id] == Entry(op, Prepared)
      requires Begun(op, s0) && Going(id, op, s0, Now()) && AllInTrash(Replaced(op), s0.store, store)
      modifies this`store, this`staged, this`journal, this`script, this`spoiled
      ensures Consumed(old(script), script) && (old(script) == [] ==> !Failed(out))
      ensures (Calm(old(script)) ==> spoiled == old(spoiled))
      ensures OnlyTouched(id, op, old(Now()), Now())
      ensures spoiled == old(spoiled) || (spoiled == old(spoiled) + {id} && Stranded(op, store)
          && Spoiled(id, op, s0, old(Now()), Now()))
      ensures id in spoiled || Going(id, op, s0, Now()) || (out == Missing && Settled(id, op, s0, Now()))
      ensures out == Completed ==> id in journal && journal[id] == Entry(op, AssetsMoved) && Going(id, op, s0, Now())
      ensures out == Missing ==> id !in journal && (id in spoiled || Settled(id, op, s0, Now()))
    {
      ghost var first := Now();
      out := FinalizeUpload(op.part, op.dest);
      DestApart(op, s0, first.store, store);
      assert OnlyTouched(id, op, first, Now());
      assert out == Completed ==> Landed(op.part, op.dest, s0, Now());
      if out == Missing {
        out := Withdraw(id, op, s0);
      } else if out == Completed {
        out := MarkAssetsMoved(id);
      }
    }

    /** Moves the old model out and publishes the new one; when the part is gone, puts the old model back. */
    method SwapModel(id: Id, op: Operation, ghost s0: World) returns (out: Outcome)
      requires op.AttachModel? && id in journal && journal[id] == Entry(op, Prepared)
      requires Begun(op, s0) && Going(id, op, s0, Now())
      modifies this`store, this`staged, this`journal, this`script, this`spoiled
      ensures Consumed(old(script), script) && (old(script) == [] ==> !Failed(out))
      ensures (Calm(old(script)) ==> spoiled == old(spoiled))
      ensures OnlyTouched(id, op, old(Now()), Now())
      ensures spoiled == old(spoiled) || (spoiled == old(spoiled) + {id} && Stranded(op, store)
          && Spoiled(id, op, s0, old(Now()), Now()))
      ensures id in spoiled || Going(id, op, s0, Now()) || (out == Missing && Settled(id, op, s0, Now()))
      ensures out == Completed ==> id in journal && journal[id] == Entry(op, AssetsMoved) && Going(id, op, s0, Now())
      ensures out == Missing ==> id !in journal && (id in spoiled || Settled(id, op, s0, Now()))
    {
      ghost var first := Now();
      out := MoveOut(Replaced(op), s0.store);
      assert OnlyTouched(id, op, first, Now());
      if out != Completed {
        assert AttachGoing(op, Prepared, s0, Now());
        return;
      }
      ghost var moved := Now();
      out := PublishModel(id, op, s0);
      Touched(id, op, first, moved, Now());
    }

    method ResumeAttach(id: Id, entry: Entry, ghost s0: World) returns (out: Outcome)
      requires entry.op.AttachModel? && id in journal && journal[id] == entry && Fit(id, entry, s0, Now())
      modifies this`store, this`staged, this`requests, this`uploads, this`journal, this`script, this`spoiled
      ensures Consumed(old(script), script) && (Calm(old(script)) ==> spoiled == old(spoiled))
      ensures (out == Completed || Failed(out))
      ensures spoiled == old(spoiled) || (spoiled == old(spoiled) + {id}
          && Spoiled(id, entry.op, s0, old(Now()), Now()))
      ensures out == Completed && id in journal ==> !Active(journal[id])
      ensures Active(entry) ==> OnlyTouched(id, entry.op, old(Now()), Now())
      ensures Active(entry) ==> id in spoiled || Going(id, entry.op, s0, Now()) || Settled(id, entry.op, s0, Now())
      ensures Active(entry) && old(script) == [] ==>
          out == Completed && (id in spoiled || Settled(id, entry.op, s0, Now()))
      ensures !Active(entry) ==> spoiled == old(spoiled) && Replayed(id, entry.op, old(Now()), Now())
      ensures !Active(entry) && old(script) == [] ==> ReplayedInFull(id, entry.op, old(Now()), Now(), out)
    {
      var op := entry.op;
      ghost var first := Now();
      if entry.state == Prepared {
        out := SwapModel(id, op, s0);
        if out == Missing {
          return Completed;
        }
        if out != Completed {
          return;
        }
      }
      ghost var moved := Now();
      out := RecordAttach(id, op, s0);
      if Active(entry) {
        Touched(id, op, first, moved, Now());
      }
    }

    /** Records the new model, then purges what it replaced; a failed purge leaves the operation for a later run. */
    method RecordAttach(id: Id, op: Operation, ghost s0: World) returns (out: Outcome)
      requires op.AttachModel? && id in journal && journal[id].op == op && journal[id].state != Prepared
      requires Fit(id, journal[id], s0, Now())
      modifies this`store, this`requests, this`uploads, this`journal, this`script
      ensures Consumed(old(script), script) && (out == Completed || Failed(out))
      ensures out == Completed && id in journal ==> !Active(journal[id])
      ensures Active(old(journal)[id]) ==> CarriedOn(id, op, s0, old(Now()), Now())
      ensures Active(old(journal)[id]) && old(script) == [] ==> out == Completed && Settled(id, op, s0, Now())
      ensures !Active(old(journal)[id]) ==> Replayed(id, op, old(Now()), Now())
      ensures !Active(old(journal)[id]) && old(script) == [] ==> ReplayedInFull(id, op, old(Now()), Now(), out)
    {
      out := CompleteAttach(id, op);
      if out != Completed {
        return;
      }
      ghost var recorded := store;
      ghost var active := Active(old(journal)[id]);
      assert active ==> AttachGoing(op, Committed, s0, Now());
      out := PurgeAndFinish(id, op);
      if active {
        PurgeStaysApart(op, s0, recorded, store);
      }
    }

    /** Purges what the committed operation threw away; it leaves the journal when every purge went through. */
    method PurgeAndFinish(id: Id, op: Operation) returns (out: Outcome)
      requires id in journal && journal[id] == Entry(op, Committed)
      modifies this`store, this`journal, this`script
      ensures Consumed(old(script), script) && (out == Completed || Failed(out))
      ensures OnlyTrashGone(Discards(op), old(store), store)
      ensures journal == old(journal) || (journal == old(journal) - {id} && TrashGone(Discards(op), store))
      ensures old(script) == [] ==> out == Completed && id !in journal
    {
      var all;
      out, all := Purge(Discards(op));
      if out == Completed && all {
        out := FinishOperation(id);
      }
    }

    method TrashAssets(id: Id, op: Operation, ghost s0: World) returns (out: Outcome)
      requires op.DeleteRequest? && id in journal && journal[id] == Entry(op, Prepared)
      requires Begun(op, s0) && Going(id, op, s0, Now())
      modifies this`store, this`journal, this`script
      ensures Consumed(old(script), script) && (out == Completed || Failed(out))
      ensures (old(script) == [] ==> out == Completed)
      ensures OnlyTouched(id, op, old(Now()), Now()) && Going(id, op, s0, Now())
      ensures out == Completed ==> journal[id] == Entry(op, AssetsMoved)
    {
      out := MoveOut(op.assets, s0.store);
      assert DeleteGoing(op, Prepared, s0, Now());
      if out == Completed {
        out := MarkAssetsMoved(id);
      }
    }

    method ResumeDelete(id: Id, entry: Entry, ghost s0: World) returns (out: Outcome)
      requires entry.op.DeleteRequest? && id in journal && journal[id] == entry && Fit(id, entry, s0, Now())
      modifies this`store, this`requests, this`uploads, this`journal, this`script
      ensures Consumed(old(script), script) && (out == Completed || Failed(out))
      ensures out == Completed && id in journal ==> !Active(journal[id])
      ensures Active(entry) ==> CarriedOn(id, entry.op, s0, old(Now()), Now())
      ensures Active(entry) && old(script) == [] ==> out == Completed && Settled(id, entry.op, s0, Now())
      ensures !Active(entry) ==> Replayed(id, entry.op, old(Now()), Now())
      ensures !Active(entry) && old(script) == [] ==> ReplayedInFull(id, entry.op, old(Now()), Now(), out)
    {
      var op := entry.op;
      ghost var first := Now();
      if entry.state == Prepared {
        out := TrashAssets(id, op, s0);
        if out != Completed {
          return;
        }
      }
      ghost var moved := Now();
      if op.purgeBeforeDelete && entry.state != Committed {
        out := PurgeThenDelete(id, op, s0);
      } else {
        out := DeleteThenPurge(id, op, entry.state, s0);
      }
      if Active(entry) {
        Touched(id, op, first, moved, Now());
      }
    }

    /** A failed purge keeps the row and throws. */
    method PurgeThenDelete(id: Id, op: Operation, ghost s0: World) returns (out: Outcome)
      requires op.DeleteRequest? && op.purgeBeforeDelete && id in journal && journal[id] == Entry(op, AssetsMoved)
      requires Begun(op, s0) && Going(id, op, s0, Now())
      modifies this`store, this`requests, this`uploads, this`journal, this`script
      ensures Consumed(old(script), script) && (out == Completed || Failed(out))
      ensures out == Completed && id in journal ==> !Active(journal[id])
      ensures CarriedOn(id, op, s0, old(Now()), Now())
      ensures old(script) == [] ==> out == Completed && Settled(id, op, s0, Now())
    {
      ghost var before := store;
      var all;
      out, all := Purge(op.assets);
      PurgingGoesOn(op.assets, s0.store, before, store);
      assert DeleteGoing(op, AssetsMoved, s0, Now());
      if out == Completed && !all {
        out := Threw;
      }
      if out == Completed {
        out := CompleteDelete(id, op);
      }
      if out == Completed {
        out := FinishOperation(id);
      }
    }

    /** A failed purge leaves the committed operation for a later run. */
    method DeleteThenPurge(id: Id, op: Operation, state: State, ghost s0: World) returns (out: Outcome)
      requires op.DeleteRequest? && id in journal && journal[id].op == op && journal[id].state != Prepared
      requires Fit(id, journal[id], s0, Now())
      requires state == Committed <==> journal[id].state == Committed
      requires !(op.purgeBeforeDelete && journal[id].state == AssetsMoved)
      modifies this`store, this`requests, this`uploads, this`journal, this`script
      ensures Consumed(old(script), script) && (out == Completed || Failed(out))
      ensures out == Completed && id in journal ==> !Active(journal[id])
      ensures state != Committed ==> CarriedOn(id, op, s0, old(Now()), Now())
      ensures state != Committed && old(script) == [] ==> out == Completed && Settled(id, op, s0, Now())
      ensures state == Committed ==> Replayed(id, op, old(Now()), Now())
      ensures state == Committed && old(script) == [] ==> ReplayedInFull(id, op, old(Now()), Now(), out)
    {
      if state != Committed {
        out := CompleteDelete(id, op);
        if out != Completed {
          return;
        }
        assert DeleteGoing(op, Committed, s0, Now());
      }
      ghost var before := store;
      out := PurgeAndFinish(id, op);
      if state != Committed {
        PurgingGoesOn(op.assets, s0.store, before, store);
      }
    }

    /** Writes a file whole, except when the process crashes in the middle of it. */
    method WriteCopy(dest: Path, bytes: Bytes) returns (out: Outcome)
      requires dest !in store
      modifies this`store, this`script
      ensures Consumed(old(script), script) && (out == Completed || Failed(out))
      ensures (old(script) == [] ==> out == Completed)
      ensures Calm(old(script)) ==> out != Threw
      ensures forall p :: p != dest ==> Look(store, p) == Look(old(store), p)
      ensures dest in store ==> store[dest] <= bytes
      ensures out == Completed ==> Look(store, dest) == Some(bytes)
    {
      if script != [] && script[0].Tears? && script[0].kept < |bytes| {
        store := store[dest := bytes[..script[0].kept]];
      }
      out := Effect();
      if out == Completed {
        store := store[dest := bytes];
      }
    }

    /** Copies the source unless a whole copy is there already. */
    method CopyModel(id: Id, op: Operation, ghost s0: World) returns (out: Outcome)
      requires op.RepeatRequest? && id in journal && journal[id] == Entry(op, Prepared)
      requires Begun(op, s0) && Going(id, op, s0, Now())
      modifies this`store, this`journal, this`script
      ensures Consumed(old(script), script) && (out == Completed || Failed(out))
      ensures old(script) == [] ==> out == if op.source in s0.store then Completed else Threw
      ensures Calm(old(script)) && out == Threw ==> op.source !in s0.store
      ensures OnlyTouched(id, op, old(Now()), Now()) && Going(id, op, s0, Now())
      ensures id in journal && journal[id] == Entry(op, if out == Completed then AssetsMoved else Prepared)
    {
      if op.source !in store {
        return Threw;
      }
      var bytes := store[op.source];
      if !(op.dest in store && |store[op.dest]| == |bytes|) {
        if op.dest in store {
          out := Effect();
          if out != Completed {
            return;
          }
          store := store - {op.dest};
        }
        out := WriteCopy(op.dest, bytes);
        if out != Completed {
          return;
        }
      } else {
        assert store[op.dest] == bytes[..|store[op.dest]|] == bytes;
      }
      assert Look(store, op.dest) == Some(s0.store[op.source]);
      out := MarkAssetsMoved(id);
    }

    /** An error while copying removes the copy, drops the operation and is passed on. */
    method GiveUpRepeat(id: Id, op: Operation, ghost s0: World) returns (out: Outcome)
      requires op.RepeatRequest? && id in journal && journal[id] == Entry(op, Prepared)
      requires Begun(op, s0) && Going(id, op, s0, Now())
      modifies this`store, this`journal, this`script, this`spoiled
      ensures Consumed(old(script), script) && Failed(out) && (old(script) == [] ==> out == Threw)
      ensures OnlyTouched(id, op, old(Now()), Now())
      ensures spoiled == old(spoiled) || (op.source in s0.store && spoiled == old(spoiled) + {id}
          && Spoiled(id, op, s0, old(Now()), Now()))
      ensures id in spoiled || Going(id, op, s0, Now()) || Settled(id, op, s0, Now())
      ensures old(script) == [] ==> id !in journal
    {
      out := RemoveQuietly(op.dest);
      if out == Crashed {
        return;
      }
      out := AbandonOperation(id);
      if out == Completed {
        if op.source in s0.store {
          spoiled := spoiled + {id};
        }
        out := Threw;
      }
    }

    method ResumeRepeat(id: Id, entry: Entry, ghost s0: World) returns (out: Outcome)
      requires entry.op.RepeatRequest? && id in journal && journal[id] == entry && Fit(id, entry, s0, Now())
      modifies this`store, this`requests, this`journal, this`script, this`spoiled
      ensures Consumed(old(script), script) && (Calm(old(script)) ==> spoiled == old(spoiled))
      ensures (out == Completed || Failed(out))
      ensures spoiled == old(spoiled) || (spoiled == old(spoiled) + {id}
          && Spoiled(id, entry.op, s0, old(Now()), Now()))
      ensures out == Completed ==> id !in journal
      ensures Active(entry) ==> OnlyTouched(id, entry.op, old(Now()), Now())
      ensures Active(entry) ==> id in spoiled || Going(id, entry.op, s0, Now()) || Settled(id, entry.op, s0, Now())
      ensures Active(entry) && old(script) == [] ==>
                && (id in spoiled || Settled(id, entry.op, s0, Now()))
                && out == if SourceLost(entry, old(store)) then Threw else Completed
      ensures !Active(entry) ==> spoiled == old(spoiled) && Replayed(id, entry.op, old(Now()), Now())
      ensures !Active(entry) && old(script) == [] ==> ReplayedInFull(id, entry.op, old(Now()), Now(), out)
    {
      var op := entry.op;
      ghost var first := Now();
      if entry.state == Prepared {
        out := CopyModel(id, op, s0);
        if out == Threw {
          ghost var tried := Now();
          out := GiveUpRepeat(id, op, s0);
          Touched(id, op, first, tried, Now());
          return;
        }
        if out != Completed {
          return;
        }
      }
      ghost var moved := Now();
      out := RecordRepeat(id, op, s0);
      if Active(entry) {
        Touched(id, op, first, moved, Now());
      }
    }

    method RecordRepeat(id: Id, op: Operation, ghost s0: World) returns (out: Outcome)
      requires op.RepeatRequest? && id in journal && journal[id].op == op && journal[id].state != Prepared
      requires Fit(id, journal[id], s0, Now())
      modifies this`requests, this`journal, this`script
      ensures Consumed(old(script), script) && (out == Completed || Failed(out))
      ensures (out == Completed ==> id !in journal)
      ensures Active(old(journal)[id]) ==> CarriedOn(id, op, s0, old(Now()), Now())
      ensures Active(old(journal)[id]) && old(script) == [] ==> out == Completed && Settled(id, op, s0, Now())
      ensures !Active(old(journal)[id]) ==> Replayed(id, op, old(Now()), Now())
      ensures !Active(old(journal)[id]) && old(script) == [] ==> ReplayedInFull(id, op, old(Now()), Now(), out)
    {
      out := CompleteRepeat(id, op);
      if out == Completed {
        out := FinishOperation(id);
      }
    }

    method Resume(id: Id, entry: Entry, ghost s0: World) returns (out: Outcome)
      requires id in journal && journal[id] == entry && id !in spoiled && Fit(id, entry, s0, Now())
      modifies this`store, this`staged, this`requests, this`uploads, this`journal, this`script, this`spoiled
      ensures Consumed(old(script), script) && (Calm(old(script)) ==> spoiled == old(spoiled))
      ensures (out == Completed || Failed(out))
      ensures spoiled == old(spoiled) || spoiled == old(spoiled) + {id}
      ensures out == Completed && id in journal ==> !Active(journal[id]) && !Inserts(entry.op)
      ensures Active(entry) ==> Stepped(id, entry.op, s0, old(Now()), Now(), id in spoiled)
      ensures Active(entry) && old(script) == [] ==>
                Settled(id, entry.op, s0, Now()) && out == if SourceLost(entry, old(store)) then Threw else Completed
      ensures !Active(entry) ==> spoiled == old(spoiled) && Replayed(id, entry.op, old(Now()), Now())
      ensures !Active(entry) && old(script) == [] ==> ReplayedInFull(id, entry.op, old(Now()), Now(), out)
    {
      ghost var before := Now();
      match entry.op {
        case UploadModel(_, _, _, _, _) => out := ResumeUpload(id, entry, s0);
        case AttachModel(_, _, _, _, _, _) => out := ResumeAttach(id, entry, s0);
        case DeleteRequest(_, _, _) => out := ResumeDelete(id, entry, s0);
        case RepeatRequest(_, _, _, _, _) => out := ResumeRepeat(id, entry, s0);
      }
      if Active(entry) {
        JournalShrinks(id, entry.op, before, Now());
      }
    }

    /** Resumes one operation from its stored state and notes in the history what became of it. */
    method ResumeNext(id: Id, entry: Entry) returns (out: Outcome)
      requires Valid() && id in journal && journal[id] == entry
      modifies this
      ensures Valid() && Consumed(old(script), script) && (Calm(old(script)) ==> spoiled == old(spoiled))
      ensures (out == Completed || Failed(out))
      ensures Onward(id, old(history), old(Now()), history, Now(), spoiled != old(spoiled))
      ensures spoiled == old(spoiled) || spoiled == old(spoiled) + {id}
      ensures forall i :: i != id ==> Look(journal, i) == Look(old(journal), i)
      ensures out == Completed && id in journal ==> !Active(journal[id]) && !Inserts(entry.op)
      ensures journal.Keys <= old(journal.Keys)
      ensures old(script) == [] ==> Undisturbed(id, entry, old(history), old(Now()), history, Now(), out)
    {
      ghost var v, h, was, s0 := Now(), history, spoiled, if id in history.starts then history.starts[id] else Now();
      assert EntrySound(id, h, v);
      out := Resume(id, entry, s0);
      history := Pruned(if Active(entry) then Noted(h, entry.op, spoiled != was)
        else Recalled(h, entry.op, v, Now()), Now());
      OnwardKeepsSound(id, h, v, history, Now(), spoiled != was);
    }

    /** Resumes the listed operations in order; an error ends the run. */
    method RecoverOperations(order: seq<Id>, ghost h0: History, ghost w0: World) returns (out: Outcome)
      requires Valid() && Lists(order, journal)
      modifies this
      ensures Valid() && Consumed(old(script), script) && (Calm(old(script)) ==> spoiled == old(spoiled))
      ensures (out == Completed || Failed(out))
      ensures journal.Keys <= old(journal.Keys)
      ensures old(Recovering(h0, w0, history, Now(), spoiled)) ==>
                Recovering(h0, w0, history, Now(), spoiled) && (NoSourceLost(old(Now())) ==> NoSourceLost(Now()))
      ensures old(Recovering(h0, w0, history, Now(), spoiled)) && spoiled == old(spoiled) ==>
                history.astray <= old(history.astray)
      ensures old(spoiled) <= spoiled
      ensures old(script) == [] ==>
          RunEnds(order, old(journal), old(Now()), old(history.revived), history.revived, journal, out)
    {
      var listed := journal;
      ghost var first, revived, undisturbed := Now(), history.revived, script == [];
      ghost var recovering := Recovering(h0, w0, history, first, spoiled);
      for n := 0 to |order|
        invariant Valid() && Consumed(old(script), script) && (Calm(old(script)) ==> spoiled == old(spoiled))
        invariant Along(order, listed, first, revived, history, Now(), n, undisturbed)
        invariant recovering ==>
            Recovering(h0, w0, history, Now(), spoiled) && (NoSourceLost(first) ==> NoSourceLost(Now()))
        invariant old(spoiled) <= spoiled
        invariant recovering && spoiled == old(spoiled) ==> history.astray <= old(history.astray)
      {
        out := RecoverNext(order, listed, n, undisturbed, h0, w0, first, revived);
        if Failed(out) {
          return;
        }
      }
      out := Completed;
      if undisturbed {
        EndsWhole(order, listed, first, revived, history, Now());
      }
    }

    /** The `n`-th operation of a run; it uses the state in which the operation was listed. */
    method RecoverNext(
        order: seq<Id>, listed: map<Id, Entry>, n: nat, ghost undisturbed: bool,
        ghost h0: History, ghost w0: World, ghost first: World, ghost revived: set<Id>)
      returns (out: Outcome)
      requires Valid() && Lists(order, listed) && n < |order| && (undisturbed ==> script == [])
      requires Along(order, listed, first, revived, history, Now(), n, undisturbed)
      modifies this
      ensures Valid() && Consumed(old(script), script) && (Calm(old(script)) ==> spoiled == old(spoiled))
      ensures (out == Completed || Failed(out))
      ensures journal.Keys <= old(journal.Keys)
      ensures out == Completed ==> Along(order, listed, first, revived, history, Now(), n + 1, undisturbed)
      ensures undisturbed && Failed(out) ==> RunEnds(order, listed, first, revived, history.revived, journal, out)
      ensures old(Recovering(h0, w0, history, Now(), spoiled)) ==>
                Recovering(h0, w0, history, Now(), spoiled) && (NoSourceLost(old(Now())) ==> NoSourceLost(Now()))
      ensures old(spoiled) <= spoiled
      ensures old(Recovering(h0, w0, history, Now(), spoiled)) && spoiled == old(spoiled) ==>
                history.astray <= old(history.astray)
    {
      ghost var v, h, was := Now(), history, spoiled;
      assert Look(journal, order[n]) == Some(listed[order[n]]);
      out := ResumeNext(order[n], listed[order[n]]);
      NextOperation(order, listed, first, revived, h, v, history, Now(), n, undisturbed, spoiled != was, out);
      if Recovering(h0, w0, h, v, was) {
        OlderTidy(order, listed, v.journal, n);
        OnwardRecovers(order[n], h0, w0, h, v, history, Now(), was, spoiled);
      }
    }

    method ListOperations() returns (order: seq<Id>)
      ensures Lists(order, journal)
    {
      order := [];
      var rest := journal.Keys;
      while rest != {}
        invariant rest <= journal.Keys && ListedSoFar(order, rest, journal.Keys)
        decreases |rest|
      {
        var id := Oldest(rest);
        NextOldest(order, rest, journal.Keys, id);
        order, rest := order + [id], rest - {id};
      }
    }

    /**
     * Recovery runs that each end in a crash or an error, wherever the scripts put it, and then undisturbed ones
     * until the journal is empty, from any reachable state in which no leftover revives a request and the sessions
     * of the journaled uploads are there.
     */
    method RecoverFromCrashes(scripts: seq<seq<Signal>>) returns (runs: nat)
      requires Valid() && NoneRevives(Now()) && AllAnchored(Now())
      modifies this
      ensures Valid() && journal == map[] && Underway(old(history), old(Now()), Now(), spoiled)
      ensures (forall i :: 0 <= i < |scripts| ==> Calm(scripts[i])) ==>
                spoiled == old(spoiled) && forall r :: r !in old(history.astray) ==> !Dangling(r, Now())
      ensures NoSourceLost(old(Now())) ==> runs <= 1
      ensures forall r :: Dangling(r, Now()) <==> r in history.astray
    {
      ghost var h0, w0 := history, Now();
      StartsUnderway(h0, w0, spoiled);
      var order, out;
      for n := 0 to |scripts|
        invariant Valid() && Recovering(h0, w0, history, Now(), spoiled) && (NoSourceLost(w0) ==> NoSourceLost(Now()))
        invariant (forall i :: 0 <= i < |scripts| ==> Calm(scripts[i])) ==>
            spoiled == old(spoiled) && history.astray <= h0.astray
      {
        script := scripts[n];
        order := ListOperations();
        out := RecoverOperations(order, h0, w0);
      }
      runs := 0;
      while journal != map[]
        invariant Valid() && Recovering(h0, w0, history, Now(), spoiled) && (NoSourceLost(w0) ==> NoSourceLost(Now()))
        invariant (forall i :: 0 <= i < |scripts| ==> Calm(scripts[i])) ==>
            spoiled == old(spoiled) && history.astray <= h0.astray
        invariant NoSourceLost(w0) ==> runs == 0 || (runs == 1 && journal == map[])
        decreases |journal.Keys|
      {
        RecoverUndisturbed(h0, w0);
        runs := runs + 1;
      }
      forall r ensures Dangling(r, Now()) <==> r in history.astray {
        NoModelDangles(history, Now(), r);
      }
    }

    /** One more run, in which nothing fails: at least the oldest operation leaves the journal. */
    method RecoverUndisturbed(ghost h0: History, ghost w0: World)
      requires Valid() && Recovering(h0, w0, history, Now(), spoiled) && journal != map[]
      modifies this
      ensures Valid() && Recovering(h0, w0, history, Now(), spoiled) && spoiled == old(spoiled)
      ensures |journal.Keys| < |old(journal.Keys)| && history.astray <= old(history.astray)
      ensures NoSourceLost(old(Now())) ==> NoSourceLost(Now()) && journal == map[]
    {
      script := [];
      var order := ListOperations();
      ghost var listed := journal;
      NoneStuck(order, history, Now());
      var out := RecoverOperations(order, h0, w0);
      assert order[0] in listed && order[0] !in journal;
      NoMoreThan(journal.Keys, listed.Keys);
    }

    // -------------------------------------------------------------------------------------------
    // Beginning an operation
    // -------------------------------------------------------------------------------------------

    /** Deletes and repeats: refused for a request that is gone or has an operation that is not committed yet. */
    method BeginOperation(id: Id, op: Operation) returns (ok: bool)
      requires Valid() && id !in spoiled && (op.DeleteRequest? || op.RepeatRequest?)
      requires op.requestId in requests && !Busy(journal, op.requestId) ==>
          Offered(id, op, history, Now()) && Begun(op, Now())
      modifies this`journal, this`history
      ensures Valid()
      ensures ok <==> op.requestId in requests && !Busy(old(journal), op.requestId)
      ensures journal == if ok then old(journal)[id := Entry(op, Prepared)] else old(journal)
      ensures history == if ok then Started(old(history), id, op, old(Now())) else old(history)
    {
      ok := op.requestId in requests && !Busy(journal, op.requestId);
      if ok {
        BeginKeepsSound(id, op, history, Now());
        history := Started(history, id, op, Now());
        journal := journal[id := Entry(op, Prepared)];
      }
    }

    /** Uploads and attaches: needs an open session, and changes nothing while another operation is in the way. */
    method BeginUpload(id: Id, op: Operation) returns (found: bool)
      requires Valid() && id !in spoiled && HasSession(op)
      requires MayBegin(op) ==> Offered(id, op, history, Now()) && Begun(op, Now())
      modifies this`journal, this`history
      ensures Valid()
      ensures found <==> op.uploadId in uploads
      ensures journal == if old(MayBegin(op)) then old(journal)[id := Entry(op, Prepared)] else old(journal)
      ensures history == if old(MayBegin(op)) then Started(old(history), id, op, old(Now())) else old(history)
    {
      found := op.uploadId in uploads;
      if MayBegin(op) {
        BeginKeepsSound(id, op, history, Now());
        history := Started(history, id, op, Now());
        journal := journal[id := Entry(op, Prepared)];
      }
    }

    predicate MayBegin(op: Operation)
      requires HasSession(op)
      reads this
    {
      && op.uploadId in uploads && uploads[op.uploadId].completed.None?
      && !Busy(journal, op.requestId) && !UploadTaken(journal, op.uploadId)
    }

    /** A new session and the part that was staged for it. */
    method StageUpload(u: Id, bytes: Bytes)
      requires Valid() && u !in uploads && !UploadTaken(journal, u)
      modifies this`uploads, this`staged
      ensures Valid() && Happens(Stages(u, bytes), old(history), old(Now()), history, Now())
      ensures uploads == old(uploads)[u := Upload(|bytes|, None)] && staged == old(staged)[Part(u) := bytes]
    {
      ghost var v := Now();
      uploads := uploads[u := Upload(|bytes|, None)];
      staged := staged[Part(u) := bytes];
      StagingKeepsSound(history, v, u, bytes);
    }

    /**
     * A client gives up an upload, or it expires: its session goes unless it is closed, the staged part only with an
     * expired session or in a sweep of the parts that no open session has.
     */
    method ReleaseUpload(u: Id, session: bool, part: bool)
      requires Valid()
      modifies this`uploads, this`staged, this`history
      ensures Valid()
      ensures uploads == if session && u in old(uploads) && old(uploads)[u].completed.None?
          then old(uploads) - {u} else old(uploads)
      ensures staged == if part then old(staged) - {Part(u)} else old(staged)
      ensures exists open :: Happens(Drops(u, open, part), old(history), old(Now()), history, Now())
    {
      ghost var h, v := history, Now();
      var open := session && u in uploads && uploads[u].completed.None?;
      if open {
        uploads := uploads - {u};
      }
      if part {
        staged := staged - {Part(u)};
      }
      DropKeepsSound(u, open, part, h, v);
      history := Bereft(h, u, open, part, v);
      assert Happens(Drops(u, open, part), h, v, history, Now());
    }

    /**
     * A move on the board writes the path that was read before the transaction; only a batch is refused while an
     * operation on the request is not committed.
     */
    method WriteModelPath(r: Id, p: Path, batch: bool) returns (ok: bool)
      requires Valid() && KeyOf(p, r)
      modifies this`requests, this`history
      ensures Valid()
      ensures ok <==> r in old(requests) && !(batch && Busy(journal, r))
      ensures requests == if ok then old(requests)[r := old(requests)[r].(filePath := Some(p))] else old(requests)
      ensures if ok then Happens(MovesOnBoard(r, p), old(history), old(Now()), history, Now())
          else history == old(history)
    {
      ok := r in requests && !(batch && Busy(journal, r));
      if ok {
        ghost var h, v := history, Now();
        requests := requests[r := requests[r].(filePath := Some(p))];
        history := Repointed(h, r, p, v);
        EventKeepsSound(MovesOnBoard(r, p), h, v, history, Now());
      }
    }
  }
}
