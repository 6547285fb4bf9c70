/** Where crash recovery, or a move on the board, does not do what it is for: small journals that show it. */
module JournalRevival {
  import opened Options
  import opened Journal
  import opened JournalStates
  import opened JournalRewrites
  import opened JournalLeftovers
  import opened JournalEvents
  import opened JournalStore

  const FIRST := OfRequest(7, 0)
  const SECOND := OfRequest(8, 0)
  const NEWER := OfRequest(8, 1)
  const NOTHING := History(map[], {}, {}, {})

  function Model(p: Path): Row {
    Row(0, Some(p), None, None)
  }

  // ---------------------------------------------------------------------------------------------
  // A deleted request comes back
  // ---------------------------------------------------------------------------------------------

  function Leftover(op: Operation, uploads: map<Id, Upload>): World {
    World(
      map[FIRST := [1], SECOND := [1]], map[], map[7 := Model(FIRST), 8 := Model(SECOND)], uploads,
      map[1 := Entry(op, Committed)])
  }

  const REPEATED := Leftover(RepeatRequest(7, 8, FIRST, SECOND, 0), map[])
  const UPLOADED := Leftover(UploadModel(5, 8, Part(5), SECOND, 0), map[5 := Upload(0, Some(8))])
  const DELETION := DeleteRequest(8, [Asset(SECOND, Trash(2, SECOND))], false)

  /** A repeat, or an upload, whose last step failed stays in the journal, committed. */
  lemma {:induction false} LeftoversAreSound(w: World)
    requires w == REPEATED || w == UPLOADED
    ensures Sound(NOTHING, w)
  {
  }

  lemma {:induction false} DeletionOffered(w: World)
    requires w == REPEATED || w == UPLOADED
    ensures Offered(2, DELETION, NOTHING, w) && Begun(DELETION, w) && !Busy(w.journal, 8)
  {
    assert DELETION.assets[0].original == SECOND;
  }

  method DeleteFirst(w: World) returns (service: Service)
    requires w == REPEATED || w == UPLOADED
    ensures fresh(service) && service.Valid() && service.script == [] && service.journal == w.journal
    ensures Reviving(w.journal[1], service.Now()) && SECOND !in service.store
  {
    LeftoversAreSound(w);
    service := new Service(w, NOTHING);
    DeletionOffered(w);
    var ok := service.BeginOperation(2, DELETION);
    assert service.Now() == Opened(2, DELETION, w);
    var out := service.ResumeNext(2, Entry(DELETION, Prepared));
    RowIsGone(w, Started(NOTHING, 2, DELETION, w), Opened(2, DELETION, w), service.Now());
  }

  /** Its request is deleted, and the next recovery inserts the request again: the model it names is gone for good. */
  method DeletedRequestComesBack(w: World) returns (service: Service)
    requires w == REPEATED || w == UPLOADED
    ensures service.journal == map[] && Dangling(8, service.Now()) && !Dangling(8, w)
  {
    service := DeleteFirst(w);
    RecoverOnce(service);
  }

  lemma {:induction false} RowIsGone(w: World, h: History, v: World, after: World)
    requires w == REPEATED || w == UPLOADED
    requires v == Opened(2, DELETION, w) && Step(2, h, v, after, false) && 2 !in after.journal
    ensures 8 !in after.requests && SECOND !in after.store
    ensures after.journal == w.journal && Reviving(w.journal[1], after)
  {
    AllOrNothing(2, DELETION, h.starts[2], v, after, false);
    assert SessionFollows(DELETION, 5, v, after);
    assert DELETION.assets[0].original == SECOND;
    assert Originals(DELETION.assets, SECOND);
    forall i ensures Look(after.journal, i) == Look(w.journal, i) {
    }
    LookUnique(after.journal, w.journal);
  }

  /** An undisturbed recovery of one leftover whose request and file are gone. */
  method RecoverOnce(service: Service)
    requires service.Valid() && service.script == [] && service.journal.Keys == {1}
    requires Reviving(service.journal[1], service.Now()) && service.journal[1].op.dest !in service.store
    modifies service
    ensures service.journal == map[] && Dangling(old(Target(service.journal[1].op)), service.Now())
  {
    ghost var h, v := service.history, service.Now();
    var entry := service.journal[1];
    assert EntrySound(1, h, v);
    var out := service.ResumeNext(1, entry);
    RowAgain(1, h, v, service.Now());
    OnlyOwnTrashGoes(1, entry.op, v.store, service.store, entry.op.dest);
  }

  // ---------------------------------------------------------------------------------------------
  // A repeat whose source is gone
  // ---------------------------------------------------------------------------------------------

  const WAITING := World(
    map[], map[], map[7 := Model(FIRST), 9 := Row(0, None, None, None)], map[],
    map[1 := Entry(RepeatRequest(7, 8, FIRST, SECOND, 0), Prepared), 2 := Entry(DeleteRequest(9, [], false), Prepared)])
  const WAITED := History(map[1 := WAITING, 2 := WAITING], {7}, {}, {})

  lemma {:induction false} WaitingIsSound()
    ensures Sound(WAITED, WAITING) && SourceLost(WAITING.journal[1], WAITING.store)
  {
    assert EntrySound(1, WAITED, WAITING) && EntrySound(2, WAITED, WAITING);
  }

  lemma {:induction false} SecondIsLeft(order: seq<Id>, revived: set<Id>, journal: map<Id, Entry>, out: Outcome)
    requires Lists(order, WAITING.journal) && RunEnds(order, WAITING.journal, WAITING, {}, revived, journal, out)
    ensures out == Threw && journal != map[]
  {
    assert 1 in order && 2 in order;
    var k :| 0 <= k < |order| && order[k] == 1;
    var l :| 0 <= l < |order| && order[l] == 2;
    assert k < l && SourceLost(WAITING.journal[order[k]], WAITING.store);
  }

  /** A repeat whose source is gone ends an undisturbed run before the delete behind it is carried out. */
  method LostSourceEndsRun() returns (service: Service, out: Outcome)
    ensures out == Threw && service.journal != map[]
  {
    WaitingIsSound();
    service := new Service(WAITING, WAITED);
    var order := service.ListOperations();
    out := service.RecoverOperations(order, WAITED, WAITING);
    SecondIsLeft(order, service.history.revived, service.journal, out);
  }

  // ---------------------------------------------------------------------------------------------
  // An upload that is given up
  // ---------------------------------------------------------------------------------------------

  /** Recorded without a session that could say so, and cut short before its finish: it is refused from then on. */
  method RecordedWithoutSession(service: Service, id: Id) returns (out: Outcome)
    requires service.Valid() && service.script == [] && id in service.journal
    requires service.journal[id].op.UploadModel? && service.journal[id].state == AssetsMoved
    requires service.journal[id].op.uploadId !in service.uploads
    modifies service
    ensures service.Valid() && out == Threw && id in service.journal && Stuck(service.journal[id], service.Now())
  {
    var op := service.journal[id].op;
    ghost var h, v := service.history, service.Now();
    assert EntrySound(id, h, v);
    out := service.CompleteUpload(id, op);
    ghost var m := service.Now();
    OnlyRecorded(id, h, v, m);
    StepKeepsSound(id, h, v, m, false);
    service.history := Pruned(Noted(h, op, false), m);
    assert Stuck(service.journal[id], m);
    out := service.ResumeNext(id, Entry(op, Committed));
    StuckStays(id, Pruned(Noted(h, op, false), m), m, service.Now());
  }

  lemma {:induction false} OnlyRecorded(id: Id, h: History, v: World, m: World)
    requires Core(h, v) && id in v.journal && EntrySound(id, h, v)
    requires v.journal[id].op.UploadModel? && v.journal[id].state == AssetsMoved
    requires v.journal[id].op.uploadId !in v.uploads
    requires var op := v.journal[id].op;
      m == v.(requests := v.requests[op.requestId := NewRow(op.fileName, op.dest)],
        journal := v.journal[id := Entry(op, Committed)])
    ensures Step(id, h, v, m, false)
  {
    var op := v.journal[id].op;
    assert UploadGoing(op, Committed, h.starts[id], m);
    forall u ensures SessionFollows(op, u, v, m) {
    }
  }

  const GIVING := World(
    map[SECOND := [1]], map[], map[], map[5 := Upload(1, None)],
    map[1 := Entry(UploadModel(5, 8, Part(5), SECOND, 0), AssetsMoved)])
  const GAVE := History(map[1 := World(map[], map[Part(5) := [1]], map[], map[5 := Upload(1, None)], map[])],
    {}, {}, {})

  lemma {:induction false} GivingIsSound()
    ensures Sound(GAVE, GIVING)
  {
    assert EntrySound(1, GAVE, GIVING);
  }

  /**
   * The client gives its upload up while the published model waits to be recorded: its leftover is refused for good.
   */
  method GivenUpUploadIsRefused() returns (service: Service, out: Outcome)
    ensures service.Valid() && out == Threw && 1 in service.journal && Stuck(service.journal[1], service.Now())
  {
    GivingIsSound();
    service := new Service(GIVING, GAVE);
    service.ReleaseUpload(5, true, false);
    out := RecordedWithoutSession(service, 1);
  }

  // ---------------------------------------------------------------------------------------------
  // A row that is pointed at an older model
  // ---------------------------------------------------------------------------------------------

  const REPLACED := World(
    map[NEWER := [2]], map[], map[8 := Model(NEWER)], map[],
    map[1 := Entry(AttachModel(5, 8, Part(5), SECOND, 0, Some([])), Committed)])

  lemma {:induction false} ReplacedIsSound()
    ensures Sound(NOTHING, REPLACED)
  {
  }

  /**
   * An attach whose session had been given up is left over, and its model has been replaced since: carried out again,
   * it points the row back at the model that is gone.
   */
  method OlderModelComesBack() returns (service: Service)
    ensures service.journal == map[] && Dangling(8, service.Now()) && !Dangling(8, REPLACED)
  {
    ReplacedIsSound();
    service := new Service(REPLACED, NOTHING);
    var out := service.ResumeNext(1, REPLACED.journal[1]);
    assert service.journal.Keys <= {};
    OnlyOwnTrashGoes(1, REPLACED.journal[1].op, REPLACED.store, service.store, SECOND);
  }

  const SWAP := AttachModel(5, 8, Part(5), NEWER, 0, Some([Asset(SECOND, Trash(1, SECOND))]))
  const SHOWN := World(
    map[SECOND := [1]], map[Part(5) := [2]], map[8 := Model(SECOND)], map[5 := Upload(1, None)], map[])

  lemma {:induction false} SwapOffered()
    ensures Sound(NOTHING, SHOWN) && Offered(1, SWAP, NOTHING, SHOWN) && Begun(SWAP, SHOWN) && !Stale(SWAP, SHOWN)
  {
    assert Replaced(SWAP)[0].original == SECOND;
    forall i | 0 <= i < |Replaced(SWAP)|
      ensures Replaced(SWAP)[i].original != NEWER && Replaced(SWAP)[i].trash != NEWER
    {
    }
  }

  method SwapFirst() returns (service: Service)
    ensures fresh(service) && service.Valid() && service.journal == map[]
    ensures SECOND !in service.store && 8 in service.requests
  {
    SwapOffered();
    service := new Service(SHOWN, NOTHING);
    var found := service.BeginUpload(1, SWAP);
    assert service.Now() == Opened(1, SWAP, SHOWN);
    ghost var h, v := service.history, service.Now();
    var out := service.ResumeNext(1, Entry(SWAP, Prepared));
    SwapIsDone(h, v, service.Now());
  }

  /** A move on the board that read the request before its model was replaced: the row names the old model again. */
  method StaleMoveLosesModel(batch: bool) returns (service: Service, ok: bool)
    ensures ok && service.journal == map[] && Dangling(8, service.Now()) && !Dangling(8, SHOWN)
  {
    var read := SHOWN.requests[8].filePath.value;
    service := SwapFirst();
    ok := service.WriteModelPath(8, read, batch);
  }

  lemma {:induction false} SwapIsDone(h: History, v: World, w: World)
    requires v == Opened(1, SWAP, SHOWN) && h.starts == map[1 := SHOWN] && Step(1, h, v, w, false)
    requires w.journal.Keys <= v.journal.Keys && (1 in w.journal ==> !Active(w.journal[1]))
    ensures SECOND !in w.store && 8 in w.requests
  {
    AllOrNothing(1, SWAP, SHOWN, v, w, false);
    assert Originals(Replaced(SWAP), SECOND) by {
      assert Replaced(SWAP)[0].original == SECOND;
    }
  }
}
