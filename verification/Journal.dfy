/** What rows, store and staged uploads look like while an operation is in the journal and once it has left it. */
module Journal {
  import opened Options

  type Id = nat

  /** Keys are made for one request; trash keys for one operation and one file; staged parts for one upload. */
  datatype Path = OfRequest(request: Id, file: nat) | Trash(operation: Id, original: Path) | Part(upload: Id)

  type Bytes = seq<bv8>
  type Store = map<Path, Bytes>

  datatype Asset = Asset(original: Path, trash: Path)

  datatype Row = Row(fileName: nat, filePath: Option<Path>, thumbnailPath: Option<Path>, previewPath: Option<Path>)

  datatype Upload = Upload(bytes: nat, completed: Option<Id>)

  datatype Operation =
    | UploadModel(uploadId: Id, requestId: Id, part: Path, dest: Path, fileName: nat)
    | AttachModel(uploadId: Id, requestId: Id, part: Path, dest: Path, fileName: nat, replaced: Option<seq<Asset>>)
    | DeleteRequest(requestId: Id, assets: seq<Asset>, purgeBeforeDelete: bool)
    | RepeatRequest(requestId: Id, newRequestId: Id, source: Path, dest: Path, fileName: nat)

  datatype State = Prepared | AssetsMoved | Committed

  datatype Entry = Entry(op: Operation, state: State)

  datatype World = World(
    store: Store,
    staged: Store,
    requests: map<Id, Row>,
    uploads: map<Id, Upload>,
    journal: map<Id, Entry>)

  // ---------------------------------------------------------------------------------------------
  // One asset on its way to the trash
  // ---------------------------------------------------------------------------------------------

  /** Moving, possibly half done: what the asset held is at one of its two keys or at both. */
  ghost predicate InMove(x: Asset, before: Store, now: Store) {
    if x.original !in before then x.original !in now && x.trash !in now
    else
      && (x.original in now || x.trash in now)
      && (x.original in now ==> now[x.original] == before[x.original])
      && (x.trash in now ==> now[x.trash] == before[x.original])
  }

  ghost predicate InTrash(x: Asset, before: Store, now: Store) {
    x.original !in now && Look(now, x.trash) == Look(before, x.original)
  }

  ghost predicate Purging(x: Asset, before: Store, now: Store) {
    x.original !in now && (x.trash in now ==> Look(now, x.trash) == Look(before, x.original))
  }

  ghost predicate Purged(x: Asset, now: Store) {
    x.original !in now && x.trash !in now
  }

  ghost predicate Back(x: Asset, before: Store, now: Store) {
    Look(now, x.original) == Look(before, x.original) && x.trash !in now
  }

  ghost predicate AllInMove(xs: seq<Asset>, before: Store, now: Store) {
    forall i :: 0 <= i < |xs| ==> InMove(xs[i], before, now)
  }

  ghost predicate AllInTrash(xs: seq<Asset>, before: Store, now: Store) {
    forall i :: 0 <= i < |xs| ==> InTrash(xs[i], before, now)
  }

  ghost predicate AllPurging(xs: seq<Asset>, before: Store, now: Store) {
    forall i :: 0 <= i < |xs| ==> Purging(xs[i], before, now)
  }

  ghost predicate AllPurged(xs: seq<Asset>, now: Store) {
    forall i :: 0 <= i < |xs| ==> Purged(xs[i], now)
  }

  ghost predicate AllBack(xs: seq<Asset>, before: Store, now: Store) {
    forall i :: 0 <= i < |xs| ==> Back(xs[i], before, now)
  }

  ghost predicate Touches(xs: seq<Asset>, p: Path) {
    exists i :: 0 <= i < |xs| && (xs[i].original == p || xs[i].trash == p)
  }

  /** Every asset has keys of its own. */
  ghost predicate Apart(xs: seq<Asset>) {
    forall i, j :: 0 <= i < |xs| && 0 <= j < |xs| ==>
      && xs[i].original != xs[j].trash
      && (i != j ==> xs[i].original != xs[j].original && xs[i].trash != xs[j].trash)
  }

  ghost predicate FreshTrash(xs: seq<Asset>, before: Store) {
    forall i :: 0 <= i < |xs| ==> xs[i].trash !in before
  }

  ghost predicate Originals(xs: seq<Asset>, p: Path) {
    exists i :: 0 <= i < |xs| && xs[i].original == p
  }

  ghost predicate IsTrash(xs: seq<Asset>, p: Path) {
    exists i :: 0 <= i < |xs| && xs[i].trash == p
  }

  /** Nothing but trash of the assets has gone. */
  ghost predicate OnlyTrashGone(xs: seq<Asset>, before: Store, now: Store) {
    forall p :: Look(now, p) == Look(before, p) || (p !in now && IsTrash(xs, p))
  }

  ghost predicate TrashGone(xs: seq<Asset>, now: Store) {
    forall i :: 0 <= i < |xs| ==> xs[i].trash !in now
  }

  // ---------------------------------------------------------------------------------------------
  // A staged part on its way to the store
  // ---------------------------------------------------------------------------------------------

  ghost predicate Landed(part: Path, dest: Path, s0: World, w: World) {
    part in s0.staged && part !in w.staged && Look(w.store, dest) == Some(s0.staged[part])
  }

  /** Landing, possibly half done: the destination may already hold the part's bytes. */
  ghost predicate Landing(part: Path, dest: Path, s0: World, w: World) {
    part in s0.staged &&
    (Landed(part, dest, s0, w)
     || (Look(w.staged, part) == Some(s0.staged[part]) && (dest in w.store ==> w.store[dest] == s0.staged[part])))
  }

  ghost predicate NotLanded(part: Path, dest: Path, s0: World, w: World) {
    Look(w.staged, part) == Look(s0.staged, part) && dest !in w.store
  }

  // ---------------------------------------------------------------------------------------------
  // Rows
  // ---------------------------------------------------------------------------------------------

  function NewRow(fileName: nat, dest: Path): Row {
    Row(fileName, Some(dest), None, None)
  }

  /** A replacement drops everything derived from the old model. */
  function AttachedRow(row: Row, op: Operation): Row
    requires op.AttachModel?
  {
    if op.replaced.Some? then Row(op.fileName, Some(op.dest), None, None)
    else row.(fileName := op.fileName, filePath := Some(op.dest))
  }

  function Replaced(op: Operation): seq<Asset>
    requires op.AttachModel?
  {
    if op.replaced.Some? then op.replaced.value else []
  }

  /** The files an operation throws away. */
  function Discards(op: Operation): seq<Asset> {
    match op
    case AttachModel(_, _, _, _, _, _) => Replaced(op)
    case DeleteRequest(_, assets, _) => assets
    case _ => []
  }

  /** The operations that insert a request. */
  predicate Inserts(op: Operation) {
    op.UploadModel? || op.RepeatRequest?
  }

  predicate HasSession(op: Operation) {
    op.UploadModel? || op.AttachModel?
  }

  /** The one request row an operation writes. */
  function Target(op: Operation): Id {
    if op.RepeatRequest? then op.newRequestId else op.requestId
  }

  ghost predicate RowKept(op: Operation, s0: World, w: World) {
    Look(w.requests, Target(op)) == Look(s0.requests, Target(op))
  }

  ghost predicate SessionKept(uploadId: Id, s0: World, w: World) {
    Look(w.uploads, uploadId) == Look(s0.uploads, uploadId)
  }

  /** Closed, or still gone when it went before. */
  ghost predicate SessionDone(op: Operation, s0: World, w: World)
    requires HasSession(op)
  {
    Look(w.uploads, op.uploadId) ==
      if op.uploadId in s0.uploads then Some(Upload(0, Some(op.requestId))) else None
  }

  ghost predicate RowAttached(op: Operation, s0: World, w: World)
    requires op.AttachModel?
  {
    Look(w.requests, op.requestId) ==
      if op.requestId in s0.requests then Some(AttachedRow(s0.requests[op.requestId], op)) else None
  }

  /** Deleting a request's row deletes the sessions whose upload made or changed it. */
  function SessionsWithout(uploads: map<Id, Upload>, requestId: Id): map<Id, Upload> {
    map u | u in uploads && uploads[u].completed != Some(requestId) :: uploads[u]
  }

  ghost predicate NoSessionOf(requestId: Id, w: World) {
    forall u :: u in w.uploads ==> w.uploads[u].completed != Some(requestId)
  }

  // ---------------------------------------------------------------------------------------------
  // An operation in the journal
  // ---------------------------------------------------------------------------------------------

  ghost predicate KeyOf(p: Path, r: Id) {
    p.OfRequest? && p.request == r
  }

  ghost predicate AssetsKeyed(xs: seq<Asset>, r: Id, id: Id) {
    forall i :: 0 <= i < |xs| ==> KeyOf(xs[i].original, r) && xs[i].trash == Trash(id, xs[i].original)
  }

  /** The keys an operation works on are keys of its requests, its upload and itself. */
  ghost predicate Keyed(id: Id, op: Operation) {
    match op
    case UploadModel(uploadId, requestId, part, dest, _) => part == Part(uploadId) && KeyOf(dest, requestId)
    case AttachModel(uploadId, requestId, part, dest, _, _) =>
      part == Part(uploadId) && KeyOf(dest, requestId) && AssetsKeyed(Replaced(op), requestId, id)
    case DeleteRequest(requestId, assets, _) => AssetsKeyed(assets, requestId, id)
    case RepeatRequest(requestId, newRequestId, source, dest, _) =>
      KeyOf(source, requestId) && KeyOf(dest, newRequestId)
  }

  /** The request's model is among the assets. */
  ghost predicate Covers(xs: seq<Asset>, r: Id, s0: World) {
    r in s0.requests && (s0.requests[r].filePath.Some? ==> Originals(xs, s0.requests[r].filePath.value))
  }

  /** An upload's session, while it is there, is open until the operation is recorded. */
  ghost predicate SessionOpen(uploadId: Id, s0: World) {
    uploadId in s0.uploads ==> s0.uploads[uploadId].completed.None?
  }

  /** Where an operation begins: keys made for it are new, its request is there, and its session is not closed. */
  ghost predicate Begun(op: Operation, s0: World) {
    match op
    case UploadModel(uploadId, requestId, part, dest, _) =>
      dest !in s0.store && requestId !in s0.requests && SessionOpen(uploadId, s0)
    case AttachModel(uploadId, requestId, part, dest, _, _) =>
      && dest !in s0.store && !Touches(Replaced(op), dest)
      && Apart(Replaced(op)) && FreshTrash(Replaced(op), s0.store) && requestId in s0.requests
      && SessionOpen(uploadId, s0)
    case DeleteRequest(requestId, assets, _) =>
      Apart(assets) && FreshTrash(assets, s0.store) && requestId in s0.requests
    case RepeatRequest(requestId, newRequestId, source, dest, _) =>
      dest !in s0.store && source != dest && newRequestId !in s0.requests && requestId in s0.requests
  }

  ghost predicate UploadGoing(op: Operation, state: State, s0: World, w: World)
    requires op.UploadModel?
  {
    match state
    case Prepared =>
      && RowKept(op, s0, w) && SessionKept(op.uploadId, s0, w)
      && (Landing(op.part, op.dest, s0, w) || (op.part !in s0.staged && NotLanded(op.part, op.dest, s0, w)))
    case AssetsMoved =>
      RowKept(op, s0, w) && SessionKept(op.uploadId, s0, w) && Landed(op.part, op.dest, s0, w)
    case Committed =>
      && Look(w.requests, op.requestId) == Some(NewRow(op.fileName, op.dest))
      && SessionDone(op, s0, w) && Landed(op.part, op.dest, s0, w)
  }

  ghost predicate AttachGoing(op: Operation, state: State, s0: World, w: World)
    requires op.AttachModel?
  {
    match state
    case Prepared =>
      && RowKept(op, s0, w) && SessionKept(op.uploadId, s0, w)
      && ((AllInMove(Replaced(op), s0.store, w.store) && NotLanded(op.part, op.dest, s0, w))
          || (AllInTrash(Replaced(op), s0.store, w.store) && Landing(op.part, op.dest, s0, w)))
    case AssetsMoved =>
      && RowKept(op, s0, w) && SessionKept(op.uploadId, s0, w)
      && AllInTrash(Replaced(op), s0.store, w.store) && Landed(op.part, op.dest, s0, w)
    case Committed =>
      && RowAttached(op, s0, w) && SessionDone(op, s0, w)
      && AllPurging(Replaced(op), s0.store, w.store) && Landed(op.part, op.dest, s0, w)
  }

  ghost predicate DeleteGoing(op: Operation, state: State, s0: World, w: World)
    requires op.DeleteRequest?
  {
    match state
    case Prepared => RowKept(op, s0, w) && AllInMove(op.assets, s0.store, w.store)
    case AssetsMoved =>
      && RowKept(op, s0, w)
      && if op.purgeBeforeDelete then AllPurging(op.assets, s0.store, w.store)
         else AllInTrash(op.assets, s0.store, w.store)
    case Committed =>
      op.requestId !in w.requests && NoSessionOf(op.requestId, w) && AllPurging(op.assets, s0.store, w.store)
  }

  ghost predicate RepeatGoing(op: Operation, state: State, s0: World, w: World)
    requires op.RepeatRequest?
  {
    && Look(w.store, op.source) == Look(s0.store, op.source)
    && match state
       case Prepared =>
         RowKept(op, s0, w) && (op.dest in w.store ==> op.source in s0.store && w.store[op.dest] <= s0.store[op.source])
       case AssetsMoved =>
         RowKept(op, s0, w) && op.source in s0.store && Look(w.store, op.dest) == Some(s0.store[op.source])
       case Committed =>
         && Look(w.requests, op.newRequestId) == Some(NewRow(op.fileName, op.dest))
         && op.source in s0.store && Look(w.store, op.dest) == Some(s0.store[op.source])
  }

  /** The operation is in the journal, and everything it touches is as its stored state says. */
  ghost predicate Going(id: Id, op: Operation, s0: World, w: World) {
    && id in w.journal && w.journal[id].op == op
    && match op
       case UploadModel(_, _, _, _, _) => UploadGoing(op, w.journal[id].state, s0, w)
       case AttachModel(_, _, _, _, _, _) => AttachGoing(op, w.journal[id].state, s0, w)
       case DeleteRequest(_, _, _) => DeleteGoing(op, w.journal[id].state, s0, w)
       case RepeatRequest(_, _, _, _, _) => RepeatGoing(op, w.journal[id].state, s0, w)
  }

  // ---------------------------------------------------------------------------------------------
  // An operation that has left the journal
  // ---------------------------------------------------------------------------------------------

  /** Carried out, or, when its staged part or source was already gone as it began, undone. */
  ghost predicate Settled(id: Id, op: Operation, s0: World, w: World) {
    && id !in w.journal
    && match op
       case UploadModel(uploadId, requestId, part, dest, fileName) =>
         if part in s0.staged then
           && Look(w.requests, requestId) == Some(NewRow(fileName, dest))
           && SessionDone(op, s0, w) && Landed(part, dest, s0, w)
         else RowKept(op, s0, w) && SessionKept(uploadId, s0, w) && NotLanded(part, dest, s0, w)
       case AttachModel(uploadId, _, part, dest, _, _) =>
         if part in s0.staged then
           && RowAttached(op, s0, w) && SessionDone(op, s0, w)
           && AllPurged(Replaced(op), w.store) && Landed(part, dest, s0, w)
         else
           && RowKept(op, s0, w) && SessionKept(uploadId, s0, w)
           && AllBack(Replaced(op), s0.store, w.store) && NotLanded(part, dest, s0, w)
       case DeleteRequest(requestId, assets, _) =>
         requestId !in w.requests && NoSessionOf(requestId, w) && AllPurged(assets, w.store)
       case RepeatRequest(_, newRequestId, source, dest, fileName) =>
         && Look(w.store, source) == Look(s0.store, source)
         && if source in s0.store then
              && Look(w.requests, newRequestId) == Some(NewRow(fileName, dest))
              && Look(w.store, dest) == Some(s0.store[source])
            else RowKept(op, s0, w) && dest !in w.store
  }

  // ---------------------------------------------------------------------------------------------
  // What an operation may touch
  // ---------------------------------------------------------------------------------------------

  ghost predicate Writes(op: Operation, p: Path) {
    match op
    case UploadModel(_, _, _, dest, _) => p == dest
    case AttachModel(_, _, _, dest, _, _) => p == dest || Touches(Replaced(op), p)
    case DeleteRequest(_, assets, _) => Touches(assets, p)
    case RepeatRequest(_, _, _, dest, _) => p == dest
  }

  ghost predicate Reads(op: Operation, p: Path) {
    Writes(op, p) || (op.RepeatRequest? && p == op.source)
  }

  ghost predicate WritesPart(op: Operation, p: Path) {
    HasSession(op) && p == op.part
  }

  ghost predicate WritesSession(op: Operation, u: Id) {
    HasSession(op) && u == op.uploadId
  }

  ghost predicate DropsSession(op: Operation, u: Id, v: World) {
    op.DeleteRequest? && u in v.uploads && v.uploads[u].completed == Some(op.requestId)
  }

  /** A session stays, is closed by its own operation, or goes with the request. */
  ghost predicate SessionFollows(op: Operation, u: Id, v: World, w: World) {
    || Look(w.uploads, u) == Look(v.uploads, u)
    || (WritesSession(op, u) && Look(w.uploads, u) == Some(Upload(0, Some(op.requestId))))
    || (DropsSession(op, u, v) && u !in w.uploads && op.requestId !in w.requests)
  }

  /** Nothing but what the operation may touch has changed. */
  ghost predicate OnlyTouched(id: Id, op: Operation, v: World, w: World) {
    && (forall p :: !Writes(op, p) ==> Look(w.store, p) == Look(v.store, p))
    && (forall p :: !WritesPart(op, p) ==> Look(w.staged, p) == Look(v.staged, p))
    && (forall r :: r != Target(op) ==> Look(w.requests, r) == Look(v.requests, r))
    && (forall u :: SessionFollows(op, u, v, w))
    && (forall i :: i != id ==> Look(w.journal, i) == Look(v.journal, i))
  }

  /** Neither operation writes what the other one looks at. */
  ghost predicate Disjoint(a: Operation, b: Operation) {
    && (forall p :: !(Writes(a, p) && Reads(b, p)) && !(Reads(a, p) && Writes(b, p)))
    && (forall p :: !(WritesPart(a, p) && WritesPart(b, p)))
    && Target(a) != Target(b) && a.requestId != b.requestId
    && (forall u :: !(WritesSession(a, u) && WritesSession(b, u)))
  }

  /** The requests an operation is about. */
  ghost predicate Uses(op: Operation, r: Id) {
    r == op.requestId || r == Target(op)
  }

  ghost predicate Unrelated(a: Operation, b: Operation) {
    && !Uses(a, b.requestId) && !Uses(a, Target(b))
    && (HasSession(a) && HasSession(b) ==> a.uploadId != b.uploadId)
  }

  /** Operations about different requests and uploads keep out of each other's way, as their keys say whose they are. */
  lemma {:induction false} UnrelatedDisjoint(i: Id, a: Operation, j: Id, b: Operation)
    requires Keyed(i, a) && Keyed(j, b) && i != j && Unrelated(a, b)
    ensures Disjoint(a, b) && Disjoint(b, a)
  {
    forall p ensures !(Writes(a, p) && Reads(b, p)) && !(Reads(a, p) && Writes(b, p)) {
      KeysSay(i, a, p);
      KeysSay(j, b, p);
    }
  }

  lemma {:induction false} KeysSay(id: Id, op: Operation, p: Path)
    requires Keyed(id, op)
    ensures Writes(op, p) ==> KeyOf(p, Target(op)) || (p.Trash? && p.operation == id)
    ensures Reads(op, p) ==> (p.OfRequest? && Uses(op, p.request)) || (p.Trash? && p.operation == id)
  {
    if Touches(Discards(op), p) {
      var i :| 0 <= i < |Discards(op)| && (Discards(op)[i].original == p || Discards(op)[i].trash == p);
      assert AssetsKeyed(Discards(op), op.requestId, id);
    }
  }

  /** The operation's session is open or was closed by it. */
  ghost predicate OwnSession(op: Operation, v: World) {
    HasSession(op) && op.uploadId in v.uploads && v.uploads[op.uploadId].completed.Some? ==>
      v.uploads[op.uploadId].completed == Some(op.requestId)
  }

  /** Nothing the operation looks at has changed. */
  ghost predicate SameView(id: Id, op: Operation, v: World, w: World) {
    && (forall p :: Reads(op, p) ==> Look(w.store, p) == Look(v.store, p))
    && (forall p :: WritesPart(op, p) ==> Look(w.staged, p) == Look(v.staged, p))
    && Look(w.requests, Target(op)) == Look(v.requests, Target(op))
    && (forall u :: WritesSession(op, u) ==> Look(w.uploads, u) == Look(v.uploads, u))
    && (op.DeleteRequest? && NoSessionOf(op.requestId, v) ==> NoSessionOf(op.requestId, w))
    && Look(w.journal, id) == Look(v.journal, id)
  }

  lemma {:induction false} OthersSee(id: Id, op: Operation, other: Id, that: Operation, v: World, w: World)
    requires OnlyTouched(other, that, v, w) && Disjoint(op, that) && id != other && OwnSession(op, v)
    ensures SameView(id, op, v, w) && OwnSession(op, w)
  {
    forall p | Reads(op, p) ensures Look(w.store, p) == Look(v.store, p) {
      assert !Writes(that, p);
    }
    forall p | WritesPart(op, p) ensures Look(w.staged, p) == Look(v.staged, p) {
      assert !WritesPart(that, p);
    }
    forall u | WritesSession(op, u) ensures Look(w.uploads, u) == Look(v.uploads, u) {
      assert !WritesSession(that, u) && SessionFollows(that, u, v, w);
    }
    if HasSession(op) {
      assert WritesSession(op, op.uploadId);
    }
    if op.DeleteRequest? && NoSessionOf(op.requestId, v) {
      forall u | u in w.uploads ensures w.uploads[u].completed != Some(op.requestId) {
        assert SessionFollows(that, u, v, w);
      }
    }
  }

  lemma {:induction false} AssetsSee(xs: seq<Asset>, before: Store, v: Store, w: Store)
    requires forall p :: Touches(xs, p) ==> Look(w, p) == Look(v, p)
    ensures AllInMove(xs, before, v) ==> AllInMove(xs, before, w)
    ensures AllInTrash(xs, before, v) ==> AllInTrash(xs, before, w)
    ensures AllPurging(xs, before, v) ==> AllPurging(xs, before, w)
    ensures AllPurged(xs, v) ==> AllPurged(xs, w)
    ensures AllBack(xs, before, v) ==> AllBack(xs, before, w)
  {
    forall i | 0 <= i < |xs|
      ensures Look(w, xs[i].original) == Look(v, xs[i].original) && Look(w, xs[i].trash) == Look(v, xs[i].trash)
    {
      assert Touches(xs, xs[i].original) && Touches(xs, xs[i].trash);
    }
  }

  /** An operation stays as it is while others work on their own keys and rows. */
  lemma {:induction false} GoingSees(id: Id, op: Operation, s0: World, v: World, w: World)
    requires SameView(id, op, v, w) && Going(id, op, s0, v)
    ensures Going(id, op, s0, w)
  {
    if op.AttachModel? {
      forall p | Touches(Replaced(op), p) ensures Look(w.store, p) == Look(v.store, p) {
        assert Reads(op, p);
      }
      AssetsSee(Replaced(op), s0.store, v.store, w.store);
    }
    if op.DeleteRequest? {
      forall p | Touches(op.assets, p) ensures Look(w.store, p) == Look(v.store, p) {
        assert Reads(op, p);
      }
      AssetsSee(op.assets, s0.store, v.store, w.store);
    }
    ViewParts(id, op, v, w);
  }

  lemma {:induction false} ViewParts(id: Id, op: Operation, v: World, w: World)
    requires SameView(id, op, v, w)
    ensures !op.DeleteRequest? ==> Look(w.store, op.dest) == Look(v.store, op.dest)
    ensures op.RepeatRequest? ==> Look(w.store, op.source) == Look(v.store, op.source)
    ensures HasSession(op) ==>
              Look(w.staged, op.part) == Look(v.staged, op.part)
                && Look(w.uploads, op.uploadId) == Look(v.uploads, op.uploadId)
  {
    if !op.DeleteRequest? {
      assert Reads(op, op.dest);
    }
    if op.RepeatRequest? {
      assert Reads(op, op.source);
    }
    if HasSession(op) {
      assert WritesPart(op, op.part) && WritesSession(op, op.uploadId);
    }
  }

  lemma {:induction false} SettledSees(id: Id, op: Operation, s0: World, v: World, w: World)
    requires SameView(id, op, v, w) && Settled(id, op, s0, v)
    ensures Settled(id, op, s0, w)
  {
    if op.AttachModel? {
      forall p | Touches(Replaced(op), p) ensures Look(w.store, p) == Look(v.store, p) {
        assert Reads(op, p);
      }
      AssetsSee(Replaced(op), s0.store, v.store, w.store);
    }
    if op.DeleteRequest? {
      forall p | Touches(op.assets, p) ensures Look(w.store, p) == Look(v.store, p) {
        assert Reads(op, p);
      }
      AssetsSee(op.assets, s0.store, v.store, w.store);
    }
    ViewParts(id, op, v, w);
  }

  // ---------------------------------------------------------------------------------------------
  // A committed operation that is carried out again
  // ---------------------------------------------------------------------------------------------

  /** The row, or the session, says that the operation was recorded. */
  predicate Recorded(op: Operation, w: World) {
    match op
    case UploadModel(uploadId, _, _, _, _) => uploadId in w.uploads && w.uploads[uploadId].completed.Some?
    case AttachModel(uploadId, _, _, _, _, _) => uploadId in w.uploads && w.uploads[uploadId].completed.Some?
    case DeleteRequest(_, _, _) => true
    case RepeatRequest(_, newRequestId, _, _, _) => newRequestId in w.requests
  }

  /** The rows once the operation is recorded again; inserting a row twice is refused. */
  function RowsAgain(op: Operation, w: World): map<Id, Row> {
    if Recorded(op, w) then w.requests
    else
      match op
      case UploadModel(_, r, _, dest, fileName) =>
        if r in w.requests then w.requests else w.requests[r := NewRow(fileName, dest)]
      case AttachModel(_, r, _, _, _, _) =>
        if r in w.requests then w.requests[r := AttachedRow(w.requests[r], op)] else w.requests
      case DeleteRequest(_, _, _) => w.requests
      case RepeatRequest(_, n, _, dest, fileName) => w.requests[n := NewRow(fileName, dest)]
  }

  /** Nothing says that the request was inserted before, because it has been deleted since. */
  predicate Revives(op: Operation, w: World) {
    Inserts(op) && !Recorded(op, w) && Target(op) !in w.requests
  }

  /** The request is there, but the session that says so is not: the insertion is refused on every run. */
  predicate Jammed(op: Operation, w: World) {
    op.UploadModel? && !Recorded(op, w) && op.requestId in w.requests
  }

  /** A committed operation's session is closed, or it is gone. */
  ghost predicate SessionClosed(op: Operation, w: World) {
    HasSession(op) && op.uploadId in w.uploads ==> w.uploads[op.uploadId].completed == Some(op.requestId)
  }

  /** What carrying a committed operation out again changes, complete or cut short. */
  ghost predicate Replayed(id: Id, op: Operation, v: World, w: World) {
    && OnlyTrashGone(Discards(op), v.store, w.store) && w.staged == v.staged && w.uploads == v.uploads
    && (w.requests == v.requests || w.requests == RowsAgain(op, v))
    && (forall i :: i != id ==> Look(w.journal, i) == Look(v.journal, i))
    && if id in w.journal then w.journal[id] == Entry(op, Committed)
       else TrashGone(Discards(op), w.store) && w.requests == RowsAgain(op, v) && !Jammed(op, v)
  }
}
