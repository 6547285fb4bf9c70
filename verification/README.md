# Print board, operation journal and storage ledger: a verified model

STLQuest keeps 3D-print requests on a board, stores their files in an asset store, and charges the bytes to the
accounts that pay for them. This project models the parts of it whose correctness spans many functions, in Dafny, and
proves what they keep.

* **Copies, stages and cards.** A print's copies have no identity: each stage holds a copy count and a count per tag.
  `Cohorts` draws the cards of a stage from these counts, `Copies` shows that the drawing is a run of a rule on single
  copies, `Takes` plans which copies to take, `FewestTags` says which copies those are, `CohortKey` is the text a card
  is recognised by. `Board`, `BoardBatch`, `BoardGroups`, `BoardEdits` and `BoardDeletes` are the steps on a print's
  rows and what they keep, `BoardStore` is the repository that runs them in place, `BoardPlans` and
  `BoardDeletionPlans` build moves and deletions from a selection of cards, `BoardChoices` says which copies a smaller
  choice moves, `BoardChecks` is about compare-and-set on rows, and `BoardRefinement` compares the client's optimistic
  drawing with the rows the server stores.
* **Operation journal.** `Journal` says what rows, store and staged uploads may look like at every moment of an
  upload, attach, delete or repeat. `JournalStates` is the invariant of all reachable states: operations begin at any
  time, also while others are half done or left over, go on, fail or crash. `JournalRewrites` adds that committed
  operations are carried out again, that rows are written over, and that sessions and staged parts are dropped in the
  middle of an operation. `JournalEvents` puts all of this together into runs and says whose model is lost in them,
  and since when. `JournalLeftovers` is about committed operations that stayed in the journal, `JournalRuns` about
  where recovery runs end, and `JournalStore` is the service, effect by effect, with a crash or an error possible
  before any effect. `JournalRevival` holds small journals on which recovery, or a move on the board, fails.
  `LocalFiles` is the asset store on the local disk.
* **Managed-storage ledger.** `Ledger` holds the tables and the effect of each transaction; `LedgerAgreement`,
  `LedgerEntitlements`, `LedgerQuota` and `LedgerRuns` prove what the transactions and whole runs of them keep;
  `LedgerRows` says what each transaction leaves in the rows, `LedgerLimits` is about a user's own upload limits;
  `LedgerExamples` holds ledgers on which the code fails; `LedgerStore` updates the tables in place. `Locks` is the
  account-lock protocol, interleaved step by step.
* **Smaller algorithms.** `TagRows`, `TagForest` and `TagTree` (the tag tree), `Queue` (the round-robin queue),
  `Chunks` (cutting a stream into chunks) and `ArchiveNames` (unique file names).

`Sums`, `SetSums`, `Sorting` and `Options` are shared helpers.

How to read it: a transaction is one step that leaves everything as it was when it throws, as
`src/db/connection.ts:77-91` has it. Operations that change rows, a store or tables in place are class methods proved
against functions of the old state; what the product promises is proved about those functions. Ids are numbers, and
operations are numbered in the order in which they begin. Recovery lists them in that order: the code orders them by
`createdAt` (`src/db/repository.ts:3313-3325`), which leaves operations that began in the same millisecond unordered,
and the model takes their order to be that of their numbers. A file's key says whose it is: a request's, an upload's,
or one operation's trash of one file. Times, fresh ids, collation ranks and the order of other listings are
parameters. `dafny verify dfyconfig.toml` checks the whole project.

Places where the code does not meet the plain reading of its promise; each has its exact condition and an input:

* An upload's bytes can be raised over the account's quota exactly when its session has expired while holding bytes:
  they are not counted but are subtracted (`LedgerQuota.ReserveUploadSafeIff`,
  `LedgerExamples.LapsedUploadExceedsQuota`); likewise, an expired session that begins to finalize adds to the total
  (`LedgerQuota.BeginFinalizeTotal`, `LedgerExamples.LapsedFinalizeExceedsQuota`).
* The limits on a user's own uploads can be passed exactly when the session that reserves has expired while holding
  bytes: it is not counted, but takes up no new place and its bytes are subtracted (`LedgerLimits.UserLimitsSafeIff`).
* A finish that gives back more than the workspace has reserved, or removes more than it has stored, takes the account
  and the workspace apart exactly when the account has something from other workspaces
  (`LedgerAgreement.FinishAgreesIff`, `LedgerExamples.FinishTooMuchDisagrees`).
* One undisturbed `recoverOperations` ends without an error exactly when nothing in the journal is blocked: no
  prepared repeat whose source is gone, and no leftover whose insertion is refused. It empties the journal exactly
  when nothing is refused and no lost source comes before the last operation
  (`JournalStore.Service.RecoverOperations`, `JournalRevival.LostSourceEndsRun`).
* A committed upload that stayed in the journal is refused exactly when its request is there and its session is not
  (`JournalLeftovers.StuckIff`). Nothing but deleting the request ends that, and then the leftover inserts it again
  (`JournalEvents.StuckUntilDeleted`, `JournalLeftovers.DeletedOnceMore`). It happens when an upload whose session was
  given up or expired is cut short between its record and its finish (`JournalRevival.RecordedWithoutSession`,
  `JournalRevival.GivenUpUploadIsRefused`), or when a revived upload is.
* With an empty journal a request's model is gone exactly when some event lost it and it has not been found since
  (`JournalEvents.GoneAtRestIff`). There are four such events, each with a condition on the state before it
  (`JournalEvents.Loses`): an error that a rollback swallows; a leftover upload or repeat whose request has been
  deleted since and that inserts it again (`JournalLeftovers.RevivesIffDeleted`,
  `JournalRevival.DeletedRequestComesBack`); a leftover attach whose session has gone and whose model has been
  replaced since (`JournalRevival.OlderModelComesBack`); and a move on the board that writes the path it read before
  the model was replaced (`JournalRevival.StaleMoveLosesModel`). While nothing moves the request's files, such a move
  keeps the model exactly when the file it names is there (`JournalEvents.MoveKeepsModelIff`), and it changes nothing
  when nothing was recorded on the request since the read (`JournalEvents.ReadBackChangesNothing`).
* A handover keeps every account within the limit, however others go on, exactly when every new holder it plans is
  among the accounts it has locked; the code does not check that (`Locks.LimitKeptIffLocked`). It holds when no
  workspace joins the account between reading the candidates and locking the account (`Locks.CandidatesStillCover`),
  and it fails when a claim does (`Locks.LateClaimExceedsLimit`).
* A handover throws exactly when some workspace finds all its other owners full in its turn, or a new holder that was
  not a candidate has no account (`LedgerEntitlements.HandOverThrowsIff`). First come, first served, it can throw
  although there is a way to place every workspace (`LedgerEntitlements.FirstFitRefuses`).

## Model

| member | source | states |
|---|---|---|
| Cohorts.DrawSplits | src/core/printGroups.ts:75-93 | for distinct tags the cards have positive counts that sum to the stage's, pairwise different tag sets, number at most tags + 1, give each tag exactly min(its count, the stage's) copies, and any two copies' tag numbers differ by at most one |
| Cohorts.OverlapOnlyWhenForced | src/core/printGroups.ts:68-93 | a card carries two tags exactly when the tags together need more copies than the stage has |
| Cohorts.DrawCohorts | src/core/printGroups.ts:75-93 | the in-place loop over tags and cohorts ends in exactly the cards drawn by the recursive rule |
| Cohorts.AssignTag | src/core/printGroups.ts:78-90 | one tag's inner loop over the cohorts, fewest tags first, does what giving the tag out by recursion does |
| Copies.DrawRefinesCopies | src/core/printGroups.ts:68-93 | drawing the cards is a run of the per-copy rule "give each tag to the least tagged copies", ending in the very bag of tag sets the cards stand for |
| Copies.CopiesStayLevel | src/core/printGroups.ts:68-74 | whichever least-tagged copies each step of the per-copy rule picks, copies stay within one tag of each other and carry known tags only |
| Takes.PlanIsSoundAndComplete | src/core/printGroups.ts:100-137 | a plan exists exactly when every named card holds what is demanded of it and the stage holds the whole demand; it takes a named card's copies from exactly its tags and leaves every tag at most as many copies as stay |
| Takes.PlanIffFits | src/core/printGroups.ts:117-135 | both passes together succeed exactly when the demand fits, for any list of distinct cards |
| Takes.PlanIgnoresOrder | src/core/printGroups.ts:105-137 | reordering the takes does not change whether they can be planned |
| Takes.EachOnceFits | src/core/services.ts:1108-1117 | takes that name drawn cards, each at most once and for no more than it holds, always fit |
| Takes.PlanCohortTakes | src/core/printGroups.ts:105-137 | the loops that lower card counts in place return the plan of the two-pass specification, or none |
| Takes.TakeNamed | src/core/printGroups.ts:120-125 | the first pass refuses at the first named card that is missing or too small, and otherwise lowers just those cards |
| Takes.TakeUnnamed | src/core/printGroups.ts:126-135 | the loops of the second pass give every unnamed take what the specified drawing gives it, and refuse when copies are missing; which copies those are is stated by the next rows |
| FewestTags.TagsInTurn | src/core/printGroups.ts:75-93 | each tag in turn goes to the copies with the fewest tags of those that lack it, the earlier card first where they have as many; cards keep their places, and a split one puts its tagged copies at the end |
| FewestTags.OneCardAtFirst | src/core/printGroups.ts:76 | without tags there is one card of all the copies, or none if there are none |
| FewestTags.UnnamedTakesFewestTags | src/core/printGroups.ts:125-135 | a take that names no card gets copies of a card only once every card with fewer tags, or as many and earlier, has none left, as many copies as it asks for, and its record is what each tag's copies lost |
| FewestTags.PassTakesFewestTags | src/core/printGroups.ts:125-135 | the same holds of all takes that name no card together |
| FewestTags.FewestTagsLost | src/core/printGroups.ts:100-104 | no other choice of as many copies leaves more tags on the copies that stay |
| CohortKey.SameKeyIff | src/core/printGroups.ts:95-98 | for ids that are not empty and hold no comma, keys agree exactly when the ids do, in whatever order |
| CohortKey.CommaClash | src/core/printGroups.ts:95-98 | with a comma inside an id two different cards share a key |
| Board.StageTagsRead | src/db/repository.ts:1565-1584 | reading a stage yields exactly its tag rows, each once, with their counts |
| Board.RemovePlanned | src/db/repository.ts:1605-1634 | taking planned copies off the tag rows never meets a changed count and lowers each tag by exactly what the plan removes |
| BoardChecks.TakeOffIff | src/db/repository.ts:1611-1632 | a tag row is lowered, or deleted when all its copies go, exactly when it still has the count read and that covers them, as rows count at least one copy (`src/db/schema/production.ts:127`); no other row changes |
| BoardChecks.RemovalIff | src/db/repository.ts:1605-1634 | removing planned copies is refused exactly when some tag that loses copies was changed since it was read |
| Board.AddTakenAdds | src/db/repository.ts:1636-1662 | the copies a move took along are on the target's rows, opened where missing, and no other row changes |
| Board.MoveCopiesLand | src/db/repository.ts:3561-3613 | moving copies keeps the tag rows and the quantity and shifts exactly the count from one stage to the other |
| BoardChecks.MoveIff | src/db/repository.ts:3561-3613 | copies move exactly when the source still has the count read and that covers them; an empty target takes the source's place, arriving in the last stage stamps it, and emptying that one clears the stamp |
| Board.MoveEachLands | src/db/repository.ts:1329-1336 | from a stage that holds enough copies every move in turn passes its compare-and-set and lands where it was sent |
| Board.MoveStageMoves | src/db/repository.ts:1323-1337 | moving cards out of one stage is accepted exactly when the cards hold the demand, and then shifts stage and tag counts by exactly the plan |
| Board.MoveStageKeeps | src/db/repository.ts:1323-1337 | an accepted step keeps stage counts summing to the quantity, every tag row within 1 and its stage's count, the quantity, and each tag's total over the stages |
| BoardBatch.MoveCardsKeeps | src/db/repository.ts:1300-1337 | an accepted batch keeps the board invariant and every print's totals |
| BoardBatch.MoveCardsIffFitInTurn | src/db/repository.ts:1323-1337 | any batch, also one that enters stages it leaves, is accepted exactly when every stage named holds its cards after the stages named before it have moved theirs |
| BoardBatch.PartsKeepOrder | src/db/repository.ts:1323-1337 | parting a batch by print and stage keeps the order of the moves on both sides |
| BoardPlans.NamedCardsAccepted | src/db/repository.ts:1591-1634 | moves that name drawn cards, each at most once, pass the plan and every later compare-and-set |
| BoardPlans.SelectionAccepted | src/client/boardSelection.ts:88-99 | the moves built from any selection of drawn cards, overlapping or not, with the source different from the target, are never refused |
| BoardPlans.MergedKeeps | src/client/boardSelection.ts:119-128 | merging overlapping selections keeps every selected card |
| BoardPlans.SelectedCohorts | src/client/boardSelection.ts:119-128 | the loop merging selections by print and stage yields the merged selection |
| BoardPlans.BatchMoves | src/client/boardSelection.ts:88-99 | the loop with its running remainder yields the specified moves |
| BoardPlans.StageMovesAmount | src/client/boardSelection.ts:88-99 | the moves of one print's selection carry exactly the chosen number of copies, or all selected when fewer are |
| BoardChoices.ChosenFewestFirst | src/client/boardSelection.ts:88-99 | when fewer copies are chosen than the cards have, a card gives copies only once every selected card with fewer tags, or as many and selected earlier, goes whole |
| BoardChoices.EveryStageMoves | src/client/boardSelection.ts:88-99 | the batch moves out of every selected stage just what is chosen there, and nothing out of other stages |
| BoardGroups.MoveGroupEmptiesTag | src/db/repository.ts:500-528 | with current counts, moving a tag is never refused, takes the tag out of the source stage entirely, adds as many tagged copies to the target, and keeps all totals |
| BoardGroups.MoveGroupIff | src/db/repository.ts:500-528 | moving a tag goes through exactly when every print is named once, with the count the tag has there now |
| BoardEdits.NewPrintSound | src/db/repository.ts:3424-3434 | a new print has all its copies in the first stage and none elsewhere, no tags, no chosen places and nothing completed, and satisfies the board invariant |
| BoardEdits.RetagKeeps | src/db/repository.ts:407-448 | a tag edit is refused exactly when the stage holds fewer copies, keeps the invariant, and changes just the named tags of that stage within their bounds |
| BoardEdits.RetagAllKeeps | src/db/repository.ts:381-452 | edits of many prints and stages are accepted exactly when every stage holds the copies named; no copy moves |
| BoardEdits.RetagAllTags | src/db/repository.ts:381-452 | edits of different stages change each named stage's tags by its own count within bounds and no others |
| BoardEdits.SetQuantityKeeps | src/db/repository.ts:1375-1405 | a quantity is refused exactly below the started copies or one; the first stage takes up the difference and its tags are cut back to it; places and completion stay |
| BoardChecks.ShrinkIff | src/db/repository.ts:1529-1541 | a stage is lowered by the deleted copies exactly when it still has the count read; places and completion stay |
| BoardEdits.DeleteFromStageKeeps | src/db/repository.ts:1518-1541 | deleting cards of a stage is accepted exactly when it holds them and removes just those copies and tags; places and completion stay |
| BoardDeletes.DeleteCardsIff | src/db/repository.ts:1515-1561 | some of a print's cards are deleted exactly when its stages hold them and a copy is left; every stage and tag loses exactly what was named |
| BoardDeletes.WholeTakesAll | src/db/repository.ts:1543-1552 | a print is deleted as a whole only when the cards named are, stage by stage, all its copies |
| BoardDeletes.DeleteBatchIff | src/db/repository.ts:1504-1562 | a batch of deletions is accepted exactly when every print holds the cards named of it and keeps a copy, or has all its copies named and goes; each loses exactly what was named and no other print anything |
| BoardDeletes.DeleteBatchKeeps | src/db/repository.ts:1504-1562 | an accepted batch keeps the board invariant |
| BoardDeletionPlans.SelectionDeleted | src/client/boardSelection.ts:101-128 | the deletions built from any selection of drawn cards, overlapping or not, are never refused |
| BoardDeletionPlans.EveryCardDeleted | src/client/boardSelection.ts:101-117 | the batch holds one deletion of each selected card, whole, and no other |
| BoardStore.RemoveTags | src/db/repository.ts:1605-1634 | the loop with compare-and-set deletes and updates refuses exactly when the specification does |
| BoardStore.AddTags | src/db/repository.ts:1636-1662 | adding tag by tag, in any order, gives the one set of rows with all taken copies added |
| BoardStore.MoveSteps | src/db/repository.ts:1328-1336 | the loop with its running count of remaining copies carries out the steps |
| BoardStore.Repository.InsertRequest | src/db/repository.ts:3394-3434 | a print is added with all its copies in the first stage and nothing else, and the invariant is kept |
| BoardStore.Repository.MoveStageCards | src/db/repository.ts:1323-1337 | plan, removal, moves and additions on the rows agree with the specified step |
| BoardStore.Repository.MoveAll | src/db/repository.ts:1323-1337 | going through the moves and handling each print and stage at its first mention agrees with the recursive batch |
| BoardStore.Repository.MoveCopiesBatch | src/db/repository.ts:1300-1321 | a batch is all or nothing and keeps invariant and totals |
| BoardStore.Repository.MoveTag | src/db/repository.ts:500-528 | moving a tag is all or nothing, keeps the invariant, succeeds exactly with current counts for prints named once, and then empties the tag out of the stage |
| BoardStore.Repository.UpdateQuantity | src/db/repository.ts:1348-1405 | a quantity change is all or nothing and keeps the invariant |
| BoardStore.Repository.UpdateCopyTags | src/db/repository.ts:381-452 | tag edits are all or nothing, accepted exactly when every stage holds the copies named |
| BoardStore.Repository.DeletePrintCards | src/db/repository.ts:1515-1561 | one print's cards, or the print, are deleted as specified |
| BoardStore.Repository.DeleteCopiesBatch | src/db/repository.ts:1504-1562 | a batch of deletions is all or nothing and keeps the invariant |
| BoardRefinement.ServerEffect | src/db/repository.ts:1323-1337 | planning all takes of a stage at once has the same effect on counts, orders and completion as the print's exact-card moves |
| BoardRefinement.ClientEffect | src/client/boardOverrides.ts:22-66 | folding the client's move over the override has that same effect |
| BoardRefinement.FoldMatchesServer | src/client/boardOverrides.ts:36-66 | for a batch the server accepts, the client's fold shows the same stage counts, tag counts, orders and completion as the server stores |
| BoardRefinement.BatchByPrint | src/db/repository.ts:1323-1337 | a batch treats every print by its own moves alone |
| BoardRefinement.MoveOverrides | src/client/boardOverrides.ts:22-34 | the loop over a mutable copy of the overrides leaves every print with the fold of its own moves |
| BoardRefinement.OptimisticBatchMatchesServer | src/client/boardOverrides.ts:22-66 | for an accepted batch of exact-card moves into one stage that none of them leaves, every print on the client is what the server stores |
| Journal.GoingSees | src/core/services.ts:960-1100 | an operation in progress is not disturbed by changes to keys and rows it does not look at |
| Journal.SettledSees | src/core/services.ts:960-1100 | a settled operation stays settled under changes elsewhere |
| Journal.OthersSee | src/core/services.ts:956-958 | an operation's effects are invisible to operations with other keys and rows |
| Journal.UnrelatedDisjoint | src/core/assetKeys.ts:18-70 | operations about different requests and uploads cannot reach each other's files, as their keys say |
| JournalStates.StepKeepsSound | src/core/services.ts:960-1100 | whatever an operation in progress comes to, complete, failed or cut short, the invariant of all reachable states holds, with older committed operations on the same request still in the journal; a model that was found again is not astray any more |
| JournalRewrites.ReplayKeepsSound | src/core/services.ts:1021-1056 | so it does when a committed operation is carried out again, also where that inserts a deleted request or points a row at an older model |
| JournalRewrites.RowAgain | src/db/repository.ts:3183-3299 | carrying a committed operation out again changes a row only where a request it inserts is gone, and then nothing in progress is about the request, or where an attach's session is gone |
| JournalRewrites.RewriteKeepsCore | src/db/repository.ts:3237-3246 | writing a request's row while operations are in progress leaves each of them where it was; the request is astray unless the file is there and stays there if a swap is undone |
| JournalRewrites.DropKeepsSound | src/db/repository.ts:1246-1260 | an open session, its staged part or both may go at any moment, also in the middle of the upload's operation |
| JournalEvents.EventKeepsSound | src/core/services.ts:956-1100 | beginnings, steps, replays, new and dropped sessions and moves on the board all lead from reachable states to reachable states |
| JournalEvents.RunStaysSound | src/core/services.ts:956-1100 | every state of every run of these events satisfies the invariant |
| JournalEvents.NoModelDangles | src/core/services.ts:1026-1100 | at every reachable state a request's model is gone only while its delete or swap is taking it away or since it was lost; a lost one that nothing moves is gone |
| JournalEvents.AstrayIff | src/core/services.ts:1026-1100 | an event leaves a model astray exactly when it was before, or the event lost it, and it is not where the row says |
| JournalEvents.AstrayInRunIff | src/core/services.ts:956-1100 | in every run a model is astray exactly when some event lost it and it has been gone at every state since |
| JournalEvents.GoneAtRestIff | src/core/services.ts:956-1100 | after every run that empties the journal exactly the models that some event lost, and that were gone ever since, are gone |
| JournalEvents.MoveKeepsModelIff | src/db/repository.ts:3614-3618 | with no swap or deletion of the request under way, the path a move on the board writes keeps its model exactly when that file is there |
| JournalEvents.RowHolds | src/db/repository.ts:3168-3299 | a request's row changes only when an operation on it is recorded, a leftover writes it again, or a move on the board writes its path |
| JournalEvents.ReadBackChangesNothing | src/core/services.ts:387-394 | in every run a move on the board that writes the path it read changes nothing when nothing was recorded on the request in between |
| JournalEvents.StuckUntilDeleted | src/db/repository.ts:3183-3213 | whatever happens, a refused leftover stays in the journal and is refused until its request is deleted |
| JournalStates.BeginKeepsSound | src/db/repository.ts:3058-3122 | an operation may begin at any reachable state, others half done or left over, on any request, revived ones and ones read too early included, and leads to a reachable state |
| JournalStates.QuietIsSound | src/core/services.ts:956-958 | an empty journal whose models are all there is a state to start from |
| JournalStates.AllOrNothing | src/core/services.ts:960-1100 | an operation records its row and session all at once, or, undone or spoiled, not at all |
| JournalLeftovers.RevivesIffDeleted | src/db/repository.ts:3183-3299 | a committed operation inserts its request again exactly when it inserts requests and that one has been deleted since |
| JournalLeftovers.StuckIff | src/db/repository.ts:3190-3196 | a leftover is refused exactly when it is an upload whose request is there and whose session is gone |
| JournalLeftovers.StuckStays | src/db/repository.ts:3183-3213 | a refusal changes nothing, so it comes again on every run |
| JournalLeftovers.DeletedOnceMore | src/db/repository.ts:3168-3181 | deleting the request of a refused leftover once more makes the leftover one that inserts it again |
| JournalLeftovers.NewerKept | src/core/services.ts:956-958 | a step leaves what newer operations will come to as it was |
| JournalLeftovers.StepRevivesNone | src/core/services.ts:956-958 | in the order of their beginnings no recovery step turns a leftover into one that revives a request |
| JournalLeftovers.StepKeepsAnchored | src/core/services.ts:956-958 | nor does one take away a session that an operation in the journal still needs |
| JournalLeftovers.ReplayChangesNoRow | src/db/repository.ts:3183-3299 | a leftover whose session is there and whose request was not deleted changes no row and is not refused |
| JournalRuns.StartsUnderway | src/core/services.ts:956-958 | recovery may start from every reachable state |
| JournalRuns.ReplayStaysUnderway | src/core/services.ts:1052-1056 | carrying a leftover out again keeps the invariant of recovery runs |
| JournalRuns.StepStaysUnderway | src/core/services.ts:956-1100 | one operation's effects, complete or cut short, keep the invariant for all operations |
| JournalRuns.AllRunsEndAlike | src/core/services.ts:956-1100 | from any reachable state, however often the process crashed on the way, two runs in which no leftover changed a row and that empty the journal end with the same rows, sessions, stored files and staged parts |
| JournalRuns.SwappedRow | src/db/repository.ts:3228-3247 | after a settled swap the row has the new file and name, and neither its file nor its thumbnail nor its preview is one of the replaced files; after a first model the other two are as before |
| JournalRuns.NewRequestRow | src/db/repository.ts:3190-3193 | a settled upload or repeat leaves a row with its file name that names the stored file and no other |
| JournalStore.Service.EnsureMoved | src/adapters/s3.ts:106-127 | the move's truth table, and that an interrupted copy-then-delete leaves the old state or a second copy |
| JournalStore.Service.MoveThroughCrashes | src/adapters/assetMove.ts:3-15 | after any interrupted series and one completed call the file is only at the destination, and a further call changes nothing |
| JournalStore.Service.MoveOut | src/core/services.ts:1085-1088 | replaying the moves to the trash from any half-done state keeps each file at one of its keys and ends with all in the trash |
| JournalStore.Service.PutBack | src/core/services.ts:1045-1046 | putting assets back from any half-done state goes on past an error: it restores all but as many as errors were swallowed, and those are still in the trash |
| JournalStore.Service.Purge | src/core/services.ts:1098-1099 | purges that fail or are cut short lose no file other than trash; every asset whose own purge goes through is gone whatever became of the others, and success is reported exactly when all went through |
| JournalStore.Service.FinalizeUpload | src/adapters/finalizeCloudUpload.ts:5-23 | the publish truth table; an interrupted publish keeps the staged part |
| JournalStore.Service.MarkAssetsMoved | src/db/repository.ts:3124-3130 | only a prepared operation advances |
| JournalStore.Service.FinishOperation | src/db/repository.ts:3328-3333 | only a committed operation leaves the journal |
| JournalStore.Service.AbandonOperation | src/db/repository.ts:3334-3355 | the operation leaves the journal whatever its state |
| JournalStore.Service.CompleteUpload | src/db/repository.ts:3183-3213 | the request is inserted with its file and name only and the session closed once; without the session a request that is there already is an error |
| JournalStore.Service.CompleteAttach | src/db/repository.ts:3215-3274 | once: the request gets the new file name and path, loses thumbnail and preview when a model is replaced and keeps both otherwise, and the session closes |
| JournalStore.Service.CompleteDelete | src/db/repository.ts:3168-3181 | the row is deleted once, and with it the sessions that name it |
| JournalStore.Service.CompleteRepeat | src/db/repository.ts:3279-3299 | the repeated request is inserted unless it is there |
| JournalStore.Service.PublishUpload | src/core/services.ts:1000-1019 | an upload's part is published or, when it is gone, the upload is dropped with nothing stored |
| JournalStore.Service.ResumeUpload | src/core/services.ts:999-1024 | from any stored and half-done state an upload ends settled, or where a later run can resume it |
| JournalStore.Service.Withdraw | src/core/services.ts:1041-1049 | dropping a swap puts the replaced assets back before the operation goes |
| JournalStore.Service.SwapModel | src/core/services.ts:1028-1051 | the old model moves out, the new one is published; an operation is spoiled only with a replaced asset stranded in the trash |
| JournalStore.Service.ResumeAttach | src/core/services.ts:1026-1057 | from any stored and half-done state a swap ends settled or resumable, unless a rollback error was swallowed |
| JournalStore.Service.RecordAttach | src/core/services.ts:1052-1056 | the swap is recorded once and leaves the journal only when everything replaced is purged |
| JournalStore.Service.ResumeDelete | src/core/services.ts:1084-1100 | from any stored and half-done state a delete ends settled or resumable |
| JournalStore.Service.PurgeThenDelete | src/core/services.ts:1091-1096 | a failed purge keeps the row |
| JournalStore.Service.DeleteThenPurge | src/core/services.ts:1097-1099 | a failed purge leaves the committed operation for a later run |
| JournalStore.Service.CopyModel | src/core/services.ts:1061-1072 | a torn copy is recognised by its size and replaced, a whole one is kept |
| JournalStore.Service.GiveUpRepeat | src/core/services.ts:1073-1077 | an error while copying removes the copy and drops the operation |
| JournalStore.Service.ResumeRepeat | src/core/services.ts:1059-1082 | from any stored and half-done state a repeat ends settled or resumable, or is given up after an error |
| JournalStore.Service.Resume | src/core/services.ts:960-1100 | undisturbed, an operation in progress settles at once and throws exactly for a repeat without source; a committed one is only carried out again |
| JournalStore.Service.ResumeNext | src/core/services.ts:960-1100 | resuming any operation, complete, failed or cut short, leads from a reachable state to a reachable state |
| JournalStore.Service.RecoverOperations | src/core/services.ts:956-958 | a run keeps the invariant at every cut; undisturbed it ends without an error exactly when nothing is blocked, empties the journal exactly when nothing is refused and no lost source comes before the last operation, and has then revived exactly the requests of leftovers whose request was gone |
| JournalStore.Service.RecoverFromCrashes | src/core/services.ts:956-1100 | from any reachable state in which no leftover revives a request and the sessions of the journaled uploads are there, any series of crashed runs followed by undisturbed ones empties the journal; without lost sources one of these is enough; then exactly the models astray are gone, and without errors none that was not astray before |
| JournalStore.Service.BeginOperation | src/db/repository.ts:3058-3087 | refused for a missing request or one with an uncommitted operation; otherwise the state stays reachable, whatever became of the request before |
| JournalStore.Service.BeginUpload | src/db/repository.ts:3089-3122 | needs an open session and changes nothing while another operation is in the way; otherwise the state stays reachable |
| JournalStore.Service.StageUpload | src/db/repository.ts:549-606 | a new session and its staged part leave the state reachable |
| JournalStore.Service.ReleaseUpload | src/db/repository.ts:1246-1260 | giving an upload up or expiring it drops an open session, with the staged part or without, and the state stays reachable |
| JournalStore.Service.WriteModelPath | src/db/repository.ts:3614-3618 | a move on the board writes the path it was given; only a batch is refused while an operation on the request is uncommitted; the state stays reachable |
| JournalStore.SoundUnique | src/db/schema/production.ts:150-155 | in every reachable state the journal's unique indexes hold |
| JournalRevival.DeletedRequestComesBack | src/db/repository.ts:3183-3299 | a committed repeat or upload whose finish failed, its request deleted, and one recovery: the journal is empty and the request names a model that is gone |
| JournalRevival.LostSourceEndsRun | src/core/services.ts:956-958 | a repeat without source before a delete: an undisturbed run throws and leaves the delete in the journal |
| JournalRevival.RecordedWithoutSession | src/db/repository.ts:3183-3213 | at any reachable state with a published upload whose session is gone: recorded and cut short before its finish, it is refused from then on |
| JournalRevival.GivenUpUploadIsRefused | src/server/uploads.ts:154-157 | a client gives up an upload whose model is published: its leftover is refused for good |
| JournalRevival.OlderModelComesBack | src/db/repository.ts:3215-3274 | a leftover attach without session, its model replaced since: one recovery empties the journal and the row names the model that is gone |
| JournalRevival.StaleMoveLosesModel | src/core/services.ts:387-394 | the path is read, the model replaced, the path written back: the journal is empty and the model gone |
| LocalFiles.SameContents | src/adapters/filesystem.ts:16-41 | never calls different files the same, and is exact when both are read in the same pieces |
| LocalFiles.LocalStore.FinalizeUpload | src/adapters/filesystem.ts:61-120 | whatever is at the destination, the staged bytes are never lost: they stay staged unless the destination holds exactly them |
| LocalFiles.LocalStore.FinalizeThroughCrashes | src/adapters/filesystem.ts:61-120 | after any interrupted series and one completed call the bytes are at the destination and no part is left |
| LocalFiles.LocalStore.EnsureMoved | src/adapters/filesystem.ts:173-185 | one rename or nothing; a taken destination is refused |
| LedgerAgreement.AgreesIffSameChange | src/db/repository.ts:739-773 | rewriting a workspace's and its account's row keeps them in step exactly when both change by the same amounts |
| LedgerAgreement.FinishAgreesIff | src/db/repository.ts:988-1011 | account and workspace stay in step exactly when neither saturates alone |
| LedgerAgreement.FinishCoversIff | src/db/repository.ts:988-1011 | the reservation still covers the finalizing uploads exactly when the finish leaves that much |
| LedgerAgreement.FinishKeeps | src/db/repository.ts:988-1011 | a finish within what is reserved and stored keeps the books |
| LedgerAgreement.ReserveBytesKeeps | src/db/repository.ts:960-986 | a reservation keeps the books |
| LedgerAgreement.BeginFinalizeKeeps | src/db/repository.ts:1012-1042 | beginning to finalize keeps the books |
| LedgerAgreement.SettleKeeps | src/db/repository.ts:1053-1087 | settling never saturates on one side only, and keeps the books exactly when it removes no more than is stored |
| LedgerAgreement.ReconcileKeeps | src/db/repository.ts:739-773 | counting the store afresh keeps the books at any time |
| LedgerRows.ReserveRows | src/db/repository.ts:960-986 | an accepted reservation adds its bytes to the reserved bytes of the workspace and its account and changes no other row |
| LedgerRows.FinishRows | src/db/repository.ts:988-1011 | a finish within bounds moves just the two rows by exactly what it names |
| LedgerRows.FinishStopsAtZero | src/db/repository.ts:988-1011 | beyond that each count of each of the two rows stops at zero for itself |
| LedgerRows.BeginRows | src/db/repository.ts:1012-1042 | the session's bytes become its finalizing bytes and are reserved in both rows; beginning again changes nothing |
| LedgerRows.SettleRows | src/db/repository.ts:1053-1087 | the reservation is given back and what was stored added, in both rows and exactly; settling again changes nothing |
| LedgerRows.ReconcileRows | src/db/repository.ts:739-773 | the workspace's row becomes what was counted and what is being finalized, and its account changes by the same difference |
| LedgerEntitlements.ClaimKeeps | src/db/repository.ts:775-795 | a claim goes through exactly for an unclaimed workspace and an account with room, and keeps books and limit |
| LedgerRows.ClaimRows | src/db/repository.ts:775-795 | the account takes over exactly what the workspace uses; a repeated claim opens the account and changes nothing else |
| LedgerEntitlements.ReleaseKeeps | src/db/repository.ts:830-841 | a release takes exactly the workspace's usage off its account and keeps books and limit |
| LedgerRows.ReleaseRows | src/db/repository.ts:830-841 | a release takes exactly what the workspace uses off its account and leaves the workspace's own row |
| LedgerEntitlements.RefundKeeps | src/db/repository.ts:842-855 | a refund keeps accounts in step, and reservations covered exactly when nothing is finalizing |
| LedgerRows.RefundRows | src/db/repository.ts:842-855 | a refund takes what the workspace uses off its account and its own row and leaves it entitled |
| LedgerEntitlements.MoveHolderKeeps | src/db/repository.ts:880-917 | moving one entitlement keeps the books and loses nothing between the two accounts |
| LedgerRows.MoveHolderRows | src/db/repository.ts:880-917 | the new account gets exactly what the old one loses, and no other row changes |
| LedgerRows.SuccessorIsFirst | src/db/repository.ts:938-950 | the new holder is the first owner in line, longest-standing first, who is not the old holder and has room; none only if none has |
| LedgerEntitlements.PlanMoves | src/db/repository.ts:920-958 | the plan hands every workspace it does not block to one of its other owners, each once |
| LedgerEntitlements.PlanIsSound | src/db/repository.ts:920-958 | the plan fills no account beyond the limit |
| LedgerEntitlements.HandOverKeeps | src/db/repository.ts:866-889 | a handover moves every surviving workspace or none, keeps books, limit and all totals, and leaves other entitlements alone |
| LedgerEntitlements.HandOverThrowsIff | src/db/repository.ts:866-958 | a handover throws exactly when some workspace finds all its other owners full in its turn, or a new holder that was no candidate has no account |
| LedgerEntitlements.FirstFitRefuses | src/db/repository.ts:920-958 | two workspaces, one place in each of two accounts: planning blocks the second although a placement of both is within the limit |
| LedgerQuota.ReserveBytesTotal | src/db/repository.ts:960-986 | a reservation is accepted exactly when the total stays within the quota |
| LedgerQuota.FinishTotal | src/db/repository.ts:988-1011 | a finish changes the account's total by what is stored minus what is given back |
| LedgerQuota.BeginFinalizeTotal | src/db/repository.ts:1012-1042 | beginning to finalize conserves every total exactly unless the session had expired |
| LedgerQuota.SettleTotal | src/db/repository.ts:1053-1087 | settling changes the account's total by what is stored minus what was finalizing |
| LedgerQuota.ReserveUploadTotal | src/db/repository.ts:608-667 | an accepted upload's live bytes replace the session's in the total |
| LedgerQuota.ReserveUploadSafeIff | src/db/repository.ts:608-667 | accepting an upload never exceeds the quota, whatever the quota, exactly when the session is live or holds no bytes |
| LedgerQuota.ReserveUploadKeeps | src/db/repository.ts:608-667 | reserving an upload keeps the books |
| LedgerLimits.AcceptedIff | src/db/repository.ts:616-665 | a reservation is accepted exactly when the user's live uploads, counted over the sessions, and the account's total stay within the three limits once this session's bytes are replaced |
| LedgerLimits.AcceptedIffWithin | src/db/repository.ts:616-665 | for a session that has not lapsed: exactly when with its bytes reserved the number and bytes of the user's live uploads and the account's total are within the limits |
| LedgerLimits.AcceptedStaysWithin | src/db/repository.ts:649-664 | after an accepted reservation of such a session the user's live uploads are within both limits |
| LedgerLimits.UserLimitsSafeIff | src/db/repository.ts:608-667 | an accepted reservation never takes the user beyond the limits, whatever they are, exactly when the session has not lapsed |
| LedgerLimits.ReservedSessions | src/db/repository.ts:608-667 | when it throws, which session a refusal drops, what an accepted one holds afterwards, and that nothing else changes |
| LedgerLimits.PaidUploadsCounted | src/db/repository.ts:1215-1233 | an account's upload bytes are those of the uncompleted, unexpired sessions with bytes in its workspaces |
| LedgerQuota.ExpireKeeps | src/db/repository.ts:669-682 | dropping expired sessions changes no total and keeps the books |
| LedgerRows.ExpiredSessionsGo | src/db/repository.ts:669-682 | just the workspace's uncompleted sessions that have reached their end and finalize nothing go |
| LedgerQuota.TimePasses | src/db/repository.ts:1215-1233 | totals never grow as time passes |
| LedgerQuota.ReleaseTotal | src/db/repository.ts:830-841 | a release raises no account's total |
| LedgerRuns.EventKeepsBooks | src/db/repository.ts:608-1087 | every guarded transaction, claims, handovers, refunds and recounts included, keeps the books balanced and every account within the limit |
| LedgerRuns.EventKeepsQuota | src/db/repository.ts:608-1087 | every guarded transaction keeps every account within the quota |
| LedgerRuns.RunsStayBalanced | src/db/repository.ts:608-1233 | over any guarded run of all transactions the books stay balanced and every account within the limit |
| LedgerRuns.RunsStayWithinQuota | src/db/repository.ts:608-1233 | over any guarded run without new entitlements no account exceeds the quota |
| LedgerExamples.LapsedUploadExceedsQuota | src/db/repository.ts:608-667 | a quota of ten, nothing counted, and twenty bytes are let in because the lapsed ten are subtracted |
| LedgerExamples.LapsedFinalizeExceedsQuota | src/db/repository.ts:1012-1042 | finalizing a lapsed session takes an account from five to fifteen under a quota of ten |
| LedgerExamples.FinishTooMuchDisagrees | src/db/repository.ts:988-1011 | two workspaces of one account: giving back eight of five reserved bytes, or taking eight of five stored ones, leaves the account out of step |
| LedgerStore.SumUploads | src/db/repository.ts:1215-1233 | the loop over sessions adds up an account's live upload bytes |
| LedgerStore.ChooseSuccessors | src/db/repository.ts:920-958 | the loops with their cache of counts choose the planned successors |
| LedgerStore.Accounts.MoveUsage | src/db/repository.ts:891-917 | usage is added to one account and taken off the other, saturating |
| LedgerStore.Accounts.ClaimStorage | src/db/repository.ts:775-795 | a claim on the tables keeps books and limit |
| LedgerStore.Accounts.ReleaseStorage | src/db/repository.ts:830-841 | a release on the tables keeps books and limit |
| LedgerStore.Accounts.RefundStorage | src/db/repository.ts:842-855 | a refund on the tables keeps accounts in step |
| LedgerStore.Accounts.HandOverStorage | src/db/repository.ts:866-889 | a handover on the tables moves all surviving workspaces or changes nothing, and loses no bytes |
| LedgerStore.Accounts.ReserveAssetBytes | src/db/repository.ts:960-986 | accepted exactly when the account has room; then within the quota |
| LedgerStore.Accounts.FinishAssetReservation | src/db/repository.ts:988-1011 | both rows change as specified; guarded, the books stay balanced |
| LedgerStore.Accounts.BeginUploadFinalize | src/db/repository.ts:1012-1042 | returns the bytes being finalized, the same for a repeated call |
| LedgerStore.Accounts.FinishUploadFinalize | src/db/repository.ts:1044-1087 | settles the session; rows stay in step |
| LedgerStore.Accounts.ReconcileUsage | src/db/repository.ts:739-773 | takes over the counted bytes and keeps the books |
| LedgerStore.Accounts.ReserveUploadBytes | src/db/repository.ts:608-667 | accepted, refused, refused with the session dropped, or thrown, as specified; keeps the books, and the user within both limits unless the session had lapsed |
| LedgerStore.Accounts.ExpireSessions | src/db/repository.ts:669-682 | drops expired sessions and changes no total |
| Locks.StepKeepsInvariant | src/db/repository.ts:1184-1213 | every step of every transaction keeps the lock table true and every holder read under its lock in place |
| Locks.StepKeepsRoom | src/db/repository.ts:778-793 | a step that plans, if it plans, only for locked new holders keeps every account within the limit and room for every claim and plan in hand |
| Locks.CommitNeedsLock | src/db/repository.ts:1194-1204 | a commit takes workspaces from an account only under its lock, and gives it some only so or as a planned new holder |
| Locks.ClaimGoesOnIff | src/db/repository.ts:775-795 | under its account's lock a claim goes on to enter the workspace exactly when that is unclaimed and the account has room; otherwise it ends and lets go of its lock |
| Locks.HolderStaysPut | src/db/repository.ts:1194-1204 | in every run a holder read again under its account's lock stays the holder until the transaction ends |
| Locks.LimitHolds | src/db/repository.ts:778-793 | in every run in which planning met only locked new holders, however claims and handovers interleave, no account holds more workspaces than the limit |
| Locks.LimitKeptIffLocked | src/db/repository.ts:866-889 | after planning, every continuation keeps every account within the limit exactly when every planned new holder is locked |
| Locks.LocksKeptIff | src/db/repository.ts:880-917 | a handover's commit changes only what locked accounts hold exactly when every new holder is locked |
| Locks.CandidatesStillCover | src/db/repository.ts:866-880 | new holders are locked when no workspace joins the account between reading the candidates and locking the account |
| Locks.LateClaimExceedsLimit | src/db/repository.ts:866-889 | a run in which a claim commits in between leaves an account with two workspaces under a limit of one |
| Locks.NoWaitCycle | src/db/repository.ts:867-887 | transactions never wait for each other in a circle |
| Locks.SomeoneGoesOn | src/db/repository.ts:1179-1192 | behind every waiting transaction there is one that waits for nobody |
| Locks.FreeHasAction | src/db/repository.ts:1184-1213 | a transaction that waits for nobody has a step to take |
| TagRows.EveryGroupOnce | src/core/printGroups.ts:18-41 | every tag is listed exactly once, whatever the parents are, loops included |
| TagRows.ChildrenAre | src/core/printGroups.ts:19-28 | a parent's children are the tags that name it, each once, by name; a missing parent counts as none |
| TagRows.SiblingsByName | src/core/printGroups.ts:19-28 | siblings are listed by name upwards, and those of the same name as they were given |
| TagForest.WalkBranches | src/core/printGroups.ts:30-38 | over a forest the walk lists exactly the branches of the siblings, each tag's branch in one block of deeper rows |
| TagTree.RowList.AddAll | src/core/printGroups.ts:30-40 | the recursive walk with its shared rows and visited set lists what the specification lists |
| TagTree.GroupRows | src/core/printGroups.ts:18-41 | the rows are those specified, with every tag once |
| TagTree.BlockIsBranch | src/core/printGroups.ts:56-65 | over a forest the block of deeper rows below a tag is its set of transitive descendants |
| TagTree.BranchIds | src/core/printGroups.ts:56-65 | an unknown tag alone; over a forest the tag and all its descendants |
| TagTree.RequireTagParent | src/db/repository.ts:345-363 | for any stored links, loops included: missing parents and parents inside the tag's own branch are rejected, no others, and the walk ends |
| TagTree.ReparentKeepsForestIff | src/db/repository.ts:345-363 | a change of parent keeps a forest a forest exactly when the new parent is not in the tag's own branch |
| TagTree.UpdateParent | src/db/repository.ts:307-334 | every accepted change of parent keeps a forest a forest; a tag that is not stored is refused |
| Chunks.StreamChunks | src/adapters/streamChunks.ts:1-26 | the chunks concatenate to the input; all but the last have exactly the limit and none is empty |
| Chunks.FramingIsUnique | src/adapters/streamChunks.ts:1-26 | however the input was split, the same bytes give the same chunks |
| Chunks.EveryByteOnce | src/adapters/box.ts:69-82 | the upload's ranges hold every byte exactly once |
| Chunks.UploadChunks | src/adapters/oneDrive.ts:56-63 | every request announces the whole size and carries exactly the bytes its range names; the size check passes exactly when the ranges cover the announced size and nothing beyond |
| Chunks.HeadersValidIff | src/adapters/box.ts:75-80 | every range lies inside its announced size exactly when no more bytes come than announced |
| Queue.RequesterQueuePriorities | src/core/requestQueue.ts:19-40 | the loops give every print the position and slot its requester's two orders give it |
| Queue.PositionsAndSlots | src/core/requestQueue.ts:29-38 | a requester's n prints take positions 0 to n-1 and each of their own slots, no two the same |
| Queue.PositionsFollowOrder | src/core/requestQueue.ts:31-33 | positions follow the order the requester chose |
| Queue.ChosenPlacesDecide | src/core/requestQueue.ts:31-33 | the smaller chosen place comes first, of two prints without one the newer, and ids decide the rest |
| Queue.NewestSlotsFirst | src/core/requestQueue.ts:34-37 | the earlier a requester's print comes, the newer is the slot it takes, ids deciding between slots of one age |
| Queue.RequestersAre | src/core/requestQueue.ts:20-26 | prints are one requester's exactly when they name the same one; a print that names none is a requester of its own |
| Queue.OthersDoNotMatter | src/core/requestQueue.ts:19-40 | another requester's prints do not change a requester's positions and slots |
| Queue.StrictTotalOrder | src/core/requestQueue.ts:57-66 | the comparison is a strict total order on the prints of the queue |
| Queue.PlaceThenNameThenSlot | src/core/requestQueue.ts:57-66 | lower places come first, then names, where a nameless requester is listed under its id and an anonymous print under its own, then slots |
| Queue.WithoutPlaceById | src/core/requestQueue.ts:60 | prints that have no place are compared by their ids alone |
| Queue.EveryoneInTurn | src/core/requestQueue.ts:57-66 | nobody's next print comes before another requester's print of a lower place |
| Queue.RoundRobinQueue | src/core/requestQueue.ts:57-66 | sorting by the comparison gives a round-robin queue of the same prints |
| ArchiveNames.FreeName | src/core/archive.ts:11-17 | the loop ends after at most as many tries as names are used, with the file's own name or its smallest free number |
| ArchiveNames.UniqueArchiveNames | src/core/archive.ts:1-19 | one name per file in order, no two the same in lower case, whatever lower case depends on, each the first free one for its file |
| ArchiveNames.FreeNameKept | src/core/archive.ts:13-17 | a file whose safe name no earlier file took keeps it |
| ArchiveNames.SafeNameIsSafe | src/core/archive.ts:4-8 | a safe name is not empty and holds no separator and no line break |
| ArchiveNames.SafeNameKeeps | src/core/archive.ts:4-8 | the safe name is what follows the last separator with its characters in order and only line breaks gone, and model.stl for an empty one |
| ArchiveNames.BreaksJoin | src/core/archive.ts:8 | taking line breaks out of two texts joined is joining the two without them |
| ArchiveNames.StemAndExtension | src/core/archive.ts:9-11 | stem and extension join to the name; the extension is empty or starts at the last dot, and a leading dot begins none |
| ArchiveNames.NumberedExample | src/core/archive.ts:14 | the number goes in brackets between stem and extension |
| ArchiveNames.NumbersDiffer | src/core/archive.ts:13-15 | different numbers give names that differ, whatever the case |

## Left out

- Attach replay when the new file reuses a replaced file's key: after a crash between finalize and mark, the replay sees the new file at the old path. `Begun` asks for a new key.
- A session that is opened again under the id of an upload whose operation is in the journal, and assets generated in the meantime. That sessions with bytes being finalized are not released is not modelled: the model may drop any open session.
- The write of a path by a move on the board is a step of its own; that the same transaction moves the copies is not modelled.
- Legacy `move` operations, onboarding marks and the owner of an upload session.
- An asset store that answers a write or copy with "file missing" although the staged part is there, and read errors: errors happen at writes, removals and transactions.
- JournalRuns.AllRunsEndAlike: is about runs in which no swallowed error spoiled an operation and no leftover changed a row; `JournalRuns.Underway` and `JournalEvents.AstrayInRunIff` say what the others keep.
- The asset moves of `removeCopiesBatch`, which are not journaled; only its rows are modelled.
- Tag rows' `sortOrder`, a tag's own stage and time stamps, and file paths on the board's rows.
- Board transactions are serial, and the refusal of a deletion batch while a journaled operation is running is not modelled; only the account locks are interleaved.
- In `Locks` every owner has an account row; `LedgerEntitlements.HandOver` throws for a new holder without one, as `entitlements.ownerId` refers to it (`src/db/schema/production.ts:206-208`).
- The count of restarts after a moved holder: a transaction starts over as often as it needs to.
- Deleting workspaces and accounts with everything that hangs on them; open and list queries of the ledger.
- `compareRequesterPriorityQueues` and `compareCompletedQueue`: two requesters of the same name compare as equal.
- `deleteBoardOverride`, `reorderBoardOverride`, `reconcileBoardOverrides` and toggling selections.
- Collation: names, ids and texts are compared by rank. Of lower case only that it tells texts of different digits apart.
- HTTP responses while uploading chunks, digests, and commit retries.
- Prices, estimates, e-mail, billing, realtime and the user interface.
