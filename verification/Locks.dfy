/** Transactions over account locks, step by step: reads see what is committed, locks are held until the end. */
module Locks {
  import opened Options
  import opened SetSums
  import opened Ledger
  import opened LedgerEntitlements
  import Sorting

  type TxId = nat

  /** A transaction working on the account that holds a workspace: read the holder, lock it, read it again. */
  datatype HolderPhase = Reading | Waiting(wanted: Owner) | Rereading(locked: Owner) | Working(holder: Owner)

  datatype ClaimPhase = Locking | Checking | Claiming

  datatype Tx =
    | HolderTx(w: Workspace, phase: HolderPhase)
    | ClaimTx(w: Workspace, owner: Owner, step: ClaimPhase)
    /** A handover that has not read its candidates yet. */
    | PendingTx(from: Owner, deleted: set<Workspace>)
    /** Locks the sorted candidates one by one, then plans new holders for the workspaces that are not deleted. */
    | HandOverTx(from: Owner, deleted: set<Workspace>, accounts: seq<Owner>, got: nat,
      plan: Option<map<Workspace, Owner>>)
    | Ended

  /**
   * `owners` lists each workspace's owners, longest-standing first; `limit` is how many workspaces an account may hold.
   */
  datatype State = State(
    holders: map<Workspace, Owner>, locks: map<Owner, TxId>, txs: map<TxId, Tx>, owners: map<Workspace, seq<Owner>>,
    limit: nat)

  datatype Action =
    | Start(id: TxId, tx: Tx)
    | ReadCandidates(id: TxId, accounts: seq<Owner>)
    | Read(id: TxId)
    | Acquire(id: TxId)
    | Reread(id: TxId)
    | Check(id: TxId)
    | Choose(id: TxId, entitled: seq<Workspace>)
    | Commit(id: TxId, release: bool)
    | Abort(id: TxId)

  predicate Sorted(accounts: seq<Owner>) {
    forall i, j :: 0 <= i < j < |accounts| ==> accounts[i] < accounts[j]
  }

  predicate Holds(tx: Tx, o: Owner) {
    match tx
    case HolderTx(_, Rereading(locked)) => o == locked
    case HolderTx(_, Working(holder)) => o == holder
    case ClaimTx(_, owner, step) => step != Locking && o == owner
    case HandOverTx(_, _, accounts, got, _) => got <= |accounts| && o in accounts[..got]
    case _ => false
  }

  /** The lock a transaction needs before it can go on. */
  function Wants(tx: Tx): Option<Owner> {
    match tx
    case HolderTx(_, Waiting(wanted)) => Some(wanted)
    case ClaimTx(_, owner, Locking) => Some(owner)
    case HandOverTx(_, _, accounts, got, None) => if got < |accounts| then Some(accounts[got]) else None
    case _ => None
  }

  function Granted(tx: Tx): Tx
    requires Wants(tx).Some?
  {
    match tx
    case HolderTx(w, Waiting(wanted)) => HolderTx(w, Rereading(wanted))
    case ClaimTx(w, owner, _) => ClaimTx(w, owner, Checking)
    case HandOverTx(from, deleted, accounts, got, plan) => HandOverTx(from, deleted, accounts, got + 1, plan)
  }

  function Assigned(plan: map<Workspace, Owner>, o: Owner): set<Workspace> {
    set w | w in plan && plan[w] == o
  }

  /** The account and the owners of all its workspaces. */
  ghost predicate CandidatesOf(s: State, from: Owner, accounts: seq<Owner>) {
    && Sorted(accounts)
    && forall o :: o in accounts <==>
        o == from || exists w :: w in Held(s.holders, from) && w in s.owners && o in s.owners[w]
  }

  /** The account's workspaces that are not deleted, in the order of their names. */
  ghost predicate Outliving(s: State, tx: Tx, entitled: seq<Workspace>)
    requires tx.HandOverTx?
  {
    && Surviving(s.holders, tx.from, entitled)
    && forall w :: w in entitled <==> w in Held(s.holders, tx.from) && w !in tx.deleted
  }

  /** The new holders the planner gives the workspaces; the transaction throws when it finds none for one of them. */
  function PlanFor(s: State, from: Owner, entitled: seq<Workspace>): Plan {
    PlanHandovers(s.holders, entitled, s.owners, from, s.limit)
  }

  function Assignment(planned: seq<Handover>): map<Workspace, Owner> {
    if planned == [] then map[]
    else Assignment(planned[..|planned| - 1])[planned[|planned| - 1].workspace := planned[|planned| - 1].successor]
  }

  /** Nothing here asks whether the new holders are among the accounts that were locked. */
  ghost predicate Enabled(s: State, a: Action) {
    if a.Start? then a.id !in s.txs && Fresh(a.tx)
    else
      && a.id in s.txs
      && match a
         case Start(_, _) => false
         case ReadCandidates(id, accounts) => s.txs[id].PendingTx? && CandidatesOf(s, s.txs[id].from, accounts)
         case Read(id) => s.txs[id].HolderTx? && s.txs[id].phase.Reading?
         case Acquire(id) => Wants(s.txs[id]).Some? && Wants(s.txs[id]).value !in s.locks
         case Reread(id) => s.txs[id].HolderTx? && s.txs[id].phase.Rereading?
         case Check(id) => s.txs[id].ClaimTx? && s.txs[id].step == Checking
         case Choose(id, entitled) =>
           && s.txs[id].HandOverTx? && s.txs[id].plan.None? && s.txs[id].got == |s.txs[id].accounts|
           && Outliving(s, s.txs[id], entitled)
         case Commit(id, release) =>
           || (s.txs[id].HolderTx? && s.txs[id].phase.Working?)
           || (s.txs[id].ClaimTx? && s.txs[id].step == Claiming)
           || (s.txs[id].HandOverTx? && s.txs[id].plan.Some?)
         case Abort(id) => !s.txs[id].Ended?
  }

  /** The transaction ends and lets go of its locks; one that starts over holds none either. */
  function Freed(s: State, id: TxId, next: Tx): State {
    s.(locks := map o | o in s.locks && s.locks[o] != id :: s.locks[o], txs := s.txs[id := next])
  }

  /** What a commit makes of the entitlements; a claim that lost the race to another one violates the unique key. */
  function Committed(holders: map<Workspace, Owner>, tx: Tx, release: bool): map<Workspace, Owner> {
    match tx
    case HolderTx(w, _) => if release then holders - {w} else holders
    case ClaimTx(w, owner, _) => if w in holders then holders else holders[w := owner]
    case HandOverTx(_, _, _, _, Some(plan)) => holders + plan
    case _ => holders
  }

  ghost function Step(s: State, a: Action): State
    requires Enabled(s, a)
  {
    match a
    case Start(id, tx) => s.(txs := s.txs[id := tx])
    case ReadCandidates(id, accounts) =>
      s.(txs := s.txs[id := HandOverTx(s.txs[id].from, s.txs[id].deleted, accounts, 0, None)])
    case Read(id) =>
      var w := s.txs[id].w;
      s.(txs := s.txs[id := if w in s.holders then HolderTx(w, Waiting(s.holders[w])) else Ended])
    case Acquire(id) =>
      s.(locks := s.locks[Wants(s.txs[id]).value := id], txs := s.txs[id := Granted(s.txs[id])])
    case Reread(id) =>
      var w, o := s.txs[id].w, s.txs[id].phase.locked;
      if w in s.holders && s.holders[w] == o then s.(txs := s.txs[id := HolderTx(w, Working(o))])
      else Freed(s, id, HolderTx(w, Reading))
    case Check(id) =>
      var tx := s.txs[id];
      if tx.w in s.holders || |Held(s.holders, tx.owner)| >= s.limit then Freed(s, id, Ended)
      else s.(txs := s.txs[id := tx.(step := Claiming)])
    case Choose(id, entitled) =>
      var plan := PlanFor(s, s.txs[id].from, entitled);
      if plan.blocked != [] then Freed(s, id, Ended)
        else s.(txs := s.txs[id := s.txs[id].(plan := Some(Assignment(plan.handovers)))])
    case Commit(id, release) => Freed(s, id, Ended).(holders := Committed(s.holders, s.txs[id], release))
    case Abort(id) => Freed(s, id, Ended)
  }

  // ---------------------------------------------------------------------------------------------
  // What every step keeps
  // ---------------------------------------------------------------------------------------------

  /** The lock table says what each transaction holds. */
  ghost predicate Locked(s: State) {
    && (forall o :: o in s.locks ==> s.locks[o] in s.txs && Holds(s.txs[s.locks[o]], o))
    && (forall id, o: Owner :: id in s.txs && Holds(s.txs[id], o) ==> o in s.locks && s.locks[o] == id)
  }

  /** What a transaction has read under its locks still holds: the holder, and what a handover moves away. */
  ghost predicate Stable(s: State, tx: Tx) {
    match tx
    case HolderTx(w, Working(holder)) => w in s.holders && s.holders[w] == holder
    case HandOverTx(from, _, accounts, got, plan) =>
      && Sorted(accounts) && from in accounts && got <= |accounts|
      && (plan.Some? ==> got == |accounts| && Leaves(s, from, plan.value))
    case _ => true
  }

  ghost predicate Leaves(s: State, from: Owner, plan: map<Workspace, Owner>) {
    forall w :: w in plan ==> w in s.holders && s.holders[w] == from && plan[w] != from
  }

  ghost predicate Invariant(s: State) {
    Locked(s) && forall id :: id in s.txs ==> Stable(s, s.txs[id])
  }

  /** Before anything is locked or read. */
  ghost predicate Initial(s: State) {
    && s.locks == map[] && WithinLimit(s.holders, s.limit)
    && forall id :: id in s.txs ==> Fresh(s.txs[id])
  }

  predicate Fresh(tx: Tx) {
    match tx
    case HolderTx(_, phase) => phase == Reading
    case ClaimTx(_, _, step) => step == Locking
    case PendingTx(_, _) => true
    case HandOverTx(_, _, _, _, _) => false
    case Ended => true
  }

  lemma {:induction false} FreedLocked(s: State, id: TxId, next: Tx)
    requires Locked(s) && id in s.txs && forall o: Owner :: !Holds(next, o)
    ensures Locked(Freed(s, id, next))
  {
  }

  lemma {:induction false} SameHolds(s: State, id: TxId, next: Tx)
    requires Locked(s) && forall o: Owner :: Holds(next, o) <==> id in s.txs && Holds(s.txs[id], o)
    ensures Locked(s.(txs := s.txs[id := next]))
  {
  }

  lemma {:induction false} AcquireLocked(s: State, id: TxId)
    requires Invariant(s) && Enabled(s, Acquire(id))
    ensures Locked(Step(s, Acquire(id)))
  {
    var tx, o := s.txs[id], Wants(s.txs[id]).value;
    var after := Step(s, Acquire(id));
    forall p: Owner ensures Holds(after.txs[id], p) <==> Holds(tx, p) || p == o {
      if tx.HandOverTx? {
        assert tx.accounts[..tx.got + 1] == tx.accounts[..tx.got] + [o];
      }
    }
  }

  lemma {:induction false} ChooseLocked(s: State, id: TxId, entitled: seq<Workspace>)
    requires Locked(s) && Enabled(s, Choose(id, entitled))
    ensures Locked(Step(s, Choose(id, entitled)))
  {
    var plan := PlanFor(s, s.txs[id].from, entitled);
    if plan.blocked != [] {
      FreedLocked(s, id, Ended);
    } else {
      SameHolds(s, id, s.txs[id].(plan := Some(Assignment(plan.handovers))));
    }
  }

  lemma {:induction false} RereadLocked(s: State, id: TxId)
    requires Locked(s) && Enabled(s, Reread(id))
    ensures Locked(Step(s, Reread(id)))
  {
    var w, o := s.txs[id].w, s.txs[id].phase.locked;
    FreedLocked(s, id, HolderTx(w, Reading));
    SameHolds(s, id, HolderTx(w, Working(o)));
  }

  lemma {:induction false} CheckLocked(s: State, id: TxId)
    requires Locked(s) && Enabled(s, Check(id))
    ensures Locked(Step(s, Check(id)))
  {
    FreedLocked(s, id, Ended);
    SameHolds(s, id, s.txs[id].(step := Claiming));
  }

  lemma {:induction false} StepLocked(s: State, a: Action)
    requires Invariant(s) && Enabled(s, a)
    ensures Locked(Step(s, a))
  {
    var id := a.id;
    match a
    case Start(_, tx) => SameHolds(s, id, tx);
    case ReadCandidates(_, _) => SameHolds(s, id, Step(s, a).txs[id]);
    case Acquire(_) => AcquireLocked(s, id);
    case Read(_) => SameHolds(s, id, Step(s, a).txs[id]);
    case Reread(_) => RereadLocked(s, id);
    case Check(_) => CheckLocked(s, id);
    case Choose(_, entitled) => ChooseLocked(s, id, entitled);
    case Commit(_, _) => FreedLocked(s, id, Ended);
    case Abort(_) => FreedLocked(s, id, Ended);
  }

  /**
   * A commit takes workspaces from an account only under its lock, and gives it some only so or as a planned new
   * holder.
   */
  lemma {:induction false} CommitNeedsLock(s: State, id: TxId, release: bool, o: Owner)
    requires Invariant(s) && Enabled(s, Commit(id, release)) && !Holds(s.txs[id], o)
    ensures Held(s.holders, o) <= Held(Committed(s.holders, s.txs[id], release), o)
    ensures !Receives(s.txs[id], o) ==> Held(Committed(s.holders, s.txs[id], release), o) == Held(s.holders, o)
  {
    var tx := s.txs[id];
    assert Stable(s, tx);
    if tx.HandOverTx? {
      assert tx.accounts[..tx.got] == tx.accounts;
    }
  }

  ghost predicate Receives(tx: Tx, o: Owner) {
    tx.HandOverTx? && tx.plan.Some? && exists w :: w in tx.plan.value && tx.plan.value[w] == o
  }

  lemma {:induction false} OneHolder(s: State, a: TxId, b: TxId, o: Owner)
    requires Locked(s) && a in s.txs && b in s.txs && Holds(s.txs[a], o) && Holds(s.txs[b], o)
    ensures a == b
  {
    assert o in s.locks && s.locks[o] == a;
    assert s.locks[o] == b;
  }

  lemma {:induction false} CommitKeepsOthers(s: State, id: TxId, release: bool, other: TxId)
    requires Invariant(s) && Enabled(s, Commit(id, release)) && other in s.txs && other != id
    ensures Stable(Step(s, Commit(id, release)), s.txs[other])
  {
    var tx, after := s.txs[other], Step(s, Commit(id, release));
    assert Stable(s, tx);
    forall o: Owner | Holds(tx, o) ensures Held(s.holders, o) <= Held(after.holders, o) {
      if Holds(s.txs[id], o) {
        OneHolder(s, id, other, o);
      }
      CommitNeedsLock(s, id, release, o);
    }
    if tx.HolderTx? && tx.phase.Working? {
      assert tx.w in Held(s.holders, tx.phase.holder);
    }
    if tx.HandOverTx? && tx.plan.Some? {
      assert tx.accounts[..tx.got] == tx.accounts;
      forall w | w in tx.plan.value ensures w in after.holders && after.holders[w] == tx.from {
        assert w in Held(s.holders, tx.from);
      }
    }
  }

  lemma {:induction false} OwnStable(s: State, a: Action)
    requires Invariant(s) && Enabled(s, a)
    ensures Stable(Step(s, a), Step(s, a).txs[a.id])
  {
    assert a.id in s.txs ==> Stable(s, s.txs[a.id]);
    if a.Choose? {
      PlannerLeaves(s, s.txs[a.id].from, a.entitled);
    }
  }

  /** Every step of every transaction keeps the lock table true and the holders read under lock in place. */
  lemma {:induction false} StepKeepsInvariant(s: State, a: Action)
    requires Invariant(s) && Enabled(s, a)
    ensures Invariant(Step(s, a))
  {
    var after := Step(s, a);
    StepLocked(s, a);
    OwnStable(s, a);
    forall other | other in after.txs && other != a.id ensures Stable(after, after.txs[other]) {
      assert Stable(s, s.txs[other]);
      if a.Commit? {
        CommitKeepsOthers(s, a.id, a.release, other);
      }
    }
  }

  // ---------------------------------------------------------------------------------------------
  // The planner
  // ---------------------------------------------------------------------------------------------

  lemma {:induction false} Assigns(planned: seq<Handover>)
    requires forall i, j :: 0 <= i < j < |planned| ==> planned[i].workspace != planned[j].workspace
    ensures forall w :: w in Assignment(planned) <==> exists i :: 0 <= i < |planned| && planned[i].workspace == w
    ensures forall i :: 0 <= i < |planned| ==> Assignment(planned)[planned[i].workspace] == planned[i].successor
    ensures forall o: Owner :: |Assigned(Assignment(planned), o)| == Times(planned, o)
    decreases |planned|
  {
    if planned != [] {
      var front, last := planned[..|planned| - 1], planned[|planned| - 1];
      Assigns(front);
      forall i | 0 <= i < |front| ensures front[i] == planned[i] && planned[i].workspace != last.workspace {}
      forall o: Owner ensures |Assigned(Assignment(planned), o)| == Times(planned, o) {
        AssignedNext(Assignment(front), last, o);
        assert |Assigned(Assignment(front), o)| == Times(front, o);
      }
    }
  }

  lemma {:induction false} AssignedNext(plan: map<Workspace, Owner>, h: Handover, o: Owner)
    requires h.workspace !in plan
    ensures |Assigned(plan[h.workspace := h.successor], o)| == |Assigned(plan, o)| + if h.successor == o then 1 else 0
  {
    var after := Assigned(plan[h.workspace := h.successor], o);
    if h.successor == o {
      assert after == Assigned(plan, o) + {h.workspace};
    } else {
      assert after == Assigned(plan, o);
    }
  }

  lemma {:induction false} PlannerLeaves(s: State, from: Owner, entitled: seq<Workspace>)
    requires Surviving(s.holders, from, entitled)
    ensures Leaves(s, from, Assignment(PlanFor(s, from, entitled).handovers))
  {
    var planned := PlanFor(s, from, entitled).handovers;
    var plan := Assignment(planned);
    PlanMoves(s.holders, entitled, s.owners, from, s.limit);
    Assigns(planned);
    forall w | w in plan ensures w in s.holders && s.holders[w] == from && plan[w] != from {
      var i :| 0 <= i < |planned| && planned[i].workspace == w;
      assert OneOf(planned[i].workspace, entitled, s.owners, planned[i], from);
      var j :| 0 <= j < |entitled| && entitled[j] == w;
      assert entitled[j] in Held(s.holders, from);
    }
  }

  /** Every new holder the planner chooses is among the accounts the handover has locked. */
  ghost predicate SuccessorsLocked(s: State, id: TxId, entitled: seq<Workspace>)
    requires id in s.txs && s.txs[id].HandOverTx?
  {
    var plan := PlanFor(s, s.txs[id].from, entitled);
    plan.blocked == [] ==> forall i :: 0 <= i < |plan.handovers| ==> plan.handovers[i].successor in s.txs[id].accounts
  }

  // ---------------------------------------------------------------------------------------------
  // The limit
  // ---------------------------------------------------------------------------------------------

  /** There is room for what a transaction has in hand: a claim, or a plan whose new holders are locked. */
  ghost predicate HasRoom(s: State, tx: Tx) {
    match tx
    case ClaimTx(_, owner, Claiming) => |Held(s.holders, owner)| < s.limit
    case HandOverTx(from, _, accounts, _, Some(plan)) =>
      && (forall w :: w in plan ==> plan[w] in accounts)
      && (forall o: Owner :: o in accounts && o != from ==> |Held(s.holders, o)| + |Assigned(plan, o)| <= s.limit)
    case _ => true
  }

  ghost predicate Roomy(s: State) {
    WithinLimit(s.holders, s.limit) && forall id :: id in s.txs ==> HasRoom(s, s.txs[id])
  }

  /** Planning meets only new holders that are locked. */
  ghost predicate Cautious(s: State, a: Action)
    requires Enabled(s, a)
  {
    a.Choose? ==> SuccessorsLocked(s, a.id, a.entitled)
  }

  lemma {:induction false} PlannerHasRoom(s: State, id: TxId, entitled: seq<Workspace>)
    requires WithinLimit(s.holders, s.limit) && Enabled(s, Choose(id, entitled)) && Cautious(s, Choose(id, entitled))
    ensures HasRoom(Step(s, Choose(id, entitled)), Step(s, Choose(id, entitled)).txs[id])
  {
    var tx := s.txs[id];
    var planned := PlanFor(s, tx.from, entitled).handovers;
    PlanMoves(s.holders, entitled, s.owners, tx.from, s.limit);
    PlanIsSound(s.holders, entitled, s.owners, tx.from, s.limit);
    Assigns(planned);
    forall o: Owner ensures |Held(s.holders, o)| + |Assigned(Assignment(planned), o)| <= s.limit {
      assert Used(s.holders, planned, o) <= s.limit;
    }
  }

  /** A commit with locked new holders changes what an account holds only under that account's lock. */
  lemma {:induction false} RoomyCommit(s: State, id: TxId, release: bool, o: Owner)
    requires Invariant(s) && Enabled(s, Commit(id, release)) && HasRoom(s, s.txs[id]) && !Holds(s.txs[id], o)
    ensures Held(Committed(s.holders, s.txs[id], release), o) == Held(s.holders, o)
  {
    var tx := s.txs[id];
    assert Stable(s, tx);
    if tx.HandOverTx? {
      assert tx.accounts[..tx.got] == tx.accounts;
    }
    CommitNeedsLock(s, id, release, o);
  }

  lemma {:induction false} CommitKeepsLimit(s: State, id: TxId, release: bool)
    requires Invariant(s) && Roomy(s) && Enabled(s, Commit(id, release))
    ensures WithinLimit(Step(s, Commit(id, release)).holders, s.limit)
  {
    var tx, after := s.txs[id], Committed(s.holders, s.txs[id], release);
    assert Stable(s, tx) && HasRoom(s, tx);
    forall o: Owner ensures |Held(after, o)| <= s.limit {
      assert |Held(s.holders, o)| <= s.limit;
      if !Holds(tx, o) {
        RoomyCommit(s, id, release, o);
      } else if tx.HandOverTx? {
        HandedHeld(s.holders, tx.plan.value, tx.from, o);
      } else if tx.ClaimTx? {
        assert Held(after, o) <= Held(s.holders, o) + {tx.w};
        NoMoreThan(Held(after, o), Held(s.holders, o) + {tx.w});
      } else {
        NoMoreThan(Held(after, o), Held(s.holders, o));
      }
    }
  }

  lemma {:induction false} HandedHeld(holders: map<Workspace, Owner>, plan: map<Workspace, Owner>, from: Owner,
      o: Owner)
    requires forall w :: w in plan ==> w in holders && holders[w] == from && plan[w] != from
    ensures if o == from then |Held(holders + plan, o)| <= |Held(holders, o)|
            else |Held(holders + plan, o)| == |Held(holders, o)| + |Assigned(plan, o)|
  {
    if o == from {
      NoMoreThan(Held(holders + plan, o), Held(holders, o));
    } else {
      assert Held(holders + plan, o) == Held(holders, o) + Assigned(plan, o);
    }
  }

  lemma {:induction false} CommitKeepsRoom(s: State, id: TxId, release: bool, other: TxId)
    requires Invariant(s) && Roomy(s) && Enabled(s, Commit(id, release)) && other in s.txs && other != id
    ensures HasRoom(Step(s, Commit(id, release)), s.txs[other])
  {
    var tx, mine, after := s.txs[other], s.txs[id], Step(s, Commit(id, release));
    assert HasRoom(s, tx) && HasRoom(s, mine) && Stable(s, tx) && Stable(s, mine);
    forall o: Owner | Holds(tx, o) ensures Held(after.holders, o) == Held(s.holders, o) {
      if Holds(mine, o) {
        OneHolder(s, id, other, o);
      }
      RoomyCommit(s, id, release, o);
    }
    if tx.HandOverTx? && tx.plan.Some? {
      assert tx.accounts[..tx.got] == tx.accounts;
      forall o | o in tx.accounts ensures Held(after.holders, o) == Held(s.holders, o) {
        assert Holds(tx, o);
      }
    }
  }

  /** Under its lock a claim goes on exactly for an unclaimed workspace and an account with room; else it lets go. */
  lemma {:induction false} ClaimGoesOnIff(s: State, id: TxId)
    requires Invariant(s) && Enabled(s, Check(id))
    ensures var w, o, after := s.txs[id].w, s.txs[id].owner, Step(s, Check(id));
      && o in s.locks && s.locks[o] == id && after.holders == s.holders
      && (CanGo(after, Commit(id, false)) <==> w !in s.holders && |Held(s.holders, o)| < s.limit)
      && (CanGo(after, Commit(id, false)) ==>
            after.locks == s.locks && Step(after, Commit(id, false)).holders == s.holders[w := o])
      && (!CanGo(after, Commit(id, false)) ==> after.txs[id].Ended? && after.locks == s.locks - {o})
  {
    assert Holds(s.txs[id], s.txs[id].owner);
    var after := Step(s, Check(id));
    if after.txs[id].Ended? {
      forall o | o in s.locks && s.locks[o] == id ensures o == s.txs[id].owner {
        assert Holds(s.txs[id], o);
      }
    }
  }

  /** As long as planning is cautious, there stays room for all that is in hand. */
  lemma {:induction false} StepKeepsRoom(s: State, a: Action)
    requires Invariant(s) && Roomy(s) && Enabled(s, a) && Cautious(s, a)
    ensures Roomy(Step(s, a))
  {
    var after := Step(s, a);
    if a.Commit? {
      CommitKeepsLimit(s, a.id, a.release);
    }
    forall other | other in after.txs ensures HasRoom(after, after.txs[other]) {
      if other != a.id {
        assert HasRoom(s, s.txs[other]);
        if a.Commit? {
          CommitKeepsRoom(s, a.id, a.release, other);
        }
      } else if a.Choose? {
        PlannerHasRoom(s, a.id, a.entitled);
      } else {
        assert a.id in s.txs ==> HasRoom(s, s.txs[a.id]);
      }
    }
  }

  // ---------------------------------------------------------------------------------------------
  // Runs
  // ---------------------------------------------------------------------------------------------

  ghost predicate Run(states: seq<State>, actions: seq<Action>) {
    && |states| == |actions| + 1 && Initial(states[0])
    && forall i :: 0 <= i < |actions| ==> Enabled(states[i], actions[i]) && states[i + 1] == Step(states[i], actions[i])
  }

  ghost predicate CautiousUpTo(states: seq<State>, actions: seq<Action>, n: nat)
    requires Run(states, actions) && n <= |actions|
  {
    forall i :: 0 <= i < n ==> Cautious(states[i], actions[i])
  }

  lemma {:induction false} RunKeepsInvariant(states: seq<State>, actions: seq<Action>, n: nat)
    requires Run(states, actions) && n < |states|
    ensures Invariant(states[n])
    decreases n
  {
    if n == 0 {
      forall id | id in states[0].txs
        ensures Stable(states[0], states[0].txs[id]) && forall o: Owner :: !Holds(states[0].txs[id], o)
      {
        assert Fresh(states[0].txs[id]);
      }
    } else {
      RunKeepsInvariant(states, actions, n - 1);
      StepKeepsInvariant(states[n - 1], actions[n - 1]);
    }
  }

  lemma {:induction false} RunKeepsRoom(states: seq<State>, actions: seq<Action>, n: nat)
    requires Run(states, actions) && n < |states| && CautiousUpTo(states, actions, n)
    ensures Roomy(states[n])
    decreases n
  {
    if n == 0 {
      forall id | id in states[0].txs ensures HasRoom(states[0], states[0].txs[id]) {
        assert Fresh(states[0].txs[id]);
      }
    } else {
      RunKeepsInvariant(states, actions, n - 1);
      RunKeepsRoom(states, actions, n - 1);
      assert Cautious(states[n - 1], actions[n - 1]);
      StepKeepsRoom(states[n - 1], actions[n - 1]);
    }
  }

  /** In every run in which planning met only locked new holders, no account holds more workspaces than the limit. */
  lemma {:induction false} LimitHolds(states: seq<State>, actions: seq<Action>, n: nat, o: Owner)
    requires Run(states, actions) && n < |states| && CautiousUpTo(states, actions, n)
    ensures |Held(states[n].holders, o)| <= states[n].limit
  {
    RunKeepsRoom(states, actions, n);
  }

  /**
   * In every run, a holder read again under its account's lock stays the holder for as long as the transaction works.
   */
  lemma {:induction false} HolderStaysPut(states: seq<State>, actions: seq<Action>, n: nat, id: TxId)
    requires Run(states, actions) && n < |states| && id in states[n].txs
    requires states[n].txs[id].HolderTx? && states[n].txs[id].phase.Working?
    ensures states[n].txs[id].w in states[n].holders
    ensures states[n].holders[states[n].txs[id].w] == states[n].txs[id].phase.holder
  {
    RunKeepsInvariant(states, actions, n);
    assert Stable(states[n], states[n].txs[id]);
  }

  // ---------------------------------------------------------------------------------------------
  // A new holder that is not locked
  // ---------------------------------------------------------------------------------------------

  ghost predicate CanGo(s: State, a: Action) {
    Enabled(s, a) && Cautious(s, a)
  }

  /** A continuation whose own planning is cautious. */
  ghost predicate Path(states: seq<State>, actions: seq<Action>) {
    && |states| == |actions| + 1
    && forall i :: 0 <= i < |actions| ==> CanGo(states[i], actions[i]) && states[i + 1] == Step(states[i], actions[i])
  }

  lemma {:induction false} PathKeepsRoom(states: seq<State>, actions: seq<Action>, n: nat)
    requires Path(states, actions) && Invariant(states[0]) && Roomy(states[0]) && n < |states|
    ensures Invariant(states[n]) && Roomy(states[n])
    decreases n
  {
    if n > 0 {
      PathKeepsRoom(states, actions, n - 1);
      assert CanGo(states[n - 1], actions[n - 1]);
      StepKeepsInvariant(states[n - 1], actions[n - 1]);
      StepKeepsRoom(states[n - 1], actions[n - 1]);
    }
  }

  lemma {:induction false} OneBefore(s: State, a: Action, states: seq<State>, actions: seq<Action>)
    requires Path(states, actions) && CanGo(s, a) && Step(s, a) == states[0]
    ensures Path([s] + states, [a] + actions)
  {
    var all, steps := [s] + states, [a] + actions;
    forall i | 0 <= i < |steps| ensures CanGo(all[i], steps[i]) && all[i + 1] == Step(all[i], steps[i]) {
      if i > 0 {
        assert all[i] == states[i - 1] && steps[i] == actions[i - 1] && all[i + 1] == states[i];
        assert CanGo(states[i - 1], actions[i - 1]);
      }
    }
  }

  lemma {:induction false} AboveAll(ids: set<nat>) returns (id: nat)
    ensures id !in ids && forall x :: x in ids ==> x < id
    decreases ids
  {
    id := 0;
    if ids != {} {
      var x :| x in ids;
      var below := AboveAll(ids - {x});
      id := if x < below then below else x + 1;
      forall y | y in ids ensures y < id {
        assert y == x || y in ids - {x};
      }
    }
  }

  /** The handover is about to give the account one of its workspaces without holding the account's lock. */
  ghost predicate AboutToGive(s: State, id: TxId, o: Owner) {
    && id in s.txs && s.txs[id].HandOverTx? && s.txs[id].plan.Some? && Leaves(s, s.txs[id].from, s.txs[id].plan.value)
    && Receives(s.txs[id], o) && !Holds(s.txs[id], o)
  }

  /** A continuation at whose end the account holds more than the limit. */
  ghost predicate Exceeds(s: State, o: Owner, states: seq<State>, actions: seq<Action>) {
    Path(states, actions) && states[0] == s && |Held(states[|actions|].holders, o)| > states[|actions|].limit
  }

  lemma {:induction false} FullGivesOver(s: State, id: TxId, o: Owner)
    requires AboutToGive(s, id, o) && |Held(s.holders, o)| >= s.limit
    ensures Enabled(s, Commit(id, false)) && Exceeds(s, o, [s, Step(s, Commit(id, false))], [Commit(id, false)])
  {
    var t := Step(s, Commit(id, false));
    assert CanGo(s, Commit(id, false));
    var plan := s.txs[id].plan.value;
    var w :| w in plan && plan[w] == o;
    assert w in Held(t.holders, o) && w !in Held(s.holders, o);
    forall v | v in Held(s.holders, o) ensures v in Held(t.holders, o) {
    }
    NoMoreThan(Held(s.holders, o) + {w}, Held(t.holders, o));
  }

  lemma {:induction false} StillAboutToGive(s: State, t: State, id: TxId, o: Owner)
    requires AboutToGive(s, id, o) && id in t.txs && t.txs[id] == s.txs[id]
    requires forall w :: w in s.holders ==> w in t.holders && t.holders[w] == s.holders[w]
    ensures AboutToGive(t, id, o)
  {
  }

  /** Locks belong to transactions that are there. */
  ghost predicate Registered(s: State) {
    forall o :: o in s.locks ==> s.locks[o] in s.txs
  }

  function Claimed(s: State, claim: TxId, w: Workspace, o: Owner, step: ClaimPhase): State {
    s.(txs := s.txs[claim := ClaimTx(w, o, step)])
  }

  lemma {:induction false} ClaimBegins(s: State, claim: TxId, w: Workspace, o: Owner)
    requires claim !in s.txs && o !in s.locks
    ensures var tx := ClaimTx(w, o, Locking);
      && CanGo(s, Start(claim, tx)) && CanGo(Step(s, Start(claim, tx)), Acquire(claim))
      && Step(Step(s, Start(claim, tx)), Acquire(claim)) ==
          Claimed(s, claim, w, o, Checking).(locks := s.locks[o := claim])
  {
    var tx := ClaimTx(w, o, Locking);
    var s1 := Step(s, Start(claim, tx));
    assert s1 == Claimed(s, claim, w, o, Locking);
    assert s1.txs[claim := ClaimTx(w, o, Checking)] == s.txs[claim := ClaimTx(w, o, Checking)];
  }

  lemma {:induction false} ClaimEnds(s: State, claim: TxId, w: Workspace, o: Owner) returns (t: State)
    requires claim !in s.txs && o !in s.locks && w !in s.holders && |Held(s.holders, o)| < s.limit
    requires Registered(s)
    ensures Registered(t)
    ensures var s2 := Claimed(s, claim, w, o, Checking).(locks := s.locks[o := claim]);
      && CanGo(s2, Check(claim)) && CanGo(Step(s2, Check(claim)), Commit(claim, false))
      && t == Step(Step(s2, Check(claim)), Commit(claim, false))
      && t.holders == s.holders[w := o] && o !in t.locks && t.limit == s.limit
      && forall id :: id in s.txs ==> id in t.txs && t.txs[id] == s.txs[id]
  {
    var s2 := Claimed(s, claim, w, o, Checking).(locks := s.locks[o := claim]);
    var s3 := Step(s2, Check(claim));
    assert s3.txs[claim] == ClaimTx(w, o, Claiming);
    t := Step(s3, Commit(claim, false));
  }

  /** One more claim of the account, from beginning to end, of a workspace nobody has claimed. */
  ghost predicate ClaimRun(s: State, claim: TxId, w: Workspace, o: Owner, t: State) {
    var start := Start(claim, ClaimTx(w, o, Locking));
    && CanGo(s, start) && CanGo(Step(s, start), Acquire(claim))
    && var s2 := Step(Step(s, start), Acquire(claim));
       && CanGo(s2, Check(claim)) && CanGo(Step(s2, Check(claim)), Commit(claim, false))
       && t == Step(Step(s2, Check(claim)), Commit(claim, false))
  }

  lemma {:induction false} ClaimOneMore(s: State, id: TxId, o: Owner) returns (claim: TxId, w: Workspace, t: State)
    requires Registered(s) && AboutToGive(s, id, o) && o !in s.locks && |Held(s.holders, o)| < s.limit
    ensures ClaimRun(s, claim, w, o, t) && Registered(t) && AboutToGive(t, id, o)
    ensures o !in t.locks && t.limit == s.limit && |Held(t.holders, o)| == |Held(s.holders, o)| + 1
  {
    claim := AboveAll(s.txs.Keys);
    w := AboveAll(s.holders.Keys);
    ClaimBegins(s, claim, w, o);
    t := ClaimEnds(s, claim, w, o);
    StillAboutToGive(s, t, id, o);
    assert Held(t.holders, o) == Held(s.holders, o) + {w};
  }

  lemma {:induction false} ClaimThen(
      s: State, claim: TxId, w: Workspace, o: Owner, next: State, states: seq<State>, actions: seq<Action>)
      returns (longer: seq<State>, more: seq<Action>)
    requires ClaimRun(s, claim, w, o, next) && Exceeds(next, o, states, actions)
    ensures Exceeds(s, o, longer, more)
  {
    var start := Start(claim, ClaimTx(w, o, Locking));
    var s1 := Step(s, start);
    var s2 := Step(s1, Acquire(claim));
    var s3 := Step(s2, Check(claim));
    longer, more := Before(s3, Commit(claim, false), o, states, actions);
    longer, more := Before(s2, Check(claim), o, longer, more);
    longer, more := Before(s1, Acquire(claim), o, longer, more);
    longer, more := Before(s, start, o, longer, more);
  }

  lemma {:induction false} Before(s: State, a: Action, o: Owner, states: seq<State>, actions: seq<Action>)
      returns (longer: seq<State>, more: seq<Action>)
    requires CanGo(s, a) && Exceeds(Step(s, a), o, states, actions)
    ensures Exceeds(s, o, longer, more)
  {
    longer, more := [s] + states, [a] + actions;
    OneBefore(s, a, states, actions);
    assert longer[|more|] == states[|actions|];
  }

  lemma {:induction false} ClaimsFillUp(s: State, id: TxId, o: Owner) returns (states: seq<State>, actions: seq<Action>)
    requires Registered(s) && AboutToGive(s, id, o) && o !in s.locks
    ensures Exceeds(s, o, states, actions)
    decreases s.limit - |Held(s.holders, o)|
  {
    if |Held(s.holders, o)| >= s.limit {
      FullGivesOver(s, id, o);
      states, actions := [s, Step(s, Commit(id, false))], [Commit(id, false)];
    } else {
      var claim, w, next := ClaimOneMore(s, id, o);
      states, actions := ClaimsFillUp(next, id, o);
      states, actions := ClaimThen(s, claim, w, o, next, states, actions);
    }
  }

  /**
   * Whoever holds the account's lock may give up, others may claim the account, and then the handover gives it more.
   */
  lemma {:induction false} Overfills(s: State, id: TxId, o: Owner) returns (states: seq<State>, actions: seq<Action>)
    requires Locked(s) && AboutToGive(s, id, o)
    ensures Exceeds(s, o, states, actions)
  {
    if o in s.locks {
      var other := s.locks[o];
      var a := Abort(other);
      assert other != id && CanGo(s, a);
      states, actions := ClaimsFillUp(Step(s, a), id, o);
      states, actions := Before(s, a, o, states, actions);
    } else {
      states, actions := ClaimsFillUp(s, id, o);
    }
  }

  /** However others go on, no account comes to hold more than the limit. */
  ghost predicate KeepsLimit(s: State) {
    forall states: seq<State>, actions: seq<Action>, n: nat ::
      Path(states, actions) && states[0] == s && n < |states| ==>
      WithinLimit(states[n].holders, states[n].limit)
  }

  /**
   * A handover that has planned keeps the limit, however others go on, exactly when every new holder it has planned is
   * among the accounts it has locked.
   */
  lemma {:induction false} LimitKeptIffLocked(s: State, id: TxId, entitled: seq<Workspace>)
    requires Invariant(s) && Roomy(s) && Enabled(s, Choose(id, entitled))
    ensures KeepsLimit(Step(s, Choose(id, entitled))) <==> SuccessorsLocked(s, id, entitled)
  {
    var a := Choose(id, entitled);
    var after := Step(s, a);
    StepKeepsInvariant(s, a);
    if SuccessorsLocked(s, id, entitled) {
      StepKeepsRoom(s, a);
      forall states: seq<State>, actions: seq<Action>, n: nat |
          Path(states, actions) && states[0] == after && n < |states|
        ensures WithinLimit(states[n].holders, states[n].limit)
      {
        PathKeepsRoom(states, actions, n);
      }
    } else {
      var o := UnlockedGives(s, id, entitled);
      var states, actions := Overfills(after, id, o);
      assert Exceeds(after, o, states, actions);
      assert !(|Held(states[|actions|].holders, o)| <= states[|actions|].limit);
    }
  }

  lemma {:induction false} AfterChoosing(s: State, id: TxId, entitled: seq<Workspace>)
    requires Enabled(s, Choose(id, entitled)) && PlanFor(s, s.txs[id].from, entitled).blocked == []
    ensures var after := Step(s, Choose(id, entitled));
      && id in after.txs && after.holders == s.holders
      && after.txs[id] == s.txs[id].(plan := Some(Assignment(PlanFor(s, s.txs[id].from, entitled).handovers)))
  {
  }

  lemma {:induction false} UnlockedGives(s: State, id: TxId, entitled: seq<Workspace>) returns (o: Owner)
    requires Invariant(s) && Enabled(s, Choose(id, entitled)) && !SuccessorsLocked(s, id, entitled)
    ensures AboutToGive(Step(s, Choose(id, entitled)), id, o)
  {
    var tx := s.txs[id];
    var planned := PlanFor(s, tx.from, entitled).handovers;
    var i :| 0 <= i < |planned| && planned[i].successor !in tx.accounts;
    o := planned[i].successor;
    AfterChoosing(s, id, entitled);
    PlannerLeaves(s, tx.from, entitled);
    PlannedReceives(s, tx.from, entitled, i);
    GivesUnlocked(s, Step(s, Choose(id, entitled)), id, Assignment(planned), o);
  }

  lemma {:induction false} PlannedReceives(s: State, from: Owner, entitled: seq<Workspace>, i: nat)
    requires Surviving(s.holders, from, entitled) && i < |PlanFor(s, from, entitled).handovers|
    ensures var h := PlanFor(s, from, entitled).handovers[i];
      var plan := Assignment(PlanFor(s, from, entitled).handovers);
      h.workspace in plan && plan[h.workspace] == h.successor
  {
    PlanMoves(s.holders, entitled, s.owners, from, s.limit);
    Assigns(PlanFor(s, from, entitled).handovers);
  }

  lemma {:induction false} GivesUnlocked(s: State, after: State, id: TxId, plan: map<Workspace, Owner>, o: Owner)
    requires id in s.txs && id in after.txs && s.txs[id].HandOverTx? && s.txs[id].got == |s.txs[id].accounts|
    requires after.holders == s.holders && after.txs[id] == s.txs[id].(plan := Some(plan))
    requires Leaves(s, s.txs[id].from, plan) && o !in s.txs[id].accounts
    requires exists w :: w in plan && plan[w] == o
    ensures AboutToGive(after, id, o)
  {
    assert s.txs[id].accounts[..s.txs[id].got] == s.txs[id].accounts;
  }

  /** Its commit changes only what locked accounts hold exactly when every new holder is among them. */
  lemma {:induction false} LocksKeptIff(s: State, id: TxId)
    requires Invariant(s) && Enabled(s, Commit(id, false)) && s.txs[id].HandOverTx?
    ensures (forall o: Owner :: !Holds(s.txs[id], o) ==>
        Held(Committed(s.holders, s.txs[id], false), o) == Held(s.holders, o)) <==>
              (forall w :: w in s.txs[id].plan.value ==> s.txs[id].plan.value[w] in s.txs[id].accounts)
  {
    var tx := s.txs[id];
    assert Stable(s, tx) && tx.accounts[..tx.got] == tx.accounts;
    forall o: Owner | !Holds(tx, o) && !Receives(tx, o)
      ensures Held(Committed(s.holders, tx, false), o) == Held(s.holders, o)
    {
      CommitNeedsLock(s, id, false, o);
    }
    forall w | w in tx.plan.value
      ensures w in Held(Committed(s.holders, tx, false), tx.plan.value[w]) && w !in Held(s.holders, tx.plan.value[w])
    {
    }
  }

  // ---------------------------------------------------------------------------------------------
  // When the candidates still cover what is planned
  // ---------------------------------------------------------------------------------------------

  /** The commit gives the account a workspace: a claim of it, or a handover to it. */
  ghost predicate Joins(s: State, a: Action, o: Owner) {
    && a.Commit? && a.id in s.txs
    && ((s.txs[a.id].ClaimTx? && s.txs[a.id].owner == o) || Receives(s.txs[a.id], o))
  }

  lemma {:induction false} HoldsNoMore(s: State, a: Action, o: Owner)
    requires Enabled(s, a) && !Joins(s, a, o)
    ensures Held(Step(s, a).holders, o) <= Held(s.holders, o)
  {
  }

  /**
   * Under the account's lock only its own transaction changes what the account holds, as long as planning is cautious.
   */
  lemma {:induction false} LockedOut(s: State, a: Action, id: TxId, o: Owner)
    requires Invariant(s) && Roomy(s) && Enabled(s, a) && id in s.txs && Holds(s.txs[id], o) && a.id != id
    ensures !Joins(s, a, o)
  {
    if a.Commit? && Holds(s.txs[a.id], o) {
      OneHolder(s, a.id, id, o);
    }
    if a.Commit? {
      var tx := s.txs[a.id];
      assert HasRoom(s, tx) && Stable(s, tx);
      if tx.HandOverTx? {
        assert tx.accounts[..tx.got] == tx.accounts;
      }
    }
  }

  /**
   * The transaction is the same handover from reading its candidates at `i` up to `k`, and has the account's lock at
   * `j`.
   */
  ghost predicate HandingOver(states: seq<State>, id: TxId, tx: Tx, i: nat, j: nat, k: nat)
    requires i < j <= k < |states| && tx.HandOverTx?
  {
    && (forall n :: i < n <= k ==>
          id in states[n].txs && states[n].txs[id].HandOverTx? && states[n].txs[id].plan == None
          && states[n].txs[id].from == tx.from && states[n].txs[id].accounts == tx.accounts)
    && (forall n :: j <= n <= k ==> Holds(states[n].txs[id], tx.from))
  }

  lemma {:induction false} OwnersUnchanged(states: seq<State>, actions: seq<Action>, i: nat, k: nat)
    requires Run(states, actions) && i <= k < |states|
    ensures states[k].owners == states[i].owners
    decreases k
  {
    if i < k {
      OwnersUnchanged(states, actions, i, k - 1);
      assert Enabled(states[k - 1], actions[k - 1]);
    }
  }

  /** The account's lock is held by the handover whenever something could join the account from `j` on. */
  lemma {:induction false} NothingJoins(states: seq<State>, actions: seq<Action>, id: TxId, o: Owner, n: nat)
    requires Run(states, actions) && n < |actions| && CautiousUpTo(states, actions, n)
    requires id in states[n].txs && states[n].txs[id].HandOverTx? && states[n].txs[id].plan == None
    requires Holds(states[n].txs[id], o)
    ensures !Joins(states[n], actions[n], o)
  {
    RunKeepsInvariant(states, actions, n);
    RunKeepsRoom(states, actions, n);
    assert Enabled(states[n], actions[n]);
    if actions[n].id != id {
      LockedOut(states[n], actions[n], id, o);
    }
  }

  lemma {:induction false} HeldSince(states: seq<State>, actions: seq<Action>, o: Owner, i: nat, k: nat)
    requires Run(states, actions) && i <= k < |states|
    requires forall n :: i <= n < k ==> !Joins(states[n], actions[n], o)
    ensures Held(states[k].holders, o) <= Held(states[i].holders, o)
    decreases k
  {
    if i < k {
      HeldSince(states, actions, o, i, k - 1);
      assert Enabled(states[k - 1], actions[k - 1]) && states[k] == Step(states[k - 1], actions[k - 1]);
      HoldsNoMore(states[k - 1], actions[k - 1], o);
    }
  }

  /**
   * A caller can see to it: when no claim and no handover gives the account a workspace between reading the candidates
   * and locking the account, planning meets only new holders that are locked.
   */
  lemma {:induction false} CandidatesStillCover(
      states: seq<State>, actions: seq<Action>, id: TxId, i: nat, j: nat, k: nat, accounts: seq<Owner>,
      entitled: seq<Workspace>)
    requires Run(states, actions) && i < j <= k < |states| && CautiousUpTo(states, actions, k)
    requires actions[i] == ReadCandidates(id, accounts) && Enabled(states[k], Choose(id, entitled))
    requires HandingOver(states, id, states[i + 1].txs[id], i, j, k)
    requires forall n :: i <= n < j ==> !Joins(states[n], actions[n], states[i + 1].txs[id].from)
    ensures SuccessorsLocked(states[k], id, entitled)
  {
    var tx, s := states[i + 1].txs[id], states[k];
    assert Enabled(states[i], actions[i]);
    assert CandidatesOf(states[i], tx.from, accounts) && tx.accounts == accounts;
    forall n | i <= n < k ensures !Joins(states[n], actions[n], tx.from) {
      if j <= n {
        NothingJoins(states, actions, id, tx.from, n);
      }
    }
    HeldSince(states, actions, tx.from, i, k);
    OwnersUnchanged(states, actions, i, k);
    var planned := PlanFor(s, tx.from, entitled).handovers;
    PlanMoves(s.holders, entitled, s.owners, tx.from, s.limit);
    forall n | 0 <= n < |planned| ensures planned[n].successor in accounts {
      assert OneOf(planned[n].workspace, entitled, s.owners, planned[n], tx.from);
      var m :| 0 <= m < |entitled| && entitled[m] == planned[n].workspace;
      assert entitled[m] in Held(s.holders, tx.from);
    }
  }

  // ---------------------------------------------------------------------------------------------
  // A claim between reading the candidates and locking
  // ---------------------------------------------------------------------------------------------

  /**
   * Account 1 is to be handed over; account 1 is claiming workspace 10, and account 2 workspace 20; the limit is one.
   */
  const RACE := State(
    map[], map[], map[1 := PendingTx(1, {}), 2 := ClaimTx(20, 2, Locking), 3 := ClaimTx(10, 1, Locking)],
    map[10 := [1, 2], 20 := [2]], 1)

  /**
   * The candidates are read while account 1 holds nothing; then workspace 10 joins it, and both accounts are locked.
   */
  const RACED := State(
    map[10 := 1], map[1 := 1, 2 := 2],
    map[1 := HandOverTx(1, {}, [1], 1, None), 2 := ClaimTx(20, 2, Claiming), 3 := Ended],
    map[10 := [1, 2], 20 := [2]], 1)

  /** Both commit: account 2 holds two workspaces. */
  const OVERFULL := State(
    map[10 := 2, 20 := 2], map[], map[1 := Ended, 2 := Ended, 3 := Ended], map[10 := [1, 2], 20 := [2]], 1)

  ghost predicate Goes(s: State, a: Action, t: State) {
    Enabled(s, a) && Step(s, a) == t
  }

  function Raced(
      holders: map<Workspace, Owner>, locks: map<Owner, TxId>, handover: Tx, second: ClaimPhase, first: Tx): State {
    State(holders, locks, map[1 := handover, 2 := ClaimTx(20, 2, second), 3 := first], map[10 := [1, 2], 20 := [2]], 1)
  }

  function RaceAt(n: nat): State {
    var waiting, ready := HandOverTx(1, {}, [1], 0, None), HandOverTx(1, {}, [1], 1, None);
    if n == 0 then RACE
    else if n == 1 then Raced(map[], map[], waiting, Locking, ClaimTx(10, 1, Locking))
    else if n == 2 then Raced(map[], map[1 := 3], waiting, Locking, ClaimTx(10, 1, Checking))
    else if n == 3 then Raced(map[], map[1 := 3], waiting, Locking, ClaimTx(10, 1, Claiming))
    else if n == 4 then Raced(map[10 := 1], map[], waiting, Locking, Ended)
    else if n == 5 then Raced(map[10 := 1], map[1 := 1], ready, Locking, Ended)
    else if n == 6 then Raced(map[10 := 1], map[1 := 1, 2 := 2], ready, Checking, Ended)
    else RACED
  }

  function RaceStep(n: nat): Action {
    match n
    case 0 => ReadCandidates(1, [1])
    case 1 => Acquire(3)
    case 2 => Check(3)
    case 3 => Commit(3, false)
    case 4 => Acquire(1)
    case 5 => Acquire(2)
    case _ => Check(2)
  }

  lemma {:induction false} FirstClaimCommits(n: nat)
    requires n < 4
    ensures Goes(RaceAt(n), RaceStep(n), RaceAt(n + 1))
  {
    assert Held(RACE.holders, 1) == {};
  }

  lemma {:induction false} ThenBothLock(n: nat)
    requires 4 <= n < 6
    ensures Goes(RaceAt(n), RaceStep(n), RaceAt(n + 1))
  {
  }

  lemma {:induction false} SecondClaimHasRoom()
    ensures Goes(RaceAt(6), RaceStep(6), RaceAt(7))
  {
    assert Held(RaceAt(6).holders, 2) == {};
  }

  lemma {:induction false} RaceBegins() returns (states: seq<State>, actions: seq<Action>)
    ensures |actions| == 7 && |states| == 8 && states[0] == RACE && states[7] == RACED
    ensures actions[0] == ReadCandidates(1, [1])
    ensures forall i :: 0 <= i < 7 ==> Goes(states[i], actions[i], states[i + 1])
  {
    states, actions := seq(8, i => if i < 0 then RACE else RaceAt(i)),
      seq(7, i => if i < 0 then Check(2) else RaceStep(i));
    forall i | 0 <= i < 7 ensures Goes(states[i], actions[i], states[i + 1]) {
      if i < 4 {
        FirstClaimCommits(i);
      } else if i < 6 {
        ThenBothLock(i);
      } else {
        SecondClaimHasRoom();
      }
    }
  }

  lemma {:induction false} RacePlan()
    ensures Held(RACED.holders, 1) == {10} && Held(RACED.holders, 2) == {}
    ensures PlanFor(RACED, 1, [10]) == LedgerEntitlements.Plan([Handover(10, 2)], [])
    ensures Assignment([Handover(10, 2)]) == map[10 := 2]
  {
    var list: seq<Workspace> := [10];
    assert list[..0] == [] && Held(RACED.holders, 2) == {};
    assert RACED.owners[10][1..] == [2];
    assert Successor(RACED.holders, [], RACED.owners[10], 1, 1) == Some(2);
    var planned := [Handover(10, 2)];
    assert planned[..0] == [];
  }

  const PLANNED := RACED.(txs := RACED.txs[1 := HandOverTx(1, {}, [1], 1, Some(map[10 := 2]))])
  const CLAIMED := State(
    map[10 := 1, 20 := 2], map[1 := 1],
    map[1 := HandOverTx(1, {}, [1], 1, Some(map[10 := 2])), 2 := Ended, 3 := Ended], map[10 := [1, 2], 20 := [2]], 1)

  lemma {:induction false} RacePlans()
    ensures Goes(RACED, Choose(1, [10]), PLANNED) && !SuccessorsLocked(RACED, 1, [10])
  {
    RacePlan();
    var list: seq<Workspace> := [10];
    assert Outliving(RACED, RACED.txs[1], list);
  }

  lemma {:induction false} ClaimCommits()
    ensures Goes(PLANNED, Commit(2, false), CLAIMED)
  {
  }

  lemma {:induction false} HandoverCommits()
    ensures Goes(CLAIMED, Commit(1, false), OVERFULL)
  {
    assert Committed(CLAIMED.holders, CLAIMED.txs[1], false) == map[10 := 2, 20 := 2];
  }

  lemma {:induction false} RaceEnds() returns (states: seq<State>, actions: seq<Action>)
    ensures |actions| == 3 && |states| == 4 && states[0] == RACED && states[3] == OVERFULL
    ensures actions[0] == Choose(1, [10]) && !SuccessorsLocked(RACED, 1, [10])
    ensures forall i :: 0 <= i < 3 ==> Goes(states[i], actions[i], states[i + 1])
  {
    RacePlans();
    ClaimCommits();
    HandoverCommits();
    states, actions := [RACED, PLANNED, CLAIMED, OVERFULL], [Choose(1, [10]), Commit(2, false), Commit(1, false)];
  }

  /** A claim that commits after the candidates were read lets a handover take an account beyond the limit. */
  lemma {:induction false} LateClaimExceedsLimit() returns (states: seq<State>, actions: seq<Action>)
    ensures Run(states, actions) && states[0] == RACE
    ensures |Held(states[|actions|].holders, 2)| == 2 > states[|actions|].limit
  {
    var begin, first := RaceBegins();
    var end, second := RaceEnds();
    states, actions := begin + end[1..], first + second;
    forall i | 0 <= i < |actions|
      ensures Enabled(states[i], actions[i]) && states[i + 1] == Step(states[i], actions[i])
    {
      if i < 7 {
        assert states[i] == begin[i] && states[i + 1] == begin[i + 1] && actions[i] == first[i];
        assert Goes(begin[i], first[i], begin[i + 1]);
      } else {
        assert states[i] == end[i - 7] && states[i + 1] == end[i - 6] && actions[i] == second[i - 7];
        assert Goes(end[i - 7], second[i - 7], end[i - 6]);
      }
    }
    forall o: Owner ensures |Held(RACE.holders, o)| <= RACE.limit {
      assert Held(RACE.holders, o) == {};
    }
    assert Held(OVERFULL.holders, 2) == {10, 20};
  }

  // ---------------------------------------------------------------------------------------------
  // No deadlock
  // ---------------------------------------------------------------------------------------------

  predicate WaitsFor(s: State, a: TxId, b: TxId) {
    && a in s.txs && Wants(s.txs[a]).Some?
    && Wants(s.txs[a]).value in s.locks && s.locks[Wants(s.txs[a]).value] == b
  }

  /** Only a handover waits while holding locks, and it holds smaller ones. */
  lemma {:induction false} WantsBeyondHeld(s: State, id: TxId, o: Owner)
    requires Invariant(s) && id in s.txs && Holds(s.txs[id], o) && Wants(s.txs[id]).Some?
    ensures o < Wants(s.txs[id]).value
  {
    assert Stable(s, s.txs[id]);
    var tx := s.txs[id];
    var i :| 0 <= i < tx.got && tx.accounts[i] == o;
  }

  lemma {:induction false} WaitsUpwards(s: State, path: seq<TxId>)
    requires Invariant(s) && |path| >= 2
    requires forall i :: 0 <= i < |path| - 1 ==> WaitsFor(s, path[i], path[i + 1])
    ensures path[0] in s.txs && Wants(s.txs[path[0]]).Some? && path[|path| - 1] in s.txs
    ensures Wants(s.txs[path[|path| - 1]]).Some? ==> Wants(s.txs[path[0]]).value < Wants(s.txs[path[|path| - 1]]).value
    decreases |path|
  {
    var last := |path| - 1;
    assert WaitsFor(s, path[0], path[1]);
    assert WaitsFor(s, path[last - 1], path[last]);
    var o := Wants(s.txs[path[last - 1]]).value;
    if Wants(s.txs[path[last]]).Some? {
      WantsBeyondHeld(s, path[last], o);
    }
    if last > 1 {
      forall i | 0 <= i < last - 1 ensures WaitsFor(s, path[..last][i], path[..last][i + 1]) {
        assert WaitsFor(s, path[i], path[i + 1]);
      }
      WaitsUpwards(s, path[..last]);
    }
  }

  /** Transactions never wait for each other in a circle. */
  lemma {:induction false} NoWaitCycle(s: State, path: seq<TxId>)
    requires Invariant(s) && |path| >= 2
    requires forall i :: 0 <= i < |path| - 1 ==> WaitsFor(s, path[i], path[i + 1])
    ensures path[0] != path[|path| - 1]
  {
    WaitsUpwards(s, path);
    assert WaitsFor(s, path[0], path[1]);
  }

  /** A transaction that waits is, over others that wait, held up by one that can go on. */
  lemma {:induction false} SomeoneGoesOn(s: State, id: TxId) returns (free: TxId)
    requires Invariant(s) && id in s.txs && !s.txs[id].Ended?
    ensures free in s.txs && !s.txs[free].Ended? && forall b :: !WaitsFor(s, free, b)
    decreases if Wants(s.txs[id]).Some? then set o | o in s.locks && o >= Wants(s.txs[id]).value else {}
  {
    free := id;
    if Wants(s.txs[id]).Some? && Wants(s.txs[id]).value in s.locks {
      var o := Wants(s.txs[id]).value;
      var next := s.locks[o];
      assert Holds(s.txs[next], o);
      if Wants(s.txs[next]).Some? {
        WantsBeyondHeld(s, next, o);
        assert o in (set p | p in s.locks && p >= o);
        free := SomeoneGoesOn(s, next);
      } else {
        free := next;
      }
    }
  }

  lemma {:induction false} Listing(ws: set<Workspace>) returns (list: seq<Workspace>)
    ensures forall w :: w in list <==> w in ws
    ensures forall i :: 0 <= i < |list| ==> list[i] in ws
    ensures forall i, j :: 0 <= i < j < |list| ==> list[i] != list[j]
    decreases ws
  {
    list := [];
    if ws != {} {
      var w :| w in ws;
      var front := Listing(ws - {w});
      list := front + [w];
    }
  }

  lemma {:induction false} SortedListing(os: set<Owner>) returns (list: seq<Owner>)
    ensures Sorted(list) && forall o :: o in list <==> o in os
  {
    var unsorted := Listing(os);
    var before := (x: Owner, y: Owner) => x < y;
    list := Sorting.Sort(unsorted, before);
    Sorting.SortSorts(unsorted, before);
    Sorting.SameElements(unsorted, list);
    Sorting.UniqueSpread(unsorted, list, (x: Owner) => x);
    forall i, j | 0 <= i < j < |list| ensures list[i] < list[j] {
      assert !before(list[j], list[i]);
    }
  }

  lemma {:induction false} SortedCandidates(s: State, from: Owner) returns (accounts: seq<Owner>)
    ensures CandidatesOf(s, from, accounts)
  {
    accounts := SortedListing(
      {from} + set w, o | w in Held(s.holders, from) && w in s.owners && o in s.owners[w] :: o);
  }

  /** Some action is open to a transaction that does not wait for a lock; to a handover, planning with the planner. */
  lemma {:induction false} FreeHasAction(s: State, id: TxId)
    requires Invariant(s) && id in s.txs && !s.txs[id].Ended? && forall b :: !WaitsFor(s, id, b)
    ensures exists a: Action :: a.id == id && !a.Abort? && Enabled(s, a)
  {
    var tx := s.txs[id];
    assert Stable(s, tx);
    if Wants(tx).Some? {
      var o := Wants(tx).value;
      assert !WaitsFor(s, id, if o in s.locks then s.locks[o] else id);
      assert Enabled(s, Acquire(id));
    } else {
      match tx
      case PendingTx(from, _) =>
        var accounts := SortedCandidates(s, from);
        assert Enabled(s, ReadCandidates(id, accounts));
      case HolderTx(_, Reading) => assert Enabled(s, Read(id));
      case HolderTx(_, Rereading(_)) => assert Enabled(s, Reread(id));
      case HolderTx(_, Working(_)) => assert Enabled(s, Commit(id, false));
      case ClaimTx(_, _, Checking) => assert Enabled(s, Check(id));
      case ClaimTx(_, _, Claiming) => assert Enabled(s, Commit(id, false));
      case HandOverTx(from, deleted, _, _, None) =>
        var entitled := Listing(Held(s.holders, from) - deleted);
        assert Outliving(s, tx, entitled);
        assert Enabled(s, Choose(id, entitled));
      case HandOverTx(_, _, _, _, Some(_)) => assert Enabled(s, Commit(id, false));
    }
  }
}
