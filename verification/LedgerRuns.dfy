/** Whole runs of ledger transactions: the books stay balanced within the limit, and no account exceeds its quota. */
module LedgerRuns {
  import opened Ledger
  import opened LedgerAgreement
  import opened LedgerEntitlements
  import opened LedgerQuota

  datatype Event =
    | Reserve(w: Workspace, size: int)
    | FinishAssets(w: Workspace, reserved: int, delta: int)
    | BeginUpload(k: Key)
    | FinishUpload(k: Key, delta: int)
    | Upload(k: Key, user: nat, bytes: nat, expiresAt: int, count: int, limit: int)
    | Expire(w: Workspace)
    | Withdraw(w: Workspace)
    | Grant(w: Workspace, owner: Owner)
    | PassOn(from: Owner, entitled: seq<Workspace>, owners: map<Workspace, seq<Owner>>, candidates: seq<Owner>)
    | Refund(w: Workspace)
    | Recount(w: Workspace, stored: nat)

  datatype Timed = Timed(event: Event, now: int)

  function BooksOf(before: Books, r: Answer): Books {
    if r.Says? then r.books else before
  }

  /** `limit` is how many workspaces an account may be entitled to. */
  ghost function Apply(b: Books, e: Timed, quota: int, limit: nat): Books {
    match e.event
    case Reserve(w, size) => BooksOf(b, ReserveBytes(b, w, size, quota, e.now))
    case FinishAssets(w, reserved, delta) => BooksOf(b, FinishReservation(b, w, reserved, delta))
    case BeginUpload(k) => BooksOf(b, BeginFinalize(b, k))
    case FinishUpload(k, delta) => BooksOf(b, SettleFinalize(b, k, delta))
    case Upload(k, user, bytes, expiresAt, count, limit) =>
      BooksOf(b, ReserveUpload(b, k, user, bytes, expiresAt, Limits(count, limit, true, quota), e.now))
    case Expire(w) => ExpireUploads(b, w, e.now)
    case Withdraw(w) => Release(b, w)
    case Grant(w, owner) => BooksOf(b, Claim(b, w, owner, limit))
    case PassOn(from, entitled, owners, candidates) =>
      BooksOf(b, HandOver(b, from, entitled, owners, candidates, limit))
    case Refund(w) => RefundUsage(b, w)
    case Recount(w, stored) => BooksOf(b, Reconcile(b, w, stored))
  }

  /**
   * What callers keep to: they give back only what they reserved, store no more than that, and work on live sessions;
   * they refund a workspace once nothing of it is being finalized, and pass on the entitlements that are there.
   */
  ghost predicate Guarded(b: Books, e: Timed) {
    match e.event
    case FinishAssets(w, reserved, delta) =>
      w in b.holders && w in b.usage ==>
        reserved + FinalizingBytes(b, w) <= b.usage[w].reserved && 0 <= b.usage[w].persisted + delta
          && delta <= reserved
    case BeginUpload(k) => k in b.sessions ==> b.sessions[k].finalizing > 0 || Live(b.sessions[k], e.now)
    case FinishUpload(k, delta) =>
      k in b.sessions && k.workspace in b.usage && b.sessions[k].finalizing > 0 ==>
        delta <= b.sessions[k].finalizing && 0 <= b.usage[k.workspace].persisted + delta
    case Upload(k, _, _, _, _, _) => k in b.sessions ==> Live(b.sessions[k], e.now) || b.sessions[k].bytes == 0
    case PassOn(from, entitled, owners, candidates) => Surviving(b.holders, from, entitled)
    case Refund(w) => w in b.holders ==> FinalizingBytes(b, w) == 0
    case _ => true
  }

  /** The entitlements stay as they are or shrink, and no stored bytes are found that were not counted. */
  predicate Settled(e: Event) {
    !e.Grant? && !e.PassOn? && !e.Refund? && !e.Recount?
  }

  ghost predicate WithinQuota(b: Books, quota: int, now: int) {
    forall o: Owner :: Total(b, o, now) <= quota
  }

  /** Every guarded transaction keeps the books balanced and the accounts within the limit. */
  lemma {:induction false} EventKeepsBooks(b: Books, e: Timed, quota: int, limit: nat)
    requires Balanced(b) && WithinLimit(b.holders, limit) && Guarded(b, e)
    ensures Balanced(Apply(b, e, quota, limit)) && WithinLimit(Apply(b, e, quota, limit).holders, limit)
  {
    match e.event
    case Withdraw(w) => ReleaseKeeps(b, w, limit);
    case Grant(w, owner) => ClaimKeeps(b, w, owner, limit);
    case PassOn(from, entitled, owners, candidates) => HandOverKeeps(b, from, entitled, owners, candidates, limit);
    case Refund(w) =>
      if w in b.holders {
        RefundKeeps(b, w);
      }
    case Recount(w, stored) =>
      if w in b.holders {
        ReconcileKeeps(b, w, stored);
      }
    case _ => BytesKeepBooks(b, e, quota, limit);
  }

  lemma {:induction false} BytesKeepBooks(b: Books, e: Timed, quota: int, limit: nat)
    requires Balanced(b) && Guarded(b, e) && Settled(e.event) && !e.event.Withdraw?
    ensures Balanced(Apply(b, e, quota, limit)) && Apply(b, e, quota, limit).holders == b.holders
  {
    match e.event
    case Reserve(w, size) =>
      if ReserveBytes(b, w, size, quota, e.now).Says? {
        ReserveBytesKeeps(b, w, size, quota, e.now);
      }
    case FinishAssets(w, reserved, delta) =>
      if w in b.holders {
        AccountSplits(b, w);
        FinishKeeps(b, w, reserved, delta);
      }
    case BeginUpload(k) =>
      if BeginFinalize(b, k).Says? {
        BeginFinalizeKeeps(b, k);
      }
    case FinishUpload(k, delta) => SettleKeepsBooks(b, k, delta);
    case Upload(k, user, bytes, expiresAt, count, cap) =>
      if ReserveUpload(b, k, user, bytes, expiresAt, Limits(count, cap, true, quota), e.now).Says? {
        ReserveUploadKeeps(b, k, user, bytes, expiresAt, Limits(count, cap, true, quota), e.now);
      }
    case Expire(w) => ExpireKeeps(b, w, e.now);
  }

  lemma {:induction false} SettleKeepsBooks(b: Books, k: Key, delta: int)
    requires Balanced(b)
    requires k in b.sessions && k.workspace in b.usage && b.sessions[k].finalizing > 0 ==>
        0 <= b.usage[k.workspace].persisted + delta
    ensures Balanced(BooksOf(b, SettleFinalize(b, k, delta)))
  {
    if SettleFinalize(b, k, delta).Says? {
      SettleKeeps(b, k, delta);
      assert k in b.sessions ==> SaneSession(b, k);
    }
  }

  lemma {:induction false} EventKeepsQuota(b: Books, e: Timed, quota: int, limit: nat, o: Owner)
    requires Balanced(b) && Guarded(b, e) && Settled(e.event) && Total(b, o, e.now) <= quota
    ensures Total(Apply(b, e, quota, limit), o, e.now) <= quota
  {
    match e.event
    case Reserve(w, size) =>
      if size > 0 && w in b.holders {
        ReserveBytesTotal(b, w, size, quota, e.now, o);
      }
    case FinishAssets(w, reserved, delta) =>
      if w in b.holders {
        AccountSplits(b, w);
        FinishTotal(b, w, reserved, delta, e.now, o);
      }
    case BeginUpload(k) =>
      if BeginFinalize(b, k).Says? {
        BeginFinalizeTotal(b, k, e.now, o);
        assert SaneSession(b, k);
      }
    case FinishUpload(k, delta) =>
      if SettleFinalize(b, k, delta).Says? {
        SettleTotal(b, k, delta, e.now, o);
        assert k in b.sessions ==> SaneSession(b, k);
      }
    case Upload(k, user, bytes, expiresAt, count, limit) =>
      UploadKeepsQuota(b, k, user, bytes, expiresAt, Limits(count, limit, true, quota), e.now, o);
    case Expire(w) => ExpireKeeps(b, w, e.now);
    case Withdraw(w) => ReleaseTotal(b, w, o, e.now);
  }

  lemma {:induction false} UploadKeepsQuota(
      b: Books, k: Key, user: nat, bytes: nat, expiresAt: int, limits: Limits, now: int, o: Owner)
    requires Balanced(b) && limits.managed && Total(b, o, now) <= limits.quota
    requires k in b.sessions ==> Live(b.sessions[k], now) || b.sessions[k].bytes == 0
    ensures Total(BooksOf(b, ReserveUpload(b, k, user, bytes, expiresAt, limits, now)), o, now) <= limits.quota
  {
    var r := ReserveUpload(b, k, user, bytes, expiresAt, limits, now);
    if r.Says? && r.ok {
      ReserveUploadTotal(b, k, user, bytes, expiresAt, limits, now, o);
    } else if r.Says? {
      RefusedUploadTotal(b, k, user, bytes, expiresAt, limits, now, o);
    }
  }

  ghost function After(b: Books, run: seq<Timed>, quota: int, limit: nat): Books {
    if run == [] then b else Apply(After(b, run[..|run| - 1], quota, limit), run[|run| - 1], quota, limit)
  }

  /** Every transaction of the run keeps to its guard, and the clock never goes back. */
  ghost predicate GuardedRun(b: Books, run: seq<Timed>, quota: int, limit: nat, start: int) {
    run != [] ==>
      && GuardedRun(b, run[..|run| - 1], quota, limit, start)
      && Guarded(After(b, run[..|run| - 1], quota, limit), run[|run| - 1])
      && Clock(run[..|run| - 1], start) <= run[|run| - 1].now
  }

  function Clock(run: seq<Timed>, start: int): int {
    if run == [] then start else run[|run| - 1].now
  }

  /** Over any guarded run of all transactions the books stay balanced, and every account within the limit. */
  lemma {:induction false} RunsStayBalanced(b: Books, run: seq<Timed>, quota: int, limit: nat, start: int)
    requires Balanced(b) && WithinLimit(b.holders, limit) && GuardedRun(b, run, quota, limit, start)
    ensures Balanced(After(b, run, quota, limit)) && WithinLimit(After(b, run, quota, limit).holders, limit)
    decreases |run|
  {
    if run != [] {
      RunsStayBalanced(b, run[..|run| - 1], quota, limit, start);
      EventKeepsBooks(After(b, run[..|run| - 1], quota, limit), run[|run| - 1], quota, limit);
    }
  }

  /** Over any guarded run without new entitlements every account stays within the quota. */
  lemma {:induction false} RunsStayWithinQuota(b: Books, run: seq<Timed>, quota: int, limit: nat, start: int)
    requires Balanced(b) && WithinLimit(b.holders, limit) && WithinQuota(b, quota, start)
    requires GuardedRun(b, run, quota, limit, start) && forall i :: 0 <= i < |run| ==> Settled(run[i].event)
    ensures WithinQuota(After(b, run, quota, limit), quota, Clock(run, start))
    decreases |run|
  {
    if run != [] {
      var front, last := run[..|run| - 1], run[|run| - 1];
      RunsStayWithinQuota(b, front, quota, limit, start);
      RunsStayBalanced(b, front, quota, limit, start);
      var mid := After(b, front, quota, limit);
      forall o: Owner ensures Total(After(b, run, quota, limit), o, last.now) <= quota {
        assert Total(mid, o, Clock(front, start)) <= quota;
        TimePasses(mid, o, Clock(front, start), last.now);
        EventKeepsQuota(mid, last, quota, limit, o);
      }
    }
  }
}
