/** What each transaction leaves in the rows of accounts, workspaces, sessions and entitlements. */
module LedgerRows {
  import opened Options
  import opened SetSums
  import opened Ledger
  import opened LedgerAgreement
  import opened LedgerEntitlements

  /** The one row changes by just these amounts, from nothing if it is new, and no other row changes. */
  ghost predicate Shift(before: map<nat, Usage>, after: map<nat, Usage>, k: nat, persisted: int, reserved: int) {
    && k in after
    && after[k].persisted == (if k in before then before[k].persisted else 0) + persisted
    && after[k].reserved == (if k in before then before[k].reserved else 0) + reserved
    && forall j :: j != k ==> Look(after, j) == Look(before, j)
  }

  /** A claim enters the workspace for the account, which takes over what the workspace uses. */
  lemma {:induction false} ClaimRows(b: Books, w: Workspace, o: Owner, limit: nat)
    requires Balanced(b) && Claim(b, w, o, limit).Says?
    ensures var r := Claim(b, w, o, limit);
      && r.books.sessions == b.sessions
      && o in r.books.accounts
      && Look(r.books.holders, w) == Some(o) && (forall v :: v != w ==> Look(r.books.holders, v) == Look(b.holders, v))
      && (forall v :: v != w || w in b.usage ==> Look(r.books.usage, v) == Look(b.usage, v))
      && (r.ok && w !in b.usage ==> Look(r.books.usage, w) == Some(Usage(0, 0)))
      && (if r.ok then Shift(b.accounts, r.books.accounts, o, At(b.usage, w).persisted, At(b.usage, w).reserved)
          else Shift(b.accounts, r.books.accounts, o, 0, 0))
  {
  }

  /** A release takes the workspace off its account, with exactly what it uses, and leaves its own row. */
  lemma {:induction false} ReleaseRows(b: Books, w: Workspace)
    requires Balanced(b)
    ensures var after := Release(b, w);
      && after.sessions == b.sessions && after.usage == b.usage
      && w !in after.holders && (forall v :: v != w ==> Look(after.holders, v) == Look(b.holders, v))
      && (w !in b.holders ==> after.accounts == b.accounts)
      && (w in b.holders ==>
            Shift(b.accounts, after.accounts, b.holders[w], -b.usage[w].persisted, -b.usage[w].reserved))
  {
    if w in b.holders {
      AccountSplits(b, w);
    }
  }

  /** A refund takes what the workspace uses off its account and its own row, and leaves it entitled. */
  lemma {:induction false} RefundRows(b: Books, w: Workspace)
    requires Balanced(b) && w in b.holders
    ensures var after := RefundUsage(b, w);
      && after.sessions == b.sessions && after.holders == b.holders
      && Shift(b.usage, after.usage, w, -b.usage[w].persisted, -b.usage[w].reserved)
      && Shift(b.accounts, after.accounts, b.holders[w], -b.usage[w].persisted, -b.usage[w].reserved)
  {
    AccountSplits(b, w);
  }

  /** The new account has exactly what the old one loses. */
  lemma {:induction false} MoveHolderRows(b: Books, w: Workspace, from: Owner, to: Owner)
    requires Balanced(b) && w in b.holders && b.holders[w] == from && to != from && to in b.accounts
    ensures var after, u := MoveHolder(b, w, from, to), b.usage[w];
      && after.sessions == b.sessions && after.usage == b.usage
      && Look(after.holders, w) == Some(to) && (forall v :: v != w ==> Look(after.holders, v) == Look(b.holders, v))
      && Look(after.accounts, to) ==
        Some(Usage(b.accounts[to].persisted + u.persisted, b.accounts[to].reserved + u.reserved))
      && Look(after.accounts, from) ==
        Some(Usage(b.accounts[from].persisted - u.persisted, b.accounts[from].reserved - u.reserved))
      && forall o :: o != from && o != to ==> Look(after.accounts, o) == Look(b.accounts, o)
  {
    AccountSplits(b, w);
  }

  /** An accepted reservation of bytes is on the workspace's row and on its account's. */
  lemma {:induction false} ReserveRows(b: Books, w: Workspace, bytes: int, quota: int, now: int)
    requires Balanced(b) && ReserveBytes(b, w, bytes, quota, now).Says?
    ensures var r := ReserveBytes(b, w, bytes, quota, now);
      && r.books.sessions == b.sessions && r.books.holders == b.holders
      && (!r.ok || bytes <= 0 ==> r.books == b)
      && (r.ok && bytes > 0 ==>
            && Shift(b.usage, r.books.usage, w, 0, bytes)
            && Shift(b.accounts, r.books.accounts, b.holders[w], 0, bytes))
  {
  }

  /** A finish within what is reserved and stored moves both rows by exactly what it names. */
  lemma {:induction false} FinishRows(b: Books, w: Workspace, reserved: int, delta: int)
    requires Balanced(b) && w in b.holders
    requires 0 <= reserved <= b.usage[w].reserved && 0 <= b.usage[w].persisted + delta
    ensures var r := FinishReservation(b, w, reserved, delta);
      && r.Says? && r.ok && r.books.sessions == b.sessions && r.books.holders == b.holders
      && Shift(b.usage, r.books.usage, w, delta, -reserved)
      && Shift(b.accounts, r.books.accounts, b.holders[w], delta, -reserved)
  {
    AccountSplits(b, w);
  }

  /** Beyond that each of the two rows stops at zero for itself. */
  lemma {:induction false} FinishStopsAtZero(b: Books, w: Workspace, reserved: int, delta: int)
    requires Balanced(b) && w in b.holders
    ensures var r, u, a := FinishReservation(b, w, reserved, delta), b.usage[w], b.accounts[b.holders[w]];
      && r.Says? && r.ok
      && Look(r.books.usage, w) == Some(Usage(
           if u.persisted + delta < 0 then 0 else u.persisted + delta,
           if u.reserved - reserved < 0 then 0 else u.reserved - reserved))
      && Look(r.books.accounts, b.holders[w]) == Some(Usage(
           if a.persisted + delta < 0 then 0 else a.persisted + delta,
           if a.reserved - reserved < 0 then 0 else a.reserved - reserved))
  {
  }

  ghost predicate OnlySession(before: map<Key, Session>, after: map<Key, Session>, k: Key, s: Session) {
    Look(after, k) == Some(s) && forall j :: j != k ==> Look(after, j) == Look(before, j)
  }

  /** Beginning to finalize turns the session's bytes into a reservation; beginning once more changes nothing. */
  lemma {:induction false} BeginRows(b: Books, k: Key)
    requires Balanced(b)
    ensures BeginFinalize(b, k).Says? <==>
        k.workspace in b.holders && k in b.sessions && (b.sessions[k].finalizing > 0 || b.sessions[k].bytes > 0)
    ensures BeginFinalize(b, k).Says? ==>
              var r, s := BeginFinalize(b, k).books, b.sessions[k];
              && r.holders == b.holders
              && (s.finalizing > 0 ==> r == b)
              && (s.finalizing == 0 ==>
                    && OnlySession(b.sessions, r.sessions, k, Session(s.user, 0, s.bytes, s.expiresAt, s.completed))
                    && Shift(b.usage, r.usage, k.workspace, 0, s.bytes)
                    && Shift(b.accounts, r.accounts, b.holders[k.workspace], 0, s.bytes))
  {
    if k in b.sessions {
      assert SaneSession(b, k);
    }
  }

  /** Settling gives the reservation back and adds what was stored; settling once more changes nothing. */
  lemma {:induction false} SettleRows(b: Books, k: Key, delta: int)
    requires Balanced(b)
    ensures SettleFinalize(b, k, delta).Says? <==> k.workspace in b.holders
    ensures SettleFinalize(b, k, delta).Says? ==>
              var r := SettleFinalize(b, k, delta).books;
              && r.holders == b.holders
              && (k !in b.sessions || b.sessions[k].finalizing == 0 ==> r == b)
              && (k in b.sessions && b.sessions[k].finalizing > 0 ==> Settled(b, r, k, delta))
  {
    if k.workspace in b.holders && k in b.sessions && b.sessions[k].finalizing > 0 {
      SettledRows(b, k, delta);
    }
  }

  ghost predicate Settled(b: Books, r: Books, k: Key, delta: int)
    requires k in b.sessions && k.workspace in b.holders
  {
    var s := b.sessions[k];
    && OnlySession(b.sessions, r.sessions, k, Session(s.user, s.bytes, 0, s.expiresAt, s.completed))
    && Shift(b.usage, r.usage, k.workspace, delta, -s.finalizing)
    && Shift(b.accounts, r.accounts, b.holders[k.workspace], delta, -s.finalizing)
  }

  lemma {:induction false} SettledRows(b: Books, k: Key, delta: int)
    requires Balanced(b) && k.workspace in b.holders && k in b.sessions && b.sessions[k].finalizing > 0
    ensures Settled(b, SettleFinalize(b, k, delta).books, k, delta)
  {
    assert SaneSession(b, k);
    AccountSplits(b, k.workspace);
    SettledAmount(b, k);
    SettledRow(b.usage, k.workspace, b.sessions[k].finalizing, delta);
    SettledRow(b.accounts, b.holders[k.workspace], b.sessions[k].finalizing, delta);
  }

  lemma {:induction false} SettledRow(m: map<nat, Usage>, k: nat, finalizing: int, delta: int)
    requires k in m && 0 <= finalizing <= m[k].reserved
    ensures Shift(m, SettleRow(m, k, finalizing, delta), k, delta, -finalizing)
  {
  }

  /** A recount puts what was counted, and what is being finalized, in the place of what the row said. */
  lemma {:induction false} ReconcileRows(b: Books, w: Workspace, bytes: nat)
    requires Balanced(b) && w in b.holders
    ensures var r, u := Reconcile(b, w, bytes), b.usage[w];
      && r.Says? && r.books.sessions == b.sessions && r.books.holders == b.holders
      && Look(r.books.usage, w) == Some(Usage(bytes, FinalizingBytes(b, w)))
      && (forall v :: v != w ==> Look(r.books.usage, v) == Look(b.usage, v))
      && Shift(b.accounts, r.books.accounts, b.holders[w], bytes - u.persisted, FinalizingBytes(b, w) - u.reserved)
  {
    AccountSplits(b, w);
    FinalizingNotNegative(b, w);
  }

  /** The session is the workspace's, is not completed, has reached its end and finalizes nothing. */
  predicate Over(k: Key, s: Session, w: Workspace, now: int) {
    k.workspace == w && !s.completed && s.expiresAt <= now && s.finalizing == 0
  }

  /** Just the workspace's sessions that are over go; the rest of the books stays. */
  lemma {:induction false} ExpiredSessionsGo(b: Books, w: Workspace, now: int)
    ensures var after := ExpireUploads(b, w, now);
      && after == b.(sessions := after.sessions)
      && (forall k :: k in after.sessions <==> k in b.sessions && !Over(k, b.sessions[k], w, now))
      && (forall k :: k in after.sessions ==> after.sessions[k] == b.sessions[k])
  {
  }

  /** The first owner in line, longest-standing first, who is not the old holder and has room; none only if none has. */
  lemma {:induction false} SuccessorIsFirst(
      holders: map<Workspace, Owner>, planned: seq<Handover>, owners: seq<Owner>, from: Owner, limit: nat)
    ensures var r := Successor(holders, planned, owners, from, limit);
      && (r.None? <==>
            forall i :: 0 <= i < |owners| ==> owners[i] == from || Used(holders, planned, owners[i]) >= limit)
      && (r.Some? ==> exists i ::
            && 0 <= i < |owners| && owners[i] == r.value && r.value != from && Used(holders, planned, r.value) < limit
            && forall j :: 0 <= j < i ==> owners[j] == from || Used(holders, planned, owners[j]) >= limit)
    decreases |owners|
  {
    if owners != [] && !(owners[0] != from && Used(holders, planned, owners[0]) < limit) {
      var rest := owners[1..];
      SuccessorIsFirst(holders, planned, rest, from, limit);
      assert forall i :: 0 < i < |owners| ==> owners[i] == rest[i - 1];
      var r := Successor(holders, planned, rest, from, limit);
      if r.Some? {
        var i :| 0 <= i < |rest| && rest[i] == r.value
          && forall j :: 0 <= j < i ==> rest[j] == from || Used(holders, planned, rest[j]) >= limit;
        assert owners[i + 1] == r.value;
        forall j | 0 <= j < i + 1 ensures owners[j] == from || Used(holders, planned, owners[j]) >= limit {
        }
      }
    }
  }
}
