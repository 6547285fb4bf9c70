/** Accounts and workspaces stay in step: what every transaction on the ledger keeps, and exactly when a finish does. */
module LedgerAgreement {
  import opened SetSums
  import opened Ledger

  ghost function OthersPersisted(b: Books, w: Workspace): int
    requires w in b.holders
  {
    SumOver(Held(b.holders, b.holders[w]) - {w}, Persisted(b.usage))
  }

  ghost function OthersReserved(b: Books, w: Workspace): int
    requires w in b.holders
  {
    SumOver(Held(b.holders, b.holders[w]) - {w}, Reserved(b.usage))
  }

  /** An account holds a workspace's usage and that of the other workspaces entitled to it. */
  lemma {:induction false} AccountSplits(b: Books, w: Workspace)
    requires Sane(b) && Agrees(b) && w in b.holders
    ensures w in b.usage && b.holders[w] in b.accounts
    ensures b.accounts[b.holders[w]].persisted == b.usage[w].persisted + OthersPersisted(b, w)
    ensures b.accounts[b.holders[w]].reserved == b.usage[w].reserved + OthersReserved(b, w)
    ensures 0 <= OthersPersisted(b, w) && 0 <= OthersReserved(b, w)
  {
    var o := b.holders[w];
    var held := Held(b.holders, o);
    assert AccountAgrees(b, o);
    SumPick(held, w, Persisted(b.usage));
    SumPick(held, w, Reserved(b.usage));
    SumNotNegative(held - {w}, Persisted(b.usage));
    SumNotNegative(held - {w}, Reserved(b.usage));
  }

  function Rewritten(b: Books, w: Workspace, usage: Usage, account: Usage): Books
    requires w in b.holders
  {
    b.(usage := b.usage[w := usage], accounts := b.accounts[b.holders[w] := account])
  }

  lemma {:induction false} OtherAccountsAgree(b: Books, w: Workspace, usage: Usage, account: Usage, o: Owner)
    requires w in b.holders && b.holders[w] != o && AccountAgrees(b, o)
    ensures AccountAgrees(Rewritten(b, w, usage, account), o)
  {
    var after := Rewritten(b, w, usage, account);
    SumSame(Held(b.holders, o), Persisted(b.usage), Persisted(after.usage));
    SumSame(Held(b.holders, o), Reserved(b.usage), Reserved(after.usage));
  }

  /**
   * Rewriting a workspace's row and its account's row keeps them in step exactly when both change by the same amounts.
   */
  lemma {:induction false} AgreesIffSameChange(b: Books, w: Workspace, usage: Usage, account: Usage)
    requires Sane(b) && Agrees(b) && w in b.holders
    ensures b.holders[w] in b.accounts && w in b.usage
    ensures Agrees(Rewritten(b, w, usage, account)) <==>
              && account.persisted - b.accounts[b.holders[w]].persisted == usage.persisted - b.usage[w].persisted
              && account.reserved - b.accounts[b.holders[w]].reserved == usage.reserved - b.usage[w].reserved
  {
    var o, after := b.holders[w], Rewritten(b, w, usage, account);
    assert AccountAgrees(b, o);
    SumChange(Held(b.holders, o), w, Persisted(b.usage), Persisted(after.usage));
    SumChange(Held(b.holders, o), w, Reserved(b.usage), Reserved(after.usage));
    forall x: Owner | x != o ensures AccountAgrees(after, x) {
      OtherAccountsAgree(b, w, usage, account, x);
    }
    assert Agrees(after) <==> AccountAgrees(after, o);
  }

  /** Same sessions, so the same bytes are being finalized. */
  lemma {:induction false} CoversIff(b: Books, w: Workspace, usage: Usage, account: Usage)
    requires Sane(b) && Covers(b) && w in b.holders
    ensures Covers(Rewritten(b, w, usage, account)) <==> FinalizingBytes(b, w) <= usage.reserved
  {
    var after := Rewritten(b, w, usage, account);
    assert forall v :: FinalizingBytes(after, v) == FinalizingBytes(b, v);
    assert w in after.usage;
  }

  // ---------------------------------------------------------------------------------------------
  // Finishing a reservation
  // ---------------------------------------------------------------------------------------------

  /**
   * Both rows stay in step exactly when neither saturates alone: the finish gives back no more than the workspace
   * has reserved and takes away no more than it has stored, or the account has nothing from other workspaces.
   */
  lemma {:induction false} FinishAgreesIff(b: Books, w: Workspace, reserved: int, delta: int)
    requires Balanced(b) && w in b.holders
    ensures Agrees(FinishReservation(b, w, reserved, delta).books) <==>
              && (reserved <= b.usage[w].reserved || OthersReserved(b, w) == 0)
              && (0 <= b.usage[w].persisted + delta || OthersPersisted(b, w) == 0)
  {
    AccountSplits(b, w);
    var u, a := b.usage[w], b.accounts[b.holders[w]];
    AgreesIffSameChange(b, w,
      Usage(Raise(u.persisted, delta), Lower(u.reserved, reserved)),
        Usage(Raise(a.persisted, delta), Lower(a.reserved, reserved)));
  }

  /** The reservation still covers what is being finalized exactly when the finish leaves that much, or nothing is. */
  lemma {:induction false} FinishCoversIff(b: Books, w: Workspace, reserved: int, delta: int)
    requires Balanced(b) && w in b.holders
    ensures Covers(FinishReservation(b, w, reserved, delta).books) <==>
              reserved + FinalizingBytes(b, w) <= b.usage[w].reserved || FinalizingBytes(b, w) == 0
  {
    AccountSplits(b, w);
    FinalizingNotNegative(b, w);
    var u, a := b.usage[w], b.accounts[b.holders[w]];
    CoversIff(b, w,
      Usage(Raise(u.persisted, delta), Lower(u.reserved, reserved)),
        Usage(Raise(a.persisted, delta), Lower(a.reserved, reserved)));
  }

  lemma {:induction false} FinalizingNotNegative(b: Books, w: Workspace)
    requires Sane(b)
    ensures 0 <= FinalizingBytes(b, w)
  {
    forall j | j in b.sessions ensures 0 <= Finalizing(b.sessions, w)(j) {
      assert SaneSession(b, j);
    }
    SumNotNegative(b.sessions.Keys, Finalizing(b.sessions, w));
  }

  /**
   * A finish that returns no more than is reserved beyond the uploads, and removes no more than is stored, keeps the
   * books.
   */
  lemma {:induction false} FinishKeeps(b: Books, w: Workspace, reserved: int, delta: int)
    requires Balanced(b) && w in b.holders
    requires reserved + FinalizingBytes(b, w) <= b.usage[w].reserved && 0 <= b.usage[w].persisted + delta
    ensures Balanced(FinishReservation(b, w, reserved, delta).books)
  {
    FinishAgreesIff(b, w, reserved, delta);
    FinishCoversIff(b, w, reserved, delta);
    FinalizingNotNegative(b, w);
  }

  // ---------------------------------------------------------------------------------------------
  // The other reservations
  // ---------------------------------------------------------------------------------------------

  lemma {:induction false} ReserveBytesKeeps(b: Books, w: Workspace, bytes: int, quota: int, now: int)
    requires Balanced(b) && ReserveBytes(b, w, bytes, quota, now).Says?
    ensures Balanced(ReserveBytes(b, w, bytes, quota, now).books)
  {
    var r := ReserveBytes(b, w, bytes, quota, now);
    if bytes > 0 && r.ok {
      AccountSplits(b, w);
      var u, a := b.usage[w], b.accounts[b.holders[w]];
      var usage, account := Usage(u.persisted, u.reserved + bytes), Usage(a.persisted, a.reserved + bytes);
      assert r.books == Rewritten(b, w, usage, account);
      AgreesIffSameChange(b, w, usage, account);
      CoversIff(b, w, usage, account);
    }
  }

  lemma {:induction false} FinalizingChange(b: Books, k: Key, s: Session, w: Workspace)
    requires k in b.sessions
    ensures SumOver(b.sessions[k := s].Keys, Finalizing(b.sessions[k := s], w)) ==
              FinalizingBytes(b, w) + if w == k.workspace then s.finalizing - b.sessions[k].finalizing else 0
  {
    assert b.sessions[k := s].Keys == b.sessions.Keys;
    SumChange(b.sessions.Keys, k, Finalizing(b.sessions, w), Finalizing(b.sessions[k := s], w));
  }

  /** Replacing a session together with both rows. */
  lemma {:induction false} SessionCoversIff(b: Books, k: Key, s: Session, usage: Usage, account: Usage)
    requires Sane(b) && Covers(b) && k in b.sessions && k.workspace in b.holders
    ensures Covers(Rewritten(b, k.workspace, usage, account).(sessions := b.sessions[k := s])) <==>
              FinalizingBytes(b, k.workspace) - b.sessions[k].finalizing + s.finalizing <= usage.reserved
  {
    var after := Rewritten(b, k.workspace, usage, account).(sessions := b.sessions[k := s]);
    forall w
      ensures FinalizingBytes(after, w) ==
                FinalizingBytes(b, w) + if w == k.workspace then s.finalizing - b.sessions[k].finalizing else 0
    {
      FinalizingChange(b, k, s, w);
    }
    assert k.workspace in after.usage;
  }

  /** Agreement does not look at the sessions. */
  lemma {:induction false} AgreesWithoutSessions(b: Books, sessions: map<Key, Session>)
    ensures Agrees(b.(sessions := sessions)) <==> Agrees(b)
  {
    forall o: Owner ensures AccountAgrees(b.(sessions := sessions), o) <==> AccountAgrees(b, o) {}
  }

  lemma {:induction false} SettledAmount(b: Books, k: Key)
    requires Balanced(b) && k in b.sessions && k.workspace in b.holders
    ensures k.workspace in b.usage
    ensures b.sessions[k].finalizing <= FinalizingBytes(b, k.workspace) <= b.usage[k.workspace].reserved
  {
    var f := Finalizing(b.sessions, k.workspace);
    assert SaneSession(b, k);
    forall j | j in b.sessions ensures 0 <= f(j) {
      assert SaneSession(b, j);
    }
    SumPick(b.sessions.Keys, k, f);
    SumNotNegative(b.sessions.Keys - {k}, f);
  }

  /** A session's finalizing bytes and both rows' reservations change by the same amount. */
  function Shifted(b: Books, k: Key, next: Session, stored: int): Books
    requires k in b.sessions && k.workspace in b.holders && k.workspace in b.usage
    requires b.holders[k.workspace] in b.accounts
  {
    var u, a, change := b.usage[k.workspace], b.accounts[b.holders[k.workspace]],
      next.finalizing - b.sessions[k].finalizing;
    Rewritten(b, k.workspace, Usage(u.persisted + stored, u.reserved + change),
      Usage(a.persisted + stored, a.reserved + change))
      .(sessions := b.sessions[k := next])
  }

  lemma {:induction false} ShiftKeeps(b: Books, k: Key, next: Session, stored: int)
    requires Balanced(b) && k in b.sessions && k.workspace in b.holders
    ensures Agrees(Shifted(b, k, next, stored)) && Covers(Shifted(b, k, next, stored))
  {
    ShiftAgrees(b, k, next, stored);
    ShiftCovers(b, k, next, stored);
  }

  lemma {:induction false} ShiftAgrees(b: Books, k: Key, next: Session, stored: int)
    requires Sane(b) && Agrees(b) && k in b.sessions && k.workspace in b.holders
    ensures Agrees(Shifted(b, k, next, stored))
  {
    var u, a, change := b.usage[k.workspace], b.accounts[b.holders[k.workspace]],
      next.finalizing - b.sessions[k].finalizing;
    var usage, account := Usage(u.persisted + stored, u.reserved + change),
      Usage(a.persisted + stored, a.reserved + change);
    AgreesIffSameChange(b, k.workspace, usage, account);
    AgreesWithoutSessions(Rewritten(b, k.workspace, usage, account), b.sessions[k := next]);
  }

  lemma {:induction false} ShiftCovers(b: Books, k: Key, next: Session, stored: int)
    requires Sane(b) && Covers(b) && k in b.sessions && k.workspace in b.holders
    ensures Covers(Shifted(b, k, next, stored))
  {
    var u, a, change := b.usage[k.workspace], b.accounts[b.holders[k.workspace]],
      next.finalizing - b.sessions[k].finalizing;
    var usage, account := Usage(u.persisted + stored, u.reserved + change),
      Usage(a.persisted + stored, a.reserved + change);
    SessionCoversIff(b, k, next, usage, account);
  }

  lemma {:induction false} ShiftSane(b: Books, k: Key, next: Session, stored: int)
    requires Balanced(b) && k in b.sessions && k.workspace in b.holders
    requires 0 <= next.bytes && 0 <= next.finalizing
    ensures Sane(Shifted(b, k, next, stored)) <==> 0 <= b.usage[k.workspace].persisted + stored
  {
    SettledAmount(b, k);
    var after, w := Shifted(b, k, next, stored), k.workspace;
    assert after.usage[w].persisted == b.usage[w].persisted + stored;
    assert NotNegative(after.usage[w]) <==> 0 <= b.usage[w].persisted + stored;
  }

  /** Beginning to finalize keeps the books. */
  lemma {:induction false} BeginFinalizeKeeps(b: Books, k: Key)
    requires Balanced(b) && BeginFinalize(b, k).Says?
    ensures Balanced(BeginFinalize(b, k).books)
  {
    if b.sessions[k].finalizing <= 0 {
      var s := b.sessions[k];
      var next := s.(bytes := 0, finalizing := s.bytes);
      AccountSplits(b, k.workspace);
      assert BeginFinalize(b, k).books == Shifted(b, k, next, 0);
      ShiftKeeps(b, k, next, 0);
      ShiftSane(b, k, next, 0);
    }
  }

  lemma {:induction false} SettleIsShift(b: Books, k: Key, delta: int)
    requires Balanced(b) && k in b.sessions && k.workspace in b.holders && b.sessions[k].finalizing != 0
    ensures k.workspace in b.usage && b.holders[k.workspace] in b.accounts
    ensures SettleFinalize(b, k, delta) == Says(true, Shifted(b, k, b.sessions[k].(finalizing := 0), delta))
  {
    AccountSplits(b, k.workspace);
    SettledAmount(b, k);
    var w, f := k.workspace, b.sessions[k].finalizing;
    SettleIsRewrite(b.usage, w, f, delta);
    SettleIsRewrite(b.accounts, b.holders[w], f, delta);
    var next := b.sessions[k].(finalizing := 0);
    assert Shifted(b, k, next, delta).usage == SettleRow(b.usage, w, f, delta);
    assert Shifted(b, k, next, delta).accounts == SettleRow(b.accounts, b.holders[w], f, delta);
  }

  /** Nothing saturates when that much is reserved. */
  lemma {:induction false} SettleIsRewrite(m: map<nat, Usage>, k: nat, finalizing: int, delta: int)
    requires k in m && finalizing <= m[k].reserved
    ensures SettleRow(m, k, finalizing, delta) == m[k := Usage(m[k].persisted + delta, m[k].reserved - finalizing)]
  {
  }

  /** Settling keeps account and workspace in step; it keeps the books unless it takes away more than is stored. */
  lemma {:induction false} SettleKeeps(b: Books, k: Key, delta: int)
    requires Balanced(b) && SettleFinalize(b, k, delta).Says?
    ensures Agrees(SettleFinalize(b, k, delta).books) && Covers(SettleFinalize(b, k, delta).books)
    ensures Sane(SettleFinalize(b, k, delta).books) <==>
              k !in b.sessions || b.sessions[k].finalizing == 0 || 0 <= b.usage[k.workspace].persisted + delta
  {
    if k in b.sessions && b.sessions[k].finalizing != 0 {
      var next := b.sessions[k].(finalizing := 0);
      SettleIsShift(b, k, delta);
      ShiftKeeps(b, k, next, delta);
      ShiftSane(b, k, next, delta);
    }
  }

  /** Counting the store afresh keeps the books, and leaves just what is being finalized reserved. */
  lemma {:induction false} ReconcileKeeps(b: Books, w: Workspace, bytes: nat)
    requires Balanced(b) && w in b.holders
    ensures Balanced(Reconcile(b, w, bytes).books)
    ensures Reconcile(b, w, bytes).books.usage[w] == Usage(bytes, FinalizingBytes(b, w))
  {
    AccountSplits(b, w);
    FinalizingNotNegative(b, w);
    var u, a, f := b.usage[w], b.accounts[b.holders[w]], FinalizingBytes(b, w);
    var account := Usage(Raise(a.persisted, bytes - u.persisted), Raise(a.reserved, f - u.reserved));
    AgreesIffSameChange(b, w, Usage(bytes, f), account);
    CoversIff(b, w, Usage(bytes, f), account);
    assert Reconcile(b, w, bytes).books == Rewritten(b, w, Usage(bytes, f), account);
  }
}
