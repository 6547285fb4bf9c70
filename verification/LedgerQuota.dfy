/**
 * What counts against an account's quota: how every transaction changes it, and that no guarded run exceeds the quota.
 */
module LedgerQuota {
  import opened SetSums
  import opened Ledger
  import opened LedgerAgreement
  import opened LedgerEntitlements

  function LiveBytes(s: Session, now: int): int {
    if Live(s, now) then s.bytes else 0
  }

  lemma {:induction false} UploadChange(b: Books, k: Key, s: Session, o: Owner, now: int)
    requires k in b.sessions
    ensures UploadBytes(b.(sessions := b.sessions[k := s]), o, now) ==
              UploadBytes(b, o, now) + if k.workspace in b.holders
                && b.holders[k.workspace] == o then LiveBytes(s, now) - LiveBytes(b.sessions[k], now) else 0
  {
    assert b.sessions[k := s].Keys == b.sessions.Keys;
    SumChange(b.sessions.Keys, k, Uploading(b.sessions, b.holders, o, now),
      Uploading(b.sessions[k := s], b.holders, o, now));
  }

  // ---------------------------------------------------------------------------------------------
  // One transaction
  // ---------------------------------------------------------------------------------------------

  /** An accepted reservation fits the quota and is all that changes. */
  lemma {:induction false} ReserveBytesTotal(b: Books, w: Workspace, bytes: int, quota: int, now: int, o: Owner)
    requires Balanced(b) && bytes > 0 && w in b.holders
    ensures var r := ReserveBytes(b, w, bytes, quota, now);
      && r.Says? && (r.ok <==> Total(b, b.holders[w], now) + bytes <= quota)
      && Total(r.books, o, now) == Total(b, o, now) + (if r.ok && o == b.holders[w] then bytes else 0)
      && (r.ok ==> Total(r.books, b.holders[w], now) <= quota)
  {
    var r := ReserveBytes(b, w, bytes, quota, now);
    assert b.holders[w] in b.accounts;
  }

  /** What is given back and what is stored change the total by their difference. */
  lemma {:induction false} FinishTotal(b: Books, w: Workspace, reserved: int, delta: int, now: int, o: Owner)
    requires Balanced(b) && w in b.holders
    requires reserved + FinalizingBytes(b, w) <= b.usage[w].reserved && 0 <= b.usage[w].persisted + delta
    ensures Total(FinishReservation(b, w, reserved, delta).books, o, now) ==
              Total(b, o, now) + if o == b.holders[w] then delta - reserved else 0
  {
    AccountSplits(b, w);
    FinalizingNotNegative(b, w);
  }

  /** Beginning to finalize conserves the total exactly unless the session had expired and so did not count. */
  lemma {:induction false} BeginFinalizeTotal(b: Books, k: Key, now: int, o: Owner)
    requires Balanced(b) && BeginFinalize(b, k).Says?
    ensures Total(BeginFinalize(b, k).books, o, now) ==
              Total(b, o, now)
              + if o == b.holders[k.workspace] && b.sessions[k].finalizing == 0
                && !Live(b.sessions[k], now) then b.sessions[k].bytes else 0
  {
    assert SaneSession(b, k);
    if b.sessions[k].finalizing == 0 {
      AccountSplits(b, k.workspace);
      var after := BeginFinalize(b, k).books;
      var next := after.sessions[k];
      UploadChange(b, k, next, o, now);
    }
  }

  lemma {:induction false} SettleTotal(b: Books, k: Key, delta: int, now: int, o: Owner)
    requires Balanced(b) && SettleFinalize(b, k, delta).Says?
    ensures Total(SettleFinalize(b, k, delta).books, o, now) ==
              Total(b, o, now) + if k in b.sessions && b.sessions[k].finalizing > 0
                && o == b.holders[k.workspace] then delta - b.sessions[k].finalizing else 0
  {
    if k in b.sessions && b.sessions[k].finalizing != 0 {
      assert SaneSession(b, k);
      AccountSplits(b, k.workspace);
      SettledAmount(b, k);
      var after := SettleFinalize(b, k, delta).books;
      var next := after.sessions[k];
      UploadChange(b, k, next, o, now);
    }
  }

  /** An upload's bytes replace the session's own. */
  lemma {:induction false} ReserveUploadTotal(
      b: Books, k: Key, user: nat, bytes: int, expiresAt: int, limits: Limits, now: int, o: Owner)
    requires ReserveUpload(b, k, user, bytes, expiresAt, limits, now).Says?
    requires ReserveUpload(b, k, user, bytes, expiresAt, limits, now).ok
    ensures Total(ReserveUpload(b, k, user, bytes, expiresAt, limits, now).books, o, now) ==
              Total(b, o, now)
              + if k.workspace in b.holders && o == b.holders[k.workspace]
                then (if bytes > 0 && expiresAt > now then bytes else 0) - LiveBytes(b.sessions[k], now) else 0
  {
    UploadChange(b, k, b.sessions[k].(bytes := bytes, expiresAt := expiresAt), o, now);
  }

  ghost predicate FitsUser(b: Books, k: Key, user: nat, bytes: int, limits: Limits, now: int)
    requires k in b.sessions
  {
    UploadFits(b, k, user, bytes, limits.(managed := false), now)
  }

  /**
   * An accepted upload never takes the account over its quota, whatever the quota, exactly when its session is still
   * live or holds no bytes: the bytes of an expired session are not counted, and are subtracted all the same.
   */
  lemma {:induction false} ReserveUploadSafeIff(
      b: Books, k: Key, user: nat, bytes: int, expiresAt: int, limits: Limits, now: int)
    requires Sane(b) && k in b.sessions && k.workspace in b.holders && b.sessions[k].user == user
    requires !b.sessions[k].completed
    requires bytes > 0 && expiresAt > now && FitsUser(b, k, user, bytes, limits, now)
    ensures (forall quota ::
          NeverOver(b, k, user, bytes, expiresAt, limits.(managed := true, quota := quota), now)) <==>
              Live(b.sessions[k], now) || b.sessions[k].bytes == 0
  {
    var o, s := b.holders[k.workspace], b.sessions[k];
    assert SaneSession(b, k);
    var tight := limits.(managed := true, quota := Total(b, o, now) - s.bytes + bytes);
    assert UploadFits(b, k, user, bytes, tight, now);
    ReserveUploadTotal(b, k, user, bytes, expiresAt, tight, now, o);
    assert NeverOver(b, k, user, bytes, expiresAt, tight, now) <==> Live(s, now) || s.bytes == 0;
    if Live(s, now) || s.bytes == 0 {
      forall quota ensures NeverOver(b, k, user, bytes, expiresAt, limits.(managed := true, quota := quota), now) {
        var any := limits.(managed := true, quota := quota);
        if UploadFits(b, k, user, bytes, any, now) {
          ReserveUploadTotal(b, k, user, bytes, expiresAt, any, now, o);
        }
      }
    } else {
      assert tight == limits.(managed := true, quota := tight.quota);
    }
  }

  ghost predicate NeverOver(b: Books, k: Key, user: nat, bytes: int, expiresAt: int, limits: Limits, now: int)
    requires k.workspace in b.holders
  {
    var r := ReserveUpload(b, k, user, bytes, expiresAt, limits, now);
    r.Says? && r.ok ==> Total(r.books, b.holders[k.workspace], now) <= limits.quota
  }

  lemma {:induction false} DroppedSessions(b: Books, keep: map<Key, Session>, o: Owner, now: int)
    requires keep.Keys <= b.sessions.Keys && forall k :: k in keep ==> keep[k] == b.sessions[k]
    requires forall k :: k in b.sessions && k !in keep ==> !Live(b.sessions[k], now)
    ensures UploadBytes(b.(sessions := keep), o, now) == UploadBytes(b, o, now)
  {
    SumSame(keep.Keys, Uploading(keep, b.holders, o, now), Uploading(b.sessions, b.holders, o, now));
    SumWithin(keep.Keys, b.sessions.Keys, Uploading(b.sessions, b.holders, o, now));
  }

  /** Expired sessions count neither against a quota nor towards a reservation, so dropping them changes neither. */
  lemma {:induction false} ExpireKeeps(b: Books, w: Workspace, now: int)
    requires Balanced(b)
    ensures Balanced(ExpireUploads(b, w, now))
    ensures forall o :: Total(ExpireUploads(b, w, now), o, now) == Total(b, o, now)
  {
    var after := ExpireUploads(b, w, now);
    AgreesWithoutSessions(b, after.sessions);
    forall v | v in after.usage ensures FinalizingBytes(after, v) <= after.usage[v].reserved {
      SumSame(after.sessions.Keys, Finalizing(after.sessions, v), Finalizing(b.sessions, v));
      SumWithin(after.sessions.Keys, b.sessions.Keys, Finalizing(b.sessions, v));
    }
    forall k | k in after.sessions ensures SaneSession(after, k) {
      assert SaneSession(b, k);
    }
    forall o ensures Total(after, o, now) == Total(b, o, now) {
      DroppedSessions(b, after.sessions, o, now);
    }
  }

  lemma {:induction false} ReserveUploadKeeps(
      b: Books, k: Key, user: nat, bytes: nat, expiresAt: int, limits: Limits, now: int)
    requires Balanced(b) && ReserveUpload(b, k, user, bytes, expiresAt, limits, now).Says?
    ensures Balanced(ReserveUpload(b, k, user, bytes, expiresAt, limits, now).books)
  {
    var r := ReserveUpload(b, k, user, bytes, expiresAt, limits, now);
    var after := r.books;
    AgreesWithoutSessions(b, after.sessions);
    forall j | j in after.sessions ensures SaneSession(after, j) {
      assert SaneSession(b, j);
    }
    forall v | v in after.usage ensures FinalizingBytes(after, v) <= after.usage[v].reserved {
      if r.ok {
        FinalizingChange(b, k, after.sessions[k], v);
      } else if k !in after.sessions && k in b.sessions {
        assert SaneSession(b, k);
        assert after.sessions.Keys == b.sessions.Keys - {k};
        SumPick(b.sessions.Keys, k, Finalizing(b.sessions, v));
        SumSame(after.sessions.Keys, Finalizing(after.sessions, v), Finalizing(b.sessions, v));
      }
    }
  }

  /** A refused upload whose session is dropped held no bytes. */
  lemma {:induction false} RefusedUploadTotal(
      b: Books, k: Key, user: nat, bytes: nat, expiresAt: int, limits: Limits, now: int, o: Owner)
    requires Balanced(b)
    requires ReserveUpload(b, k, user, bytes, expiresAt, limits, now).Says?
    requires !ReserveUpload(b, k, user, bytes, expiresAt, limits, now).ok
    ensures Total(ReserveUpload(b, k, user, bytes, expiresAt, limits, now).books, o, now) == Total(b, o, now)
  {
    var after := ReserveUpload(b, k, user, bytes, expiresAt, limits, now).books;
    DroppedSessions(b, after.sessions, o, now);
  }

  /** As time passes sessions only expire. */
  lemma {:induction false} TimePasses(b: Books, o: Owner, now: int, later: int)
    requires Sane(b) && now <= later
    ensures Total(b, o, later) <= Total(b, o, now)
  {
    forall k | k in b.sessions
      ensures Uploading(b.sessions, b.holders, o, later)(k) <= Uploading(b.sessions, b.holders, o, now)(k)
    {
      assert SaneSession(b, k);
    }
    SumAtMost(b.sessions.Keys, Uploading(b.sessions, b.holders, o, later), Uploading(b.sessions, b.holders, o, now));
  }

  lemma {:induction false} ReleaseTotal(b: Books, w: Workspace, o: Owner, now: int)
    requires Balanced(b)
    ensures Total(Release(b, w), o, now) <= Total(b, o, now)
  {
    if w in b.holders {
      AccountSplits(b, w);
      ReleaseAgrees(b, w);
      var after := Release(b, w);
      forall k | k in b.sessions
        ensures Uploading(after.sessions, after.holders, o, now)(k) <= Uploading(b.sessions, b.holders, o, now)(k)
      {
        assert SaneSession(b, k);
      }
      SumAtMost(b.sessions.Keys, Uploading(after.sessions, after.holders, o, now),
        Uploading(b.sessions, b.holders, o, now));
    }
  }
}
