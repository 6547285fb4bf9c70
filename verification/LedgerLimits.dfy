/** A user's own limits on unfinished uploads: when a reservation is within them, and when it takes the user beyond. */
module LedgerLimits {
  import opened SetSums
  import opened Ledger
  import opened LedgerAgreement
  import opened LedgerEntitlements
  import opened LedgerQuota

  /** The user's uploads in the workspace that hold bytes, are not completed and have not expired. */
  ghost function LiveUploads(sessions: map<Key, Session>, w: Workspace, user: nat, now: int): set<Key> {
    set k | k in sessions && k.workspace == w && sessions[k].user == user
      && !sessions[k].completed && sessions[k].bytes > 0 && sessions[k].expiresAt > now
  }

  /** The same for everyone in the workspaces that one account pays for. */
  ghost function PaidUploads(b: Books, o: Owner, now: int): set<Key> {
    set k | k in b.sessions && k.workspace in b.holders && b.holders[k.workspace] == o
      && !b.sessions[k].completed && b.sessions[k].bytes > 0 && b.sessions[k].expiresAt > now
  }

  ghost function BytesIn(sessions: map<Key, Session>): Key -> int {
    (k: Key) => if k in sessions then sessions[k].bytes else 0
  }

  ghost function BytesOf(sessions: map<Key, Session>, ks: set<Key>): int {
    SumOver(ks, BytesIn(sessions))
  }

  // ---------------------------------------------------------------------------------------------
  // What is counted
  // ---------------------------------------------------------------------------------------------

  lemma {:induction false} SumOfOnes(ks: set<Key>, one: Key -> int)
    requires forall k :: k in ks ==> one(k) == 1
    ensures SumOver(ks, one) == |ks|
    decreases |ks|
  {
    if ks != {} {
      var k :| k in ks;
      SumPick(ks, k, one);
      SumOfOnes(ks - {k}, one);
    }
  }

  lemma {:induction false} UserUploadsCounted(sessions: map<Key, Session>, w: Workspace, user: nat, now: int)
    ensures SumOver(sessions.Keys, Counting(sessions, w, user, now)) == |LiveUploads(sessions, w, user, now)|
    ensures SumOver(sessions.Keys, Weighing(sessions, w, user, now)) ==
              BytesOf(sessions, LiveUploads(sessions, w, user, now))
  {
    var mine := LiveUploads(sessions, w, user, now);
    SumWithin(mine, sessions.Keys, Counting(sessions, w, user, now));
    SumOfOnes(mine, Counting(sessions, w, user, now));
    SumWithin(mine, sessions.Keys, Weighing(sessions, w, user, now));
    SumSame(mine, Weighing(sessions, w, user, now), BytesIn(sessions));
  }

  /** An account's upload bytes are those of the live uploads in its workspaces. */
  lemma {:induction false} PaidUploadsCounted(b: Books, o: Owner, now: int)
    ensures UploadBytes(b, o, now) == BytesOf(b.sessions, PaidUploads(b, o, now))
  {
    var paid := PaidUploads(b, o, now);
    SumWithin(paid, b.sessions.Keys, Uploading(b.sessions, b.holders, o, now));
    SumSame(paid, Uploading(b.sessions, b.holders, o, now), BytesIn(b.sessions));
  }

  // ---------------------------------------------------------------------------------------------
  // When a reservation is accepted
  // ---------------------------------------------------------------------------------------------

  predicate OwnSession(b: Books, k: Key, user: nat) {
    k in b.sessions && b.sessions[k].user == user && !b.sessions[k].completed
  }

  /** The session holds bytes that are not counted any more. */
  predicate Lapsed(s: Session, now: int) {
    s.bytes > 0 && s.expiresAt <= now
  }

  function Extended(sessions: map<Key, Session>, k: Key, bytes: int, expiresAt: int): map<Key, Session>
    requires k in sessions
  {
    sessions[k := sessions[k].(bytes := bytes, expiresAt := expiresAt)]
  }

  lemma {:induction false} BytesKept(before: map<Key, Session>, after: map<Key, Session>, ks: set<Key>)
    requires forall k :: k in ks ==> k in before && k in after && before[k].bytes == after[k].bytes
    ensures BytesOf(before, ks) == BytesOf(after, ks)
  {
    SumSame(ks, BytesIn(before), BytesIn(after));
  }

  /** How an accepted reservation changes the user's live uploads. */
  lemma {:induction false} LiveAfter(
      sessions: map<Key, Session>, k: Key, user: nat, bytes: int, expiresAt: int, now: int)
    requires k in sessions && sessions[k].user == user && !sessions[k].completed && bytes > 0 && expiresAt > now
    ensures var s, next := sessions[k], Extended(sessions, k, bytes, expiresAt);
      var before, after := LiveUploads(sessions, k.workspace, user, now), LiveUploads(next, k.workspace, user, now);
      && |after| == |before| + (if Live(s, now) then 0 else 1)
      && BytesOf(next, after) == BytesOf(sessions, before) + bytes - LiveBytes(s, now)
  {
    var s, next := sessions[k], Extended(sessions, k, bytes, expiresAt);
    var before, after := LiveUploads(sessions, k.workspace, user, now), LiveUploads(next, k.workspace, user, now);
    var others := before - {k};
    assert after == others + {k};
    SumAdd(others, k, BytesIn(next));
    BytesKept(sessions, next, others);
    if Live(s, now) {
      assert before == others + {k};
      SumAdd(others, k, BytesIn(sessions));
    } else {
      assert before == others;
    }
  }

  /** A reservation that holds no bytes, or has expired already, counts no more than the session did. */
  lemma {:induction false} NotLiveAfter(
      sessions: map<Key, Session>, k: Key, user: nat, bytes: int, expiresAt: int, now: int)
    requires k in sessions && sessions[k].user == user && !sessions[k].completed && (bytes <= 0 || expiresAt <= now)
    ensures var s, next := sessions[k], Extended(sessions, k, bytes, expiresAt);
      var before, after := LiveUploads(sessions, k.workspace, user, now), LiveUploads(next, k.workspace, user, now);
      && |after| <= |before| && BytesOf(next, after) == BytesOf(sessions, before) - LiveBytes(s, now)
  {
    var s, next := sessions[k], Extended(sessions, k, bytes, expiresAt);
    var before, after := LiveUploads(sessions, k.workspace, user, now), LiveUploads(next, k.workspace, user, now);
    assert after == before - {k};
    BytesKept(sessions, next, after);
    if Live(s, now) {
      assert before == after + {k};
      SumAdd(after, k, BytesIn(sessions));
    } else {
      assert before == after;
    }
  }

  /** The user's live uploads are within the limits. */
  ghost predicate WithinUser(sessions: map<Key, Session>, w: Workspace, user: nat, limits: Limits, now: int) {
    && |LiveUploads(sessions, w, user, now)| <= limits.count
    && BytesOf(sessions, LiveUploads(sessions, w, user, now)) <= limits.bytes
  }

  /**
   * A reservation by the session's own user is accepted exactly when the user's live uploads, with one more for a
   * session without bytes and this session's bytes replaced, and the account's total stay within the three limits.
   */
  lemma {:induction false} AcceptedIff(
      b: Books, k: Key, user: nat, bytes: int, expiresAt: int, limits: Limits, now: int)
    requires OwnSession(b, k, user) && (limits.managed ==> k.workspace in b.holders)
    ensures var r, s := ReserveUpload(b, k, user, bytes, expiresAt, limits, now), b.sessions[k];
      var live := LiveUploads(b.sessions, k.workspace, user, now);
      && r.Says?
      && (r.ok <==>
            && |live| + (if s.bytes > 0 then 0 else 1) <= limits.count
            && BytesOf(b.sessions, live) - s.bytes + bytes <= limits.bytes
            && (limits.managed ==>
                  var o := b.holders[k.workspace];
                  At(b.accounts, o).persisted + At(b.accounts, o).reserved
                  + BytesOf(b.sessions, PaidUploads(b, o, now)) - s.bytes + bytes <= limits.quota))
  {
    UserUploadsCounted(b.sessions, k.workspace, user, now);
    if limits.managed {
      PaidUploadsCounted(b, b.holders[k.workspace], now);
    }
  }

  /**
   * A session that has not lapsed is accepted exactly when, with its bytes reserved, the user's live uploads and the
   * account's total are within the limits.
   */
  lemma {:induction false} AcceptedIffWithin(
      b: Books, k: Key, user: nat, bytes: int, expiresAt: int, limits: Limits, now: int)
    requires Sane(b) && OwnSession(b, k, user) && (limits.managed ==> k.workspace in b.holders)
    requires bytes > 0 && expiresAt > now && !Lapsed(b.sessions[k], now)
    ensures var next := b.(sessions := Extended(b.sessions, k, bytes, expiresAt));
      ReserveUpload(b, k, user, bytes, expiresAt, limits, now).ok <==>
        && WithinUser(next.sessions, k.workspace, user, limits, now)
        && (limits.managed ==> Total(next, b.holders[k.workspace], now) <= limits.quota)
  {
    assert SaneSession(b, k);
    AcceptedIff(b, k, user, bytes, expiresAt, limits, now);
    LiveAfter(b.sessions, k, user, bytes, expiresAt, now);
    if limits.managed {
      PaidUploadsCounted(b, b.holders[k.workspace], now);
      UploadChange(b, k, b.sessions[k].(bytes := bytes, expiresAt := expiresAt), b.holders[k.workspace], now);
    }
  }

  /** After an accepted reservation the user is within both limits, unless the session had lapsed. */
  lemma {:induction false} AcceptedStaysWithin(
      b: Books, k: Key, user: nat, bytes: nat, expiresAt: int, limits: Limits, now: int)
    requires Sane(b) && OwnSession(b, k, user) && !Lapsed(b.sessions[k], now)
    requires ReserveUpload(b, k, user, bytes, expiresAt, limits, now).Says?
    requires ReserveUpload(b, k, user, bytes, expiresAt, limits, now).ok
    ensures WithinUser(
              ReserveUpload(b, k, user, bytes, expiresAt, limits, now).books.sessions, k.workspace, user, limits, now)
  {
    assert SaneSession(b, k);
    AcceptedIff(b, k, user, bytes, expiresAt, limits, now);
    if bytes > 0 && expiresAt > now {
      LiveAfter(b.sessions, k, user, bytes, expiresAt, now);
    } else {
      NotLiveAfter(b.sessions, k, user, bytes, expiresAt, now);
    }
  }

  ghost predicate NeverBeyond(b: Books, k: Key, user: nat, bytes: int, expiresAt: int, limits: Limits, now: int) {
    var r := ReserveUpload(b, k, user, bytes, expiresAt, limits, now);
    r.Says? && r.ok ==> WithinUser(r.books.sessions, k.workspace, user, limits, now)
  }

  /** Whatever the limits, an accepted reservation stays within them exactly when the session has not lapsed. */
  lemma {:induction false} UserLimitsSafeIff(
      b: Books, k: Key, user: nat, bytes: nat, expiresAt: int, now: int)
    requires Sane(b) && OwnSession(b, k, user) && bytes > 0 && expiresAt > now
    ensures (forall limits :: NeverBeyond(b, k, user, bytes, expiresAt, limits, now)) <==> !Lapsed(b.sessions[k], now)
  {
    if Lapsed(b.sessions[k], now) {
      var live := LiveUploads(b.sessions, k.workspace, user, now);
      var tight := Limits(|live|, BytesOf(b.sessions, live) - b.sessions[k].bytes + bytes, false, 0);
      AcceptedIff(b, k, user, bytes, expiresAt, tight, now);
      LiveAfter(b.sessions, k, user, bytes, expiresAt, now);
      assert !NeverBeyond(b, k, user, bytes, expiresAt, tight, now);
    } else {
      forall limits ensures NeverBeyond(b, k, user, bytes, expiresAt, limits, now) {
        var r := ReserveUpload(b, k, user, bytes, expiresAt, limits, now);
        if r.Says? && r.ok {
          AcceptedStaysWithin(b, k, user, bytes, expiresAt, limits, now);
        }
      }
    }
  }

  /**
   * What a reservation leaves behind: accepted, the session with its bytes and its new end; refused for a limit, all
   * as it was, but for a session without bytes, which goes. Someone else's session, or a completed one, is left alone.
   */
  lemma {:induction false} ReservedSessions(
      b: Books, k: Key, user: nat, bytes: int, expiresAt: int, limits: Limits, now: int)
    ensures var r := ReserveUpload(b, k, user, bytes, expiresAt, limits, now);
      && (r.Throws? <==> OwnSession(b, k, user) && limits.managed && k.workspace !in b.holders)
      && (r.Says? ==> r.books == b.(sessions := r.books.sessions) && SessionsReserved(
            b.sessions, r.books.sessions, k, bytes, expiresAt, OwnSession(b, k, user), r.ok))
  {
  }

  ghost predicate SessionsReserved(
      before: map<Key, Session>, after: map<Key, Session>, k: Key, bytes: int, expiresAt: int, own: bool, ok: bool)
  {
    && (forall j :: j != k ==> (j in after <==> j in before) && (j in before ==> after[j] == before[j]))
    && (!own ==> !ok && after == before)
    && (own ==> k in before)
    && (own && !ok ==> if before[k].bytes == 0 then k !in after else after == before)
    && (ok ==>
          var s := before[k];
          k in after && after[k] == Session(s.user, bytes, s.finalizing, expiresAt, s.completed))
  }
}
