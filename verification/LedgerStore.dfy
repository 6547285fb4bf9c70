/** The ledger's tables, updated in place, one transaction at a time; a transaction that throws changes nothing. */
module LedgerStore {
  import opened Options
  import opened SetSums
  import opened Ledger
  import opened LedgerAgreement
  import opened LedgerEntitlements
  import opened LedgerQuota
  import opened LedgerLimits
  import opened LedgerRuns

  /** The live upload bytes of the workspaces entitled to the account. */
  method SumUploads(
      sessions: map<Key, Session>, holders: map<Workspace, Owner>, o: Owner, now: int) returns (bytes: int)
    ensures bytes == SumOver(sessions.Keys, Uploading(sessions, holders, o, now))
  {
    bytes := 0;
    var rest := sessions.Keys;
    ghost var weight := Uploading(sessions, holders, o, now);
    while rest != {}
      invariant rest <= sessions.Keys && bytes + SumOver(rest, weight) == SumOver(sessions.Keys, weight)
      decreases |rest|
    {
      var k :| k in rest;
      SumPick(rest, k, weight);
      if k.workspace in holders && holders[k.workspace] == o && Live(sessions[k], now) {
        bytes := bytes + sessions[k].bytes;
      }
      rest := rest - {k};
    }
  }

  method SumFinalizing(sessions: map<Key, Session>, w: Workspace) returns (bytes: int)
    ensures bytes == SumOver(sessions.Keys, Finalizing(sessions, w))
  {
    bytes := 0;
    var rest := sessions.Keys;
    ghost var weight := Finalizing(sessions, w);
    while rest != {}
      invariant rest <= sessions.Keys && bytes + SumOver(rest, weight) == SumOver(sessions.Keys, weight)
      decreases |rest|
    {
      var k :| k in rest;
      SumPick(rest, k, weight);
      if k.workspace == w {
        bytes := bytes + sessions[k].finalizing;
      }
      rest := rest - {k};
    }
  }

  /** One user's live uploads in one workspace. */
  method SumUser(sessions: map<Key, Session>, w: Workspace, user: nat, now: int) returns (count: int, bytes: int)
    ensures count == SumOver(sessions.Keys, Counting(sessions, w, user, now))
    ensures bytes == SumOver(sessions.Keys, Weighing(sessions, w, user, now))
  {
    count, bytes := 0, 0;
    var rest := sessions.Keys;
    ghost var one, weight := Counting(sessions, w, user, now), Weighing(sessions, w, user, now);
    while rest != {}
      invariant rest <= sessions.Keys
      invariant count + SumOver(rest, one) == SumOver(sessions.Keys, one)
      invariant bytes + SumOver(rest, weight) == SumOver(sessions.Keys, weight)
      decreases |rest|
    {
      var k :| k in rest;
      SumPick(rest, k, one);
      SumPick(rest, k, weight);
      if k.workspace == w && sessions[k].user == user && Live(sessions[k], now) {
        count, bytes := count + 1, bytes + sessions[k].bytes;
      }
      rest := rest - {k};
    }
  }

  /** The counts read so far are up to date with what is planned, and nothing is planned for the other accounts. */
  ghost predicate UpToDate(counts: map<Owner, nat>, holders: map<Workspace, Owner>, planned: seq<Handover>) {
    forall o: Owner :: if o in counts then counts[o] == Used(holders, planned, o) else Times(planned, o) == 0
  }

  /** Looks for the first owner with room; an account's entitlements are counted once. */
  method FindSuccessor(
      read: map<Owner, nat>, holders: map<Workspace, Owner>, ghost planned: seq<Handover>, owners: seq<Owner>,
      from: Owner, limit: nat)
    returns (counts: map<Owner, nat>, successor: Option<Owner>)
    requires UpToDate(read, holders, planned)
    ensures UpToDate(counts, holders, planned) && successor == Successor(holders, planned, owners, from, limit)
    ensures successor.Some? ==> successor.value in counts
  {
    counts, successor := read, None;
    for j := 0 to |owners|
      invariant UpToDate(counts, holders, planned)
      invariant Successor(holders, planned, owners, from, limit) ==
          Successor(holders, planned, owners[j..], from, limit)
    {
      var o := owners[j];
      if o != from {
        if o !in counts {
          counts := counts[o := |Held(holders, o)|];
        }
        if counts[o] < limit {
          return counts, Some(o);
        }
      }
    }
  }

  method ChooseSuccessors(
      holders: map<Workspace, Owner>, entitled: seq<Workspace>, owners: map<Workspace, seq<Owner>>, from: Owner,
      limit: nat)
    returns (plan: Plan)
    ensures plan == PlanHandovers(holders, entitled, owners, from, limit)
  {
    var counts: map<Owner, nat> := map[];
    plan := Plan([], []);
    for n := 0 to |entitled|
      invariant plan == PlanHandovers(holders, entitled[..n], owners, from, limit)
      invariant UpToDate(counts, holders, plan.handovers)
    {
      var w := entitled[n];
      assert entitled[..n + 1][..n] == entitled[..n];
      var successor;
      counts, successor := FindSuccessor(
        counts, holders, plan.handovers, if w in owners then owners[w] else [], from, limit);
      if successor.Some? {
        var h := Handover(w, successor.value);
        CountOneMore(counts, holders, plan.handovers, h);
        counts := counts[h.successor := counts[h.successor] + 1];
        plan := Plan(plan.handovers + [h], plan.blocked);
      } else {
        plan := Plan(plan.handovers, plan.blocked + [w]);
      }
    }
    assert entitled[..|entitled|] == entitled;
  }

  lemma {:induction false} CountOneMore(
      counts: map<Owner, nat>, holders: map<Workspace, Owner>, planned: seq<Handover>, h: Handover)
    requires UpToDate(counts, holders, planned) && h.successor in counts
    ensures UpToDate(counts[h.successor := counts[h.successor] + 1], holders, planned + [h])
  {
    var next := counts[h.successor := counts[h.successor] + 1];
    forall o: Owner
      ensures if o in next then next[o] == Used(holders, planned + [h], o) else Times(planned + [h], o) == 0
    {
      TimesOf(planned, h, o);
      assert if o in counts then counts[o] == Used(holders, planned, o) else Times(planned, o) == 0;
    }
  }

  lemma {:induction false} TimesOf(planned: seq<Handover>, h: Handover, o: Owner)
    ensures Times(planned + [h], o) == Times(planned, o) + if h.successor == o then 1 else 0
  {
    assert (planned + [h])[..|planned|] == planned;
  }

  lemma {:induction false} PassOnKeeps(
      b: Books, from: Owner, entitled: seq<Workspace>, owners: map<Workspace, seq<Owner>>, candidates: seq<Owner>,
      limit: nat)
    requires Balanced(b) && WithinLimit(b.holders, limit) && Surviving(b.holders, from, entitled)
    ensures var r := HandOver(b, from, entitled, owners, candidates, limit);
      var after := BooksOf(b, r);
      && after == Apply(b, Timed(PassOn(from, entitled, owners, candidates), 0), 0, limit)
      && Balanced(after) && WithinLimit(after.holders, limit)
      && AllPersisted(after) == AllPersisted(b) && AllReserved(after) == AllReserved(b)
      && (r.Says? ==> forall i :: 0 <= i < |entitled| ==> MovedToOwner(after.holders, owners, entitled[i], from))
  {
    HandOverKeeps(b, from, entitled, owners, candidates, limit);
  }

  class Accounts {
    var accounts: map<Owner, Usage>
    var usage: map<Workspace, Usage>
    var sessions: map<Key, Session>
    var holders: map<Workspace, Owner>

    ghost function Now(): Books
      reads this
    {
      Books(accounts, usage, sessions, holders)
    }

    constructor ()
      ensures Balanced(Now()) && forall limit: nat :: WithinLimit(holders, limit)
    {
      accounts, usage, sessions, holders := map[], map[], map[], map[];
    }

    method Lock(o: Owner)
      modifies this`accounts
      ensures accounts == LockAccount(old(accounts), o)
    {
      if o !in accounts {
        accounts := accounts[o := Usage(0, 0)];
      }
    }

    /** Moves a workspace's usage between accounts; omitting a side adds or removes it. */
    method MoveUsage(w: Workspace, from: Option<Owner>, to: Option<Owner>)
      modifies this`accounts
      ensures var u := At(usage, w);
        var added := if to.Some? then Add(old(accounts), to.value, u.persisted, u.reserved) else old(accounts);
        accounts == if from.Some? then Subtract(added, from.value, u) else added
    {
      var u := At(usage, w);
      if to.Some? && to.value in accounts {
        accounts := accounts[to.value :=
          Usage(accounts[to.value].persisted + u.persisted, accounts[to.value].reserved + u.reserved)];
      }
      if from.Some? && from.value in accounts {
        var a := accounts[from.value];
        accounts := accounts[from.value := Usage(Lower(a.persisted, u.persisted), Lower(a.reserved, u.reserved))];
      }
    }

    method ClaimStorage(w: Workspace, o: Owner, limit: nat) returns (threw: bool, claimed: bool)
      requires Balanced(Now()) && WithinLimit(holders, limit)
      modifies this
      ensures Balanced(Now()) && WithinLimit(holders, limit)
      ensures claimed <==> w !in old(holders) && |Held(old(holders), o)| < limit
      ensures threw <==> Claim(old(Now()), w, o, limit).Throws?
      ensures Now() == BooksOf(old(Now()), Claim(old(Now()), w, o, limit))
      ensures Now() == Apply(old(Now()), Timed(Grant(w, o), 0), 0, limit)
    {
      ghost var before := Now();
      ClaimKeeps(before, w, o, limit);
      if w in holders && holders[w] != o {
        return true, false;
      }
      if w in holders {
        Lock(o);
        return false, false;
      }
      if |Held(holders, o)| >= limit {
        return true, false;
      }
      Lock(o);
      holders := holders[w := o];
      if w !in usage {
        usage := usage[w := Usage(0, 0)];
      }
      MoveUsage(w, None, Some(o));
      threw, claimed := false, true;
    }

    method ReleaseStorage(w: Workspace, ghost limit: nat)
      requires Balanced(Now()) && WithinLimit(holders, limit)
      modifies this
      ensures Balanced(Now()) && WithinLimit(holders, limit)
      ensures Now() == Release(old(Now()), w)
      ensures Now() == Apply(old(Now()), Timed(Withdraw(w), 0), 0, 0)
    {
      ReleaseKeeps(Now(), w, limit);
      if w in holders {
        MoveUsage(w, Some(holders[w]), None);
        holders := holders - {w};
      }
    }

    /** Takes the workspace's usage off its account ahead of deleting the workspace. */
    method RefundStorage(w: Workspace)
      requires Balanced(Now())
      modifies this
      ensures Sane(Now()) && Agrees(Now())
      ensures Covers(Now()) <==> w !in holders || FinalizingBytes(old(Now()), w) == 0
      ensures Now() == RefundUsage(old(Now()), w)
      ensures Now() == Apply(old(Now()), Timed(Refund(w), 0), 0, 0)
    {
      if w in holders {
        RefundKeeps(Now(), w);
        MoveUsage(w, Some(holders[w]), None);
        if w in usage {
          usage := usage[w := Usage(0, 0)];
        }
      }
    }

    method LockAccounts(os: seq<Owner>)
      modifies this`accounts
      ensures accounts == LockAll(old(accounts), os)
    {
      for n := 0 to |os|
        invariant accounts == LockAll(old(accounts), os[..n])
      {
        assert os[..n + 1][..n] == os[..n];
        Lock(os[n]);
      }
      assert os[..|os|] == os;
    }

    method MoveEntitlements(from: Owner, handovers: seq<Handover>)
      modifies this`accounts, this`holders
      ensures Now() == MoveHolders(old(Now()), from, handovers)
    {
      for n := 0 to |handovers|
        invariant Now() == MoveHolders(old(Now()), from, handovers[..n])
      {
        assert handovers[..n + 1][..n] == handovers[..n];
        var h := handovers[n];
        holders := holders[h.workspace := h.successor];
        MoveUsage(h.workspace, Some(from), Some(h.successor));
      }
      assert handovers[..|handovers|] == handovers;
    }

    /** Hands every surviving workspace over to another of its owners, or throws and hands over none. */
    method HandOverStorage(
        from: Owner, entitled: seq<Workspace>, owners: map<Workspace, seq<Owner>>, candidates: seq<Owner>,
        limit: nat) returns (threw: bool)
      requires Balanced(Now()) && WithinLimit(holders, limit)
      requires Surviving(holders, from, entitled)
      modifies this
      ensures Balanced(Now()) && WithinLimit(holders, limit)
      ensures AllPersisted(Now()) == old(AllPersisted(Now())) && AllReserved(Now()) == old(AllReserved(Now()))
      ensures threw ==> Now() == old(Now())
      ensures !threw ==> forall i :: 0 <= i < |entitled| ==> MovedToOwner(holders, owners, entitled[i], from)
      ensures Now() == Apply(old(Now()), Timed(PassOn(from, entitled, owners, candidates), 0), 0, limit)
    {
      PassOnKeeps(Now(), from, entitled, owners, candidates, limit);
      threw := PlanAndMove(from, entitled, owners, candidates, limit);
    }

    method PlanAndMove(
        from: Owner, entitled: seq<Workspace>, owners: map<Workspace, seq<Owner>>, candidates: seq<Owner>,
        limit: nat) returns (threw: bool)
      modifies this
      ensures threw <==> HandOver(old(Now()), from, entitled, owners, candidates, limit).Throws?
      ensures Now() == BooksOf(old(Now()), HandOver(old(Now()), from, entitled, owners, candidates, limit))
    {
      var unlocked := accounts;
      LockAccounts(candidates);
      var plan := ChooseSuccessors(holders, entitled, owners, from, limit);
      if plan.blocked != [] || !HaveAccounts(accounts, plan.handovers) {
        accounts := unlocked;
        return true;
      }
      MoveEntitlements(from, plan.handovers);
      threw := false;
    }

    /** Reserves bytes for an asset when the account has room for them. */
    method ReserveAssetBytes(w: Workspace, bytes: int, quota: int, now: int) returns (threw: bool, ok: bool)
      requires Balanced(Now())
      modifies this`accounts, this`usage
      ensures Balanced(Now())
      ensures threw <==> bytes > 0 && w !in holders
      ensures ok <==> bytes <= 0 || (w in holders && Total(old(Now()), holders[w], now) + bytes <= quota)
      ensures Now() == BooksOf(old(Now()), ReserveBytes(old(Now()), w, bytes, quota, now))
      ensures Now() == Apply(old(Now()), Timed(Reserve(w, bytes), now), quota, 0)
      ensures ok && bytes > 0 ==> Total(Now(), holders[w], now) <= quota
    {
      if bytes <= 0 {
        return false, true;
      }
      if w !in holders {
        return true, false;
      }
      ghost var before := Now();
      ReserveBytesKeeps(before, w, bytes, quota, now);
      ReserveBytesTotal(before, w, bytes, quota, now, holders[w]);
      var o := holders[w];
      var uploads := SumUploads(sessions, holders, o, now);
      if At(accounts, o).persisted + At(accounts, o).reserved + uploads + bytes > quota {
        return false, false;
      }
      accounts := Add(accounts, o, 0, bytes);
      usage := Add(usage, w, 0, bytes);
      threw, ok := false, true;
    }

    /** Gives a reservation back and records what was stored. */
    method FinishAssetReservation(w: Workspace, reserved: int, delta: int) returns (threw: bool)
      requires Balanced(Now())
      modifies this`accounts, this`usage
      ensures threw <==> w !in holders
      ensures Now() == BooksOf(old(Now()), FinishReservation(old(Now()), w, reserved, delta))
      ensures Now() == Apply(old(Now()), Timed(FinishAssets(w, reserved, delta), 0), 0, 0)
      ensures Guarded(old(Now()), Timed(FinishAssets(w, reserved, delta), 0)) ==> Balanced(Now())
    {
      threw := w !in holders;
      if !threw {
        ghost var before := Now();
        usage := FinishRow(usage, w, reserved, delta);
        accounts := FinishRow(accounts, holders[w], reserved, delta);
        if Guarded(before, Timed(FinishAssets(w, reserved, delta), 0)) {
          BytesKeepBooks(before, Timed(FinishAssets(w, reserved, delta), 0), 0, 0);
        }
      }
    }

    /** Turns the session's bytes into a reservation and returns how many they were. */
    method BeginUploadFinalize(k: Key) returns (r: Option<int>)
      requires Balanced(Now())
      modifies this
      ensures Balanced(Now())
      ensures r.None? <==> BeginFinalize(old(Now()), k).Throws?
      ensures Now() == BooksOf(old(Now()), BeginFinalize(old(Now()), k))
      ensures Now() == Apply(old(Now()), Timed(BeginUpload(k), 0), 0, 0)
      ensures r.Some? ==> k in sessions && r.value == sessions[k].finalizing && r.value > 0
    {
      if k.workspace !in holders || k !in sessions {
        return None;
      }
      var s := sessions[k];
      if s.finalizing > 0 {
        return Some(s.finalizing);
      }
      if s.bytes <= 0 {
        return None;
      }
      BeginFinalizeKeeps(Now(), k);
      sessions := sessions[k := s.(bytes := 0, finalizing := s.bytes)];
      usage := Add(usage, k.workspace, 0, s.bytes);
      accounts := Add(accounts, holders[k.workspace], 0, s.bytes);
      r := Some(s.bytes);
    }

    method FinishUploadFinalize(k: Key, delta: int) returns (threw: bool)
      requires Balanced(Now())
      modifies this
      ensures threw <==> k.workspace !in holders
      ensures Now() == BooksOf(old(Now()), SettleFinalize(old(Now()), k, delta))
      ensures Now() == Apply(old(Now()), Timed(FinishUpload(k, delta), 0), 0, 0)
      ensures Agrees(Now()) && Covers(Now())
      ensures k in old(sessions) && k.workspace in old(usage) && old(sessions)[k].finalizing > 0 ==>
                (Sane(Now()) <==> threw || 0 <= old(usage)[k.workspace].persisted + delta)
    {
      if k.workspace !in holders {
        return true;
      }
      SettleKeeps(Now(), k, delta);
      threw := false;
      if k !in sessions || sessions[k].finalizing == 0 {
        return;
      }
      var s := sessions[k];
      usage := SettleRow(usage, k.workspace, s.finalizing, delta);
      sessions := sessions[k := s.(finalizing := 0)];
      accounts := SettleRow(accounts, holders[k.workspace], s.finalizing, delta);
    }

    /** Takes over the bytes counted in the store, at any time. */
    method ReconcileUsage(w: Workspace, bytes: nat) returns (threw: bool)
      requires Balanced(Now())
      modifies this`accounts, this`usage
      ensures Balanced(Now())
      ensures threw <==> w !in holders
      ensures Now() == BooksOf(old(Now()), Reconcile(old(Now()), w, bytes))
      ensures Now() == Apply(old(Now()), Timed(Recount(w, bytes), 0), 0, 0)
    {
      threw := w !in holders;
      if !threw {
        ReconcileKeeps(Now(), w, bytes);
        var o, previous := holders[w], At(usage, w);
        var finalizing := SumFinalizing(sessions, w);
        usage := usage[w := Usage(bytes, finalizing)];
        if o in accounts {
          var a := accounts[o];
          var persisted := Raise(a.persisted, bytes - previous.persisted);
          accounts := accounts[o := Usage(persisted, Raise(a.reserved, finalizing - previous.reserved))];
        }
      }
    }

    /** Reserves an upload's bytes within the user's limits and, for managed storage, the account's quota. */
    method ReserveUploadBytes(
        k: Key, user: nat, bytes: nat, expiresAt: int, limits: Limits, now: int) returns (threw: bool, ok: bool)
      requires Balanced(Now())
      modifies this`sessions
      ensures Balanced(Now())
      ensures threw <==> old(OwnSession(Now(), k, user)) && limits.managed && k.workspace !in holders
      ensures !threw ==> ok == ReserveUpload(old(Now()), k, user, bytes, expiresAt, limits, now).ok
      ensures Now() == BooksOf(old(Now()), ReserveUpload(old(Now()), k, user, bytes, expiresAt, limits, now))
      ensures limits.managed ==>
          var event := Upload(k, user, bytes, expiresAt, limits.count, limits.bytes);
          Now() == Apply(old(Now()), Timed(event, now), limits.quota, 0)
      ensures !threw ==> SessionsReserved(
                old(sessions), sessions, k, bytes, expiresAt, old(OwnSession(Now(), k, user)), ok)
      ensures !threw && ok && !Lapsed(old(sessions)[k], now) ==> WithinUser(sessions, k.workspace, user, limits, now)
    {
      ReservedSessions(Now(), k, user, bytes, expiresAt, limits, now);
      if OwnSession(Now(), k, user) && !Lapsed(sessions[k], now)
         && ReserveUpload(Now(), k, user, bytes, expiresAt, limits, now).Says?
         && ReserveUpload(Now(), k, user, bytes, expiresAt, limits, now).ok
      {
        AcceptedStaysWithin(Now(), k, user, bytes, expiresAt, limits, now);
      }
      if k !in sessions || sessions[k].user != user || sessions[k].completed {
        return false, false;
      }
      if limits.managed && k.workspace !in holders {
        return true, false;
      }
      ReserveUploadKeeps(Now(), k, user, bytes, expiresAt, limits, now);
      var s := sessions[k];
      var count, used := SumUser(sessions, k.workspace, user, now);
      var total := 0;
      if limits.managed {
        var o := holders[k.workspace];
        var uploads := SumUploads(sessions, holders, o, now);
        total := At(accounts, o).persisted + At(accounts, o).reserved + uploads;
      }
      if count + (if s.bytes > 0 then 0 else 1) > limits.count || used - s.bytes + bytes > limits.bytes
         || (limits.managed && total - s.bytes + bytes > limits.quota)
      {
        if s.bytes == 0 {
          sessions := sessions - {k};
        }
        return false, false;
      }
      sessions := sessions[k := s.(bytes := bytes, expiresAt := expiresAt)];
      threw, ok := false, true;
    }

    method ExpireSessions(w: Workspace, now: int)
      requires Balanced(Now())
      modifies this`sessions
      ensures Balanced(Now()) && Now() == ExpireUploads(old(Now()), w, now)
      ensures Now() == Apply(old(Now()), Timed(Expire(w), now), 0, 0)
      ensures forall o :: Total(Now(), o, now) == Total(old(Now()), o, now)
    {
      ExpireKeeps(Now(), w, now);
      sessions := map k | k in sessions && !Expired(k, sessions[k], w, now) :: sessions[k];
    }
  }
}
