/** Entitlements: claims, releases and handovers keep the books, the limit per account and, moving usage, all totals. */
module LedgerEntitlements {
  import opened Options
  import opened SetSums
  import opened Ledger
  import opened LedgerAgreement

  ghost predicate WithinLimit(holders: map<Workspace, Owner>, limit: nat) {
    forall o: Owner :: |Held(holders, o)| <= limit
  }

  /** Agreement for an account that an update of holders and rows leaves alone. */
  lemma {:induction false} AccountKept(b: Books, after: Books, o: Owner)
    requires AccountAgrees(b, o) && At(after.accounts, o) == At(b.accounts, o)
    requires Held(after.holders, o) == Held(b.holders, o)
    requires forall w :: w in Held(b.holders, o) ==> At(after.usage, w) == At(b.usage, w)
    ensures AccountAgrees(after, o)
  {
    SumSame(Held(b.holders, o), Persisted(b.usage), Persisted(after.usage));
    SumSame(Held(b.holders, o), Reserved(b.usage), Reserved(after.usage));
  }

  /** Agreement for an account that one more workspace is charged to. */
  lemma {:induction false} AccountCharged(b: Books, after: Books, o: Owner, w: Workspace)
    requires AccountAgrees(b, o) && w !in Held(b.holders, o) && Held(after.holders, o) == Held(b.holders, o) + {w}
    requires forall v :: v in Held(b.holders, o) ==> At(after.usage, v) == At(b.usage, v)
    requires At(after.accounts, o).persisted == At(b.accounts, o).persisted + At(after.usage, w).persisted
    requires At(after.accounts, o).reserved == At(b.accounts, o).reserved + At(after.usage, w).reserved
    ensures AccountAgrees(after, o)
  {
    var held := Held(b.holders, o);
    SumAdd(held, w, Persisted(after.usage));
    SumAdd(held, w, Reserved(after.usage));
    SumSame(held, Persisted(b.usage), Persisted(after.usage));
    SumSame(held, Reserved(b.usage), Reserved(after.usage));
  }

  /** Agreement for an account that one workspace is taken off. */
  lemma {:induction false} AccountRefunded(b: Books, after: Books, w: Workspace)
    requires Sane(b) && Agrees(b) && w in b.holders && after.usage == b.usage
    requires Held(after.holders, b.holders[w]) == Held(b.holders, b.holders[w]) - {w}
    requires after.accounts.Keys == b.accounts.Keys && b.holders[w] in b.accounts
    requires after.accounts[b.holders[w]] ==
               Usage(
                 Lower(b.accounts[b.holders[w]].persisted, At(b.usage, w).persisted),
                 Lower(b.accounts[b.holders[w]].reserved, At(b.usage, w).reserved))
    ensures AccountAgrees(after, b.holders[w])
    ensures after.accounts[b.holders[w]].persisted == b.accounts[b.holders[w]].persisted - b.usage[w].persisted
    ensures after.accounts[b.holders[w]].reserved == b.accounts[b.holders[w]].reserved - b.usage[w].reserved
  {
    AccountSplits(b, w);
  }

  lemma {:induction false} SameFinalizing(b: Books, after: Books)
    requires Covers(b) && after.sessions == b.sessions && after.usage == b.usage
    ensures Covers(after)
  {
    forall w | w in after.usage ensures FinalizingBytes(after, w) <= after.usage[w].reserved {
      assert FinalizingBytes(after, w) == FinalizingBytes(b, w);
    }
  }

  // ---------------------------------------------------------------------------------------------
  // Claims and releases
  // ---------------------------------------------------------------------------------------------

  lemma {:induction false} ClaimedHeld(holders: map<Workspace, Owner>, w: Workspace, o: Owner)
    requires w !in holders
    ensures Held(holders[w := o], o) == Held(holders, o) + {w} && w !in Held(holders, o)
    ensures forall x: Owner :: x != o ==> Held(holders[w := o], x) == Held(holders, x)
  {
  }

  lemma {:induction false} ClaimedWithin(holders: map<Workspace, Owner>, w: Workspace, o: Owner, limit: nat)
    requires w !in holders && WithinLimit(holders, limit) && |Held(holders, o)| < limit
    ensures WithinLimit(holders[w := o], limit)
  {
    ClaimedHeld(holders, w, o);
    var after := holders[w := o];
    forall x: Owner ensures |Held(after, x)| <= limit {
      assert |Held(holders, x)| <= limit;
    }
  }

  lemma {:induction false} LockKeeps(b: Books, o: Owner)
    requires Balanced(b)
    ensures Balanced(b.(accounts := LockAccount(b.accounts, o)))
  {
    var after := b.(accounts := LockAccount(b.accounts, o));
    forall x: Owner ensures AccountAgrees(after, x) {
      assert AccountAgrees(b, x);
      AccountKept(b, after, x);
    }
    SameFinalizing(b, after);
  }

  /** A workspace without a usage row is not entitled, and no session of it is finalizing. */
  lemma {:induction false} OpenUsage(b: Books, w: Workspace)
    requires Balanced(b) && w !in b.usage
    ensures Balanced(b.(usage := b.usage[w := Usage(0, 0)]))
  {
    var after := b.(usage := b.usage[w := Usage(0, 0)]);
    forall k | k in b.sessions ensures SaneSession(after, k) && Finalizing(b.sessions, w)(k) == 0 {
      assert SaneSession(b, k);
    }
    SumNothing(b.sessions.Keys, Finalizing(b.sessions, w));
    forall x: Owner ensures AccountAgrees(after, x) {
      assert AccountAgrees(b, x);
      AccountKept(b, after, x);
    }
    forall v | v in after.usage ensures FinalizingBytes(after, v) <= after.usage[v].reserved {
      assert FinalizingBytes(after, v) == FinalizingBytes(b, v);
    }
  }

  lemma {:induction false} ChargeKeeps(b: Books, w: Workspace, o: Owner)
    requires Balanced(b) && w !in b.holders && w in b.usage && o in b.accounts
    ensures Balanced(b.(accounts := Add(b.accounts, o, b.usage[w].persisted, b.usage[w].reserved),
        holders := b.holders[w := o]))
  {
    var after := b.(accounts := Add(b.accounts, o, b.usage[w].persisted, b.usage[w].reserved),
      holders := b.holders[w := o]);
    ClaimedHeld(b.holders, w, o);
    forall x: Owner ensures AccountAgrees(after, x) {
      assert AccountAgrees(b, x);
      if x == o {
        AccountCharged(b, after, o, w);
      } else {
        AccountKept(b, after, x);
      }
    }
    SameFinalizing(b, after);
  }

  /** A claim goes through exactly for an unclaimed workspace and an account with room, and keeps books and limit. */
  lemma {:induction false} ClaimKeeps(b: Books, w: Workspace, o: Owner, limit: nat)
    requires Balanced(b) && WithinLimit(b.holders, limit)
    ensures Claim(b, w, o, limit).Says? && Claim(b, w, o, limit).ok <==> w !in b.holders && |Held(b.holders, o)| < limit
    ensures Claim(b, w, o, limit).Throws? <==>
        (w in b.holders && b.holders[w] != o) || (w !in b.holders && |Held(b.holders, o)| >= limit)
    ensures Claim(b, w, o, limit).Says? ==>
              && Balanced(Claim(b, w, o, limit).books) && WithinLimit(Claim(b, w, o, limit).books.holders, limit)
              && w in Claim(b, w, o, limit).books.holders && Claim(b, w, o, limit).books.holders[w] == o
  {
    LockKeeps(b, o);
    if w !in b.holders && |Held(b.holders, o)| < limit {
      var locked := b.(accounts := LockAccount(b.accounts, o));
      if w !in b.usage {
        OpenUsage(locked, w);
      }
      var open := if w in b.usage then locked else locked.(usage := b.usage[w := Usage(0, 0)]);
      ChargeKeeps(open, w, o);
      ClaimedWithin(b.holders, w, o, limit);
    }
  }

  lemma {:induction false} ReleasedHeld(holders: map<Workspace, Owner>, w: Workspace)
    requires w in holders
    ensures Held(holders - {w}, holders[w]) == Held(holders, holders[w]) - {w}
    ensures forall x: Owner :: x != holders[w] ==> Held(holders - {w}, x) == Held(holders, x)
  {
  }

  lemma {:induction false} ReleaseAgrees(b: Books, w: Workspace)
    requires Balanced(b) && w in b.holders
    ensures Agrees(Release(b, w)) && b.holders[w] in b.accounts && w in b.usage
    ensures var o := b.holders[w];
      && At(Release(b, w).accounts, o).persisted == b.accounts[o].persisted - b.usage[w].persisted
      && At(Release(b, w).accounts, o).reserved == b.accounts[o].reserved - b.usage[w].reserved
  {
    var after := Release(b, w);
    ReleasedHeld(b.holders, w);
    AccountSplits(b, w);
    AccountRefunded(b, after, w);
    forall x: Owner | x != b.holders[w] ensures AccountAgrees(after, x) {
      assert AccountAgrees(b, x);
      AccountKept(b, after, x);
    }
  }

  /** A release takes exactly the workspace's usage off its account. */
  lemma {:induction false} ReleaseKeeps(b: Books, w: Workspace, limit: nat)
    requires Balanced(b) && WithinLimit(b.holders, limit)
    ensures Balanced(Release(b, w)) && WithinLimit(Release(b, w).holders, limit)
    ensures w in b.holders ==>
              var o := b.holders[w];
              && At(Release(b, w).accounts, o).persisted == b.accounts[o].persisted - b.usage[w].persisted
              && At(Release(b, w).accounts, o).reserved == b.accounts[o].reserved - b.usage[w].reserved
  {
    if w in b.holders {
      var after := Release(b, w);
      ReleasedHeld(b.holders, w);
      forall x: Owner ensures |Held(after.holders, x)| <= limit {
        assert |Held(b.holders, x)| <= limit;
      }
      ReleaseAgrees(b, w);
      SameFinalizing(b, after);
      forall k | k in b.sessions ensures SaneSession(after, k) {
        assert SaneSession(b, k);
      }
    }
  }

  /**
   * Refunding a workspace ahead of its deletion keeps the accounts in step; its reservation stays covered exactly when
   * nothing is being finalized.
   */
  lemma {:induction false} RefundKeeps(b: Books, w: Workspace)
    requires Balanced(b) && w in b.holders
    ensures Sane(RefundUsage(b, w)) && Agrees(RefundUsage(b, w))
    ensures Covers(RefundUsage(b, w)) <==> FinalizingBytes(b, w) == 0
  {
    AccountSplits(b, w);
    FinalizingNotNegative(b, w);
    var o := b.holders[w];
    var u, a := b.usage[w], b.accounts[o];
    var account := Usage(Lower(a.persisted, u.persisted), Lower(a.reserved, u.reserved));
    AgreesIffSameChange(b, w, Usage(0, 0), account);
    CoversIff(b, w, Usage(0, 0), account);
    assert RefundUsage(b, w) == Rewritten(b, w, Usage(0, 0), account);
  }

  // ---------------------------------------------------------------------------------------------
  // Handovers
  // ---------------------------------------------------------------------------------------------

  datatype Handover = Handover(workspace: Workspace, successor: Owner)

  function Times(planned: seq<Handover>, o: Owner): nat {
    if planned == [] then 0
    else Times(planned[..|planned| - 1], o) + if planned[|planned| - 1].successor == o then 1 else 0
  }

  /** Entitlements the account has, counting those planned for it. */
  function Used(holders: map<Workspace, Owner>, planned: seq<Handover>, o: Owner): nat {
    |Held(holders, o)| + Times(planned, o)
  }

  /** The first of the other owners with room under the limit. */
  function Successor(
      holders: map<Workspace, Owner>, planned: seq<Handover>, owners: seq<Owner>, from: Owner,
      limit: nat): (r: Option<Owner>)
    ensures r.Some? ==> r.value in owners && r.value != from && Used(holders, planned, r.value) < limit
    ensures r.None? ==> forall o :: o in owners && o != from ==> Used(holders, planned, o) >= limit
  {
    if owners == [] then None
    else if owners[0] != from && Used(holders, planned, owners[0]) < limit then Some(owners[0])
    else Successor(holders, planned, owners[1..], from, limit)
  }

  datatype Plan = Plan(handovers: seq<Handover>, blocked: seq<Workspace>)

  /** Workspace by workspace; `owners` lists each workspace's owners, longest-standing first. */
  function PlanHandovers(
      holders: map<Workspace, Owner>, entitled: seq<Workspace>, owners: map<Workspace, seq<Owner>>, from: Owner,
      limit: nat): Plan
  {
    if entitled == [] then Plan([], [])
    else
      var w := entitled[|entitled| - 1];
      var before := PlanHandovers(holders, entitled[..|entitled| - 1], owners, from, limit);
      match Successor(holders, before.handovers, if w in owners then owners[w] else [], from, limit)
      case Some(o) => Plan(before.handovers + [Handover(w, o)], before.blocked)
      case None => Plan(before.handovers, before.blocked + [w])
  }

  function LockAll(accounts: map<Owner, Usage>, os: seq<Owner>): map<Owner, Usage> {
    if os == [] then accounts else LockAccount(LockAll(accounts, os[..|os| - 1]), os[|os| - 1])
  }

  function MoveHolders(b: Books, from: Owner, planned: seq<Handover>): Books {
    if planned == [] then b
    else
      var last := planned[|planned| - 1];
      MoveHolder(MoveHolders(b, from, planned[..|planned| - 1]), last.workspace, from, last.successor)
  }

  /** An entitlement can only name an account that has a row. */
  predicate HaveAccounts(accounts: map<Owner, Usage>, planned: seq<Handover>) {
    forall i :: 0 <= i < |planned| ==> planned[i].successor in accounts
  }

  /**
   * Moves every surviving workspace's entitlement, or, when one has no owner to move to or its new owner was not
   * among the candidates and has no account, none.
   */
  function HandOver(
      b: Books, from: Owner, entitled: seq<Workspace>, owners: map<Workspace, seq<Owner>>, candidates: seq<Owner>,
      limit: nat): Answer {
    var plan := PlanHandovers(b.holders, entitled, owners, from, limit);
    var locked := b.(accounts := LockAll(b.accounts, candidates));
    if plan.blocked != [] || !HaveAccounts(locked.accounts, plan.handovers) then Throws
    else Says(true, MoveHolders(locked, from, plan.handovers))
  }

  /** The surviving workspaces entitled to the account, once each. */
  ghost predicate Surviving(holders: map<Workspace, Owner>, from: Owner, entitled: seq<Workspace>) {
    && (forall i :: 0 <= i < |entitled| ==> entitled[i] in Held(holders, from))
    && (forall i, j :: 0 <= i < j < |entitled| ==> entitled[i] != entitled[j])
  }

  /** All the workspace's other owners are full, counting what was planned for the workspaces before it. */
  ghost predicate FullInTurn(
      holders: map<Workspace, Owner>, entitled: seq<Workspace>, owners: map<Workspace, seq<Owner>>, from: Owner,
      limit: nat, i: nat)
    requires i < |entitled|
  {
    var planned := PlanHandovers(holders, entitled[..i], owners, from, limit).handovers;
    entitled[i] in owners ==> forall o :: o in owners[entitled[i]] && o != from ==> Used(holders, planned, o) >= limit
  }

  ghost predicate PlannedFor(h: Handover, from: Owner, accounts: map<Owner, Usage>) {
    h.successor != from && h.successor in accounts
  }

  ghost predicate Planned(
      holders: map<Workspace, Owner>, accounts: map<Owner, Usage>, from: Owner, planned: seq<Handover>) {
    && (forall i :: 0 <= i < |planned| ==>
          planned[i].workspace in Held(holders, from) && PlannedFor(planned[i], from, accounts))
    && (forall i, j :: 0 <= i < j < |planned| ==> planned[i].workspace != planned[j].workspace)
  }

  ghost function AllPersisted(b: Books): int {
    SumOver(b.accounts.Keys, Persisted(b.accounts))
  }

  ghost function AllReserved(b: Books): int {
    SumOver(b.accounts.Keys, Reserved(b.accounts))
  }

  lemma {:induction false} MovedHeld(holders: map<Workspace, Owner>, w: Workspace, from: Owner, to: Owner)
    requires w in holders && holders[w] == from && to != from
    ensures Held(holders[w := to], to) == Held(holders, to) + {w} && w !in Held(holders, to)
    ensures Held(holders[w := to], from) == Held(holders, from) - {w}
    ensures forall x: Owner :: x != from && x != to ==> Held(holders[w := to], x) == Held(holders, x)
  {
  }

  lemma {:induction false} MoveHolderAgrees(b: Books, w: Workspace, from: Owner, to: Owner)
    requires Balanced(b) && w in b.holders && b.holders[w] == from && to != from && to in b.accounts
    ensures Agrees(MoveHolder(b, w, from, to))
    ensures var after := MoveHolder(b, w, from, to);
      && after.accounts[from].persisted + after.accounts[to].persisted ==
          b.accounts[from].persisted + b.accounts[to].persisted
      && after.accounts[from].reserved + after.accounts[to].reserved ==
          b.accounts[from].reserved + b.accounts[to].reserved
  {
    var after := MoveHolder(b, w, from, to);
    MovedHeld(b.holders, w, from, to);
    AccountSplits(b, w);
    forall x: Owner ensures AccountAgrees(after, x) {
      assert AccountAgrees(b, x);
      if x == from {
        AccountRefunded(b, after, w);
      } else if x == to {
        AccountCharged(b, after, to, w);
      } else {
        AccountKept(b, after, x);
      }
    }
  }

  lemma {:induction false} TwoAccountsChange(before: map<Owner, Usage>, after: map<Owner, Usage>, a: Owner, c: Owner)
    requires a != c && a in before && c in before && after.Keys == before.Keys
    requires forall o :: o in before && o != a && o != c ==> after[o] == before[o]
    requires after[a].persisted + after[c].persisted == before[a].persisted + before[c].persisted
    requires after[a].reserved + after[c].reserved == before[a].reserved + before[c].reserved
    ensures SumOver(after.Keys, Persisted(after)) == SumOver(before.Keys, Persisted(before))
    ensures SumOver(after.Keys, Reserved(after)) == SumOver(before.Keys, Reserved(before))
  {
    var mid := before[a := after[a]];
    assert mid.Keys == before.Keys;
    SumChange(before.Keys, a, Persisted(before), Persisted(mid));
    SumChange(before.Keys, a, Reserved(before), Reserved(mid));
    SumChange(before.Keys, c, Persisted(mid), Persisted(after));
    SumChange(before.Keys, c, Reserved(mid), Reserved(after));
  }

  /** Handing one workspace over keeps the books and moves usage between two accounts without losing any. */
  lemma {:induction false} MoveHolderKeeps(b: Books, w: Workspace, from: Owner, to: Owner)
    requires Balanced(b) && w in b.holders && b.holders[w] == from && to != from && to in b.accounts
    ensures var after := MoveHolder(b, w, from, to);
      && Balanced(after) && after.accounts.Keys == b.accounts.Keys && after.holders == b.holders[w := to]
      && AllPersisted(after) == AllPersisted(b) && AllReserved(after) == AllReserved(b)
  {
    var after := MoveHolder(b, w, from, to);
    MoveHolderAgrees(b, w, from, to);
    TwoAccountsChange(b.accounts, after.accounts, from, to);
    SameFinalizing(b, after);
  }

  function HolderAfter(holders: map<Workspace, Owner>, planned: seq<Handover>, w: Workspace): Owner
    requires w in holders
  {
    if planned == [] then holders[w]
    else if planned[|planned| - 1].workspace == w then planned[|planned| - 1].successor
    else HolderAfter(holders, planned[..|planned| - 1], w)
  }

  lemma {:induction false} StillHeld(holders: map<Workspace, Owner>, planned: seq<Handover>, w: Workspace)
    requires w in holders && forall i :: 0 <= i < |planned| ==> planned[i].workspace != w
    ensures HolderAfter(holders, planned, w) == holders[w]
  {
    if planned != [] {
      StillHeld(holders, planned[..|planned| - 1], w);
    }
  }

  ghost predicate MovedAs(b: Books, after: Books, from: Owner, planned: seq<Handover>) {
    && after.accounts.Keys == b.accounts.Keys && after.holders.Keys == b.holders.Keys
    && AllPersisted(after) == AllPersisted(b) && AllReserved(after) == AllReserved(b)
    && (forall w :: w in b.holders ==> after.holders[w] == HolderAfter(b.holders, planned, w))
    && (forall o: Owner :: o != from ==> |Held(after.holders, o)| == Used(b.holders, planned, o))
    && |Held(after.holders, from)| <= |Held(b.holders, from)|
  }

  lemma {:induction false} MovedOneMore(
      b: Books, mid: Books, after: Books, from: Owner, front: seq<Handover>, last: Handover)
    requires MovedAs(b, mid, from, front) && last.workspace in b.holders && mid.holders[last.workspace] == from
    requires last.successor != from
    requires after.accounts.Keys == mid.accounts.Keys && after.holders == mid.holders[last.workspace := last.successor]
    requires AllPersisted(after) == AllPersisted(mid) && AllReserved(after) == AllReserved(mid)
    ensures MovedAs(b, after, from, front + [last])
  {
    MovedHeld(mid.holders, last.workspace, from, last.successor);
    forall o: Owner | o != from ensures |Held(after.holders, o)| == Used(b.holders, front + [last], o) {
      UsedOneMore(b.holders, front, last, o);
      assert |Held(mid.holders, o)| == Used(b.holders, front, o);
    }
    forall w | w in b.holders ensures after.holders[w] == HolderAfter(b.holders, front + [last], w) {
      HolderOneMore(b.holders, front, last, w);
    }
  }

  lemma {:induction false} UsedOneMore(holders: map<Workspace, Owner>, front: seq<Handover>, last: Handover, o: Owner)
    ensures Used(holders, front + [last], o) == Used(holders, front, o) + if last.successor == o then 1 else 0
  {
    assert (front + [last])[..|front|] == front;
  }

  lemma {:induction false} HolderOneMore(
      holders: map<Workspace, Owner>, front: seq<Handover>, last: Handover, w: Workspace)
    requires w in holders
    ensures HolderAfter(holders, front + [last], w) == if last.workspace == w then last.successor
        else HolderAfter(holders, front, w)
  {
    assert (front + [last])[..|front|] == front;
  }

  /** The planned moves keep the books and all totals, and give each account just the entitlements planned for it. */
  lemma {:induction false} MoveHoldersKeep(b: Books, from: Owner, planned: seq<Handover>)
    requires Balanced(b) && Planned(b.holders, b.accounts, from, planned)
    ensures Balanced(MoveHolders(b, from, planned)) && MovedAs(b, MoveHolders(b, from, planned), from, planned)
    decreases |planned|
  {
    if planned != [] {
      var front, last := planned[..|planned| - 1], planned[|planned| - 1];
      assert planned == front + [last];
      PlannedFront(b, from, planned);
      MoveHoldersKeep(b, from, front);
      var mid := MoveHolders(b, from, front);
      MoveHolderKeeps(mid, last.workspace, from, last.successor);
      MovedOneMore(b, mid, MoveHolders(b, from, planned), from, front, last);
    }
  }

  lemma {:induction false} PlannedFront(b: Books, from: Owner, planned: seq<Handover>)
    requires planned != [] && Planned(b.holders, b.accounts, from, planned)
    ensures var front, last := planned[..|planned| - 1], planned[|planned| - 1];
      && Planned(b.holders, b.accounts, from, front)
      && last.workspace in b.holders && HolderAfter(b.holders, front, last.workspace) == from
      && last.successor != from && last.successor in b.accounts
  {
    var front, last := planned[..|planned| - 1], planned[|planned| - 1];
    assert PlannedFor(planned[|planned| - 1], from, b.accounts);
    assert planned[|planned| - 1].workspace in Held(b.holders, from);
    forall i | 0 <= i < |front|
      ensures front[i].workspace in Held(b.holders, from) && PlannedFor(front[i], from, b.accounts)
          && front[i].workspace != last.workspace
    {
      assert front[i] == planned[i] && PlannedFor(planned[i], from, b.accounts);
    }
    StillHeld(b.holders, front, last.workspace);
  }

  ghost predicate OneOf(
      w: Workspace, entitled: seq<Workspace>, owners: map<Workspace, seq<Owner>>, h: Handover, from: Owner) {
    h.workspace == w && w in entitled && w in owners && h.successor in owners[w] && h.successor != from
  }

  /** A plan hands each workspace it does not block to one of its other owners. */
  lemma {:induction false} PlanMoves(
      holders: map<Workspace, Owner>, entitled: seq<Workspace>, owners: map<Workspace, seq<Owner>>, from: Owner,
      limit: nat)
    requires forall i, j :: 0 <= i < j < |entitled| ==> entitled[i] != entitled[j]
    ensures var plan := PlanHandovers(holders, entitled, owners, from, limit);
      && |plan.handovers| + |plan.blocked| == |entitled|
      && (forall i :: 0 <= i < |plan.handovers| ==>
          OneOf(plan.handovers[i].workspace, entitled, owners, plan.handovers[i], from))
      && (forall i, j :: 0 <= i < j < |plan.handovers| ==> plan.handovers[i].workspace != plan.handovers[j].workspace)
      && (plan.blocked == [] ==> forall i :: 0 <= i < |entitled| ==> plan.handovers[i].workspace == entitled[i])
    decreases |entitled|
  {
    if entitled != [] {
      var front, w := entitled[..|entitled| - 1], entitled[|entitled| - 1];
      assert entitled == front + [w];
      assert w !in front;
      PlanMoves(holders, front, owners, from, limit);
      var before := PlanHandovers(holders, front, owners, from, limit);
      forall i | 0 <= i < |before.handovers|
        ensures OneOf(before.handovers[i].workspace, entitled, owners, before.handovers[i], from)
      {
        assert OneOf(before.handovers[i].workspace, front, owners, before.handovers[i], from);
      }
      match Successor(holders, before.handovers, if w in owners then owners[w] else [], from, limit)
      case None =>
      case Some(o) => OneMoreListed(entitled, owners, from, before.handovers, o);
    }
  }

  lemma {:induction false} OneMoreListed(
      entitled: seq<Workspace>, owners: map<Workspace, seq<Owner>>, from: Owner, before: seq<Handover>, o: Owner)
    requires entitled != [] && entitled[|entitled| - 1] !in entitled[..|entitled| - 1]
    requires forall i :: 0 <= i < |before| ==>
        OneOf(before[i].workspace, entitled[..|entitled| - 1], owners, before[i], from)
    requires forall i, j :: 0 <= i < j < |before| ==> before[i].workspace != before[j].workspace
    requires var w := entitled[|entitled| - 1]; OneOf(w, entitled, owners, Handover(w, o), from)
    ensures var all := before + [Handover(entitled[|entitled| - 1], o)];
      && (forall i :: 0 <= i < |all| ==> OneOf(all[i].workspace, entitled, owners, all[i], from))
      && (forall i, j :: 0 <= i < j < |all| ==> all[i].workspace != all[j].workspace)
  {
    var w := entitled[|entitled| - 1];
    assert entitled == entitled[..|entitled| - 1] + [w];
    forall i | 0 <= i < |before|
      ensures OneOf(before[i].workspace, entitled, owners, before[i], from) && before[i].workspace != w
    {
      assert OneOf(before[i].workspace, entitled[..|entitled| - 1], owners, before[i], from);
    }
  }

  /** It fills no account beyond the limit. */
  lemma {:induction false} PlanIsSound(
      holders: map<Workspace, Owner>, entitled: seq<Workspace>, owners: map<Workspace, seq<Owner>>, from: Owner,
      limit: nat)
    requires WithinLimit(holders, limit)
    ensures forall o: Owner ::
        Used(holders, PlanHandovers(holders, entitled, owners, from, limit).handovers, o) <= limit
    decreases |entitled|
  {
    if entitled == [] {
      forall o: Owner ensures Used(holders, [], o) <= limit {
        assert |Held(holders, o)| <= limit;
      }
    } else {
      var front, w := entitled[..|entitled| - 1], entitled[|entitled| - 1];
      PlanIsSound(holders, front, owners, from, limit);
      var before := PlanHandovers(holders, front, owners, from, limit).handovers;
      match Successor(holders, before, if w in owners then owners[w] else [], from, limit)
      case None =>
      case Some(o) =>
        forall x: Owner ensures Used(holders, before + [Handover(w, o)], x) <= limit {
          UsedOneMore(holders, before, Handover(w, o), x);
          assert Used(holders, before, x) <= limit;
        }
    }
  }

  /** Locking accounts opens those that are missing, with nothing on them. */
  lemma {:induction false} LockAllKeeps(b: Books, os: seq<Owner>)
    requires Balanced(b)
    ensures var after := b.(accounts := LockAll(b.accounts, os));
      && Balanced(after) && AllPersisted(after) == AllPersisted(b) && AllReserved(after) == AllReserved(b)
      && (forall o :: o in os || o in b.accounts ==> o in after.accounts)
    decreases |os|
  {
    if os == [] {
      assert b.(accounts := b.accounts) == b;
    } else {
      var front, o := os[..|os| - 1], os[|os| - 1];
      LockAllKeeps(b, front);
      var mid := b.(accounts := LockAll(b.accounts, front));
      LockKeeps(mid, o);
      assert os == front + [o];
      var after := mid.(accounts := LockAccount(mid.accounts, o));
      assert after == b.(accounts := LockAll(b.accounts, os));
      if o !in mid.accounts {
        assert after.accounts.Keys == mid.accounts.Keys + {o};
        SumAdd(mid.accounts.Keys, o, Persisted(after.accounts));
        SumAdd(mid.accounts.Keys, o, Reserved(after.accounts));
        SumSame(mid.accounts.Keys, Persisted(mid.accounts), Persisted(after.accounts));
        SumSame(mid.accounts.Keys, Reserved(mid.accounts), Reserved(after.accounts));
      }
    }
  }

  lemma {:induction false} PlanIsPlanned(
      b: Books, from: Owner, entitled: seq<Workspace>, owners: map<Workspace, seq<Owner>>, candidates: seq<Owner>,
      limit: nat)
    requires Balanced(b) && WithinLimit(b.holders, limit) && Surviving(b.holders, from, entitled)
    requires HaveAccounts(LockAll(b.accounts, candidates),
        PlanHandovers(b.holders, entitled, owners, from, limit).handovers)
    ensures var plan := PlanHandovers(b.holders, entitled, owners, from, limit);
      Planned(b.holders, LockAll(b.accounts, candidates), from, plan.handovers)
  {
    var plan := PlanHandovers(b.holders, entitled, owners, from, limit);
    PlanMoves(b.holders, entitled, owners, from, limit);
    LockAllKeeps(b, candidates);
    forall i | 0 <= i < |plan.handovers|
      ensures plan.handovers[i].workspace in Held(b.holders, from)
      ensures PlannedFor(plan.handovers[i], from, LockAll(b.accounts, candidates))
    {
      var h := plan.handovers[i];
      assert OneOf(h.workspace, entitled, owners, h, from);
      var j :| 0 <= j < |entitled| && entitled[j] == h.workspace;
    }
  }

  lemma {:induction false} HolderPlanned(holders: map<Workspace, Owner>, planned: seq<Handover>, i: nat)
    requires i < |planned| && planned[i].workspace in holders
    requires forall j, k :: 0 <= j < k < |planned| ==> planned[j].workspace != planned[k].workspace
    ensures HolderAfter(holders, planned, planned[i].workspace) == planned[i].successor
    decreases |planned|
  {
    if i < |planned| - 1 {
      assert planned[..|planned| - 1][i] == planned[i];
      HolderPlanned(holders, planned[..|planned| - 1], i);
    }
  }

  /**
   * A handover moves every surviving workspace to another of its owners or none. It keeps books and limit, leaves the
   * other entitlements alone, and no account total is lost on the way, whoever the candidates were.
   */
  lemma {:induction false} HandOverKeeps(
      b: Books, from: Owner, entitled: seq<Workspace>, owners: map<Workspace, seq<Owner>>, candidates: seq<Owner>,
      limit: nat)
    requires Balanced(b) && WithinLimit(b.holders, limit) && Surviving(b.holders, from, entitled)
    ensures HandOver(b, from, entitled, owners, candidates, limit).Says? ==>
              var after := HandOver(b, from, entitled, owners, candidates, limit).books;
              && Balanced(after) && WithinLimit(after.holders, limit)
              && AllPersisted(after) == AllPersisted(b) && AllReserved(after) == AllReserved(b)
              && after.holders.Keys == b.holders.Keys
              && (forall i :: 0 <= i < |entitled| ==> MovedToOwner(after.holders, owners, entitled[i], from))
              && (forall w :: w in b.holders && w !in entitled ==> after.holders[w] == b.holders[w])
  {
    var plan := PlanHandovers(b.holders, entitled, owners, from, limit);
    if plan.blocked == [] && HaveAccounts(LockAll(b.accounts, candidates), plan.handovers) {
      PlanMoves(b.holders, entitled, owners, from, limit);
      PlanIsSound(b.holders, entitled, owners, from, limit);
      PlanIsPlanned(b, from, entitled, owners, candidates, limit);
      LockAllKeeps(b, candidates);
      var locked := b.(accounts := LockAll(b.accounts, candidates));
      MoveHoldersKeep(locked, from, plan.handovers);
      HandedOver(b.holders, MoveHolders(locked, from, plan.handovers).holders, from, entitled, owners,
        plan.handovers, limit);
    }
  }

  lemma {:induction false} BlockedIff(
      holders: map<Workspace, Owner>, entitled: seq<Workspace>, owners: map<Workspace, seq<Owner>>, from: Owner,
      limit: nat)
    ensures PlanHandovers(holders, entitled, owners, from, limit).blocked != [] <==>
              exists i :: 0 <= i < |entitled| && FullInTurn(holders, entitled, owners, from, limit, i)
    decreases |entitled|
  {
    if entitled != [] {
      var last := |entitled| - 1;
      var front := entitled[..last];
      BlockedIff(holders, front, owners, from, limit);
      forall i | 0 <= i < last
        ensures FullInTurn(holders, entitled, owners, from, limit, i) <==>
            FullInTurn(holders, front, owners, from, limit, i)
      {
        assert front[..i] == entitled[..i];
      }
      var blocked := PlanHandovers(holders, front, owners, from, limit).blocked != [];
      if i :| 0 <= i < last && FullInTurn(holders, front, owners, from, limit, i) {
        assert FullInTurn(holders, entitled, owners, from, limit, i);
      }
      if PlanHandovers(holders, entitled, owners, from, limit).blocked != [] && !blocked {
        assert FullInTurn(holders, entitled, owners, from, limit, last);
      }
    }
  }

  /**
   * A handover throws exactly when some workspace finds all its other owners full in its turn, or a new owner that
   * was not among the candidates has no account.
   */
  lemma {:induction false} HandOverThrowsIff(
      b: Books, from: Owner, entitled: seq<Workspace>, owners: map<Workspace, seq<Owner>>, candidates: seq<Owner>,
      limit: nat)
    ensures HandOver(b, from, entitled, owners, candidates, limit).Throws? <==>
              || (exists i :: 0 <= i < |entitled| && FullInTurn(b.holders, entitled, owners, from, limit, i))
              || !HaveAccounts(LockAll(b.accounts, candidates),
                  PlanHandovers(b.holders, entitled, owners, from, limit).handovers)
  {
    BlockedIff(b.holders, entitled, owners, from, limit);
  }

  const CONTENDED: map<Workspace, Owner> := map[10 := 1, 20 := 1]
  const CONTENDERS: map<Workspace, seq<Owner>> := map[10 := [2, 3], 20 := [2]]

  lemma {:induction false} FirstTakesThePlace()
    ensures Held(CONTENDED, 2) == {} && Held(CONTENDED, 3) == {}
    ensures PlanHandovers(CONTENDED, [10], CONTENDERS, 1, 1) == Plan([Handover(10, 2)], [])
  {
    var list: seq<Workspace> := [10];
    assert Held(CONTENDED, 2) == {} && Held(CONTENDED, 3) == {};
    assert list[..0] == [] && CONTENDERS[10] == [2, 3];
    assert Successor(CONTENDED, [], [2, 3], 1, 1) == Some(2);
  }

  lemma {:induction false} SecondFindsNone()
    ensures Successor(CONTENDED, [Handover(10, 2)], [2], 1, 1) == None
  {
    var taken, owners: seq<Owner> := [Handover(10, 2)], [2];
    assert taken[..0] == [] && owners[1..] == [];
    assert Times(taken, 2) == 1;
  }

  /**
   * First come, first served: with one place in account 2 and one in account 3, workspace 10, owned by both, takes the
   * place that workspace 20, owned by 2 alone, needs. The handover throws although there is a way to place both.
   */
  lemma {:induction false} FirstFitRefuses()
    ensures PlanHandovers(CONTENDED, [10, 20], CONTENDERS, 1, 1) == Plan([Handover(10, 2)], [20])
    ensures forall o :: o == 2 || o == 3 ==> Used(CONTENDED, [Handover(10, 3), Handover(20, 2)], o) == 1
  {
    FirstTakesThePlace();
    SecondFindsNone();
    var list: seq<Workspace> := [10, 20];
    assert list[..1] == [10];
    var one, two := [Handover(10, 3)], [Handover(10, 3), Handover(20, 2)];
    assert two[..1] == one && one[..0] == [];
    assert Times(one, 2) == 0 && Times(one, 3) == 1;
  }

  ghost predicate MovedToOwner(
      holders: map<Workspace, Owner>, owners: map<Workspace, seq<Owner>>, w: Workspace, from: Owner) {
    w in holders && w in owners && holders[w] in owners[w] && holders[w] != from
  }

  lemma {:induction false} HandedOver(
      before: map<Workspace, Owner>, after: map<Workspace, Owner>, from: Owner, entitled: seq<Workspace>,
      owners: map<Workspace, seq<Owner>>,
      planned: seq<Handover>, limit: nat)
    requires WithinLimit(before, limit) && Surviving(before, from, entitled) && |planned| == |entitled|
    requires after.Keys == before.Keys
    requires forall i :: 0 <= i < |planned| ==> OneOf(planned[i].workspace, entitled, owners, planned[i], from)
    requires forall i :: 0 <= i < |entitled| ==> planned[i].workspace == entitled[i]
    requires forall w :: w in before ==> after[w] == HolderAfter(before, planned, w)
    requires forall o: Owner :: Used(before, planned, o) <= limit
    requires forall o: Owner :: o != from ==> |Held(after, o)| == Used(before, planned, o)
    requires |Held(after, from)| <= |Held(before, from)|
    ensures WithinLimit(after, limit)
    ensures forall i :: 0 <= i < |entitled| ==> MovedToOwner(after, owners, entitled[i], from)
    ensures forall w :: w in before && w !in entitled ==> after[w] == before[w]
  {
    forall o: Owner ensures |Held(after, o)| <= limit {
      assert Used(before, planned, o) <= limit;
      assert |Held(before, from)| <= limit;
    }
    forall i | 0 <= i < |entitled| ensures MovedToOwner(after, owners, entitled[i], from) {
      assert OneOf(planned[i].workspace, entitled, owners, planned[i], from);
      HolderPlanned(before, planned, i);
    }
    forall w | w in before && w !in entitled ensures after[w] == before[w] {
      forall i | 0 <= i < |planned| ensures planned[i].workspace != w {
        assert planned[i].workspace == entitled[i];
      }
      StillHeld(before, planned, w);
    }
  }
}
