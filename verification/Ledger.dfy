/**
 * The managed-storage ledger: accounts, usage, upload sessions, entitlements, and what each transaction does to them.
 */
module Ledger {
  import opened SetSums

  type Owner = nat
  type Workspace = nat

  datatype Usage = Usage(persisted: int, reserved: int)

  datatype Key = Key(workspace: Workspace, id: nat)

  /** `finalizing` is what a session has handed over to its workspace's reservation. */
  datatype Session = Session(user: nat, bytes: int, finalizing: int, expiresAt: int, completed: bool)

  datatype Books = Books(
    accounts: map<Owner, Usage>,
    usage: map<Workspace, Usage>,
    sessions: map<Key, Session>,
    holders: map<Workspace, Owner>)

  /** A transaction that throws leaves the books alone. */
  datatype Answer = Throws | Says(ok: bool, books: Books)

  // ---------------------------------------------------------------------------------------------
  // Totals
  // ---------------------------------------------------------------------------------------------

  function At(m: map<nat, Usage>, k: nat): Usage {
    if k in m then m[k] else Usage(0, 0)
  }

  ghost function Persisted(usage: map<Workspace, Usage>): Workspace -> int {
    (w: Workspace) => At(usage, w).persisted
  }

  ghost function Reserved(usage: map<Workspace, Usage>): Workspace -> int {
    (w: Workspace) => At(usage, w).reserved
  }

  /** The workspaces entitled to the account. */
  function Held(holders: map<Workspace, Owner>, o: Owner): set<Workspace> {
    set w | w in holders && holders[w] == o
  }

  ghost predicate AccountAgrees(b: Books, o: Owner) {
    && At(b.accounts, o).persisted == SumOver(Held(b.holders, o), Persisted(b.usage))
    && At(b.accounts, o).reserved == SumOver(Held(b.holders, o), Reserved(b.usage))
  }

  /** Every account is charged exactly for the workspaces entitled to it. */
  ghost predicate Agrees(b: Books) {
    forall o: Owner :: AccountAgrees(b, o)
  }

  ghost function Finalizing(sessions: map<Key, Session>, w: Workspace): Key -> int {
    (k: Key) => if k in sessions && k.workspace == w then sessions[k].finalizing else 0
  }

  ghost function FinalizingBytes(b: Books, w: Workspace): int {
    SumOver(b.sessions.Keys, Finalizing(b.sessions, w))
  }

  /** Every workspace's reservation covers what its sessions are finalizing. */
  ghost predicate Covers(b: Books) {
    forall w :: w in b.usage ==> FinalizingBytes(b, w) <= b.usage[w].reserved
  }

  predicate NotNegative(u: Usage) {
    0 <= u.persisted && 0 <= u.reserved
  }

  ghost predicate SaneSession(b: Books, k: Key)
    requires k in b.sessions
  {
    0 <= b.sessions[k].bytes && 0 <= b.sessions[k].finalizing
      && (b.sessions[k].finalizing > 0 ==> k.workspace in b.usage)
  }

  /** Counts are not negative; an entitled workspace has a usage row and its holder an account. */
  ghost predicate Sane(b: Books) {
    && (forall w :: w in b.usage ==> NotNegative(b.usage[w]))
    && (forall k :: k in b.sessions ==> SaneSession(b, k))
    && (forall w :: w in b.holders ==> w in b.usage && b.holders[w] in b.accounts)
  }

  ghost predicate Balanced(b: Books) {
    Sane(b) && Agrees(b) && Covers(b)
  }

  predicate Live(s: Session, now: int) {
    !s.completed && s.bytes > 0 && s.expiresAt > now
  }

  ghost function Uploading(
      sessions: map<Key, Session>, holders: map<Workspace, Owner>, o: Owner, now: int): Key -> int {
    (k: Key) =>
      if k in sessions && k.workspace in holders && holders[k.workspace] == o
        && Live(sessions[k], now) then sessions[k].bytes else 0
  }

  ghost function UploadBytes(b: Books, o: Owner, now: int): int {
    SumOver(b.sessions.Keys, Uploading(b.sessions, b.holders, o, now))
  }

  /** What counts against the account's quota. */
  ghost function Total(b: Books, o: Owner, now: int): int {
    At(b.accounts, o).persisted + At(b.accounts, o).reserved + UploadBytes(b, o, now)
  }

  // ---------------------------------------------------------------------------------------------
  // Row updates
  // ---------------------------------------------------------------------------------------------

  /** Saturating subtraction of an amount. */
  function Lower(n: int, amount: int): int {
    if n > amount then n - amount else 0
  }

  /** Saturating addition of a signed change. */
  function Raise(n: int, delta: int): int {
    if n + delta > 0 then n + delta else 0
  }

  function Add(m: map<nat, Usage>, k: nat, persisted: int, reserved: int): map<nat, Usage> {
    if k in m then m[k := Usage(m[k].persisted + persisted, m[k].reserved + reserved)] else m
  }

  function Subtract(m: map<nat, Usage>, k: nat, u: Usage): map<nat, Usage> {
    if k in m then m[k := Usage(Lower(m[k].persisted, u.persisted), Lower(m[k].reserved, u.reserved))] else m
  }

  function LockAccount(accounts: map<Owner, Usage>, o: Owner): map<Owner, Usage> {
    if o in accounts then accounts else accounts[o := Usage(0, 0)]
  }

  // ---------------------------------------------------------------------------------------------
  // Entitlements
  // ---------------------------------------------------------------------------------------------

  /** Entitles the workspace to the account, unless it already is, belongs to another, or the account is full. */
  function Claim(b: Books, w: Workspace, o: Owner, limit: nat): Answer {
    var accounts := LockAccount(b.accounts, o);
    if w in b.holders then
      if b.holders[w] == o then Says(false, b.(accounts := accounts)) else Throws
    else if |Held(b.holders, o)| >= limit then Throws
    else
      var usage := if w in b.usage then b.usage else b.usage[w := Usage(0, 0)];
      Says(true, b.(
        accounts := Add(accounts, o, At(usage, w).persisted, At(usage, w).reserved),
        usage := usage,
        holders := b.holders[w := o]))
  }

  function Release(b: Books, w: Workspace): Books {
    if w !in b.holders then b
    else b.(accounts := Subtract(b.accounts, b.holders[w], At(b.usage, w)), holders := b.holders - {w})
  }

  /** Ahead of deleting the workspace. */
  function RefundUsage(b: Books, w: Workspace): Books {
    if w !in b.holders then b
    else b.(
      accounts := Subtract(b.accounts, b.holders[w], At(b.usage, w)),
      usage := if w in b.usage then b.usage[w := Usage(0, 0)] else b.usage)
  }

  /** One workspace's entitlement and its usage go to another account. */
  function MoveHolder(b: Books, w: Workspace, from: Owner, to: Owner): Books {
    var u := At(b.usage, w);
    b.(accounts := Subtract(Add(b.accounts, to, u.persisted, u.reserved), from, u), holders := b.holders[w := to])
  }

  // ---------------------------------------------------------------------------------------------
  // Reservations
  // ---------------------------------------------------------------------------------------------

  ghost function ReserveBytes(b: Books, w: Workspace, bytes: int, quota: int, now: int): Answer {
    if bytes <= 0 then Says(true, b)
    else if w !in b.holders then Throws
    else if Total(b, b.holders[w], now) + bytes > quota then Says(false, b)
    else Says(true, b.(accounts := Add(b.accounts, b.holders[w], 0, bytes), usage := Add(b.usage, w, 0, bytes)))
  }

  function FinishRow(m: map<nat, Usage>, k: nat, reserved: int, delta: int): map<nat, Usage> {
    if k in m then m[k := Usage(Raise(m[k].persisted, delta), Lower(m[k].reserved, reserved))] else m
  }

  function FinishReservation(b: Books, w: Workspace, reserved: int, delta: int): Answer {
    if w !in b.holders then Throws
    else
      Says(true, b.(
        usage := FinishRow(b.usage, w, reserved, delta),
        accounts := FinishRow(b.accounts, b.holders[w], reserved, delta)))
  }

  /** The session's bytes become part of the reservation; a session that is finalizing already stays as it is. */
  function BeginFinalize(b: Books, k: Key): Answer {
    if k.workspace !in b.holders || k !in b.sessions then Throws
    else if b.sessions[k].finalizing > 0 then Says(true, b)
    else if b.sessions[k].bytes <= 0 then Throws
    else
      var s := b.sessions[k];
      Says(true, b.(
        sessions := b.sessions[k := s.(bytes := 0, finalizing := s.bytes)],
        usage := Add(b.usage, k.workspace, 0, s.bytes),
        accounts := Add(b.accounts, b.holders[k.workspace], 0, s.bytes)))
  }

  function SettleRow(m: map<nat, Usage>, k: nat, finalizing: int, delta: int): map<nat, Usage> {
    if k in m then m[k := Usage(m[k].persisted + delta, Lower(m[k].reserved, finalizing))] else m
  }

  /** Gives the session's reservation back and records what was stored. */
  function SettleFinalize(b: Books, k: Key, delta: int): Answer {
    if k.workspace !in b.holders then Throws
    else if k !in b.sessions || b.sessions[k].finalizing == 0 then Says(true, b)
    else
      var s := b.sessions[k];
      Says(true, b.(
        usage := SettleRow(b.usage, k.workspace, s.finalizing, delta),
        sessions := b.sessions[k := s.(finalizing := 0)],
        accounts := SettleRow(b.accounts, b.holders[k.workspace], s.finalizing, delta)))
  }

  /** Takes over the bytes counted in the store; what is reserved is what is being finalized. */
  ghost function Reconcile(b: Books, w: Workspace, bytes: int): Answer {
    if w !in b.holders then Throws
    else
      var o, u, f := b.holders[w], At(b.usage, w), FinalizingBytes(b, w);
      Says(true, b.(
        usage := b.usage[w := Usage(bytes, f)],
        accounts :=
          if o !in b.accounts then b.accounts
          else
            var a := b.accounts[o];
            b.accounts[o := Usage(Raise(a.persisted, bytes - u.persisted), Raise(a.reserved, f - u.reserved))]))
  }

  predicate Expired(k: Key, s: Session, w: Workspace, now: int) {
    k.workspace == w && !s.completed && s.expiresAt <= now && s.finalizing == 0
  }

  function ExpireUploads(b: Books, w: Workspace, now: int): Books {
    b.(sessions := map k | k in b.sessions && !Expired(k, b.sessions[k], w, now) :: b.sessions[k])
  }

  // ---------------------------------------------------------------------------------------------
  // Uploads
  // ---------------------------------------------------------------------------------------------

  ghost function Counting(sessions: map<Key, Session>, w: Workspace, user: nat, now: int): Key -> int {
    (k: Key) => if k in sessions && k.workspace == w && sessions[k].user == user && Live(sessions[k], now) then 1 else 0
  }

  ghost function Weighing(sessions: map<Key, Session>, w: Workspace, user: nat, now: int): Key -> int {
    (k: Key) => if k in sessions && k.workspace == w && sessions[k].user == user
      && Live(sessions[k], now) then sessions[k].bytes else 0
  }

  datatype Limits = Limits(count: int, bytes: int, managed: bool, quota: int)

  ghost predicate UploadFits(b: Books, k: Key, user: nat, bytes: int, limits: Limits, now: int)
    requires k in b.sessions && (limits.managed ==> k.workspace in b.holders)
  {
    var s := b.sessions[k];
    && SumOver(b.sessions.Keys, Counting(b.sessions, k.workspace, user, now)) +
        (if s.bytes > 0 then 0 else 1) <= limits.count
    && SumOver(b.sessions.Keys, Weighing(b.sessions, k.workspace, user, now)) - s.bytes + bytes <= limits.bytes
    && (limits.managed ==> Total(b, b.holders[k.workspace], now) - s.bytes + bytes <= limits.quota)
  }

  /** Sets an open session's bytes if the limits allow; a session refused before it held any bytes is dropped. */
  ghost function ReserveUpload(
      b: Books, k: Key, user: nat, bytes: int, expiresAt: int, limits: Limits, now: int): Answer {
    if k !in b.sessions || b.sessions[k].user != user || b.sessions[k].completed then Says(false, b)
    else if limits.managed && k.workspace !in b.holders then Throws
    else if !UploadFits(b, k, user, bytes, limits, now) then
      Says(false, if b.sessions[k].bytes == 0 then b.(sessions := b.sessions - {k}) else b)
    else Says(true, b.(sessions := b.sessions[k := b.sessions[k].(bytes := bytes, expiresAt := expiresAt)]))
  }
}
