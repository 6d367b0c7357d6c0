/** Any number of `execute` calls running at once against one database: the steps
    of one call, the locks and index waits between them, and the retry loop. */
module Protocol {
  import opened LedgerTypes
  import opened Schema
  import opened OrderedRead
  import opened SequentialLedger

  /** `check` keeps the CHECK on balances, `forUpdate` keeps the row locks on the
      account reads, `pool` is the number of connections. */
  datatype Config = Config(check: bool, forUpdate: bool, pool: nat)

  /** The open database transaction of a session: the rows it read, and its private write set. */
  datatype Tx = Tx(
    drawn: Fresh, read: map<Uuid, AccountRow>, writes: map<Uuid, Units>, entries: seq<EntryRow>)

  const NO_DRAW: Fresh := Fresh(0, 0, 0, 0, 0)

  const NO_TX: Tx := Tx(NO_DRAW, map[], map[], [])

  /** What a call returned; `at` is the position of its answer in the history. */
  datatype Reply = Reply(answer: Answer, at: Option<nat>, detail: Option<Detail>)

  /** The statement a session executes next. */
  datatype Pc =
    | Lookup | Begin | Claim | Collided | Reread
    | Lock1 | Lock2 | Check | AdjustFrom | AdjustTo | EntryFrom | EntryTo | Commit
    | FetchTxn(id: Uuid, replayed: bool, at: nat)
    | FetchEntries(row: TxnRow, replayed: bool, at: nat)
    | Done(reply: Reply)

  /** One call of `execute`; `since` is the length of the history when it arrived. */
  datatype Session = Session(call: Call, since: nat, attempt: nat, pc: Pc, tx: Tx)

  /** Committed tables, and who holds which connection, unique-index entry and row lock. */
  datatype State = State(
    db: Db,
    conns: set<nat>,
    claims: map<string, nat>,
    locks: map<Uuid, nat>,
    issued: map<Uuid, nat>,
    nextXid: nat,
    sessions: seq<Session>,
    history: seq<Event>)

  const INIT: State := State(EMPTY_DB, {}, map[], map[], map[], 0, [], [])

  datatype Label =
    | Arrive(call: Call)
    | OpenAccount(id: Uuid, row: AccountRow)
    | Go(sid: nat, drawn: Fresh)                 // the session's next statement completes
    | Fail(sid: nat, retryable: bool)            // it fails for a reason outside the protocol
    | LoseCommit(sid: nat, retryable: bool)      // COMMIT takes effect, but the caller sees an error

  function Success(id: Uuid, replayed: bool): Answer {
    if replayed then Replayed(id) else Created(id)
  }

  // ----- resources -----

  predicate InTx(pc: Pc) {
    pc.Claim? || pc.Collided? || HasClaim(pc)
  }

  predicate HasClaim(pc: Pc) {
    pc.Lock1? || pc.Lock2? || Locked(pc)
  }

  /** Both account rows have been read. */
  predicate Locked(pc: Pc) {
    pc.Check? || Checked(pc)
  }

  /** The currency and funds checks have passed. */
  predicate Checked(pc: Pc) {
    pc.AdjustFrom? || pc.AdjustTo? || Adjusted(pc)
  }

  predicate Adjusted(pc: Pc) {
    pc.EntryFrom? || pc.EntryTo? || pc.Commit?
  }

  /** Steps that read on a connection of their own, taken from the pool and given back. */
  predicate NeedsConnection(pc: Pc) {
    pc.Lookup? || pc.Begin? || pc.Reread? || pc.FetchTxn? || pc.FetchEntries?
  }

  function Freed<K>(m: map<K, nat>, sid: nat): map<K, nat> {
    map k | k in m && m[k] != sid :: m[k]
  }

  predicate HeldByOther<K>(m: map<K, nat>, k: K, sid: nat) {
    k in m && m[k] != sid
  }

  /** The next statement of `sid` has to wait. */
  predicate Blocked(cfg: Config, s: State, sid: nat)
    requires sid < |s.sessions|
  {
    var x := s.sessions[sid];
    var t := x.call.terms;
    match x.pc
    case Claim => HeldByOther(s.claims, x.call.key, sid)
    case Lock1 => cfg.forUpdate && HeldByOther(s.locks, FirstLock(t), sid)
    case Lock2 => cfg.forUpdate && HeldByOther(s.locks, SecondLock(t), sid)
    case AdjustFrom => HeldByOther(s.locks, t.from, sid)
    case AdjustTo => HeldByOther(s.locks, t.to, sid)
    case _ => NeedsConnection(x.pc) && |s.conns| >= cfg.pool
  }

  // ----- moving a session -----

  function Put(s: State, sid: nat, x: Session): State
    requires sid < |s.sessions|
  {
    s.(sessions := s.sessions[sid := x])
  }

  /** The database transaction of `sid` is over: everything it held is free again. */
  function Leave(s: State, sid: nat, x: Session): State
    requires sid < |s.sessions|
  {
    s.(conns := s.conns - {sid},
       claims := Freed(s.claims, sid),
       locks := Freed(s.locks, sid),
       sessions := s.sessions[sid := x.(tx := NO_TX)])
  }

  function RequestEvent(s: State, sid: nat, answer: Answer): Event
    requires sid < |s.sessions|
  {
    Request(sid, s.sessions[sid].call, s.sessions[sid].tx.drawn, answer)
  }

  /** The call is decided by this very step, and returns. */
  function Reject(s: State, sid: nat, answer: Answer): State
    requires sid < |s.sessions|
  {
    var x := s.sessions[sid];
    Leave(s, sid, x.(pc := Done(Reply(answer, Some(|s.history|), None))))
      .(history := s.history + [RequestEvent(s, sid, answer)])
  }

  /** The call returns an answer without an event of its own. */
  function GiveUp(s: State, sid: nat, answer: Answer): State
    requires sid < |s.sessions|
  {
    Leave(s, sid, s.sessions[sid].(pc := Done(Reply(answer, None, None))))
  }

  function AfterError(x: Session, retryable: bool): Session {
    if retryable && x.attempt < MAX_CONFLICT_RETRIES then x.(attempt := x.attempt + 1, pc := Lookup)
    else x.(pc := Done(Reply(DatabaseError, None, None)))
  }

  // ----- the statements of `execute_once` -----

  /** `replay`: the digest decides between the original result and a conflict. */
  function ReplayRow(s: State, sid: nat, row: TxnRow): State
    requires sid < |s.sessions|
  {
    var x := s.sessions[sid];
    if row.digest != x.call.digest then Reject(s, sid, KeyConflict)
    else Put(s, sid, x.(pc := FetchTxn(row.id, true, |s.history|)))
           .(history := s.history + [RequestEvent(s, sid, Replayed(row.id))])
  }

  function GoLookup(s: State, sid: nat): State
    requires sid < |s.sessions|
  {
    var x := s.sessions[sid];
    match FindByKey(s.db.txns, x.call.key)
    case Some(row) => ReplayRow(s, sid, row)
    case None =>
      if x.call.terms.from == x.call.terms.to then Reject(s, sid, SelfTransfer)
      else if x.call.terms.amount <= 0 then Reject(s, sid, NonPositiveAmount)
      else Put(s, sid, x.(pc := Begin))
  }

  function GoBegin(s: State, sid: nat, f: Fresh): State
    requires sid < |s.sessions|
  {
    var x := s.sessions[sid];
    Put(s, sid, x.(pc := Claim, tx := Tx(f, map[], map[], [])))
      .(conns := s.conns + {sid},
        issued := s.issued[f.txn := sid][f.credit := sid][f.debit := sid],
        nextXid := s.nextXid + 1)
  }

  /** The insert of the transaction row: 23505 if the key is committed, else the key is claimed. */
  function GoClaim(s: State, sid: nat): State
    requires sid < |s.sessions|
  {
    var x := s.sessions[sid];
    if FindByKey(s.db.txns, x.call.key).Some? then Put(s, sid, x.(pc := Collided))
    else Put(s, sid, x.(pc := Lock1)).(claims := s.claims[x.call.key := sid])
  }

  function GoReread(s: State, sid: nat): State
    requires sid < |s.sessions|
  {
    match FindByKey(s.db.txns, s.sessions[sid].call.key)
    case Some(row) => ReplayRow(s, sid, row)
    case None => GiveUp(s, sid, CollisionWithoutRow)
  }

  /** `fetch_for_update` of one account. */
  function GoLock(cfg: Config, s: State, sid: nat, id: Uuid, next: Pc): State
    requires sid < |s.sessions|
  {
    var x := s.sessions[sid];
    if id !in s.db.accounts then Reject(s, sid, AccountNotFound(id))
    else
      Put(s, sid, x.(pc := next, tx := x.tx.(read := x.tx.read[id := s.db.accounts[id]])))
        .(locks := if cfg.forUpdate then s.locks[id := sid] else s.locks)
  }

  /** The checks made on the rows that were read. */
  function GoCheck(cfg: Config, s: State, sid: nat): State
    requires sid < |s.sessions|
  {
    var x := s.sessions[sid];
    var t := x.call.terms;
    if t.from !in x.tx.read || t.to !in x.tx.read then GiveUp(s, sid, DatabaseError)
    else if x.tx.read[t.from].terms.currency != t.currency then Reject(s, sid, CurrencyMismatch(t.from))
    else if x.tx.read[t.to].terms.currency != t.currency then Reject(s, sid, CurrencyMismatch(t.to))
    else if !x.tx.read[t.from].terms.allowsNegative && x.tx.read[t.from].balance < t.amount then
      // Without the row lock the balance may have changed since: the answer belongs to the moment of the read.
      if cfg.forUpdate then Reject(s, sid, InsufficientFunds(t.from)) else GiveUp(s, sid, InsufficientFunds(t.from))
    else Put(s, sid, x.(pc := AdjustFrom))
  }

  /** `UPDATE accounts SET balance = balance + delta`: takes the row lock if it is not
      held yet, and applies the delta to the newest row version. */
  function GoAdjust(cfg: Config, s: State, sid: nat, id: Uuid, delta: int, next: Pc): State
    requires sid < |s.sessions|
  {
    var x := s.sessions[sid];
    if id !in s.db.accounts then Put(s, sid, x.(pc := next))
    else
      var balance := (if id in x.tx.writes then x.tx.writes[id] else s.db.accounts[id].balance) + delta;
      if !Fits(balance) then Reject(s, sid, NumericOverflow)
      else if cfg.check && !BalanceAllowed(s.db.accounts[id].terms, balance) then
        Reject(s, sid, InsufficientFunds(id))
      else
        Put(s, sid, x.(pc := next, tx := x.tx.(writes := x.tx.writes[id := balance])))
          .(locks := s.locks[id := sid])
  }

  /** The parent row as the inserting session sees it: its own claim, or a committed row. */
  function VisibleParent(s: State, sid: nat, id: Uuid): Option<TxnRow>
    requires sid < |s.sessions|
  {
    var x := s.sessions[sid];
    if id == x.tx.drawn.txn then Some(NewRow(x.call, x.tx.drawn)) else FindById(s.db.txns, id)
  }

  function GoEntry(s: State, sid: nat, e: EntryRow, next: Pc): State
    requires sid < |s.sessions|
  {
    var x := s.sessions[sid];
    if !EntryAllowed(s.db.accounts, VisibleParent(s, sid, e.txn), x.tx.drawn.xid, e) then
      GiveUp(s, sid, DatabaseError)
    else Put(s, sid, x.(pc := next, tx := x.tx.(entries := x.tx.entries + [e])))
  }

  /** The deferred trigger, fired once per inserted entry over everything the session sees. */
  predicate DeferredChecksPass(s: State, sid: nat)
    requires sid < |s.sessions|
  {
    var x := s.sessions[sid];
    forall e | e in x.tx.entries ::
      AssertTransactionBalanced(Group(s.db.entries + x.tx.entries, TxnOf, e.txn)).Accepted?
  }

  /** The private write set becomes visible. */
  function Publish(s: State, sid: nat): State
    requires sid < |s.sessions|
  {
    var x := s.sessions[sid];
    s.(db := Db(Written(s.db.accounts, x.tx.writes),
                s.db.txns + [NewRow(x.call, x.tx.drawn)],
                s.db.entries + x.tx.entries),
       history := s.history + [RequestEvent(s, sid, Created(x.tx.drawn.txn))])
  }

  function GoCommit(s: State, sid: nat): State
    requires sid < |s.sessions|
  {
    var x := s.sessions[sid];
    if !DeferredChecksPass(s, sid) then GiveUp(s, sid, DatabaseError)
    else Leave(Publish(s, sid), sid, x.(pc := FetchTxn(x.tx.drawn.txn, false, |s.history|)))
  }

  function GoFetchTxn(s: State, sid: nat): State
    requires sid < |s.sessions| && s.sessions[sid].pc.FetchTxn?
  {
    var x := s.sessions[sid];
    match FindById(s.db.txns, x.pc.id)
    case None => GiveUp(s, sid, TransactionNotFound(x.pc.id))
    case Some(row) => Put(s, sid, x.(pc := FetchEntries(row, x.pc.replayed, x.pc.at)))
  }

  function GoFetchEntries(s: State, sid: nat): State
    requires sid < |s.sessions| && s.sessions[sid].pc.FetchEntries?
  {
    var x := s.sessions[sid];
    var detail := Detail(x.pc.row, Ordered(Group(s.db.entries, TxnOf, x.pc.row.id)));
    Put(s, sid, x.(pc := Done(Reply(Success(x.pc.row.id, x.pc.replayed), Some(x.pc.at), Some(detail)))))
  }

  // ----- one step, and whole schedules -----

  predicate FreshFor(s: State, f: Fresh) {
    && f.txn !in s.issued && f.credit !in s.issued && f.debit !in s.issued
    && f.txn != f.credit && f.txn != f.debit && f.credit != f.debit
    && f.xid == s.nextXid
  }

  predicate Enabled(cfg: Config, s: State, l: Label) {
    match l
    case Arrive(_) => true
    case OpenAccount(id, row) => id !in s.db.accounts && row.balance == 0
    case Go(sid, f) =>
      && sid < |s.sessions| && !s.sessions[sid].pc.Done? && !Blocked(cfg, s, sid)
      && (s.sessions[sid].pc.Begin? ==> FreshFor(s, f))
    case Fail(sid, _) => sid < |s.sessions| && !s.sessions[sid].pc.Done?
    case LoseCommit(sid, _) => sid < |s.sessions| && s.sessions[sid].pc.Commit? && DeferredChecksPass(s, sid)
  }

  function Advance(cfg: Config, s: State, sid: nat, f: Fresh): State
    requires sid < |s.sessions|
  {
    var x := s.sessions[sid];
    var t := x.call.terms;
    match x.pc
    case Lookup => GoLookup(s, sid)
    case Begin => GoBegin(s, sid, f)
    case Claim => GoClaim(s, sid)
    case Collided => Leave(s, sid, x.(pc := Reread))
    case Reread => GoReread(s, sid)
    case Lock1 => GoLock(cfg, s, sid, FirstLock(t), Lock2)
    case Lock2 => GoLock(cfg, s, sid, SecondLock(t), Check)
    case Check => GoCheck(cfg, s, sid)
    case AdjustFrom => GoAdjust(cfg, s, sid, t.from, -t.amount, AdjustTo)
    case AdjustTo => GoAdjust(cfg, s, sid, t.to, t.amount, EntryFrom)
    case EntryFrom => GoEntry(s, sid, CreditEntry(x.call, x.tx.drawn), EntryTo)
    case EntryTo => GoEntry(s, sid, DebitEntry(x.call, x.tx.drawn), Commit)
    case Commit => GoCommit(s, sid)
    case FetchTxn(_, _, _) => GoFetchTxn(s, sid)
    case FetchEntries(_, _, _) => GoFetchEntries(s, sid)
    case Done(_) => s
  }

  /** One step of the system; a label that is not enabled changes nothing. */
  function Do(cfg: Config, s: State, l: Label): State {
    if !Enabled(cfg, s, l) then s
    else
      match l
      case Arrive(call) => s.(sessions := s.sessions + [Session(call, |s.history|, 0, Lookup, NO_TX)])
      case OpenAccount(id, row) =>
        s.(db := s.db.(accounts := s.db.accounts[id := row]), history := s.history + [Opened(id, row)])
      case Go(sid, f) => Advance(cfg, s, sid, f)
      case Fail(sid, retryable) => Leave(s, sid, AfterError(s.sessions[sid], retryable))
      case LoseCommit(sid, retryable) =>
        Leave(Publish(s, sid), sid, AfterError(s.sessions[sid], retryable))
  }

  /** The state after a schedule: every interleaving of every number of calls is one of these. */
  function After(cfg: Config, s: State, schedule: seq<Label>): State
    decreases |schedule|
  {
    if schedule == [] then s else After(cfg, Do(cfg, s, schedule[0]), schedule[1..])
  }

  lemma {:induction false} AfterConcat(cfg: Config, s: State, a: seq<Label>, b: seq<Label>)
    ensures After(cfg, s, a + b) == After(cfg, After(cfg, s, a), b)
    decreases |a|
  {
    if a == [] {
      assert a + b == b;
    } else {
      assert (a + b)[1..] == a[1..] + b && (a + b)[0] == a[0];
      AfterConcat(cfg, Do(cfg, s, a[0]), a[1..], b);
    }
  }
}
