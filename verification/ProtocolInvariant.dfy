/** The invariant that every step of every interleaving keeps. */
module ProtocolInvariant {
  import opened LedgerTypes
  import opened Schema
  import opened OrderedRead
  import opened SequentialLedger
  import opened Protocol

  // ----- what a session holds, as a function of where it is -----

  function OwnedBy<K>(m: map<K, nat>, sid: nat): set<K> {
    set k | k in m && m[k] == sid
  }

  function HeldClaims(x: Session): set<string> {
    if HasClaim(x.pc) then {x.call.key} else {}
  }

  function HeldLocks(cfg: Config, x: Session): set<Uuid> {
    var t := x.call.terms;
    if cfg.forUpdate then
      if x.pc.Lock2? then {FirstLock(t)} else if Locked(x.pc) then {t.from, t.to} else {}
    else
      if x.pc.AdjustTo? then {t.from} else if Adjusted(x.pc) then {t.from, t.to} else {}
  }

  ghost predicate HoldsExactly(cfg: Config, conns: set<nat>, claims: map<string, nat>, locks: map<Uuid, nat>,
                               sid: nat, x: Session)
  {
    && (sid in conns <==> InTx(x.pc))
    && OwnedBy(claims, sid) == HeldClaims(x)
    && OwnedBy(locks, sid) == HeldLocks(cfg, x)
  }

  // ----- what an open transaction knows about the committed tables -----

  function RowsRead(x: Session): set<Uuid> {
    var t := x.call.terms;
    if x.pc.Lock2? then {FirstLock(t)} else if Locked(x.pc) then {t.from, t.to} else {}
  }

  ghost predicate ReadsHold(cfg: Config, accounts: map<Uuid, AccountRow>, read: map<Uuid, AccountRow>) {
    forall a | a in read ::
      && a in accounts
      && accounts[a].terms == read[a].terms
      && (cfg.forUpdate ==> accounts[a].balance == read[a].balance)
  }

  ghost predicate ChecksHold(read: map<Uuid, AccountRow>, t: Terms) {
    && t.from in read && t.to in read
    && read[t.from].terms.currency == t.currency
    && read[t.to].terms.currency == t.currency
    && (read[t.from].terms.allowsNegative || read[t.from].balance >= t.amount)
  }

  function AccountsWritten(x: Session): set<Uuid> {
    var t := x.call.terms;
    if x.pc.AdjustTo? then {t.from} else if Adjusted(x.pc) then {t.from, t.to} else {}
  }

  /** The pending balance of `a` is the committed one plus what the transfer adds to it, and passed the CHECK. */
  ghost predicate WritesHold(cfg: Config, accounts: map<Uuid, AccountRow>, writes: map<Uuid, Units>, t: Terms) {
    forall a | a in writes ::
      && a in accounts
      && writes[a] == accounts[a].balance + (if a == t.from then -t.amount else t.amount)
      && (cfg.check ==> BalanceAllowed(accounts[a].terms, writes[a]))
  }

  ghost predicate EntriesHold(x: Session) {
    x.tx.entries == (if x.pc.EntryTo? then [CreditEntry(x.call, x.tx.drawn)]
                     else if x.pc.Commit? then [CreditEntry(x.call, x.tx.drawn), DebitEntry(x.call, x.tx.drawn)]
                     else [])
  }

  ghost predicate DrawnFor(issued: map<Uuid, nat>, f: Fresh, sid: nat) {
    && f.txn in issued && issued[f.txn] == sid
    && f.credit in issued && issued[f.credit] == sid
    && f.debit in issued && issued[f.debit] == sid
  }

  ghost predicate TxHolds(cfg: Config, db: Db, issued: map<Uuid, nat>, sid: nat, x: Session) {
    && DrawnFor(issued, x.tx.drawn, sid)
    && FreshIds(db, x.tx.drawn)
    && (HasClaim(x.pc) ==> FindByKey(db.txns, x.call.key).None?)
    && x.tx.read.Keys == RowsRead(x)
    && ReadsHold(cfg, db.accounts, x.tx.read)
    && (Checked(x.pc) ==> ChecksHold(x.tx.read, x.call.terms))
    && x.tx.writes.Keys == AccountsWritten(x)
    && WritesHold(cfg, db.accounts, x.tx.writes, x.call.terms)
    && EntriesHold(x)
  }

  // ----- what a decided call may rely on -----

  ghost predicate DecidedAt(h: seq<Event>, sid: nat, x: Session, answer: Answer, at: nat) {
    && x.since <= at < |h|
    && h[at].Request? && h[at].session == sid && h[at].call == x.call && h[at].answer == answer
  }

  /** `row` is committed, under this call's key and with its digest. */
  ghost predicate Recorded(db: Db, call: Call, row: TxnRow) {
    FindByKey(db.txns, call.key) == Some(row) && FindById(db.txns, row.id) == Some(row) && row.digest == call.digest
  }

  ghost predicate RecordedId(db: Db, call: Call, id: Uuid) {
    FindById(db.txns, id).Some? && Recorded(db, call, FindById(db.txns, id).value)
  }

  ghost predicate ReplyHolds(cfg: Config, db: Db, h: seq<Event>, sid: nat, x: Session, r: Reply) {
    match r.answer
    case DatabaseError => true
    case CollisionWithoutRow => false
    case TransactionNotFound(_) => false
    case Created(id) =>
      r.at.Some? && DecidedAt(h, sid, x, r.answer, r.at.value) && RecordedId(db, x.call, id)
      && r.detail == DetailOf(db, id)
    case Replayed(id) =>
      r.at.Some? && DecidedAt(h, sid, x, r.answer, r.at.value) && RecordedId(db, x.call, id)
      && r.detail == DetailOf(db, id)
    case InsufficientFunds(_) =>
      (cfg.forUpdate ==> r.at.Some?) && (r.at.Some? ==> DecidedAt(h, sid, x, r.answer, r.at.value))
    case _ => r.at.Some? && DecidedAt(h, sid, x, r.answer, r.at.value)
  }

  ghost predicate OutcomeHolds(cfg: Config, db: Db, h: seq<Event>, sid: nat, x: Session) {
    && x.attempt <= MAX_CONFLICT_RETRIES
    && x.since <= |h|
    && match x.pc
       case Collided => FindByKey(db.txns, x.call.key).Some?
       case Reread => FindByKey(db.txns, x.call.key).Some?
       case FetchTxn(id, replayed, at) => RecordedId(db, x.call, id) && DecidedAt(h, sid, x, Success(id, replayed), at)
       case FetchEntries(row, replayed, at) =>
         Recorded(db, x.call, row) && DecidedAt(h, sid, x, Success(row.id, replayed), at)
       case Done(r) => ReplyHolds(cfg, db, h, sid, x, r)
       case _ => true
  }

  predicate Validated(pc: Pc) {
    pc.Begin? || InTx(pc)
  }

  ghost predicate SessionInv(cfg: Config, s: State, sid: nat)
    requires sid < |s.sessions|
  {
    var x := s.sessions[sid];
    && HoldsExactly(cfg, s.conns, s.claims, s.locks, sid, x)
    && (Validated(x.pc) ==> x.call.terms.from != x.call.terms.to && x.call.terms.amount > 0)
    && (InTx(x.pc) ==> TxHolds(cfg, s.db, s.issued, sid, x))
    && (!InTx(x.pc) ==> x.tx == NO_TX)
    && OutcomeHolds(cfg, s.db, s.history, sid, x)
  }

  ghost predicate IdsIssued(db: Db, issued: map<Uuid, nat>) {
    && (forall t | t in db.txns :: t.id in issued)
    && (forall e | e in db.entries :: e.id in issued && e.txn in issued)
  }

  ghost predicate HoldersExist(s: State) {
    && (forall c | c in s.conns :: c < |s.sessions|)
    && (forall k | k in s.claims :: s.claims[k] < |s.sessions|)
    && (forall a | a in s.locks :: s.locks[a] < |s.sessions|)
  }

  /** The committed tables are exactly what the sequential ledger makes of the history. */
  ghost predicate TablesFollowHistory(s: State) {
    Legal(s.history) && Replay(s.history) == s.db
  }

  ghost predicate Inv(cfg: Config, s: State) {
    && TablesFollowHistory(s)
    && IdsIssued(s.db, s.issued)
    && HoldersExist(s)
    && forall sid | 0 <= sid < |s.sessions| :: SessionInv(cfg, s, sid)
  }

  lemma Now(cfg: Config, s: State, sid: nat)
    requires Inv(cfg, s) && sid < |s.sessions|
    ensures SessionInv(cfg, s, sid)
  {
  }

  /** Some defence against overdraft is in place. */
  predicate Defended(cfg: Config) {
    cfg.check || cfg.forUpdate
  }

  // ----- other sessions are not disturbed -----

  ghost predicate SameOthers<K>(m: map<K, nat>, m': map<K, nat>, sid: nat) {
    Freed(m, sid) == Freed(m', sid)
  }

  lemma SameOthersOwn<K>(m: map<K, nat>, m': map<K, nat>, sid: nat, o: nat)
    requires SameOthers(m, m', sid) && o != sid
    ensures OwnedBy(m', o) == OwnedBy(m, o)
  {
    forall k ensures k in OwnedBy(m', o) <==> k in OwnedBy(m, o) {
      assert k in Freed(m, sid) <==> k in Freed(m', sid);
    }
  }

  lemma SameOthersBound<K>(m: map<K, nat>, m': map<K, nat>, sid: nat, n: nat)
    requires SameOthers(m, m', sid) && sid < n && forall k | k in m :: m[k] < n
    ensures forall k | k in m' :: m'[k] < n
  {
    forall k | k in m' ensures m'[k] < n {
      if m'[k] != sid {
        assert k in Freed(m', sid);
      }
    }
  }

  lemma TakeOne<K>(m: map<K, nat>, k: K, sid: nat)
    requires !HeldByOther(m, k, sid)
    ensures SameOthers(m, m[k := sid], sid) && OwnedBy(m[k := sid], sid) == OwnedBy(m, sid) + {k}
  {
  }

  lemma FreeAll<K>(m: map<K, nat>, sid: nat)
    ensures SameOthers(m, Freed(m, sid), sid) && OwnedBy(Freed(m, sid), sid) == {}
  {
  }

  /** Only `sid` changed what it holds. */
  ghost predicate OthersHold(s: State, s': State, sid: nat) {
    && |s'.sessions| == |s.sessions|
    && (forall o | 0 <= o < |s.sessions| && o != sid :: s'.sessions[o] == s.sessions[o])
    && s'.conns - {sid} == s.conns - {sid}
    && SameOthers(s.claims, s'.claims, sid)
    && SameOthers(s.locks, s'.locks, sid)
    && (forall i | i in s.issued :: i in s'.issued && s'.issued[i] == s.issued[i])
  }

  lemma OutcomeGrows(cfg: Config, db: Db, h: seq<Event>, h': seq<Event>, sid: nat, x: Session)
    requires OutcomeHolds(cfg, db, h, sid, x) && h <= h'
    ensures OutcomeHolds(cfg, db, h', sid, x)
  {
  }

  lemma OthersUndisturbed(cfg: Config, s: State, s': State, sid: nat, o: nat)
    requires Inv(cfg, s) && OthersHold(s, s', sid) && s'.db == s.db && s.history <= s'.history
    requires o < |s.sessions| && o != sid
    ensures SessionInv(cfg, s', o)
  {
    assert SessionInv(cfg, s, o);
    SameOthersOwn(s.claims, s'.claims, sid, o);
    SameOthersOwn(s.locks, s'.locks, sid, o);
    assert o in s'.conns <==> o in s'.conns - {sid};
    OutcomeGrows(cfg, s.db, s.history, s'.history, o, s.sessions[o]);
  }

  /** A step that publishes nothing keeps the invariant if the moving session does. */
  lemma QuietStep(cfg: Config, s: State, s': State, sid: nat)
    requires Inv(cfg, s) && sid < |s.sessions| && OthersHold(s, s', sid) && s'.db == s.db
    requires s.history <= s'.history && TablesFollowHistory(s')
    requires SessionInv(cfg, s', sid)
    ensures Inv(cfg, s')
  {
    forall o | 0 <= o < |s'.sessions| ensures SessionInv(cfg, s', o) {
      if o != sid {
        OthersUndisturbed(cfg, s, s', sid, o);
      }
    }
    SameOthersBound(s.claims, s'.claims, sid, |s.sessions|);
    SameOthersBound(s.locks, s'.locks, sid, |s.sessions|);
    forall c | c in s'.conns ensures c < |s'.sessions| {
      assert c != sid ==> c in s'.conns - {sid};
    }
  }

  /** A step of `sid` that neither publishes nor decides anything. */
  lemma SilentStep(cfg: Config, s: State, s': State, sid: nat)
    requires Inv(cfg, s) && sid < |s.sessions| && OthersHold(s, s', sid)
    requires s'.db == s.db && s'.history == s.history
    requires SessionInv(cfg, s', sid)
    ensures Inv(cfg, s')
  {
    QuietStep(cfg, s, s', sid);
  }

  /** A session outside any transaction moves to another place outside. */
  lemma OutsideStep(cfg: Config, s: State, sid: nat, x': Session)
    requires sid < |s.sessions| && SessionInv(cfg, s, sid) && !InTx(s.sessions[sid].pc)
    requires !Validated(x'.pc) && x'.tx == NO_TX && OutcomeHolds(cfg, s.db, s.history, sid, x')
    ensures SessionInv(cfg, Put(s, sid, x'), sid) && OthersHold(s, Put(s, sid, x'), sid)
  {
  }

  /** A session inside its transaction takes another step inside it. */
  lemma InsideStep(cfg: Config, s: State, s': State, sid: nat)
    requires sid < |s.sessions| && SessionInv(cfg, s, sid) && |s'.sessions| == |s.sessions|
    requires s'.db == s.db && s'.history == s.history && s'.issued == s.issued
    requires var x, x' := s.sessions[sid], s'.sessions[sid];
      && InTx(x.pc) && InTx(x'.pc) && !x'.pc.Collided?
      && x'.call == x.call && x'.since == x.since && x'.attempt == x.attempt
      && HoldsExactly(cfg, s'.conns, s'.claims, s'.locks, sid, x')
      && TxHolds(cfg, s.db, s.issued, sid, x')
    ensures SessionInv(cfg, s', sid)
  {
  }
}
