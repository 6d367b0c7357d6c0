/** The steps that write: balance updates, entry inserts, COMMIT, and the reads after it. */
module ProtocolCommit {
  import opened LedgerTypes
  import opened Schema
  import opened OrderedRead
  import opened SequentialLedger
  import opened Protocol
  import opened ProtocolInvariant
  import opened ProtocolSteps

  /** What the sequential ledger would find, once both account rows have been checked. */
  lemma CheckedFacts(cfg: Config, s: State, sid: nat)
    requires Inv(cfg, s) && sid < |s.sessions| && Checked(s.sessions[sid].pc)
    ensures var x := s.sessions[sid]; var t := x.call.terms; var accounts := s.db.accounts;
      && FindByKey(s.db.txns, x.call.key).None?
      && t.from != t.to && t.amount > 0 && t.from in accounts && t.to in accounts
      && accounts[t.from].terms.currency == accounts[t.to].terms.currency == t.currency
      && (cfg.forUpdate ==> accounts[t.from].terms.allowsNegative || accounts[t.from].balance >= t.amount)
      && NoOverdraft(accounts)
  {
    Now(cfg, s, sid);
    LegalStatesAreConsistent(s.history);
  }

  /** `id` is the account the session updates next, by `delta`. */
  predicate UpdatesNext(x: Session, id: Uuid, delta: int, next: Pc) {
    var t := x.call.terms;
    || (x.pc.AdjustFrom? && id == t.from && delta == -t.amount && next == AdjustTo)
    || (x.pc.AdjustTo? && id == t.to && delta == t.amount && next == EntryFrom)
  }

  function Updated(x: Session, id: Uuid, balance: Units, next: Pc): Session {
    x.(pc := next, tx := x.tx.(writes := x.tx.writes[id := balance]))
  }

  /** The balance update of one account, as far as the transaction's own facts go. */
  lemma UpdateKeepsTx(cfg: Config, db: Db, issued: map<Uuid, nat>, sid: nat, x: Session, id: Uuid, delta: int, next: Pc)
    requires TxHolds(cfg, db, issued, sid, x) && x.call.terms.from != x.call.terms.to && UpdatesNext(x, id, delta, next)
    requires id in db.accounts && Fits(db.accounts[id].balance + delta)
    requires cfg.check ==> BalanceAllowed(db.accounts[id].terms, db.accounts[id].balance + delta)
    ensures TxHolds(cfg, db, issued, sid, Updated(x, id, db.accounts[id].balance + delta, next))
  {
  }

  lemma UpdateTakesLock(cfg: Config, s: State, sid: nat, x: Session, id: Uuid, balance: Units, delta: int, next: Pc)
    requires HoldsExactly(cfg, s.conns, s.claims, s.locks, sid, x) && UpdatesNext(x, id, delta, next)
    requires !HeldByOther(s.locks, id, sid)
    ensures HoldsExactly(cfg, s.conns, s.claims, s.locks[id := sid], sid, Updated(x, id, balance, next))
  {
    TakeOne(s.locks, id, sid);
    assert HeldLocks(cfg, Updated(x, id, balance, next)) == HeldLocks(cfg, x) + {id};
  }

  lemma UpdateKeepsSession(cfg: Config, s: State, sid: nat, id: Uuid, delta: int, next: Pc)
    requires sid < |s.sessions| && SessionInv(cfg, s, sid) && UpdatesNext(s.sessions[sid], id, delta, next)
    requires !HeldByOther(s.locks, id, sid)
    requires id in s.db.accounts && Fits(s.db.accounts[id].balance + delta)
    requires cfg.check ==> BalanceAllowed(s.db.accounts[id].terms, s.db.accounts[id].balance + delta)
    ensures var x' := Updated(s.sessions[sid], id, s.db.accounts[id].balance + delta, next);
      SessionInv(cfg, Put(s, sid, x').(locks := s.locks[id := sid]), sid)
  {
    var x, balance := s.sessions[sid], s.db.accounts[id].balance + delta;
    UpdateTakesLock(cfg, s, sid, x, id, balance, delta, next);
    UpdateKeepsTx(cfg, s.db, s.issued, sid, x, id, delta, next);
    InsideStep(cfg, s, Put(s, sid, Updated(x, id, balance, next)).(locks := s.locks[id := sid]), sid);
  }

  /** Taking one more free row disturbs nobody else. */
  lemma LockDisturbsNobody(s: State, sid: nat, x: Session, id: Uuid)
    requires sid < |s.sessions| && !HeldByOther(s.locks, id, sid)
    ensures OthersHold(s, Put(s, sid, x).(locks := s.locks[id := sid]), sid)
  {
    TakeOne(s.locks, id, sid);
  }

  lemma UpdateKeepsInv(cfg: Config, s: State, sid: nat, id: Uuid, delta: int, next: Pc)
    requires Inv(cfg, s) && sid < |s.sessions| && UpdatesNext(s.sessions[sid], id, delta, next)
    requires !HeldByOther(s.locks, id, sid)
    requires id in s.db.accounts && Fits(s.db.accounts[id].balance + delta)
    requires cfg.check ==> BalanceAllowed(s.db.accounts[id].terms, s.db.accounts[id].balance + delta)
    ensures var x' := Updated(s.sessions[sid], id, s.db.accounts[id].balance + delta, next);
      Inv(cfg, Put(s, sid, x').(locks := s.locks[id := sid]))
  {
    var x' := Updated(s.sessions[sid], id, s.db.accounts[id].balance + delta, next);
    Now(cfg, s, sid);
    UpdateKeepsSession(cfg, s, sid, id, delta, next);
    LockDisturbsNobody(s, sid, x', id);
    SilentStep(cfg, s, Put(s, sid, x').(locks := s.locks[id := sid]), sid);
  }

  lemma NothingWrittenYet(cfg: Config, s: State, sid: nat, id: Uuid, delta: int, next: Pc)
    requires Inv(cfg, s) && sid < |s.sessions| && UpdatesNext(s.sessions[sid], id, delta, next)
    ensures id !in s.sessions[sid].tx.writes
  {
    Now(cfg, s, sid);
  }

  lemma AdjustFromKeepsInv(cfg: Config, s: State, sid: nat)
    requires Inv(cfg, s) && sid < |s.sessions| && s.sessions[sid].pc.AdjustFrom? && !Blocked(cfg, s, sid)
    requires Defended(cfg)
    ensures var t := s.sessions[sid].call.terms; Inv(cfg, GoAdjust(cfg, s, sid, t.from, -t.amount, AdjustTo))
  {
    var t := s.sessions[sid].call.terms;
    CheckedFacts(cfg, s, sid);
    NothingWrittenYet(cfg, s, sid, t.from, -t.amount, AdjustTo);
    var balance := s.db.accounts[t.from].balance - t.amount;
    if !Fits(balance) {
      RejectKeepsInv(cfg, s, sid, NumericOverflow);
    } else if cfg.check && !BalanceAllowed(s.db.accounts[t.from].terms, balance) {
      RejectKeepsInv(cfg, s, sid, InsufficientFunds(t.from));
    } else {
      UpdateKeepsInv(cfg, s, sid, t.from, -t.amount, AdjustTo);
    }
  }

  /** The sender's pending balance shows that the sender can pay, whichever defence is in place. */
  lemma SenderCanPay(cfg: Config, s: State, sid: nat)
    requires Inv(cfg, s) && sid < |s.sessions| && Defended(cfg)
    requires s.sessions[sid].pc.AdjustTo? || Adjusted(s.sessions[sid].pc)
    ensures var x := s.sessions[sid]; var t := x.call.terms; var accounts := s.db.accounts;
      && t.from in x.tx.writes && t.from in accounts
      && x.tx.writes[t.from] == accounts[t.from].balance - t.amount
      && (accounts[t.from].terms.allowsNegative || accounts[t.from].balance >= t.amount)
  {
    CheckedFacts(cfg, s, sid);
    Now(cfg, s, sid);
  }

  lemma AdjustToKeepsInv(cfg: Config, s: State, sid: nat)
    requires Inv(cfg, s) && sid < |s.sessions| && s.sessions[sid].pc.AdjustTo? && !Blocked(cfg, s, sid)
    requires Defended(cfg)
    ensures var t := s.sessions[sid].call.terms; Inv(cfg, GoAdjust(cfg, s, sid, t.to, t.amount, EntryFrom))
  {
    var t := s.sessions[sid].call.terms;
    CheckedFacts(cfg, s, sid);
    SenderCanPay(cfg, s, sid);
    NothingWrittenYet(cfg, s, sid, t.to, t.amount, EntryFrom);
    if !Fits(s.db.accounts[t.to].balance + t.amount) {
      RejectKeepsInv(cfg, s, sid, NumericOverflow);
    } else {
      assert BalanceAllowed(s.db.accounts[t.to].terms, s.db.accounts[t.to].balance + t.amount);
      UpdateKeepsInv(cfg, s, sid, t.to, t.amount, EntryFrom);
    }
  }

  /** No entry insert of the transfer path ever violates a constraint. */
  lemma EntryInsertsSucceed(cfg: Config, s: State, sid: nat, e: EntryRow)
    requires Inv(cfg, s) && sid < |s.sessions| && Checked(s.sessions[sid].pc)
    requires var x := s.sessions[sid]; e == CreditEntry(x.call, x.tx.drawn) || e == DebitEntry(x.call, x.tx.drawn)
    ensures EntryAllowed(s.db.accounts, VisibleParent(s, sid, e.txn), s.sessions[sid].tx.drawn.xid, e)
  {
    CheckedFacts(cfg, s, sid);
  }

  lemma EntryKeepsTx(cfg: Config, db: Db, issued: map<Uuid, nat>, sid: nat, x: Session, e: EntryRow, next: Pc)
    requires TxHolds(cfg, db, issued, sid, x)
    requires || (x.pc.EntryFrom? && e == CreditEntry(x.call, x.tx.drawn) && next == EntryTo)
             || (x.pc.EntryTo? && e == DebitEntry(x.call, x.tx.drawn) && next == Commit)
    ensures TxHolds(cfg, db, issued, sid, x.(pc := next, tx := x.tx.(entries := x.tx.entries + [e])))
  {
  }

  lemma EntryKeepsSession(cfg: Config, s: State, sid: nat, e: EntryRow, next: Pc)
    requires sid < |s.sessions| && SessionInv(cfg, s, sid)
    requires EntryAllowed(s.db.accounts, VisibleParent(s, sid, e.txn), s.sessions[sid].tx.drawn.xid, e)
    requires var x := s.sessions[sid];
      || (x.pc.EntryFrom? && e == CreditEntry(x.call, x.tx.drawn) && next == EntryTo)
      || (x.pc.EntryTo? && e == DebitEntry(x.call, x.tx.drawn) && next == Commit)
    ensures var s' := GoEntry(s, sid, e, next); SessionInv(cfg, s', sid) && OthersHold(s, s', sid)
  {
    EntryKeepsTx(cfg, s.db, s.issued, sid, s.sessions[sid], e, next);
    InsideStep(cfg, s, GoEntry(s, sid, e, next), sid);
  }

  lemma EntryKeepsInv(cfg: Config, s: State, sid: nat)
    requires Inv(cfg, s) && sid < |s.sessions|
    requires s.sessions[sid].pc.EntryFrom? || s.sessions[sid].pc.EntryTo?
    ensures Inv(cfg, Advance(cfg, s, sid, NO_DRAW))
  {
    var x := s.sessions[sid];
    var e := if x.pc.EntryFrom? then CreditEntry(x.call, x.tx.drawn) else DebitEntry(x.call, x.tx.drawn);
    EntryInsertsSucceed(cfg, s, sid, e);
    Now(cfg, s, sid);
    EntryKeepsSession(cfg, s, sid, e, if x.pc.EntryFrom? then EntryTo else Commit);
    SilentStep(cfg, s, Advance(cfg, s, sid, NO_DRAW), sid);
  }

  // ----- COMMIT -----

  /** The deferred trigger never refuses a transfer. */
  lemma DeferredChecksAlwaysPass(cfg: Config, s: State, sid: nat)
    requires Inv(cfg, s) && sid < |s.sessions| && s.sessions[sid].pc.Commit? && Defended(cfg)
    ensures DeferredChecksPass(s, sid)
  {
    var x := s.sessions[sid];
    CommitIsPost(cfg, s, sid);
    EntriesAtCommit(cfg, s, sid);
    PostGroups(s.db, x.call, x.tx.drawn, x.tx.drawn.txn);
    CheckedFacts(cfg, s, sid);
    PairIsAccepted([CreditEntry(x.call, x.tx.drawn), DebitEntry(x.call, x.tx.drawn)]);
  }

  lemma EntriesAtCommit(cfg: Config, s: State, sid: nat)
    requires Inv(cfg, s) && sid < |s.sessions| && s.sessions[sid].pc.Commit?
    ensures var x := s.sessions[sid];
      && x.tx.entries == [CreditEntry(x.call, x.tx.drawn), DebitEntry(x.call, x.tx.drawn)]
      && x.tx.drawn.credit != x.tx.drawn.debit
  {
    Now(cfg, s, sid);
  }

  lemma WrittenIsMoved(cfg: Config, accounts: map<Uuid, AccountRow>, writes: map<Uuid, Units>, t: Terms)
    requires WritesHold(cfg, accounts, writes, t) && writes.Keys == {t.from, t.to} && t.from != t.to
    ensures t.from in accounts && t.to in accounts
    ensures Fits(accounts[t.from].balance - t.amount) && Fits(accounts[t.to].balance + t.amount)
    ensures Written(accounts, writes) == Moved(accounts, t)
  {
    assert t.from in writes && t.to in writes;
  }

  lemma WritesAtCommit(cfg: Config, s: State, sid: nat)
    requires sid < |s.sessions| && s.sessions[sid].pc.Commit? && SessionInv(cfg, s, sid)
    ensures var x := s.sessions[sid];
      && x.tx.writes.Keys == {x.call.terms.from, x.call.terms.to} == HeldLocks(cfg, x)
      && WritesHold(cfg, s.db.accounts, x.tx.writes, x.call.terms)
      && FreshIds(s.db, x.tx.drawn)
  {
  }

  /** COMMIT does to the tables exactly what the sequential ledger does for this request. */
  lemma CommitIsPost(cfg: Config, s: State, sid: nat)
    requires Inv(cfg, s) && sid < |s.sessions| && s.sessions[sid].pc.Commit? && Defended(cfg)
    ensures var x := s.sessions[sid];
      && Decide(s.db, x.call, x.tx.drawn) == Created(x.tx.drawn.txn)
      && FreshIds(s.db, x.tx.drawn)
      && Publish(s, sid).db == Post(s.db, x.call, x.tx.drawn)
      && TablesFollowHistory(Publish(s, sid))
  {
    var x := s.sessions[sid];
    CheckedFacts(cfg, s, sid);
    SenderCanPay(cfg, s, sid);
    EntriesAtCommit(cfg, s, sid);
    Now(cfg, s, sid);
    WritesAtCommit(cfg, s, sid);
    WrittenIsMoved(cfg, s.db.accounts, x.tx.writes, x.call.terms);
    LegalSnoc(s.history, RequestEvent(s, sid, Created(x.tx.drawn.txn)));
  }

  lemma RecordedStays(db: Db, db': Db, more: seq<TxnRow>, call: Call, row: TxnRow)
    requires Recorded(db, call, row) && db'.txns == db.txns + more
    ensures Recorded(db', call, row)
  {
    FindByKeyAppend(db.txns, more, call.key);
    FindByIdAppend(db.txns, more, row.id);
  }

  /** What a decided call relies on survives the commit of another. */
  lemma OutcomeStays(cfg: Config, db: Db, h: seq<Event>, call: Call, f: Fresh, h': seq<Event>, o: nat, y: Session)
    requires OutcomeHolds(cfg, db, h, o, y) && h <= h'
    requires Decide(db, call, f).Created? && FreshIds(db, f)
    ensures OutcomeHolds(cfg, Post(db, call, f), h', o, y)
  {
    var db' := Post(db, call, f);
    var more := [NewRow(call, f)];
    match y.pc
    case Collided => FindByKeyAppend(db.txns, more, y.call.key);
    case Reread => FindByKeyAppend(db.txns, more, y.call.key);
    case FetchTxn(id, _, _) => RecordedStays(db, db', more, y.call, FindById(db.txns, id).value);
    case FetchEntries(row, _, _) => RecordedStays(db, db', more, y.call, row);
    case Done(r) =>
      if r.answer.Created? || r.answer.Replayed? {
        RecordedStays(db, db', more, y.call, FindById(db.txns, r.answer.id).value);
        DetailIsPermanent(db, db', more, [CreditEntry(call, f), DebitEntry(call, f)], r.answer.id);
      }
    case _ =>
  }

  /** Two sessions never hold the same row lock. */
  lemma LocksAreExclusive(cfg: Config, s: State, a: nat, b: nat)
    requires Inv(cfg, s) && a < |s.sessions| && b < |s.sessions| && a != b
    ensures HeldLocks(cfg, s.sessions[a]) !! HeldLocks(cfg, s.sessions[b])
    ensures HasClaim(s.sessions[a].pc) && HasClaim(s.sessions[b].pc) ==>
              s.sessions[a].call.key != s.sessions[b].call.key
  {
    Now(cfg, s, a);
    Now(cfg, s, b);
    assert OwnedBy(s.locks, a) !! OwnedBy(s.locks, b);
    if HasClaim(s.sessions[a].pc) && HasClaim(s.sessions[b].pc) {
      assert s.sessions[a].call.key in OwnedBy(s.claims, a) && s.sessions[b].call.key in OwnedBy(s.claims, b);
    }
  }

  /** Rows that another session has locked keep their balance when `sid` commits; every row keeps its terms. */
  lemma RowsStay(cfg: Config, s: State, sid: nat, y: Session)
    requires sid < |s.sessions| && s.sessions[sid].pc.Commit? && SessionInv(cfg, s, sid)
    requires HeldLocks(cfg, s.sessions[sid]) !! HeldLocks(cfg, y)
    ensures var accounts' := Publish(s, sid).db.accounts;
      forall a | a in s.db.accounts ::
        && a in accounts' && accounts'[a].terms == s.db.accounts[a].terms
        && (a in HeldLocks(cfg, y) ==> accounts'[a] == s.db.accounts[a])
  {
    WritesAtCommit(cfg, s, sid);
  }

  lemma RowFactsStay(cfg: Config, s: State, sid: nat, o: nat)
    requires sid < |s.sessions| && s.sessions[sid].pc.Commit? && SessionInv(cfg, s, sid)
    requires o < |s.sessions| && InTx(s.sessions[o].pc) && SessionInv(cfg, s, o)
    requires HeldLocks(cfg, s.sessions[sid]) !! HeldLocks(cfg, s.sessions[o])
    ensures var y, accounts' := s.sessions[o], Publish(s, sid).db.accounts;
      ReadsHold(cfg, accounts', y.tx.read) && WritesHold(cfg, accounts', y.tx.writes, y.call.terms)
  {
    var y := s.sessions[o];
    RowsStay(cfg, s, sid, y);
    assert y.tx.writes.Keys == AccountsWritten(y) && AccountsWritten(y) <= HeldLocks(cfg, y);
    assert y.tx.read.Keys == RowsRead(y) && (cfg.forUpdate ==> RowsRead(y) == HeldLocks(cfg, y));
  }

  lemma TxHoldsOver(cfg: Config, db: Db, db': Db, issued: map<Uuid, nat>, o: nat, y: Session)
    requires TxHolds(cfg, db, issued, o, y)
    requires FreshIds(db', y.tx.drawn) && (HasClaim(y.pc) ==> FindByKey(db'.txns, y.call.key).None?)
    requires ReadsHold(cfg, db'.accounts, y.tx.read) && WritesHold(cfg, db'.accounts, y.tx.writes, y.call.terms)
    ensures TxHolds(cfg, db', issued, o, y)
  {
  }

  lemma DrawsAreDisjoint(issued: map<Uuid, nat>, f: Fresh, a: nat, g: Fresh, b: nat)
    requires DrawnFor(issued, f, a) && DrawnFor(issued, g, b) && a != b
    ensures {f.txn, f.credit, f.debit} !! {g.txn, g.credit, g.debit}
  {
  }

  /** An open transaction is not disturbed by the commit of another: it has another key and other locks. */
  lemma TxStays(cfg: Config, s: State, sid: nat, o: nat)
    requires Inv(cfg, s) && sid < |s.sessions| && s.sessions[sid].pc.Commit? && Defended(cfg)
    requires o < |s.sessions| && o != sid && InTx(s.sessions[o].pc)
    ensures TxHolds(cfg, Publish(s, sid).db, s.issued, o, s.sessions[o])
  {
    var x, y := s.sessions[sid], s.sessions[o];
    CommitIsPost(cfg, s, sid);
    LocksAreExclusive(cfg, s, sid, o);
    Now(cfg, s, sid);
    Now(cfg, s, o);
    RowFactsStay(cfg, s, sid, o);
    DrawsAreDisjoint(s.issued, x.tx.drawn, sid, y.tx.drawn, o);
    FreshStays(s.db, x.call, x.tx.drawn, y.tx.drawn);
    if HasClaim(y.pc) {
      KeyStaysFree(s.db, x.call, x.tx.drawn, y.call.key);
    }
    TxHoldsOver(cfg, s.db, Publish(s, sid).db, s.issued, o, y);
  }

  /** Once the write set is published and the session has left, the invariant holds again. */
  lemma PublishKeepsInv(cfg: Config, s: State, sid: nat, x': Session)
    requires Inv(cfg, s) && sid < |s.sessions| && s.sessions[sid].pc.Commit? && Defended(cfg)
    requires !Validated(x'.pc) && OutcomeHolds(cfg, Publish(s, sid).db, Publish(s, sid).history, sid, x')
    ensures Inv(cfg, Leave(Publish(s, sid), sid, x'))
  {
    var x := s.sessions[sid];
    var p := Publish(s, sid);
    var s' := Leave(p, sid, x');
    CommitIsPost(cfg, s, sid);
    FreeAll(s.claims, sid);
    FreeAll(s.locks, sid);
    SameOthersBound(s.claims, s'.claims, sid, |s.sessions|);
    SameOthersBound(s.locks, s'.locks, sid, |s.sessions|);
    Now(cfg, s, sid);
    forall o | 0 <= o < |s'.sessions| ensures SessionInv(cfg, s', o) {
      if o != sid {
        PublishKeepsOther(cfg, s, sid, x', o);
      }
    }
    assert IdsIssued(s'.db, s'.issued);
  }

  lemma PublishKeepsOther(cfg: Config, s: State, sid: nat, x': Session, o: nat)
    requires Inv(cfg, s) && sid < |s.sessions| && s.sessions[sid].pc.Commit? && Defended(cfg)
    requires o < |s.sessions| && o != sid
    ensures SessionInv(cfg, Leave(Publish(s, sid), sid, x'), o)
  {
    var x := s.sessions[sid];
    var y := s.sessions[o];
    CommitIsPost(cfg, s, sid);
    Now(cfg, s, o);
    FreeAll(s.claims, sid);
    FreeAll(s.locks, sid);
    SameOthersOwn(s.claims, Freed(s.claims, sid), sid, o);
    SameOthersOwn(s.locks, Freed(s.locks, sid), sid, o);
    OutcomeStays(cfg, s.db, s.history, x.call, x.tx.drawn, Publish(s, sid).history, o, y);
    if InTx(y.pc) {
      TxStays(cfg, s, sid, o);
    }
  }

  lemma CommitKeepsInv(cfg: Config, s: State, sid: nat)
    requires Inv(cfg, s) && sid < |s.sessions| && s.sessions[sid].pc.Commit? && Defended(cfg)
    ensures Inv(cfg, GoCommit(s, sid))
  {
    var x := s.sessions[sid];
    DeferredChecksAlwaysPass(cfg, s, sid);
    CommitIsPost(cfg, s, sid);
    Now(cfg, s, sid);
    CommitIsRecorded(cfg, s, sid);
    PublishKeepsInv(cfg, s, sid, x.(pc := FetchTxn(x.tx.drawn.txn, false, |s.history|)));
  }

  lemma CommitIsRecorded(cfg: Config, s: State, sid: nat)
    requires Inv(cfg, s) && sid < |s.sessions| && s.sessions[sid].pc.Commit? && Defended(cfg)
    ensures RecordedId(Publish(s, sid).db, s.sessions[sid].call, s.sessions[sid].tx.drawn.txn)
  {
    var x := s.sessions[sid];
    var db' := Publish(s, sid).db;
    CommitIsPost(cfg, s, sid);
    PostKeepsUniqueOf(s.db, s.history, x.call, x.tx.drawn);
    assert NewRow(x.call, x.tx.drawn) in db'.txns;
    UniqueRowIsFound(db'.txns, NewRow(x.call, x.tx.drawn));
  }

  lemma PostKeepsUniqueOf(db: Db, h: seq<Event>, call: Call, f: Fresh)
    requires Legal(h) && Replay(h) == db && Decide(db, call, f).Created? && FreshIds(db, f)
    ensures KeysAndIdsUnique(Post(db, call, f))
  {
    LegalStatesAreConsistent(h);
    PostKeepsUnique(db, call, f);
  }

  lemma LoseCommitKeepsInv(cfg: Config, s: State, sid: nat, retryable: bool)
    requires Inv(cfg, s) && sid < |s.sessions| && s.sessions[sid].pc.Commit? && Defended(cfg)
    ensures Inv(cfg, Leave(Publish(s, sid), sid, AfterError(s.sessions[sid], retryable)))
  {
    Now(cfg, s, sid);
    PublishKeepsInv(cfg, s, sid, AfterError(s.sessions[sid], retryable));
  }

  // ----- the reads after the decision -----

  lemma FetchTxnOutcome(cfg: Config, s: State, sid: nat)
    requires sid < |s.sessions| && SessionInv(cfg, s, sid) && s.sessions[sid].pc.FetchTxn?
    ensures var x, row := s.sessions[sid], FindById(s.db.txns, s.sessions[sid].pc.id);
      && row.Some?
      && OutcomeHolds(cfg, s.db, s.history, sid, x.(pc := FetchEntries(row.value, x.pc.replayed, x.pc.at)))
  {
  }

  lemma FetchTxnKeepsSession(cfg: Config, s: State, sid: nat)
    requires sid < |s.sessions| && SessionInv(cfg, s, sid) && s.sessions[sid].pc.FetchTxn?
    ensures var s' := GoFetchTxn(s, sid); SessionInv(cfg, s', sid) && OthersHold(s, s', sid)
  {
    var x := s.sessions[sid];
    FetchTxnOutcome(cfg, s, sid);
    OutsideStep(cfg, s, sid, x.(pc := FetchEntries(FindById(s.db.txns, x.pc.id).value, x.pc.replayed, x.pc.at)));
  }

  lemma FetchEntriesKeepsSession(cfg: Config, s: State, sid: nat)
    requires sid < |s.sessions| && SessionInv(cfg, s, sid) && s.sessions[sid].pc.FetchEntries?
    ensures var s' := GoFetchEntries(s, sid); SessionInv(cfg, s', sid) && OthersHold(s, s', sid)
  {
    OutsideStep(cfg, s, sid, GoFetchEntries(s, sid).sessions[sid]);
  }

  lemma FetchKeepsInv(cfg: Config, s: State, sid: nat)
    requires Inv(cfg, s) && sid < |s.sessions|
    requires s.sessions[sid].pc.FetchTxn? || s.sessions[sid].pc.FetchEntries?
    ensures Inv(cfg, Advance(cfg, s, sid, NO_DRAW))
  {
    Now(cfg, s, sid);
    if s.sessions[sid].pc.FetchTxn? {
      FetchTxnKeepsSession(cfg, s, sid);
    } else {
      FetchEntriesKeepsSession(cfg, s, sid);
    }
    SilentStep(cfg, s, Advance(cfg, s, sid, NO_DRAW), sid);
  }

  // ----- accounts -----

  lemma OpenKeepsTx(cfg: Config, db: Db, id: Uuid, row: AccountRow, issued: map<Uuid, nat>, o: nat, y: Session)
    requires TxHolds(cfg, db, issued, o, y) && id !in db.accounts
    ensures TxHolds(cfg, db.(accounts := db.accounts[id := row]), issued, o, y)
  {
  }

  lemma OpenKeepsOutcome(cfg: Config, db: Db, id: Uuid, row: AccountRow, h: seq<Event>, e: Event, o: nat, y: Session)
    requires OutcomeHolds(cfg, db, h, o, y)
    ensures OutcomeHolds(cfg, db.(accounts := db.accounts[id := row]), h + [e], o, y)
  {
  }

  lemma OpenKeepsSession(cfg: Config, s: State, id: Uuid, row: AccountRow, o: nat)
    requires o < |s.sessions| && SessionInv(cfg, s, o) && id !in s.db.accounts && row.balance == 0
    ensures SessionInv(cfg, Do(cfg, s, OpenAccount(id, row)), o)
  {
    var y := s.sessions[o];
    OpenKeepsOutcome(cfg, s.db, id, row, s.history, Opened(id, row), o, y);
    if InTx(y.pc) {
      OpenKeepsTx(cfg, s.db, id, row, s.issued, o, y);
    }
  }

  lemma OpenKeepsInv(cfg: Config, s: State, id: Uuid, row: AccountRow)
    requires Inv(cfg, s) && id !in s.db.accounts && row.balance == 0
    ensures Inv(cfg, Do(cfg, s, OpenAccount(id, row)))
  {
    LegalSnoc(s.history, Opened(id, row));
    forall o | 0 <= o < |s.sessions| ensures SessionInv(cfg, Do(cfg, s, OpenAccount(id, row)), o) {
      Now(cfg, s, o);
      OpenKeepsSession(cfg, s, id, row, o);
    }
  }

  // ----- every step, every schedule -----

  lemma StepKeepsInv(cfg: Config, s: State, l: Label)
    requires Inv(cfg, s) && Defended(cfg)
    ensures Inv(cfg, Do(cfg, s, l))
  {
    if Enabled(cfg, s, l) {
      match l
      case Arrive(call) => ArriveKeepsInv(cfg, s, call);
      case OpenAccount(id, row) => OpenKeepsInv(cfg, s, id, row);
      case Fail(sid, retryable) => FailKeepsInv(cfg, s, sid, retryable);
      case LoseCommit(sid, retryable) => LoseCommitKeepsInv(cfg, s, sid, retryable);
      case Go(sid, f) =>
        match s.sessions[sid].pc
        case Lookup => LookupKeepsInv(cfg, s, sid);
        case Begin => BeginKeepsInv(cfg, s, sid, f);
        case Claim => ClaimKeepsInv(cfg, s, sid);
        case Collided => CollidedKeepsInv(cfg, s, sid);
        case Reread => RereadKeepsInv(cfg, s, sid);
        case Lock1 => LockKeepsInv(cfg, s, sid);
        case Lock2 => LockKeepsInv(cfg, s, sid);
        case Check => CheckKeepsInv(cfg, s, sid);
        case AdjustFrom => AdjustFromKeepsInv(cfg, s, sid);
        case AdjustTo => AdjustToKeepsInv(cfg, s, sid);
        case EntryFrom => EntryKeepsInv(cfg, s, sid);
        case EntryTo => EntryKeepsInv(cfg, s, sid);
        case Commit => CommitKeepsInv(cfg, s, sid);
        case FetchTxn(_, _, _) => FetchKeepsInv(cfg, s, sid);
        case FetchEntries(_, _, _) => FetchKeepsInv(cfg, s, sid);
    }
  }

  lemma {:induction false} ScheduleKeepsInv(cfg: Config, s: State, schedule: seq<Label>)
    requires Inv(cfg, s) && Defended(cfg)
    ensures Inv(cfg, After(cfg, s, schedule))
    decreases |schedule|
  {
    if schedule != [] {
      StepKeepsInv(cfg, s, schedule[0]);
      ScheduleKeepsInv(cfg, Do(cfg, s, schedule[0]), schedule[1..]);
    }
  }

  /** The invariant holds after every schedule of every set of calls. */
  lemma EveryScheduleKeepsInv(cfg: Config, schedule: seq<Label>)
    requires Defended(cfg)
    ensures Inv(cfg, After(cfg, INIT, schedule))
  {
    ScheduleKeepsInv(cfg, INIT, schedule);
  }
}
