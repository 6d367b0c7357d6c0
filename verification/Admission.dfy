/** The ledger refuses a request only when it must. */
module Admission {
  import opened LedgerTypes
  import opened Schema
  import opened SequentialLedger

  /** `db'` is `db` with the request's transaction and its two entries, and with any balances. */
  ghost predicate Records(db: Db, db': Db, call: Call, f: Fresh) {
    && db'.txns == db.txns + [NewRow(call, f)]
    && db'.entries == db.entries + [CreditEntry(call, f), DebitEntry(call, f)]
    && db'.accounts.Keys == db.accounts.Keys
    && forall a | a in db.accounts :: db'.accounts[a].terms == db.accounts[a].terms
  }

  /** Unique keys leave room for the request only if its key is unused. */
  lemma RecordedKeyWasFree(db: Db, db': Db, call: Call, f: Fresh)
    requires UniqueKeys(db'.txns) && Records(db, db', call, f)
    ensures FindByKey(db.txns, call.key).None?
  {
    var n := |db.txns|;
    assert db'.txns[n] == NewRow(call, f);
    forall t | t in db.txns ensures t.key != call.key {
      var i :| 0 <= i < n && db.txns[i] == t;
      assert db'.txns[i] == t;
    }
  }

  /** The new entries must be a pair, on existing accounts of the right currency. */
  lemma RecordedPairIsValid(db: Db, db': Db, call: Call, f: Fresh)
    requires TransactionsPaired(db') && EntriesReferenced(db') && FreshIds(db, f) && Records(db, db', call, f)
    ensures var t := call.terms;
      && t.from != t.to && t.amount > 0 && t.from in db.accounts && t.to in db.accounts
      && db.accounts[t.from].terms.currency == t.currency && db.accounts[t.to].terms.currency == t.currency
  {
    PostGroups(db, call, f, f.txn);
    assert NewRow(call, f) in db'.txns;
    assert EntryReferenced(db', CreditEntry(call, f)) && EntryReferenced(db', DebitEntry(call, f));
  }

  /** A cache that agrees with the longer log must hold the balances a transfer makes. */
  lemma RecordedBalances(db: Db, db': Db, call: Call, f: Fresh, a: Uuid)
    requires CacheAgrees(db) && CacheAgrees(db') && Records(db, db', call, f) && a in db.accounts
    ensures db'.accounts[a].balance == db.accounts[a].balance
              - (if a == call.terms.from then call.terms.amount else 0)
              + (if a == call.terms.to then call.terms.amount else 0)
  {
    EntryPairSum(db.entries, call, f, a);
  }

  /** A new request is accepted exactly when some consistent ledger records it: no valid
      transfer is ever turned away, and no invalid one let in. */
  lemma AcceptedExactlyWhenConsistent(db: Db, call: Call, f: Fresh)
    requires Consistent(db) && FreshIds(db, f)
    ensures Decide(db, call, f).Created? <==> exists db' :: Records(db, db', call, f) && Consistent(db')
    ensures forall db' | Records(db, db', call, f) && Consistent(db') ::
              Decide(db, call, f).Created? && db' == Post(db, call, f)
  {
    if Decide(db, call, f).Created? {
      ApplyKeepsConsistent(db, Request(0, call, f, Decide(db, call, f)));
      assert Records(db, Post(db, call, f), call, f);
    }
    forall db' | Records(db, db', call, f) && Consistent(db')
      ensures Decide(db, call, f).Created? && db' == Post(db, call, f)
    {
      OnlyPostingFits(db, db', call, f);
    }
  }

  lemma OnlyPostingFits(db: Db, db': Db, call: Call, f: Fresh)
    requires Consistent(db) && FreshIds(db, f) && Records(db, db', call, f) && Consistent(db')
    ensures Decide(db, call, f).Created? && db' == Post(db, call, f)
  {
    var t := call.terms;
    RecordedKeyWasFree(db, db', call, f);
    RecordedPairIsValid(db, db', call, f);
    RecordedBalances(db, db', call, f, t.from);
    RecordedBalances(db, db', call, f, t.to);
    assert BalanceAllowed(db'.accounts[t.from].terms, db'.accounts[t.from].balance);
    forall a | a in db.accounts ensures db'.accounts[a] == Moved(db.accounts, t)[a] {
      RecordedBalances(db, db', call, f, a);
    }
    assert db'.accounts == Moved(db.accounts, t);
  }

  // ----- which answer, in plain terms -----

  /** A stored transaction has the key of the call. */
  ghost predicate Stored(db: Db, call: Call, row: TxnRow) {
    row in db.txns && row.key == call.key
  }

  ghost predicate Unused(db: Db, call: Call) {
    forall row | row in db.txns :: row.key != call.key
  }

  ghost predicate BothOpen(db: Db, t: Terms) {
    t.from in db.accounts && t.to in db.accounts
  }

  ghost predicate BothIn(db: Db, t: Terms)
    requires BothOpen(db, t)
  {
    db.accounts[t.from].terms.currency == t.currency && db.accounts[t.to].terms.currency == t.currency
  }

  /** The sender may go below zero, or need not. */
  ghost predicate CanPay(db: Db, t: Terms)
    requires BothOpen(db, t)
  {
    db.accounts[t.from].terms.allowsNegative || db.accounts[t.from].balance - t.amount >= 0
  }

  /** Neither account leaves the range of `NUMERIC(20, 8)`. */
  ghost predicate StaysInRange(db: Db, t: Terms)
    requires BothOpen(db, t)
  {
    && db.accounts[t.from].balance - t.amount > -100_000_000_000_000_000_000
    && db.accounts[t.to].balance + t.amount < 100_000_000_000_000_000_000
  }

  /** The answer that a call is due, each by its own conditions. */
  ghost predicate Due(db: Db, call: Call, f: Fresh, a: Answer) {
    var t := call.terms;
    match a
    case Replayed(id) => exists row :: Stored(db, call, row) && row.digest == call.digest && row.id == id
    case KeyConflict => exists row :: Stored(db, call, row) && row.digest != call.digest
    case SelfTransfer => Unused(db, call) && t.to == t.from
    case NonPositiveAmount => Unused(db, call) && t.to != t.from && t.amount <= 0
    case AccountNotFound(id) =>
      && Unused(db, call) && t.to != t.from && t.amount > 0
      && id in {t.from, t.to} - db.accounts.Keys && forall other | other in {t.from, t.to} - db.accounts.Keys :: id <= other
    case CurrencyMismatch(id) =>
      && Unused(db, call) && t.to != t.from && t.amount > 0 && BothOpen(db, t)
      && id in {t.from, t.to} && db.accounts[id].terms.currency != t.currency
      && (id != t.from ==> db.accounts[t.from].terms.currency == t.currency)
    case InsufficientFunds(id) =>
      && Unused(db, call) && t.to != t.from && t.amount > 0 && BothOpen(db, t) && BothIn(db, t)
      && id == t.from && !CanPay(db, t)
    case NumericOverflow =>
      && Unused(db, call) && t.to != t.from && t.amount > 0 && BothOpen(db, t) && BothIn(db, t)
      && CanPay(db, t) && !StaysInRange(db, t)
    case Created(id) =>
      && Unused(db, call) && t.to != t.from && t.amount > 0 && BothOpen(db, t) && BothIn(db, t)
      && CanPay(db, t) && StaysInRange(db, t) && id == f.txn
    case _ => false
  }

  lemma StoredIsFound(db: Db, call: Call, row: TxnRow)
    requires UniqueKeys(db.txns) && Stored(db, call, row)
    ensures FindByKey(db.txns, call.key) == Some(row)
  {
    var found := FindByKey(db.txns, call.key).value;
    var i :| 0 <= i < |db.txns| && db.txns[i] == row;
    var j :| 0 <= j < |db.txns| && db.txns[j] == found;
  }

  /** The ledger gives each request the one answer it is due. */
  lemma AnswersAreDue(db: Db, call: Call, f: Fresh, a: Answer)
    requires UniqueKeys(db.txns)
    ensures Decide(db, call, f) == a <==> Due(db, call, f, a)
  {
    var found := FindByKey(db.txns, call.key);
    if found.Some? {
      assert Stored(db, call, found.value);
      forall row | Stored(db, call, row) ensures row == found.value {
        StoredIsFound(db, call, row);
      }
    } else {
      assert Unused(db, call);
      NewRequestIsDue(db, call, f, a);
    }
  }

  lemma NewRequestIsDue(db: Db, call: Call, f: Fresh, a: Answer)
    requires Unused(db, call)
    ensures Decide(db, call, f) == a <==> Due(db, call, f, a)
  {
    var t := call.terms;
    var one, two := FirstLock(t), SecondLock(t);
    if t.to != t.from && !BothOpen(db, t) {
      var missing := {t.from, t.to} - db.accounts.Keys;
      assert one !in db.accounts ==> one in missing;
      assert two !in db.accounts ==> two in missing;
      assert forall id | id in missing :: id == one || id == two;
    }
  }
}
