/** The transfer service as it is written: tables that are updated in place, one database
    transaction at a time, and the retry loop around it. */
module Service {
  import opened LedgerTypes
  import opened Schema
  import opened OrderedRead
  import opened SequentialLedger

  /** What goes wrong outside the service during one attempt: nothing, the n-th statement
      fails, or the COMMIT succeeds but its confirmation is lost. */
  datatype Trouble = Calm | AtStatement(number: nat, retryable: bool) | LostCommit(retryable: bool)

  /** What one attempt may run into; `raced` says that a winner for the same key committed
      just after this attempt's fast-path read. */
  datatype Weather = Weather(trouble: Trouble, raced: bool)

  datatype Reply = Reply(answer: Answer, retryable: bool, detail: Option<Detail>)

  datatype Status = Fine | Broken | Refused(answer: Answer)

  predicate IsSuccess(a: Answer) {
    a.Created? || a.Replayed?
  }

  predicate ValidRequest(t: Terms) {
    t.from != t.to && t.amount > 0
  }

  /** The tables with a write set applied. */
  function Merged(db: Db, balances: map<Uuid, Units>, row: TxnRow, posted: seq<EntryRow>): Db {
    Db(Written(db.accounts, balances), db.txns + [row], db.entries + posted)
  }

  class Ledger {
    // committed tables
    var accounts: map<Uuid, AccountRow>
    var txns: seq<TxnRow>
    var entries: seq<EntryRow>

    // write set of the open database transaction
    var claim: Option<TxnRow>
    var balances: map<Uuid, Units>
    var posted: seq<EntryRow>

    // its row locks, in the order in which they were taken
    var held: seq<Uuid>

    // the trouble of the running attempt, and its statements so far
    var trouble: Trouble
    var clock: nat

    function Tables(): Db
      reads this
    {
      Db(accounts, txns, entries)
    }

    ghost predicate Idle()
      reads this
    {
      claim.None? && balances == map[] && posted == [] && held == []
    }

    constructor ()
      ensures Tables() == EMPTY_DB && Idle() && Consistent(Tables())
    {
      accounts, txns, entries := map[], [], [];
      claim, balances, posted, held := None, map[], [], [];
      trouble, clock := Calm, 0;
    }

    method OpenAccount(id: Uuid, terms: AccountTerms) returns (isNew: bool)
      requires Consistent(Tables())
      modifies `accounts
      ensures isNew <==> id !in old(accounts)
      ensures accounts == if isNew then old(accounts)[id := AccountRow(terms, 0)] else old(accounts)
      ensures Consistent(Tables())
    {
      isNew := id !in accounts;
      if isNew {
        OpenKeepsConsistent(Tables(), id, AccountRow(terms, 0));
        accounts := accounts[id := AccountRow(terms, 0)];
      }
    }

    // ----- statements -----

    /** The statement that was to fail has been sent. */
    predicate Struck()
      reads this
    {
      trouble.AtStatement? && trouble.number < clock
    }

    /** One more statement is sent. */
    method Send() returns (fine: bool)
      requires !Struck()
      modifies `clock
      ensures clock == old(clock) + 1 && (fine <==> !Struck())
    {
      fine := !(trouble.AtStatement? && trouble.number == clock);
      clock := clock + 1;
    }

    method FindByIdempotencyKey(key: string) returns (fine: bool, row: Option<TxnRow>)
      requires !Struck()
      modifies `clock
      ensures row == FindByKey(txns, key) && (fine <==> !Struck())
    {
      fine := Send();
      row := FindByKey(txns, key);
    }

    /** The unique index on the key. */
    method ClaimKey(row: TxnRow) returns (fine: bool, collided: bool)
      requires claim.None? && !Struck()
      modifies `clock, `claim
      ensures fine <==> !Struck()
      ensures fine ==> (collided <==> FindByKey(txns, row.key).Some?)
      ensures claim == if fine && !collided then Some(row) else None
    {
      fine := Send();
      collided := FindByKey(txns, row.key).Some?;
      if fine && !collided {
        claim := Some(row);
      }
    }

    /** Reads a row and takes its lock, which is kept until the transaction is over. */
    method FetchForUpdate(id: Uuid) returns (fine: bool, row: Option<AccountRow>)
      requires !Struck()
      modifies `clock, `held
      ensures fine <==> !Struck()
      ensures row == if id in accounts then Some(accounts[id]) else None
      ensures held == if fine && row.Some? then old(held) + [id] else old(held)
    {
      fine := Send();
      row := if id in accounts then Some(accounts[id]) else None;
      if fine && row.Some? {
        held := held + [id];
      }
    }

    /** `UPDATE accounts SET balance = balance + delta`, with its numeric range and its CHECK. */
    method AdjustBalance(id: Uuid, delta: int) returns (status: Status)
      requires id in accounts && id in held && id !in balances && !Struck()
      modifies `clock, `balances
      ensures var balance := accounts[id].balance + delta;
        match status
        case Fine => Fits(balance) && BalanceAllowed(accounts[id].terms, balance) && balances == old(balances)[id := balance]
        case Refused(NumericOverflow) => !Fits(balance) && balances == old(balances)
        case Refused(InsufficientFunds(a)) =>
          Fits(balance) && !BalanceAllowed(accounts[id].terms, balance) && a == id && balances == old(balances)
        case Refused(_) => false
        case Broken => balances == old(balances)
      ensures status.Broken? <==> Struck()
    {
      var fine := Send();
      var balance := accounts[id].balance + delta;
      if !fine {
        status := Broken;
      } else if !Fits(balance) {
        status := Refused(NumericOverflow);
      } else if !BalanceAllowed(accounts[id].terms, balance) {
        status := Refused(InsufficientFunds(id));
      } else {
        balances := balances[id := balance];
        status := Fine;
      }
    }

    /** The transaction row an entry refers to, as the open database transaction sees it. */
    function Parent(id: Uuid): Option<TxnRow>
      reads this
    {
      if claim.Some? && claim.value.id == id then claim else FindById(txns, id)
    }

    /** An entry insert with its trigger, CHECK and foreign keys. */
    method InsertEntry(xid: nat, e: EntryRow) returns (fine: bool)
      requires !Struck()
      modifies `clock, `posted
      ensures posted == if fine then old(posted) + [e] else old(posted)
      ensures fine <==> !Struck() && EntryAllowed(accounts, Parent(e.txn), xid, e)
    {
      fine := Send();
      fine := fine && EntryAllowed(accounts, Parent(e.txn), xid, e);
      if fine {
        posted := posted + [e];
      }
    }

    /** Every transaction that gained an entry is balanced, as the open database transaction sees it. */
    ghost predicate Balanced()
      reads this
    {
      forall e | e in posted :: AssertTransactionBalanced(Group(entries + posted, TxnOf, e.txn)).Accepted?
    }

    /** The deferred triggers, one entry after another. */
    method DeferredChecks() returns (pass: bool)
      ensures pass <==> Balanced()
    {
      var i := 0;
      while i < |posted|
        invariant 0 <= i <= |posted|
        invariant forall e | e in posted[..i] ::
          AssertTransactionBalanced(Group(entries + posted, TxnOf, e.txn)).Accepted?
      {
        if !AssertTransactionBalanced(Group(entries + posted, TxnOf, posted[i].txn)).Accepted? {
          return false;
        }
        i := i + 1;
      }
      assert posted[..i] == posted;
      return true;
    }

    method Rollback()
      modifies `claim, `balances, `posted, `held
      ensures Idle()
    {
      claim, balances, posted, held := None, map[], [], [];
    }

    /** COMMIT: the write set becomes part of the tables, or nothing does; an unbalanced one never does. */
    method Commit() returns (confirmed: bool)
      requires claim.Some? && !Struck()
      modifies `clock, `claim, `balances, `posted, `held, `accounts, `txns, `entries
      ensures Idle()
      ensures var write := Merged(old(Tables()), old(balances), old(claim.value), old(posted));
        Tables() == if old(Balanced()) && !Struck() then write else old(Tables())
      ensures confirmed <==> old(Balanced()) && !Struck() && !trouble.LostCommit?
    {
      var fine := Send();
      var pass := DeferredChecks();
      confirmed := fine && pass && !trouble.LostCommit?;
      if fine && pass {
        accounts := Written(accounts, balances);
        txns := txns + [claim.value];
        entries := entries + posted;
      }
      Rollback();
    }

    /** `transactions::get`: two reads. */
    method Get(id: Uuid) returns (fine: bool, detail: Option<Detail>)
      requires !Struck()
      modifies `clock
      ensures detail == DetailOf(Tables(), id) && (fine <==> !Struck())
    {
      fine := Send();
      if fine {
        fine := Send();
      }
      detail := DetailOf(Tables(), id);
    }
  }

  // ----- `execute_once` -----

  function Failed(trouble: Trouble): Reply {
    Reply(DatabaseError, !trouble.Calm? && trouble.retryable, None)
  }

  /** A database error is passed on with the word whether it can be retried; nothing else can. */
  predicate TellsTrouble(trouble: Trouble, r: Reply) {
    r.retryable <==> r.answer.DatabaseError? && !trouble.Calm? && trouble.retryable
  }

  /** `replay`, on what a lookup by key found. */
  method ReplayFound(ledger: Ledger, call: Call, row: Option<TxnRow>) returns (r: Reply)
    requires !ledger.Struck()
    modifies ledger`clock
    ensures row.None? ==> r.answer == CollisionWithoutRow
    ensures row.Some? && !r.answer.DatabaseError? ==>
              r.answer == (if row.value.digest == call.digest then Replayed(row.value.id) else KeyConflict)
    ensures r.answer.Replayed? ==> r.detail == DetailOf(ledger.Tables(), r.answer.id)
    ensures r.answer.DatabaseError? <==> ledger.Struck()
    ensures TellsTrouble(ledger.trouble, r)
  {
    if row.None? {
      return Reply(CollisionWithoutRow, false, None);
    }
    if row.value.digest != call.digest {
      return Reply(KeyConflict, false, None);
    }
    var fine, detail := ledger.Get(row.value.id);
    r := if fine then Reply(Replayed(row.value.id), false, detail) else Failed(ledger.trouble);
  }

  /** The row locks, in ascending order of the ids. */
  method LockAccounts(ledger: Ledger, t: Terms) returns (status: Status, locked: map<Uuid, AccountRow>)
    requires t.from != t.to && ledger.held == [] && !ledger.Struck()
    modifies ledger`clock, ledger`held
    ensures match status
      case Fine =>
        && ledger.held == [FirstLock(t), SecondLock(t)]
        && locked.Keys == {t.from, t.to} && forall a | a in locked :: a in ledger.accounts && locked[a] == ledger.accounts[a]
      case Refused(AccountNotFound(a)) =>
        || (a == FirstLock(t) && a !in ledger.accounts)
        || (a == SecondLock(t) && FirstLock(t) in ledger.accounts && a !in ledger.accounts)
      case Refused(_) => false
      case Broken => true
    ensures status.Broken? <==> ledger.Struck()
  {
    var order := [FirstLock(t), SecondLock(t)];
    locked := map[];
    var i := 0;
    while i < |order|
      invariant 0 <= i <= 2
      invariant ledger.held == order[..i] && !ledger.Struck()
      invariant locked.Keys == if i == 0 then {} else if i == 1 then {FirstLock(t)} else {t.from, t.to}
      invariant forall a | a in locked :: a in ledger.accounts && locked[a] == ledger.accounts[a]
    {
      var fine, row := ledger.FetchForUpdate(order[i]);
      if !fine {
        return Broken, locked;
      }
      if row.None? {
        return Refused(AccountNotFound(order[i])), locked;
      }
      locked := locked[order[i] := row.value];
      i := i + 1;
    }
    status := Fine;
  }

  /** The currency checks, sender first, and the funds check on the locked rows. */
  method CheckAccounts(t: Terms, locked: map<Uuid, AccountRow>) returns (status: Status)
    requires t.from in locked && t.to in locked
    ensures match status
      case Fine =>
        && locked[t.from].terms.currency == t.currency && locked[t.to].terms.currency == t.currency
        && (locked[t.from].terms.allowsNegative || locked[t.from].balance >= t.amount)
      case Refused(CurrencyMismatch(a)) =>
        || (a == t.from && locked[t.from].terms.currency != t.currency)
        || (a == t.to && locked[t.from].terms.currency == t.currency && locked[t.to].terms.currency != t.currency)
      case Refused(InsufficientFunds(a)) =>
        && a == t.from
        && locked[t.from].terms.currency == t.currency && locked[t.to].terms.currency == t.currency
        && !locked[t.from].terms.allowsNegative && locked[t.from].balance < t.amount
      case _ => false
  {
    var parties := [t.from, t.to];
    var i := 0;
    while i < |parties|
      invariant 0 <= i <= 2
      invariant i > 0 ==> locked[t.from].terms.currency == t.currency
      invariant i > 1 ==> locked[t.to].terms.currency == t.currency
    {
      if locked[parties[i]].terms.currency != t.currency {
        return Refused(CurrencyMismatch(parties[i]));
      }
      i := i + 1;
    }
    if !locked[t.from].terms.allowsNegative && locked[t.from].balance < t.amount {
      return Refused(InsufficientFunds(t.from));
    }
    status := Fine;
  }

  lemma PairPasses(db: Db, call: Call, f: Fresh)
    requires Decide(db, call, f).Created? && FreshIds(db, f)
    ensures forall e | e in [CreditEntry(call, f), DebitEntry(call, f)] ::
      AssertTransactionBalanced(Group(db.entries + [CreditEntry(call, f), DebitEntry(call, f)], TxnOf, e.txn)).Accepted?
  {
    PostGroups(db, call, f, f.txn);
    PairIsAccepted([CreditEntry(call, f), DebitEntry(call, f)]);
  }

  lemma MergedIsPost(db: Db, call: Call, f: Fresh, balances: map<Uuid, Units>)
    requires Decide(db, call, f).Created?
    requires var t := call.terms; balances == map[t.from := db.accounts[t.from].balance - t.amount, t.to := db.accounts[t.to].balance + t.amount]
    ensures Merged(db, balances, NewRow(call, f), [CreditEntry(call, f), DebitEntry(call, f)]) == Post(db, call, f)
  {
  }

  /** Both balance updates of a claimed and checked transfer. */
  method AdjustBoth(ledger: Ledger, call: Call, f: Fresh) returns (status: Status)
    requires ledger.balances == map[] && call.terms.from in ledger.held && call.terms.to in ledger.held
    requires !ledger.Struck()
    requires var d := Decide(ledger.Tables(), call, f); d.Created? || d.NumericOverflow?
    requires NoOverdraft(ledger.accounts)
    modifies ledger`clock, ledger`balances
    ensures match status
      case Fine => var t := call.terms;
        && Decide(ledger.Tables(), call, f).Created?
        && ledger.balances == map[t.from := ledger.accounts[t.from].balance - t.amount,
                                  t.to := ledger.accounts[t.to].balance + t.amount]
      case Refused(a) => a == NumericOverflow == Decide(ledger.Tables(), call, f)
      case Broken => true
    ensures status.Broken? <==> ledger.Struck()
  {
    var t := call.terms;
    assert BalanceAllowed(ledger.accounts[t.to].terms, ledger.accounts[t.to].balance);
    status := ledger.AdjustBalance(t.from, -t.amount);
    if status.Fine? {
      status := ledger.AdjustBalance(t.to, t.amount);
    }
  }

  /** Both entry inserts, sender first. */
  method InsertBoth(ledger: Ledger, call: Call, f: Fresh) returns (fine: bool)
    requires Decide(ledger.Tables(), call, f).Created? && !ledger.Struck()
    requires ledger.claim == Some(NewRow(call, f)) && ledger.posted == []
    modifies ledger`clock, ledger`posted
    ensures fine <==> !ledger.Struck()
    ensures fine ==> ledger.posted == [CreditEntry(call, f), DebitEntry(call, f)]
  {
    var credit, debit := CreditEntry(call, f), DebitEntry(call, f);
    fine := ledger.InsertEntry(f.xid, credit);
    if fine {
      fine := ledger.InsertEntry(f.xid, debit);
      assert [credit] + [debit] == [credit, debit];
    }
  }

  /** Both entries and the COMMIT; the whole write set is published, or none of it. */
  method PostBoth(ledger: Ledger, call: Call, f: Fresh) returns (confirmed: bool)
    requires Decide(ledger.Tables(), call, f).Created? && FreshIds(ledger.Tables(), f) && !ledger.Struck()
    requires ledger.claim == Some(NewRow(call, f)) && ledger.posted == []
    requires var t := call.terms;
      ledger.balances == map[t.from := ledger.accounts[t.from].balance - t.amount,
                             t.to := ledger.accounts[t.to].balance + t.amount]
    modifies ledger`clock, ledger`claim, ledger`balances, ledger`posted, ledger`held,
             ledger`accounts, ledger`txns, ledger`entries
    ensures ledger.Idle()
    ensures ledger.Tables() == if ledger.Struck() then old(ledger.Tables()) else Post(old(ledger.Tables()), call, f)
    ensures confirmed <==> !ledger.Struck() && !ledger.trouble.LostCommit?
  {
    MergedIsPost(ledger.Tables(), call, f, ledger.balances);
    PairPasses(ledger.Tables(), call, f);
    confirmed := InsertBoth(ledger, call, f);
    if confirmed {
      confirmed := ledger.Commit();
    } else {
      ledger.Rollback();
    }
  }

  /** What a request did to the tables: nothing, or exactly the posting it asked for. */
  ghost predicate PostedOrNot(db: Db, db': Db, call: Call, f: Fresh) {
    db' == db || (Decide(db, call, f).Created? && db' == Post(db, call, f))
  }

  /** Both row locks, and the checks on the rows read under them. */
  method LockAndCheck(ledger: Ledger, call: Call, f: Fresh) returns (status: Status)
    requires ledger.held == [] && !ledger.Struck() && ValidRequest(call.terms) && FindByKey(ledger.txns, call.key).None?
    modifies ledger`clock, ledger`held
    ensures match status
      case Fine =>
        && ledger.held == [FirstLock(call.terms), SecondLock(call.terms)]
        && var d := Decide(ledger.Tables(), call, f); d.Created? || d.NumericOverflow?
      case Refused(a) => a == Decide(ledger.Tables(), call, f) && !a.DatabaseError? && !IsSuccess(a)
      case Broken => true
    ensures status.Broken? <==> ledger.Struck()
  {
    var locked;
    status, locked := LockAccounts(ledger, call.terms);
    if status.Fine? {
      status := CheckAccounts(call.terms, locked);
    }
  }

  /** The trouble of an attempt has come to pass: its statement failed, or its commit was made
      and not confirmed. */
  ghost predicate Interrupted(struck: bool, trouble: Trouble, db: Db, db': Db) {
    struck || (trouble.LostCommit? && db' != db)
  }

  /** From the passed checks to COMMIT. */
  method MoveMoney(ledger: Ledger, call: Call, f: Fresh) returns (status: Status)
    requires ledger.claim == Some(NewRow(call, f)) && ledger.balances == map[] && ledger.posted == []
    requires call.terms.from in ledger.held && call.terms.to in ledger.held && !ledger.Struck()
    requires var d := Decide(ledger.Tables(), call, f); d.Created? || d.NumericOverflow?
    requires NoOverdraft(ledger.accounts) && FreshIds(ledger.Tables(), f)
    modifies ledger`clock, ledger`claim, ledger`balances, ledger`posted, ledger`held,
             ledger`accounts, ledger`txns, ledger`entries
    ensures ledger.Idle()
    ensures match status
      case Fine => Decide(old(ledger.Tables()), call, f).Created? && ledger.Tables() == Post(old(ledger.Tables()), call, f)
      case Refused(a) =>
        && a == Decide(old(ledger.Tables()), call, f) && !a.DatabaseError? && !IsSuccess(a)
        && ledger.Tables() == old(ledger.Tables())
      case Broken => PostedOrNot(old(ledger.Tables()), ledger.Tables(), call, f)
    ensures status.Broken? <==> Interrupted(ledger.Struck(), ledger.trouble, old(ledger.Tables()), ledger.Tables())
  {
    status := AdjustBoth(ledger, call, f);
    if status.Fine? {
      PostingChanges(ledger.Tables(), call, f);
      var confirmed := PostBoth(ledger, call, f);
      status := if confirmed then Fine else Broken;
    } else {
      ledger.Rollback();
    }
  }

  /** From the claimed key to COMMIT. */
  method Transact(ledger: Ledger, call: Call, f: Fresh) returns (status: Status)
    requires ledger.claim == Some(NewRow(call, f)) && ledger.balances == map[] && ledger.posted == [] && ledger.held == []
    requires !ledger.Struck() && ValidRequest(call.terms) && FindByKey(ledger.txns, call.key).None?
    requires Consistent(ledger.Tables()) && FreshIds(ledger.Tables(), f)
    modifies ledger`clock, ledger`claim, ledger`balances, ledger`posted, ledger`held,
             ledger`accounts, ledger`txns, ledger`entries
    ensures ledger.Idle()
    ensures match status
      case Fine => Decide(old(ledger.Tables()), call, f).Created? && ledger.Tables() == Post(old(ledger.Tables()), call, f)
      case Refused(a) =>
        && a == Decide(old(ledger.Tables()), call, f) && !a.DatabaseError? && !IsSuccess(a)
        && ledger.Tables() == old(ledger.Tables())
      case Broken => PostedOrNot(old(ledger.Tables()), ledger.Tables(), call, f)
    ensures status.Broken? <==> Interrupted(ledger.Struck(), ledger.trouble, old(ledger.Tables()), ledger.Tables())
  {
    status := LockAndCheck(ledger, call, f);
    if status.Fine? {
      assert {ledger.held[0], ledger.held[1]} == {call.terms.from, call.terms.to};
      status := MoveMoney(ledger, call, f);
    } else {
      ledger.Rollback();
    }
  }

  /** An answer other than a database error is the sequential ledger's, and tells what happened. */
  ghost predicate Answered(db: Db, db': Db, call: Call, f: Fresh, r: Reply) {
    && r.answer == Decide(db, call, f)
    && (r.answer.Created? <==> db' != db)
    && (IsSuccess(r.answer) ==> r.detail == DetailOf(db', r.answer.id))
  }

  /** `replay` of a key that is committed. */
  method ReplayCommitted(ledger: Ledger, call: Call, f: Fresh, row: Option<TxnRow>) returns (r: Reply)
    requires row == FindByKey(ledger.txns, call.key) && row.Some? && !ledger.Struck()
    modifies ledger`clock
    ensures r.answer.DatabaseError? || Answered(ledger.Tables(), ledger.Tables(), call, f, r)
    ensures (r.answer.DatabaseError? <==> ledger.Struck()) && TellsTrouble(ledger.trouble, r)
  {
    r := ReplayFound(ledger, call, row);
  }

  lemma PostingChanges(db: Db, call: Call, f: Fresh)
    requires Decide(db, call, f).Created?
    ensures Post(db, call, f) != db
  {
    assert |Post(db, call, f).txns| == |db.txns| + 1;
  }

  /** With the key claimed: transfer, and read the result back. */
  method TransactAndReport(ledger: Ledger, call: Call, f: Fresh) returns (r: Reply)
    requires ledger.claim == Some(NewRow(call, f)) && ledger.balances == map[] && ledger.posted == [] && ledger.held == []
    requires ValidRequest(call.terms) && FindByKey(ledger.txns, call.key).None?
    requires Consistent(ledger.Tables()) && FreshIds(ledger.Tables(), f)
    requires !ledger.Struck()
    modifies ledger`clock, ledger`claim, ledger`balances, ledger`posted, ledger`held,
             ledger`accounts, ledger`txns, ledger`entries
    ensures ledger.Idle() && PostedOrNot(old(ledger.Tables()), ledger.Tables(), call, f)
    ensures r.answer.DatabaseError? || Answered(old(ledger.Tables()), ledger.Tables(), call, f, r)
    ensures r.answer.DatabaseError? <==> Interrupted(ledger.Struck(), ledger.trouble, old(ledger.Tables()), ledger.Tables())
    ensures TellsTrouble(ledger.trouble, r)
  {
    ghost var db := ledger.Tables();
    var status := Transact(ledger, call, f);
    if status.Broken? {
      return Failed(ledger.trouble);
    }
    if status.Refused? {
      return Reply(status.answer, false, None);
    }
    PostingChanges(db, call, f);
    var fine, detail := ledger.Get(f.txn);
    r := if fine then Reply(Created(f.txn), false, detail) else Failed(ledger.trouble);
  }

  /** After the fast path: claim the key, and transfer or replay. */
  method ClaimAndTransact(ledger: Ledger, call: Call, f: Fresh) returns (r: Reply)
    requires ledger.Idle() && Consistent(ledger.Tables()) && FreshIds(ledger.Tables(), f) && ValidRequest(call.terms)
    requires !ledger.Struck()
    modifies ledger`clock, ledger`claim, ledger`balances, ledger`posted, ledger`held,
             ledger`accounts, ledger`txns, ledger`entries
    ensures ledger.Idle() && PostedOrNot(old(ledger.Tables()), ledger.Tables(), call, f)
    ensures r.answer.DatabaseError? || Answered(old(ledger.Tables()), ledger.Tables(), call, f, r)
    ensures r.answer.DatabaseError? <==> Interrupted(ledger.Struck(), ledger.trouble, old(ledger.Tables()), ledger.Tables())
    ensures TellsTrouble(ledger.trouble, r)
  {
    var fine := ledger.Send();
    if !fine {
      return Failed(ledger.trouble);
    }
    var collided;
    fine, collided := ledger.ClaimKey(NewRow(call, f));
    if !fine || collided {
      ledger.Rollback();
    }
    if !fine {
      return Failed(ledger.trouble);
    }
    if collided {
      var row;
      fine, row := ledger.FindByIdempotencyKey(call.key);
      if fine {
        r := ReplayCommitted(ledger, call, f, row);
      } else {
        r := Failed(ledger.trouble);
      }
    } else {
      r := TransactAndReport(ledger, call, f);
    }
  }

  predicate RefusedAsInvalid(t: Terms, a: Answer) {
    !ValidRequest(t) && a == (if t.from == t.to then SelfTransfer else NonPositiveAmount)
  }

  /** One attempt. Its answer is the sequential ledger's; only a database error leaves open
      whether the posting happened, and without trouble there is none. A fast-path read that
      lost a race for the key changes nothing, except that an invalid request is refused as
      invalid before its key is looked at again. */
  method ExecuteOnce(ledger: Ledger, call: Call, f: Fresh, raced: bool) returns (r: Reply)
    requires ledger.Idle() && Consistent(ledger.Tables()) && FreshIds(ledger.Tables(), f)
    requires !ledger.Struck()
    modifies ledger`clock, ledger`claim, ledger`balances, ledger`posted, ledger`held,
             ledger`accounts, ledger`txns, ledger`entries
    ensures ledger.Idle() && Consistent(ledger.Tables())
    ensures PostedOrNot(old(ledger.Tables()), ledger.Tables(), call, f)
    ensures || r.answer.DatabaseError?
            || Answered(old(ledger.Tables()), ledger.Tables(), call, f, r)
            || (raced && RefusedAsInvalid(call.terms, r.answer) && ledger.Tables() == old(ledger.Tables()))
    ensures r.answer.DatabaseError? <==> Interrupted(ledger.Struck(), ledger.trouble, old(ledger.Tables()), ledger.Tables())
    ensures TellsTrouble(ledger.trouble, r)
  {
    var fine, row := ledger.FindByIdempotencyKey(call.key);
    if !fine {
      return Failed(ledger.trouble);
    }
    if row.Some? && !raced {
      r := ReplayCommitted(ledger, call, f, row);
    } else if call.terms.from == call.terms.to {
      r := Reply(SelfTransfer, false, None);
    } else if call.terms.amount <= 0 {
      r := Reply(NonPositiveAmount, false, None);
    } else {
      ghost var db := ledger.Tables();
      r := ClaimAndTransact(ledger, call, f);
      PostedStaysConsistent(db, ledger.Tables(), call, f);
    }
  }

  lemma PostedStaysConsistent(db: Db, db': Db, call: Call, f: Fresh)
    requires Consistent(db) && FreshIds(db, f) && PostedOrNot(db, db', call, f)
    ensures Consistent(db')
  {
    ApplyKeepsConsistent(db, Request(0, call, f, Decide(db, call, f)));
  }

  // ----- `execute` -----

  predicate DisjointDraws(f: Fresh, g: Fresh) {
    {f.txn, f.credit, f.debit} !! {g.txn, g.credit, g.debit}
  }

  /** The posting happened at most once, under the ids of one of the first `n` attempts. */
  ghost predicate PostedAtMostOnce(db: Db, db': Db, call: Call, draws: seq<Fresh>, n: nat)
    requires n <= |draws|
  {
    db' == db || exists k :: 0 <= k < n && Decide(db, call, draws[k]).Created? && db' == Post(db, call, draws[k])
  }

  /** What the retry loop knows before attempt `n`: if an earlier attempt went through unnoticed,
      the request will be replayed. */
  lemma BeforeAttempt(db: Db, now: Db, call: Call, draws: seq<Fresh>, n: nat)
    requires n < |draws| && Consistent(db) && PostedAtMostOnce(db, now, call, draws, n)
    requires forall k | 0 <= k < |draws| :: FreshIds(db, draws[k])
    requires forall k, l | 0 <= k < l < |draws| :: DisjointDraws(draws[k], draws[l])
    ensures FreshIds(now, draws[n])
    ensures now != db ==> Decide(now, call, draws[n]).Replayed?
  {
    if now != db {
      var k :| 0 <= k < n && Decide(db, call, draws[k]).Created? && now == Post(db, call, draws[k]);
      FreshStays(db, call, draws[k], draws[n]);
      PostedIsReplayed(db, call, draws[k], draws[n]);
    }
  }

  lemma AfterAttempt(db: Db, now: Db, next: Db, call: Call, draws: seq<Fresh>, n: nat)
    requires n < |draws| && PostedAtMostOnce(db, now, call, draws, n) && PostedOrNot(now, next, call, draws[n])
    requires now != db ==> Decide(now, call, draws[n]).Replayed?
    ensures PostedAtMostOnce(db, next, call, draws, n + 1)
  {
    if next == now && now != db {
      var k :| 0 <= k < n && Decide(db, call, draws[k]).Created? && now == Post(db, call, draws[k]);
      assert 0 <= k < n + 1 && next == Post(db, call, draws[k]);
    }
  }

  ghost predicate NamesStoredRow(db: Db, call: Call, r: Reply)
    requires IsSuccess(r.answer)
  {
    var row := FindByKey(db.txns, call.key);
    && row.Some? && row.value.id == r.answer.id && row.value.digest == call.digest
    && r.detail == DetailOf(db, r.answer.id) && r.detail.Some? && r.detail.value.txn == row.value
  }

  lemma FoundRowIsNamed(db: Db, call: Call, row: TxnRow, r: Reply)
    requires UniqueKeys(db.txns) && UniqueIds(db.txns) && FindByKey(db.txns, call.key) == Some(row)
    requires IsSuccess(r.answer) && r.answer.id == row.id && row.digest == call.digest && r.detail == DetailOf(db, row.id)
    ensures NamesStoredRow(db, call, r)
  {
    UniqueRowIsFound(db.txns, row);
  }

  lemma CreatedIdIsDrawn(db: Db, call: Call, f: Fresh)
    requires Decide(db, call, f).Created?
    ensures Decide(db, call, f) == Created(f.txn)
  {
  }

  /** A successful answer names the one row stored under the key. */
  lemma SuccessNamesRow(now: Db, next: Db, call: Call, f: Fresh, r: Reply)
    requires Consistent(now) && FreshIds(now, f) && PostedOrNot(now, next, call, f)
    requires Answered(now, next, call, f, r) && IsSuccess(r.answer)
    ensures NamesStoredRow(next, call, r)
  {
    if r.answer.Created? {
      CreatedIdIsDrawn(now, call, f);
      PostKeepsUnique(now, call, f);
      PostedIsReplayed(now, call, f, f);
      FoundRowIsNamed(next, call, NewRow(call, f), r);
    } else {
      FoundRowIsNamed(now, call, FindByKey(now.txns, call.key).value, r);
    }
  }

  /** The draws of all attempts are unused, and apart from one another. */
  ghost predicate GoodDraws(db: Db, draws: seq<Fresh>) {
    && (forall k | 0 <= k < |draws| :: FreshIds(db, draws[k]))
    && (forall k, l | 0 <= k < l < |draws| :: DisjointDraws(draws[k], draws[l]))
  }

  /** The sequential ledger refuses, or a rival's key was missed and the request is invalid anyway. */
  ghost predicate RefusalIsDue(db: Db, call: Call, f: Fresh, w: Weather, a: Answer) {
    a == Decide(db, call, f) || (w.raced && RefusedAsInvalid(call.terms, a))
  }

  /** The request was already stored, or an earlier attempt went through unnoticed. */
  ghost predicate ReplayIsDue(db: Db, db': Db, call: Call, draws: seq<Fresh>, n: nat, a: Answer)
    requires n < |draws|
  {
    || (db' == db && Decide(db, call, draws[n]) == a)
    || exists k :: 0 <= k < n && Decide(db, call, draws[k]).Created? && db' == Post(db, call, draws[k])
                   && a == Replayed(draws[k].txn)
  }

  /** The request has just been posted, and is reported as it was made. */
  ghost predicate CreatedIsDue(db: Db, db': Db, call: Call, f: Fresh, r: Reply) {
    && r.answer == Decide(db, call, f) && r.answer.Created? && db' == Post(db, call, f)
    && r.detail.Some? && ShowsPosting(r.detail.value, call, f)
  }

  /** What an answer says about the tables before the call, and after its attempt `n`. */
  ghost predicate SaysWhatHappened(db: Db, db': Db, call: Call, draws: seq<Fresh>, n: nat, w: Weather, r: Reply)
    requires n < |draws|
  {
    match r.answer
    case DatabaseError => PostedAtMostOnce(db, db', call, draws, n + 1)
    case Created(_) => CreatedIsDue(db, db', call, draws[n], r) && NamesStoredRow(db', call, r)
    case Replayed(_) => ReplayIsDue(db, db', call, draws, n, r.answer) && NamesStoredRow(db', call, r)
    case _ => db' == db && RefusalIsDue(db, call, draws[n], w, r.answer)
  }

  lemma PostingIsDue(db: Db, next: Db, call: Call, f: Fresh, r: Reply)
    requires Consistent(db) && FreshIds(db, f) && PostedOrNot(db, next, call, f)
    requires Answered(db, next, call, f, r) && r.answer.Created?
    ensures CreatedIsDue(db, next, call, f, r)
  {
    CreatedIdIsDrawn(db, call, f);
    PostingReadsBack(db, call, f);
  }

  lemma SuccessIsDue(db: Db, now: Db, next: Db, call: Call, draws: seq<Fresh>, n: nat, r: Reply)
    requires n < |draws| && Consistent(db) && GoodDraws(db, draws) && PostedAtMostOnce(db, now, call, draws, n)
    requires FreshIds(now, draws[n]) && (now != db ==> Decide(now, call, draws[n]).Replayed?)
    requires PostedOrNot(now, next, call, draws[n]) && Answered(now, next, call, draws[n], r)
    ensures r.answer.Created? ==> CreatedIsDue(db, next, call, draws[n], r)
    ensures r.answer.Replayed? ==> ReplayIsDue(db, next, call, draws, n, r.answer)
  {
    if r.answer.Created? {
      PostingIsDue(db, next, call, draws[n], r);
    } else if r.answer.Replayed? && now != db {
      EarlierPostingIsReplayed(db, now, call, draws, n);
    }
  }

  lemma EarlierPostingIsReplayed(db: Db, now: Db, call: Call, draws: seq<Fresh>, n: nat)
    requires n < |draws| && Consistent(db) && GoodDraws(db, draws) && PostedAtMostOnce(db, now, call, draws, n) && now != db
    ensures ReplayIsDue(db, now, call, draws, n, Decide(now, call, draws[n]))
  {
    var k :| 0 <= k < n && Decide(db, call, draws[k]).Created? && now == Post(db, call, draws[k]);
    PostedIsReplayed(db, call, draws[k], draws[n]);
  }

  /** Attempt `n` of the retry loop; `db` is where the call started. */
  method Attempt(ledger: Ledger, call: Call, draws: seq<Fresh>, n: nat, w: Weather, ghost db: Db) returns (r: Reply)
    requires ledger.Idle() && Consistent(ledger.Tables()) && Consistent(db) && GoodDraws(db, draws) && n < |draws|
    requires PostedAtMostOnce(db, ledger.Tables(), call, draws, n)
    modifies ledger
    ensures ledger.Idle() && Consistent(ledger.Tables())
    ensures PostedAtMostOnce(db, ledger.Tables(), call, draws, n + 1)
    ensures SaysWhatHappened(db, ledger.Tables(), call, draws, n, w, r)
    ensures ComesFromTrouble(w, r)
    ensures r.answer.DatabaseError? <==>
              Interrupted(ledger.Struck(), w.trouble, old(ledger.Tables()), ledger.Tables())
    ensures w == Weather(Calm, false) ==>
              Answered(old(ledger.Tables()), ledger.Tables(), call, draws[n], r) && !r.answer.DatabaseError?
  {
    ghost var now := ledger.Tables();
    BeforeAttempt(db, now, call, draws, n);
    ledger.trouble, ledger.clock := w.trouble, 0;
    r := ExecuteOnce(ledger, call, draws[n], w.raced);
    AfterAttempt(db, now, ledger.Tables(), call, draws, n);
    AnswerSaysWhatHappened(db, now, ledger.Tables(), call, draws, n, w, r);
  }

  /** What `ExecuteOnce` has answered, about the tables before and after it. */
  ghost predicate AttemptAnswered(now: Db, next: Db, call: Call, f: Fresh, w: Weather, r: Reply) {
    || r.answer.DatabaseError?
    || Answered(now, next, call, f, r)
    || (w.raced && RefusedAsInvalid(call.terms, r.answer) && next == now)
  }

  lemma AnswerSaysWhatHappened(db: Db, now: Db, next: Db, call: Call, draws: seq<Fresh>, n: nat, w: Weather, r: Reply)
    requires n < |draws| && Consistent(db) && GoodDraws(db, draws) && PostedAtMostOnce(db, now, call, draws, n)
    requires Consistent(now) && FreshIds(now, draws[n]) && (now != db ==> Decide(now, call, draws[n]).Replayed?)
    requires PostedOrNot(now, next, call, draws[n]) && AttemptAnswered(now, next, call, draws[n], w, r)
    ensures SaysWhatHappened(db, next, call, draws, n, w, r)
  {
    if r.answer.DatabaseError? {
      AfterAttempt(db, now, next, call, draws, n);
    } else if IsSuccess(r.answer) {
      SuccessNamesRow(now, next, call, draws[n], r);
      SuccessIsDue(db, now, next, call, draws, n, r);
    } else {
      RefusalSaysWhatHappened(db, now, next, call, draws, n, w, r);
    }
  }

  lemma RefusalSaysWhatHappened(db: Db, now: Db, next: Db, call: Call, draws: seq<Fresh>, n: nat, w: Weather, r: Reply)
    requires n < |draws| && PostedAtMostOnce(db, now, call, draws, n)
    requires now != db ==> Decide(now, call, draws[n]).Replayed?
    requires !r.answer.DatabaseError? && !IsSuccess(r.answer) && AttemptAnswered(now, next, call, draws[n], w, r)
    ensures next == db && RefusalIsDue(db, call, draws[n], w, r.answer)
  {
    if now != db {
      PostedBeforeMeansValid(db, now, call, draws, n);
    }
  }

  lemma PostedBeforeMeansValid(db: Db, now: Db, call: Call, draws: seq<Fresh>, n: nat)
    requires n <= |draws| && PostedAtMostOnce(db, now, call, draws, n) && now != db
    ensures ValidRequest(call.terms)
  {
    var k :| 0 <= k < n && Decide(db, call, draws[k]).Created? && now == Post(db, call, draws[k]);
  }

  /** A reply after which another attempt is made, if any is left. */
  predicate MayRetry(r: Reply) {
    r.answer.DatabaseError? && r.retryable
  }

  /** `weather` brings no error before its attempt `n` that ends the call, and none in that one. */
  predicate CalmAfterRetries(weather: seq<Weather>, n: nat) {
    && n < |weather| && weather[n].trouble.Calm?
    && forall k | 0 <= k < n :: weather[k].trouble.Calm? || weather[k].trouble.retryable
  }

  /** A database error comes only from trouble, and says whether it can be retried. */
  ghost predicate ComesFromTrouble(w: Weather, r: Reply) {
    TellsTrouble(w.trouble, r) && (w.trouble.Calm? ==> !r.answer.DatabaseError?)
  }

  /** Every attempt so far ended in a retryable database error. */
  ghost predicate AllRetried(weather: seq<Weather>, replies: seq<Reply>) {
    && |replies| <= |weather|
    && forall k | 0 <= k < |replies| :: MayRetry(replies[k]) && ComesFromTrouble(weather[k], replies[k])
  }

  /** Another attempt followed exactly upon each retryable database error, up to the fourth
      attempt; so no call fails that meets calm weather before a fatal error. */
  ghost predicate RetriedAsDue(weather: seq<Weather>, replies: seq<Reply>) {
    && 1 <= |replies| <= 4 && |replies| <= |weather|
    && (forall k | 0 <= k < |replies| - 1 :: MayRetry(replies[k]))
    && (MayRetry(replies[|replies| - 1]) ==> |replies| == 4)
    && (forall k | 0 <= k < |replies| :: ComesFromTrouble(weather[k], replies[k]))
    && forall n: nat | CalmAfterRetries(weather, n) :: |replies| <= n + 1 && !replies[|replies| - 1].answer.DatabaseError?
  }

  lemma OneMoreReply(weather: seq<Weather>, replies: seq<Reply>, r: Reply)
    requires AllRetried(weather, replies) && |replies| < |weather| == 4 && ComesFromTrouble(weather[|replies|], r)
    ensures MayRetry(r) ==> AllRetried(weather, replies + [r])
    ensures !MayRetry(r) || |replies| == 3 ==> RetriedAsDue(weather, replies + [r])
  {
    var all := replies + [r];
    if !MayRetry(r) || |replies| == 3 {
      forall n: nat | CalmAfterRetries(weather, n)
        ensures |all| <= n + 1 && !all[|all| - 1].answer.DatabaseError?
      {
      }
    }
  }

  /** `execute`: at most four attempts, `replies` being theirs. Another attempt follows exactly
      upon a retryable database error, as long as fewer than four were made. Whatever goes
      wrong and whichever confirmation is lost, money moves at most once; a refusal is due, and
      means it did not move; Created means that the last attempt moved it; Replayed means that
      it had moved before; and a success returns the one transaction stored under the key. */
  method Execute(ledger: Ledger, call: Call, draws: seq<Fresh>, weather: seq<Weather>)
    returns (r: Reply, attempts: nat, ghost replies: seq<Reply>)
    requires ledger.Idle() && Consistent(ledger.Tables())
    requires |draws| == |weather| == 4 && GoodDraws(ledger.Tables(), draws)
    modifies ledger
    ensures ledger.Idle() && Consistent(ledger.Tables())
    ensures 1 <= attempts <= 4 && |replies| == attempts && replies[attempts - 1] == r
    ensures RetriedAsDue(weather, replies)
    ensures PostedAtMostOnce(old(ledger.Tables()), ledger.Tables(), call, draws, attempts)
    ensures SaysWhatHappened(old(ledger.Tables()), ledger.Tables(), call, draws, attempts - 1, weather[attempts - 1], r)
    ensures weather[0] == Weather(Calm, false) ==>
              attempts == 1 && Answered(old(ledger.Tables()), ledger.Tables(), call, draws[0], r)
  {
    ghost var db := ledger.Tables();
    var attempt := 0;
    replies := [];
    while true
      invariant 0 <= attempt <= 3 && |replies| == attempt
      invariant ledger.Idle() && Consistent(ledger.Tables())
      invariant PostedAtMostOnce(db, ledger.Tables(), call, draws, attempt)
      invariant attempt == 0 ==> ledger.Tables() == db
      invariant AllRetried(weather, replies)
      decreases MAX_CONFLICT_RETRIES - attempt
    {
      r := Attempt(ledger, call, draws, attempt, weather[attempt], db);
      OneMoreReply(weather, replies, r);
      replies := replies + [r];
      if r.answer.DatabaseError? && r.retryable && attempt < MAX_CONFLICT_RETRIES {
        attempt := attempt + 1;
      } else {
        attempts := attempt + 1;
        return;
      }
    }
  }
}
