/** What the schema lets in: statement by statement, a writer is refused exactly for the reasons
    the schema gives, and honest work is committed as it is. */
module SchemaAdmits {
  import opened LedgerTypes
  import opened Schema
  import opened SequentialLedger
  import opened Conservation
  import opened Writers

  // ----- what the schema lets through -----

  /** The account row that a transaction sees, its own version first. */
  ghost predicate SeesAccount(s: Store, xid: nat, id: Uuid, row: AccountRow)
    requires xid in s.open
  {
    var p := s.open[xid];
    || (id in p.accounts && p.accounts[id] == row)
    || (id !in p.accounts && Accounts !in p.wiped && id in s.db.accounts && s.db.accounts[id] == row)
  }

  ghost predicate SeesTxn(s: Store, xid: nat, t: TxnRow)
    requires xid in s.open
  {
    t in s.open[xid].txns || (Txns !in s.open[xid].wiped && t in s.db.txns)
  }

  ghost predicate SeesEntry(s: Store, xid: nat, e: EntryRow)
    requires xid in s.open
  {
    e in s.open[xid].entries || (Entries !in s.open[xid].wiped && e in s.db.entries)
  }

  /** The transaction is gone without a trace. */
  ghost predicate Refused(s: Store, s': Store, xid: nat) {
    && s'.db == s.db && s'.nextXid == s.nextXid && s'.open.Keys == s.open.Keys - {xid}
    && forall o | o in s'.open :: s'.open[o] == s.open[o]
  }

  /** The transaction's write set is `p` now, and nothing else has changed. */
  ghost predicate NowPending(s: Store, s': Store, xid: nat, p: Pending) {
    s' == s.(open := s.open[xid := p])
  }

  /** Nobody else has truncated one of the tables, or written a row that `clash` singles out:
      the statement does not have to wait. */
  ghost predicate Undisputed(s: Store, xid: nat, tables: set<Table>, clash: Pending -> bool) {
    forall o | o in s.open && o != xid :: s.open[o].wiped !! tables && !clash(s.open[o])
  }

  /** An entry is let in exactly when its amount is positive, its parent row was inserted by
      this very transaction, its account exists in its currency, and its id is new. */
  lemma EntriesLetIn(s: Store, xid: nat, row: EntryRow)
    requires xid in s.open && XidsSpent(s) && PendingSound(s.db, xid, s.open[xid])
    requires Undisputed(s, xid, {Accounts, Txns, Entries}, (p: Pending) => exists e :: e in p.entries && e.id == row.id)
    ensures var s', p := Exec(s, InsertEntry(xid, row)), s.open[xid];
      if && row.amount > 0
         && (exists t :: t in p.txns && t.id == row.txn)
         && (exists a :: SeesAccount(s, xid, row.account, a) && a.terms.currency == row.currency)
         && (forall e | SeesEntry(s, xid, e) :: e.id != row.id)
      then NowPending(s, s', xid, p.(entries := p.entries + [row]))
      else Refused(s, s', xid)
  {
    ParentIsOwnExactly(s, xid, row.txn);
    SeenAccountIsSeen(s, xid, row.account);
    CheckedEntriesLetIn(s, xid, row);
  }

  lemma CheckedEntriesLetIn(s: Store, xid: nat, row: EntryRow)
    requires xid in s.open
    requires Undisputed(s, xid, {Accounts, Txns, Entries}, (p: Pending) => exists e :: e in p.entries && e.id == row.id)
    ensures var s', p := Exec(s, InsertEntry(xid, row)), s.open[xid];
      if && EntryAllowed(SeenAccounts(s, xid), FindById(SeenTxns(s, xid), row.txn), xid, row)
         && (forall e | SeesEntry(s, xid, e) :: e.id != row.id)
      then NowPending(s, s', xid, p.(entries := p.entries + [row]))
      else Refused(s, s', xid)
  {
    assert forall e :: e in SeenEntries(s, xid) <==> SeesEntry(s, xid, e);
    assert !EntryBusy(s, xid, row);
    assert !Closed(s, xid, {Accounts, Txns, Entries});
  }

  lemma SeenAccountIsSeen(s: Store, xid: nat, id: Uuid)
    requires xid in s.open
    ensures id in SeenAccounts(s, xid) ==> SeesAccount(s, xid, id, SeenAccounts(s, xid)[id])
    ensures forall a | SeesAccount(s, xid, id, a) :: id in SeenAccounts(s, xid) && SeenAccounts(s, xid)[id] == a
  {
  }

  /** The same-transaction trigger passes exactly for the transaction's own rows. */
  lemma ParentIsOwnExactly(s: Store, xid: nat, id: Uuid)
    requires xid in s.open && XidsSpent(s) && PendingSound(s.db, xid, s.open[xid])
    ensures var parent := FindById(SeenTxns(s, xid), id);
      parent.Some? && parent.value.xid == xid <==> exists t :: t in s.open[xid].txns && t.id == id
  {
    var p, parent := s.open[xid], FindById(SeenTxns(s, xid), id);
    if t :| t in p.txns && t.id == id {
      assert t in SeenTxns(s, xid);
      assert parent.value in Under(s.db, p).txns ==> !SameTxn(parent.value, t);
    }
    if parent.Some? && parent.value.xid == xid {
      ParentIsOwn(s, xid, id);
    }
  }

  /** A transaction row is let in exactly when its id and its key are new; it is stored with
      the xid of its writer. */
  lemma TransactionsLetIn(s: Store, xid: nat, row: TxnRow)
    requires xid in s.open
    requires Undisputed(s, xid, {Txns}, (p: Pending) => exists t :: t in p.txns && (t.id == row.id || t.key == row.key))
    ensures var s', p := Exec(s, InsertTxn(xid, row)), s.open[xid];
      if forall t | SeesTxn(s, xid, t) :: t.id != row.id && t.key != row.key
      then NowPending(s, s', xid, p.(txns := p.txns + [row.(xid := xid)]))
      else Refused(s, s', xid)
  {
    assert forall t :: t in SeenTxns(s, xid) <==> SeesTxn(s, xid, t);
    assert !TxnBusy(s, xid, row);
    assert !Closed(s, xid, {Txns});
  }

  /** An account is let in exactly when its id is new and its balance is not an overdraft. */
  lemma AccountsLetIn(s: Store, xid: nat, id: Uuid, row: AccountRow)
    requires xid in s.open && Undisputed(s, xid, {Accounts}, (p: Pending) => id in p.accounts)
    ensures var s', p := Exec(s, InsertAccount(xid, id, row)), s.open[xid];
      if (forall a :: !SeesAccount(s, xid, id, a)) && (row.terms.allowsNegative || row.balance >= 0)
      then NowPending(s, s', xid, p.(accounts := p.accounts[id := row]))
      else Refused(s, s', xid)
  {
    SeenAccountIsSeen(s, xid, id);
    assert !AccountBusy(s, xid, id);
    assert !Closed(s, xid, {Accounts});
  }

  /** An update of an account is let in exactly when it changes nothing but the balance, and
      not into an overdraft. */
  lemma BalancesMayChange(s: Store, xid: nat, id: Uuid, newId: Uuid, row: AccountRow, was: AccountRow)
    requires xid in s.open && Undisputed(s, xid, {Accounts}, (p: Pending) => id in p.accounts) && SeesAccount(s, xid, id, was)
    ensures var s', p := Exec(s, UpdateAccount(xid, id, newId, row)), s.open[xid];
      if newId == id && row == was.(balance := row.balance) && (was.terms.allowsNegative || row.balance >= 0)
      then NowPending(s, s', xid, p.(accounts := p.accounts[id := row]))
      else Refused(s, s', xid)
  {
    SeenAccountIsSeen(s, xid, id);
    assert !AccountBusy(s, xid, id);
    assert !Closed(s, xid, {Accounts});
  }

  /** An update of no account, by its id, does nothing. */
  lemma MissingAccountsAreLeft(s: Store, xid: nat, id: Uuid, newId: Uuid, row: AccountRow)
    requires xid in s.open && forall a :: !SeesAccount(s, xid, id, a)
    ensures Exec(s, UpdateAccount(xid, id, newId, row)) == s && Exec(s, DeleteAccount(xid, id)) == s
  {
    SeenAccountIsSeen(s, xid, id);
  }

  /** An account that is there cannot be deleted. */
  lemma AccountDeletionsAreRefused(s: Store, xid: nat, id: Uuid, a: AccountRow)
    requires xid in s.open && Undisputed(s, xid, {Accounts}, (p: Pending) => false) && SeesAccount(s, xid, id, a)
    ensures Refused(s, Exec(s, DeleteAccount(xid, id)), xid)
  {
    assert !Closed(s, xid, {Accounts});
    SeenAccountIsSeen(s, xid, id);
  }

  /** A change or deletion of transactions is refused exactly when there is one to be changed. */
  lemma TransactionChangesAreRefused(s: Store, xid: nat, id: Uuid)
    requires xid in s.open && Undisputed(s, xid, {Txns}, (p: Pending) => false)
    ensures var update, delete := Exec(s, UpdateTxn(xid, id)), Exec(s, DeleteTxn(xid, id));
      if exists t :: SeesTxn(s, xid, t) && t.id == id then Refused(s, update, xid) && Refused(s, delete, xid)
      else update == delete == s
  {
    assert !Closed(s, xid, {Txns});
    assert forall t :: t in SeenTxns(s, xid) <==> SeesTxn(s, xid, t);
  }

  /** A change or deletion of entries is refused exactly when there is one to be changed. */
  lemma EntryChangesAreRefused(s: Store, xid: nat, id: Uuid)
    requires xid in s.open && Undisputed(s, xid, {Entries}, (p: Pending) => false)
    ensures var update, delete := Exec(s, UpdateEntry(xid, id)), Exec(s, DeleteEntry(xid, id));
      if exists e :: SeesEntry(s, xid, e) && e.id == id then Refused(s, update, xid) && Refused(s, delete, xid)
      else update == delete == s
  {
    assert !Closed(s, xid, {Entries});
    assert forall e :: e in SeenEntries(s, xid) <==> SeesEntry(s, xid, e);
  }

  /** A truncation is let in exactly when it includes the entries, and the transaction has
      inserted none itself; it hides every row of its tables. */
  lemma TruncationsLetIn(s: Store, xid: nat, tables: set<Table>)
    requires xid in s.open && tables != {} && forall o | o in s.open && o != xid :: Used(s.open[o]) !! tables
    ensures var s' := Exec(s, Truncate(xid, tables));
      if Entries in tables && s.open[xid].entries == []
      then
        && xid in s'.open && NowPending(s, s', xid, s'.open[xid])
        && (forall e :: !SeesEntry(s', xid, e))
        && (forall t :: SeesTxn(s', xid, t) <==> Txns !in tables && SeesTxn(s, xid, t))
        && (forall id, a :: SeesAccount(s', xid, id, a) <==> Accounts !in tables && SeesAccount(s, xid, id, a))
      else Refused(s, s', xid)
  {
    forall o | o in s.open && o != xid ensures s.open[o].wiped * tables == {} && Used(s.open[o]) * tables == {} {
      assert s.open[o].wiped <= Used(s.open[o]);
    }
    assert !Closed(s, xid, tables) && !InUse(s, xid, tables);
  }

  /** A rollback takes back everything. */
  lemma RollbackLeavesNothing(s: Store, xid: nat)
    requires xid in s.open
    ensures Refused(s, Exec(s, Rollback(xid)), xid)
  {
    assert !Closed(s, xid, {});
  }

  // ----- what may be committed -----

  /** The entries that the trigger sums up are all the transaction's own. */
  lemma GroupIsOwn(s: Store, xid: nat, id: Uuid)
    requires StoreInv(s) && xid in s.open && HasTxn(s.open[xid].txns, id)
    ensures Group(SeenEntries(s, xid), TxnOf, id) == Group(s.open[xid].entries, TxnOf, id)
  {
    var p := s.open[xid];
    var left := Under(s.db, p);
    assert PendingSound(s.db, xid, p);
    UnderIsSound(s.db, p);
    var t :| t in p.txns && t.id == id;
    forall e | e in left.entries ensures TxnOf(e) != id {
      var u :| u in left.txns && u.id == e.txn;
      assert !SameTxn(u, t);
    }
    GroupConcat(left.entries, p.entries, TxnOf, id);
    GroupAbsent(left.entries, TxnOf, id);
  }

  /** At least two entries, all in one currency, netting to zero. */
  ghost predicate NetsToZero(g: seq<EntryRow>) {
    |g| >= 2 && SignedSum(g) == 0 && forall i, j | 0 <= i < |g| && 0 <= j < |g| :: g[i].currency == g[j].currency
  }

  /** Each new transaction has no entries, or entries that balance. */
  ghost predicate Balances(p: Pending) {
    forall t | t in p.txns :: var g := Group(p.entries, TxnOf, t.id); g == [] || NetsToZero(g)
  }

  lemma AcceptedMeansNet(g: seq<EntryRow>)
    ensures AssertTransactionBalanced(g).Accepted? <==> NetsToZero(g)
  {
    VerdictNamesTheFault(g);
  }

  lemma CommitsMeansBalances(s: Store, xid: nat)
    requires StoreInv(s) && xid in s.open
    ensures Commits(s, xid) <==> Balances(s.open[xid])
  {
    var p := s.open[xid];
    assert PendingSound(s.db, xid, p);
    if Commits(s, xid) {
      forall t | t in p.txns && Group(p.entries, TxnOf, t.id) != [] ensures NetsToZero(Group(p.entries, TxnOf, t.id)) {
        var g := Group(p.entries, TxnOf, t.id);
        InGroup(p.entries, TxnOf, t.id);
        assert g[0] in g;
        GroupIsOwn(s, xid, t.id);
        AcceptedMeansNet(g);
      }
    }
    if Balances(p) {
      forall e | e in p.entries ensures AssertTransactionBalanced(Group(SeenEntries(s, xid), TxnOf, e.txn)).Accepted? {
        var t :| t in p.txns && t.id == e.txn;
        var g := Group(p.entries, TxnOf, t.id);
        InGroup(p.entries, TxnOf, t.id);
        assert e in g;
        GroupIsOwn(s, xid, e.txn);
        AcceptedMeansNet(g);
      }
    }
  }

  /** What a transaction sees is what everybody sees now. */
  ghost predicate Published(s: Store, s': Store, xid: nat)
    requires xid in s.open
  {
    var p := s.open[xid];
    && s'.db.txns == (if Txns in p.wiped then [] else s.db.txns) + p.txns
    && s'.db.entries == (if Entries in p.wiped then [] else s.db.entries) + p.entries
    && (forall id, a :: SeesAccount(s, xid, id, a) <==> id in s'.db.accounts && s'.db.accounts[id] == a)
    && Refused(s.(db := s'.db), s', xid)
  }

  lemma CommitPublishes(s: Store, xid: nat)
    requires xid in s.open
    ensures var s' := Exec(s, Commit(xid)); if Commits(s, xid) then Published(s, s', xid) else Refused(s, s', xid)
  {
    forall id, a ensures SeesAccount(s, xid, id, a) <==> id in SeenAccounts(s, xid) && SeenAccounts(s, xid)[id] == a {
      SeenAccountIsSeen(s, xid, id);
    }
    assert !Closed(s, xid, {});
  }

  /** A transaction commits exactly when what it has inserted balances; then everything it sees
      becomes what everybody sees, and otherwise nothing does. */
  lemma BalancedWorkCommits(s: Store, xid: nat)
    requires StoreInv(s) && xid in s.open
    ensures var s' := Exec(s, Commit(xid));
      if Balances(s.open[xid]) then Published(s, s', xid) else Refused(s, s', xid)
  {
    CommitsMeansBalances(s, xid);
    CommitPublishes(s, xid);
  }

  // ----- a whole run -----

  function Inserts(xid: nat, es: seq<EntryRow>): seq<Statement> {
    if es == [] then [] else [InsertEntry(xid, es[0])] + Inserts(xid, es[1..])
  }

  /** Entries of one new transaction: positive, on open accounts of their currency, under new ids. */
  ghost predicate Insertable(db: Db, id: Uuid, es: seq<EntryRow>) {
    && UniqueEntryIds(es)
    && (forall e | e in es ::
          e.txn == id && e.amount > 0 && e.account in db.accounts && db.accounts[e.account].terms.currency == e.currency)
    && forall e, d | e in es && d in db.entries :: d.id != e.id
  }

  /** The only open transaction, with its row inserted and the first entries. */
  function Alone(db: Db, xid: nat, row: TxnRow, es: seq<EntryRow>): Store {
    Store(db, map[xid := Pending(map[], [row.(xid := xid)], es, {})], xid + 1)
  }

  lemma NextEntryFits(db: Db, xid: nat, row: TxnRow, es: seq<EntryRow>, e: EntryRow)
    requires Insertable(db, row.id, es + [e])
    ensures var s := Alone(db, xid, row, es);
      && e.amount > 0
      && (exists t :: t in s.open[xid].txns && t.id == e.txn)
      && (exists a :: SeesAccount(s, xid, e.account, a) && a.terms.currency == e.currency)
      && (forall d | SeesEntry(s, xid, d) :: d.id != e.id)
  {
    var s := Alone(db, xid, row, es);
    var all := es + [e];
    assert all[|es|] == e && e in all;
    assert row.(xid := xid) in s.open[xid].txns;
    assert SeesAccount(s, xid, e.account, db.accounts[e.account]);
    forall d | d in es ensures d.id != e.id {
      var i :| 0 <= i < |es| && es[i] == d;
      assert all[i] == d;
    }
  }

  lemma OneMoreEntry(db: Db, xid: nat, row: TxnRow, es: seq<EntryRow>, e: EntryRow)
    requires XidsSpent(Alone(db, xid, row, es)) && PendingSound(db, xid, Alone(db, xid, row, es).open[xid])
    requires Insertable(db, row.id, es + [e])
    ensures Exec(Alone(db, xid, row, es), InsertEntry(xid, e)) == Alone(db, xid, row, es + [e])
  {
    var s := Alone(db, xid, row, es);
    NextEntryFits(db, xid, row, es, e);
    EntriesLetIn(s, xid, e);
    assert Exec(s, InsertEntry(xid, e)).open == Alone(db, xid, row, es + [e]).open;
  }

  lemma InsertablePrefix(db: Db, id: Uuid, es: seq<EntryRow>, more: seq<EntryRow>)
    requires Insertable(db, id, es + more)
    ensures Insertable(db, id, es)
  {
    var all := es + more;
    assert forall i | 0 <= i < |es| :: es[i] == all[i];
    assert forall e | e in es :: e in all;
  }

  lemma {:induction false} EntriesAccumulate(db: Db, xid: nat, row: TxnRow, es: seq<EntryRow>, more: seq<EntryRow>)
    requires StoreInv(Alone(db, xid, row, es)) && Insertable(db, row.id, es + more)
    ensures ExecAll(Alone(db, xid, row, es), Inserts(xid, more)) == Alone(db, xid, row, es + more)
    decreases |more|
  {
    if more == [] {
      assert es + more == es;
    } else {
      assert es + more == (es + [more[0]]) + more[1..];
      InsertablePrefix(db, row.id, es + [more[0]], more[1..]);
      assert PendingSound(db, xid, Alone(db, xid, row, es).open[xid]);
      OneMoreEntry(db, xid, row, es, more[0]);
      ExecKeepsInv(Alone(db, xid, row, es), InsertEntry(xid, more[0]));
      EntriesAccumulate(db, xid, row, es + [more[0]], more[1..]);
    }
  }

  lemma RowInserted(s: Store, row: TxnRow)
    requires StoreInv(s) && s.open == map[] && forall t | t in s.db.txns :: t.id != row.id && t.key != row.key
    ensures Exec(Exec(s, Begin), InsertTxn(s.nextXid, row)) == Alone(s.db, s.nextXid, row, [])
  {
    var x := s.nextXid;
    var s1 := Exec(s, Begin);
    assert s1.open == map[x := NOTHING_PENDING];
    TransactionsLetIn(s1, x, row);
    assert [] + [row.(xid := x)] == [row.(xid := x)];
    assert s1.open[x := Pending(map[], [row.(xid := x)], [], {})] == map[x := Pending(map[], [row.(xid := x)], [], {})];
  }

  /** With nothing else open, a new transaction and its entries are committed exactly as they
      are, if they balance, and not at all, if they do not. */
  lemma BalancedTransactionsCommit(before: seq<Statement>, row: TxnRow, es: seq<EntryRow>)
    requires var s := ExecAll(EMPTY_STORE, before);
      && s.open == map[] && Insertable(s.db, row.id, es)
      && forall t | t in s.db.txns :: t.id != row.id && t.key != row.key
    ensures var s := ExecAll(EMPTY_STORE, before); var x := s.nextXid;
      ExecAll(EMPTY_STORE, before + ([Begin, InsertTxn(x, row)] + Inserts(x, es) + [Commit(x)])).db
        == if es == [] || NetsToZero(es)
           then Db(s.db.accounts, s.db.txns + [row.(xid := x)], s.db.entries + es)
           else s.db
  {
    var s := ExecAll(EMPTY_STORE, before);
    var x := s.nextXid;
    var s2 := Exec(Exec(s, Begin), InsertTxn(x, row));
    ExecAllKeepsInv(EMPTY_STORE, before);
    RowInserted(s, row);
    ExecKeepsInv(s, Begin);
    ExecKeepsInv(Exec(s, Begin), InsertTxn(x, row));
    assert [] + es == es;
    EntriesAccumulate(s.db, x, row, [], es);
    ExecAllKeepsInv(s2, Inserts(x, es));
    AloneCommits(s.db, x, row, es);
    StatementsInTurn(before, x, row, es);
  }

  lemma StatementsInTurn(before: seq<Statement>, x: nat, row: TxnRow, es: seq<EntryRow>)
    ensures var s2 := Exec(Exec(ExecAll(EMPTY_STORE, before), Begin), InsertTxn(x, row));
      ExecAll(EMPTY_STORE, before + ([Begin, InsertTxn(x, row)] + Inserts(x, es) + [Commit(x)]))
        == Exec(ExecAll(s2, Inserts(x, es)), Commit(x))
  {
    var s := ExecAll(EMPTY_STORE, before);
    var two, last := [Begin, InsertTxn(x, row)], [Commit(x)];
    ExecAllConcat(EMPTY_STORE, before, two + Inserts(x, es) + last);
    ExecAllConcat(s, two + Inserts(x, es), last);
    ExecAllConcat(s, two, Inserts(x, es));
    assert two[1..] == [InsertTxn(x, row)] && two[1..][1..] == [];
    var s3 := ExecAll(Exec(Exec(s, Begin), InsertTxn(x, row)), Inserts(x, es));
    assert ExecAll(s3, last) == Exec(s3, Commit(x));
  }

  lemma AloneBalances(db: Db, x: nat, row: TxnRow, es: seq<EntryRow>)
    requires Insertable(db, row.id, es)
    ensures Balances(Alone(db, x, row, es).open[x]) <==> es == [] || NetsToZero(es)
  {
    GroupAll(es, TxnOf, row.id);
    assert row.(xid := x) in Alone(db, x, row, es).open[x].txns;
  }

  lemma AlonePublishes(db: Db, x: nat, row: TxnRow, es: seq<EntryRow>)
    ensures var s := Alone(db, x, row, es);
      Exec(s, Commit(x)).db
        == if Commits(s, x) then Db(db.accounts, db.txns + [row.(xid := x)], db.entries + es) else db
  {
    var s := Alone(db, x, row, es);
    assert !Closed(s, x, {});
    assert db.accounts + map[] == db.accounts;
  }

  lemma AloneCommits(db: Db, x: nat, row: TxnRow, es: seq<EntryRow>)
    requires StoreInv(Alone(db, x, row, es)) && Insertable(db, row.id, es)
    ensures Exec(Alone(db, x, row, es), Commit(x)).db
         == if es == [] || NetsToZero(es) then Db(db.accounts, db.txns + [row.(xid := x)], db.entries + es) else db
  {
    AloneBalances(db, x, row, es);
    CommitsMeansBalances(Alone(db, x, row, es), x);
    AlonePublishes(db, x, row, es);
  }
}
