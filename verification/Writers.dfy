/** The schema against arbitrary writers: any number of database transactions issuing any
    INSERT, UPDATE, DELETE or TRUNCATE on the three tables, interleaved in any way. */
module Writers {
  import opened LedgerTypes
  import opened Schema
  import opened SequentialLedger
  import opened Conservation
  import opened Sweep

  datatype Table = Accounts | Txns | Entries

  /** Rows an open database transaction has written, and tables it has truncated before that.
      `accounts` holds new and changed rows, whose locks the transaction has. */
  datatype Pending = Pending(
    accounts: map<Uuid, AccountRow>, txns: seq<TxnRow>, entries: seq<EntryRow>, wiped: set<Table>)

  const NOTHING_PENDING: Pending := Pending(map[], [], [], {})

  /** Committed tables, the open database transactions by xid, and the next xid. */
  datatype Store = Store(db: Db, open: map<nat, Pending>, nextXid: nat)

  const EMPTY_STORE: Store := Store(EMPTY_DB, map[], 0)

  datatype Statement =
    | Begin
    | InsertAccount(xid: nat, id: Uuid, row: AccountRow)
    | UpdateAccount(xid: nat, id: Uuid, newId: Uuid, row: AccountRow)
    | DeleteAccount(xid: nat, id: Uuid)
    | InsertTxn(xid: nat, txn: TxnRow)           // `created_xid` takes its default
    | UpdateTxn(xid: nat, id: Uuid)
    | DeleteTxn(xid: nat, id: Uuid)
    | InsertEntry(xid: nat, entry: EntryRow)
    | UpdateEntry(xid: nat, id: Uuid)
    | DeleteEntry(xid: nat, id: Uuid)
    | Truncate(xid: nat, tables: set<Table>)
    | Commit(xid: nat)
    | Rollback(xid: nat)

  // ----- what a transaction sees, and what makes it wait -----

  /** The committed rows that are left under a transaction's own truncations. */
  function Under(db: Db, p: Pending): Db {
    Db(if Accounts in p.wiped then map[] else db.accounts,
       if Txns in p.wiped then [] else db.txns,
       if Entries in p.wiped then [] else db.entries)
  }

  function SeenAccounts(s: Store, xid: nat): map<Uuid, AccountRow>
    requires xid in s.open
  {
    Under(s.db, s.open[xid]).accounts + s.open[xid].accounts
  }

  function SeenTxns(s: Store, xid: nat): seq<TxnRow>
    requires xid in s.open
  {
    Under(s.db, s.open[xid]).txns + s.open[xid].txns
  }

  function SeenEntries(s: Store, xid: nat): seq<EntryRow>
    requires xid in s.open
  {
    Under(s.db, s.open[xid]).entries + s.open[xid].entries
  }

  /** The tables that a transaction has written to; a TRUNCATE elsewhere waits for it. */
  function Used(p: Pending): set<Table> {
    p.wiped
    + (if p.accounts != map[] then {Accounts} else {})
    + (if p.txns != [] then {Txns} else {})
    + (if p.entries != [] then {Entries} else {})
  }

  /** The tables that a statement reads or writes; the checks on an entry read all three. */
  function Touched(c: Statement): set<Table> {
    match c
    case InsertAccount(_, _, _) => {Accounts}
    case UpdateAccount(_, _, _, _) => {Accounts}
    case DeleteAccount(_, _) => {Accounts}
    case InsertTxn(_, _) => {Txns}
    case UpdateTxn(_, _) => {Txns}
    case DeleteTxn(_, _) => {Txns}
    case InsertEntry(_, _) => {Accounts, Txns, Entries}
    case UpdateEntry(_, _) => {Entries}
    case DeleteEntry(_, _) => {Entries}
    case Truncate(_, tables) => tables
    case _ => {}
  }

  /** Another open transaction has truncated one of the tables, and holds it exclusively. */
  predicate Closed(s: Store, xid: nat, tables: set<Table>) {
    exists o | o in s.open :: o != xid && s.open[o].wiped * tables != {}
  }

  /** Another open transaction has written to one of the tables. */
  predicate InUse(s: Store, xid: nat, tables: set<Table>) {
    exists o | o in s.open :: o != xid && Used(s.open[o]) * tables != {}
  }

  predicate SameTxn(a: TxnRow, b: TxnRow) {
    a.id == b.id || a.key == b.key
  }

  /** Another open transaction has written the account row. */
  predicate AccountBusy(s: Store, xid: nat, id: Uuid) {
    exists o | o in s.open :: o != xid && id in s.open[o].accounts
  }

  /** Another open transaction has inserted a row with the same id or the same key. */
  predicate TxnBusy(s: Store, xid: nat, row: TxnRow) {
    exists o | o in s.open :: o != xid && exists t | t in s.open[o].txns :: SameTxn(t, row)
  }

  predicate EntryBusy(s: Store, xid: nat, row: EntryRow) {
    exists o | o in s.open :: o != xid && exists e | e in s.open[o].entries :: e.id == row.id
  }

  // ----- the effect of one statement -----

  /** An error rolls the whole transaction back. */
  function Abort(s: Store, xid: nat): Store {
    s.(open := map o | o in s.open && o != xid :: s.open[o])
  }

  function Wrote(s: Store, xid: nat, p: Pending): Store {
    s.(open := s.open[xid := p])
  }

  function DoInsertAccount(s: Store, xid: nat, id: Uuid, row: AccountRow): Store
    requires xid in s.open
  {
    var p := s.open[xid];
    if id in SeenAccounts(s, xid) || !BalanceAllowed(row.terms, row.balance) then Abort(s, xid)
    else if AccountBusy(s, xid, id) then s
    else Wrote(s, xid, p.(accounts := p.accounts[id := row]))
  }

  /** `reject_account_mutation`: only the balance may change. */
  function DoUpdateAccount(s: Store, xid: nat, id: Uuid, newId: Uuid, row: AccountRow): Store
    requires xid in s.open
  {
    var p := s.open[xid];
    if id !in SeenAccounts(s, xid) || AccountBusy(s, xid, id) then s
    else if newId != id || row.terms != SeenAccounts(s, xid)[id].terms || !BalanceAllowed(row.terms, row.balance) then
      Abort(s, xid)
    else Wrote(s, xid, p.(accounts := p.accounts[id := row]))
  }

  function DoInsertTxn(s: Store, xid: nat, row: TxnRow): Store
    requires xid in s.open
  {
    var p := s.open[xid];
    if exists t | t in SeenTxns(s, xid) :: SameTxn(t, row) then Abort(s, xid)
    else if TxnBusy(s, xid, row) then s
    else Wrote(s, xid, p.(txns := p.txns + [row.(xid := xid)]))
  }

  /** The same-transaction trigger, the CHECK and the foreign keys. */
  function DoInsertEntry(s: Store, xid: nat, row: EntryRow): Store
    requires xid in s.open
  {
    var p := s.open[xid];
    if || !EntryAllowed(SeenAccounts(s, xid), FindById(SeenTxns(s, xid), row.txn), xid, row)
       || exists e | e in SeenEntries(s, xid) :: e.id == row.id
    then Abort(s, xid)
    else if EntryBusy(s, xid, row) then s
    else Wrote(s, xid, p.(entries := p.entries + [row]))
  }

  function Truncated(p: Pending, tables: set<Table>): Pending {
    Pending(if Accounts in tables then map[] else p.accounts, if Txns in tables then [] else p.txns,
            [], p.wiped + tables)
  }

  /** A table that `entries` refers to can only be truncated together with it, and `entries`
      only while none of its deferred triggers is pending. No row trigger fires. */
  function DoTruncate(s: Store, xid: nat, tables: set<Table>): Store
    requires xid in s.open
  {
    var p := s.open[xid];
    if tables == {} || InUse(s, xid, tables) then s
    else if Entries !in tables || p.entries != [] then Abort(s, xid)
    else Wrote(s, xid, Truncated(p, tables))
  }

  /** The deferred trigger, fired for each inserted entry over everything the transaction sees. */
  predicate Commits(s: Store, xid: nat)
    requires xid in s.open
  {
    forall e | e in s.open[xid].entries ::
      AssertTransactionBalanced(Group(SeenEntries(s, xid), TxnOf, e.txn)).Accepted?
  }

  function DoCommit(s: Store, xid: nat): Store
    requires xid in s.open
  {
    if Commits(s, xid)
    then Abort(s, xid).(db := Db(SeenAccounts(s, xid), SeenTxns(s, xid), SeenEntries(s, xid)))
    else Abort(s, xid)
  }

  /** One statement; a statement of no open transaction, or one that has to wait, does nothing. */
  function Exec(s: Store, c: Statement): Store {
    if c.Begin? then s.(open := s.open[s.nextXid := NOTHING_PENDING], nextXid := s.nextXid + 1)
    else if c.xid !in s.open || Closed(s, c.xid, Touched(c)) then s
    else
      match c
      case Begin => s
      case InsertAccount(xid, id, row) => DoInsertAccount(s, xid, id, row)
      case UpdateAccount(xid, id, newId, row) => DoUpdateAccount(s, xid, id, newId, row)
      case DeleteAccount(xid, id) => if id in SeenAccounts(s, xid) then Abort(s, xid) else s
      case InsertTxn(xid, row) => DoInsertTxn(s, xid, row)
      case UpdateTxn(xid, id) => if FindById(SeenTxns(s, xid), id).Some? then Abort(s, xid) else s
      case DeleteTxn(xid, id) => if FindById(SeenTxns(s, xid), id).Some? then Abort(s, xid) else s
      case InsertEntry(xid, row) => DoInsertEntry(s, xid, row)
      case UpdateEntry(xid, id) => if exists e | e in SeenEntries(s, xid) :: e.id == id then Abort(s, xid) else s
      case DeleteEntry(xid, id) => if exists e | e in SeenEntries(s, xid) :: e.id == id then Abort(s, xid) else s
      case Truncate(xid, tables) => DoTruncate(s, xid, tables)
      case Commit(xid) => DoCommit(s, xid)
      case Rollback(xid) => Abort(s, xid)
  }

  function ExecAll(s: Store, cs: seq<Statement>): Store
    decreases |cs|
  {
    if cs == [] then s else ExecAll(Exec(s, cs[0]), cs[1..])
  }

  // ----- the invariant -----

  ghost predicate NoClash(a: seq<TxnRow>, b: seq<TxnRow>) {
    forall t, u | t in a && u in b :: !SameTxn(t, u)
  }

  ghost predicate NoEntryClash(a: seq<EntryRow>, b: seq<EntryRow>) {
    forall d, e | d in a && e in b :: d.id != e.id
  }

  ghost predicate EntrySound(accounts: map<Uuid, AccountRow>, e: EntryRow) {
    e.amount > 0 && e.account in accounts && accounts[e.account].terms.currency == e.currency
  }

  /** What holds of an open transaction: its entries all belong to transactions it created itself. */
  ghost predicate RowsSound(db: Db, xid: nat, p: Pending) {
    && UniqueKeys(p.txns) && UniqueIds(p.txns) && UniqueEntryIds(p.entries)
    && NoClash(db.txns, p.txns) && NoEntryClash(db.entries, p.entries)
    && (forall t | t in p.txns :: t.xid == xid)
    && (forall e | e in p.entries :: HasTxn(p.txns, e.txn) && EntrySound(db.accounts + p.accounts, e))
    && (forall a | a in p.accounts :: BalanceAllowed(p.accounts[a].terms, p.accounts[a].balance))
    && (forall a | a in p.accounts && a in db.accounts :: p.accounts[a].terms == db.accounts[a].terms)
  }

  ghost predicate PendingSound(db: Db, xid: nat, p: Pending) {
    && RowsSound(Under(db, p), xid, p)
    && (p.wiped != {} ==> Entries in p.wiped)
  }

  ghost predicate RowsApart(p: Pending, q: Pending) {
    NoClash(p.txns, q.txns) && NoEntryClash(p.entries, q.entries) && p.accounts.Keys !! q.accounts.Keys
  }

  /** Two open transactions write different rows, and neither uses a table the other has truncated. */
  ghost predicate Apart(p: Pending, q: Pending) {
    RowsApart(p, q) && p.wiped !! Used(q) && q.wiped !! Used(p)
  }

  ghost predicate TriggerAccepts(es: seq<EntryRow>) {
    forall e | e in es :: AssertTransactionBalanced(Group(es, TxnOf, e.txn)).Accepted?
  }

  ghost predicate CommittedSound(db: Db) {
    && KeysAndIdsUnique(db)
    && (forall e | e in db.entries :: HasTxn(db.txns, e.txn) && EntrySound(db.accounts, e))
    && TriggerAccepts(db.entries)
    && NoOverdraft(db.accounts)
  }

  ghost predicate XidsSpent(s: Store) {
    && (forall t | t in s.db.txns :: t.xid !in s.open && t.xid < s.nextXid)
    && (forall x | x in s.open :: x < s.nextXid)
  }

  ghost predicate StoreInv(s: Store) {
    && CommittedSound(s.db)
    && XidsSpent(s)
    && (forall x | x in s.open :: PendingSound(s.db, x, s.open[x]))
    && (forall x, y | x in s.open && y in s.open && x != y :: Apart(s.open[x], s.open[y]))
  }

  lemma AbortKeepsInv(s: Store, xid: nat)
    requires StoreInv(s)
    ensures StoreInv(Abort(s, xid))
  {
  }

  lemma NothingIsSound(db: Db, xid: nat, p: Pending)
    ensures PendingSound(db, xid, NOTHING_PENDING)
    ensures Apart(NOTHING_PENDING, p) && Apart(p, NOTHING_PENDING)
  {
  }

  lemma BeginKeepsInv(s: Store)
    requires StoreInv(s)
    ensures StoreInv(Exec(s, Begin))
  {
    var s' := Exec(s, Begin);
    NothingIsSound(s.db, s.nextXid, NOTHING_PENDING);
    forall x, y | x in s'.open && y in s'.open && x != y ensures Apart(s'.open[x], s'.open[y]) {
      NothingIsSound(s.db, x, s'.open[x]);
      NothingIsSound(s.db, y, s'.open[y]);
    }
  }

  /** Replacing one write set by another that is sound and apart from the rest. */
  lemma WroteKeepsInv(s: Store, xid: nat, p: Pending)
    requires StoreInv(s) && xid in s.open && PendingSound(s.db, xid, p)
    requires forall o | o in s.open && o != xid :: Apart(s.open[o], p)
    ensures StoreInv(Wrote(s, xid, p))
  {
    var s' := Wrote(s, xid, p);
    forall x, y | x in s'.open && y in s'.open && x != y ensures Apart(s'.open[x], s'.open[y]) {
      if x == xid {
        ApartSymmetric(s.open[y], p);
      }
    }
  }

  lemma ApartSymmetric(p: Pending, q: Pending)
    requires Apart(p, q)
    ensures Apart(q, p)
  {
  }

  /** A write to tables that nobody else has truncated. */
  lemma WriteKeepsInv(s: Store, xid: nat, p: Pending, tables: set<Table>)
    requires StoreInv(s) && xid in s.open && PendingSound(s.db, xid, p) && p.wiped == s.open[xid].wiped
    requires !Closed(s, xid, tables) && Used(p) <= Used(s.open[xid]) + tables
    requires forall o | o in s.open && o != xid :: RowsApart(s.open[o], p)
    ensures StoreInv(Wrote(s, xid, p))
  {
    forall o | o in s.open && o != xid ensures Apart(s.open[o], p) {
      assert Apart(s.open[o], s.open[xid]) && RowsApart(s.open[o], p);
      assert s.open[o].wiped * tables == {};
    }
    WroteKeepsInv(s, xid, p);
  }

  lemma WriteAccountKeepsInv(s: Store, xid: nat, id: Uuid, row: AccountRow)
    requires StoreInv(s) && xid in s.open && !AccountBusy(s, xid, id) && BalanceAllowed(row.terms, row.balance)
    requires !Closed(s, xid, {Accounts})
    requires id in SeenAccounts(s, xid) ==> row.terms == SeenAccounts(s, xid)[id].terms
    ensures StoreInv(Wrote(s, xid, s.open[xid].(accounts := s.open[xid].accounts[id := row])))
  {
    var p := s.open[xid];
    var p' := p.(accounts := p.accounts[id := row]);
    assert PendingSound(s.db, xid, p);
    WrittenAccountIsSound(Under(s.db, p), xid, p, id, row);
    forall o | o in s.open && o != xid ensures RowsApart(s.open[o], p') {
      assert Apart(s.open[o], p);
      assert id !in s.open[o].accounts;
    }
    WriteKeepsInv(s, xid, p', {Accounts});
  }

  lemma InsertAccountKeepsInv(s: Store, xid: nat, id: Uuid, row: AccountRow)
    requires StoreInv(s) && xid in s.open && !Closed(s, xid, {Accounts})
    ensures StoreInv(DoInsertAccount(s, xid, id, row))
  {
    AbortKeepsInv(s, xid);
    if id !in SeenAccounts(s, xid) && BalanceAllowed(row.terms, row.balance) && !AccountBusy(s, xid, id) {
      WriteAccountKeepsInv(s, xid, id, row);
    }
  }

  lemma UpdateAccountKeepsInv(s: Store, xid: nat, id: Uuid, newId: Uuid, row: AccountRow)
    requires StoreInv(s) && xid in s.open && !Closed(s, xid, {Accounts})
    ensures StoreInv(DoUpdateAccount(s, xid, id, newId, row))
  {
    AbortKeepsInv(s, xid);
    if && id in SeenAccounts(s, xid) && !AccountBusy(s, xid, id)
       && row.terms == SeenAccounts(s, xid)[id].terms && BalanceAllowed(row.terms, row.balance) {
      WriteAccountKeepsInv(s, xid, id, row);
    }
  }

  lemma WrittenAccountIsSound(db: Db, xid: nat, p: Pending, id: Uuid, row: AccountRow)
    requires RowsSound(db, xid, p) && BalanceAllowed(row.terms, row.balance)
    requires id in db.accounts + p.accounts ==> row.terms == (db.accounts + p.accounts)[id].terms
    ensures RowsSound(db, xid, p.(accounts := p.accounts[id := row]))
  {
  }

  lemma InsertTxnKeepsInv(s: Store, xid: nat, row: TxnRow)
    requires StoreInv(s) && xid in s.open && !Closed(s, xid, {Txns})
    ensures StoreInv(DoInsertTxn(s, xid, row))
  {
    AbortKeepsInv(s, xid);
    if (forall t | t in SeenTxns(s, xid) :: !SameTxn(t, row)) && !TxnBusy(s, xid, row) {
      NewTxnKeepsInv(s, xid, row);
    }
  }

  lemma NewTxnKeepsInv(s: Store, xid: nat, row: TxnRow)
    requires StoreInv(s) && xid in s.open && !Closed(s, xid, {Txns}) && !TxnBusy(s, xid, row)
    requires forall t | t in SeenTxns(s, xid) :: !SameTxn(t, row)
    ensures StoreInv(Wrote(s, xid, s.open[xid].(txns := s.open[xid].txns + [row.(xid := xid)])))
  {
    var p := s.open[xid];
    var p' := p.(txns := p.txns + [row.(xid := xid)]);
    assert PendingSound(s.db, xid, p);
    InsertedTxnIsSound(Under(s.db, p), xid, p, row);
    forall o | o in s.open && o != xid ensures RowsApart(s.open[o], p') {
      assert Apart(s.open[o], p);
      assert forall t | t in s.open[o].txns :: !SameTxn(t, row);
    }
    WriteKeepsInv(s, xid, p', {Txns});
  }

  lemma InsertedTxnIsSound(db: Db, xid: nat, p: Pending, row: TxnRow)
    requires RowsSound(db, xid, p) && forall t | t in db.txns + p.txns :: !SameTxn(t, row)
    ensures RowsSound(db, xid, p.(txns := p.txns + [row.(xid := xid)]))
  {
    var p' := p.(txns := p.txns + [row.(xid := xid)]);
    assert forall t | t in p.txns :: t in db.txns + p.txns;
    assert forall t | t in db.txns :: t in db.txns + p.txns;
    UniqueConcat(p.txns, [row.(xid := xid)]);
    forall e | e in p'.entries ensures HasTxn(p'.txns, e.txn) {
      var t :| t in p.txns && t.id == e.txn;
      assert t in p'.txns;
    }
  }

  /** An entry can only be written by the database transaction that created its parent row. */
  lemma ParentIsOwn(s: Store, xid: nat, id: Uuid)
    requires XidsSpent(s) && xid in s.open
    requires var parent := FindById(SeenTxns(s, xid), id); parent.Some? && parent.value.xid == xid
    ensures HasTxn(s.open[xid].txns, id)
  {
    var t := FindById(SeenTxns(s, xid), id).value;
    assert t in Under(s.db, s.open[xid]).txns || t in s.open[xid].txns;
    assert Under(s.db, s.open[xid]).txns <= s.db.txns;
  }

  /** The insert aborts, waits, or adds an entry that passed every check. */
  lemma InsertEntryCases(s: Store, xid: nat, row: EntryRow)
    requires xid in s.open
    ensures var s' := DoInsertEntry(s, xid, row);
      || s' == Abort(s, xid)
      || s' == s
      || (&& s' == Wrote(s, xid, s.open[xid].(entries := s.open[xid].entries + [row]))
          && !EntryBusy(s, xid, row) && EntrySound(SeenAccounts(s, xid), row)
          && (forall e | e in SeenEntries(s, xid) :: e.id != row.id)
          && FindById(SeenTxns(s, xid), row.txn).Some? && FindById(SeenTxns(s, xid), row.txn).value.xid == xid)
  {
  }

  lemma InsertEntryKeepsInv(s: Store, xid: nat, row: EntryRow)
    requires StoreInv(s) && xid in s.open && !Closed(s, xid, {Accounts, Txns, Entries})
    ensures StoreInv(DoInsertEntry(s, xid, row))
  {
    var s' := DoInsertEntry(s, xid, row);
    InsertEntryCases(s, xid, row);
    if s' == Abort(s, xid) {
      AbortKeepsInv(s, xid);
    } else if s' != s {
      ParentIsOwn(s, xid, row.txn);
      AllowedEntryKeepsInv(s, xid, row);
    }
  }

  lemma AllowedEntryKeepsInv(s: Store, xid: nat, row: EntryRow)
    requires StoreInv(s) && xid in s.open && !Closed(s, xid, {Accounts, Txns, Entries}) && !EntryBusy(s, xid, row)
    requires HasTxn(s.open[xid].txns, row.txn) && EntrySound(SeenAccounts(s, xid), row)
    requires forall e | e in SeenEntries(s, xid) :: e.id != row.id
    ensures StoreInv(Wrote(s, xid, s.open[xid].(entries := s.open[xid].entries + [row])))
  {
    var p := s.open[xid];
    var p' := p.(entries := p.entries + [row]);
    assert PendingSound(s.db, xid, p);
    InsertedEntryIsSound(Under(s.db, p), xid, p, row);
    forall o | o in s.open && o != xid ensures RowsApart(s.open[o], p') {
      StillApart(s, xid, row, o);
    }
    WriteKeepsInv(s, xid, p', {Accounts, Txns, Entries});
  }

  lemma StillApart(s: Store, xid: nat, row: EntryRow, o: nat)
    requires xid in s.open && o in s.open && o != xid && Apart(s.open[o], s.open[xid]) && !EntryBusy(s, xid, row)
    ensures RowsApart(s.open[o], s.open[xid].(entries := s.open[xid].entries + [row]))
  {
    assert forall e | e in s.open[o].entries :: e.id != row.id;
  }

  lemma InsertedEntryIsSound(db: Db, xid: nat, p: Pending, row: EntryRow)
    requires RowsSound(db, xid, p) && HasTxn(p.txns, row.txn) && EntrySound(db.accounts + p.accounts, row)
    requires forall e | e in db.entries + p.entries :: e.id != row.id
    ensures RowsSound(db, xid, p.(entries := p.entries + [row]))
  {
    assert forall e | e in p.entries :: e in db.entries + p.entries;
    assert forall e | e in db.entries :: e in db.entries + p.entries;
  }

  // ----- TRUNCATE -----

  /** What is left under a truncation is sound: `entries` is always emptied along with the rest. */
  lemma UnderIsSound(db: Db, p: Pending)
    requires CommittedSound(db) && (p.wiped != {} ==> Entries in p.wiped)
    ensures CommittedSound(Under(db, p))
  {
    if p.wiped == {} {
      assert Under(db, p) == db;
    }
  }

  lemma TruncatedIsSound(db: Db, xid: nat, p: Pending, tables: set<Table>)
    requires PendingSound(db, xid, p) && Entries in tables
    ensures PendingSound(db, xid, Truncated(p, tables))
  {
  }

  lemma TruncateKeepsInv(s: Store, xid: nat, tables: set<Table>)
    requires StoreInv(s) && xid in s.open && !Closed(s, xid, tables)
    ensures StoreInv(DoTruncate(s, xid, tables))
  {
    if tables == {} || InUse(s, xid, tables) {
    } else if Entries !in tables || s.open[xid].entries != [] {
      AbortKeepsInv(s, xid);
    } else {
      var p := s.open[xid];
      var p' := Truncated(p, tables);
      assert PendingSound(s.db, xid, p);
      TruncatedIsSound(s.db, xid, p, tables);
      forall o | o in s.open && o != xid ensures Apart(s.open[o], p') {
        assert Apart(s.open[o], p);
        assert Used(s.open[o]) * tables == {} && s.open[o].wiped * tables == {};
        assert Used(p') <= Used(p) + tables;
      }
      WroteKeepsInv(s, xid, p');
    }
  }

  // ----- COMMIT -----

  lemma UniqueConcat(a: seq<TxnRow>, b: seq<TxnRow>)
    requires UniqueKeys(a) && UniqueIds(a) && UniqueKeys(b) && UniqueIds(b) && NoClash(a, b)
    ensures UniqueKeys(a + b) && UniqueIds(a + b)
  {
    var c := a + b;
    forall i, j | 0 <= i < j < |c| ensures c[i].key != c[j].key && c[i].id != c[j].id {
      if i < |a| && j >= |a| {
        assert c[i] in a && c[j] in b && !SameTxn(c[i], c[j]);
      }
    }
  }

  lemma UniqueEntriesConcat(a: seq<EntryRow>, b: seq<EntryRow>)
    requires UniqueEntryIds(a) && UniqueEntryIds(b) && NoEntryClash(a, b)
    ensures UniqueEntryIds(a + b)
  {
    var c := a + b;
    forall i, j | 0 <= i < j < |c| ensures c[i].id != c[j].id {
      if i < |a| && j >= |a| {
        assert c[i] in a && c[j] in b;
      }
    }
  }

  /** A commit adds entries only to transactions that it brings along: the entries of every
      transaction that was committed before stay exactly what they were. */
  lemma CommitKeepsOldGroups(db: Db, xid: nat, p: Pending, id: Uuid)
    requires RowsSound(db, xid, p) && HasTxn(db.txns, id)
    ensures Group(db.entries + p.entries, TxnOf, id) == Group(db.entries, TxnOf, id)
  {
    var t :| t in db.txns && t.id == id;
    forall e | e in p.entries ensures TxnOf(e) != id {
      var u :| u in p.txns && u.id == e.txn;
      assert !SameTxn(t, u);
    }
    GroupConcat(db.entries, p.entries, TxnOf, id);
    GroupAbsent(p.entries, TxnOf, id);
    assert Group(db.entries, TxnOf, id) + [] == Group(db.entries, TxnOf, id);
  }

  function Merged(db: Db, p: Pending): Db {
    Db(db.accounts + p.accounts, db.txns + p.txns, db.entries + p.entries)
  }

  lemma CommitIsSound(db: Db, xid: nat, p: Pending)
    requires CommittedSound(db) && RowsSound(db, xid, p)
    requires forall e | e in p.entries ::
               AssertTransactionBalanced(Group(db.entries + p.entries, TxnOf, e.txn)).Accepted?
    ensures CommittedSound(Merged(db, p))
  {
    var db' := Merged(db, p);
    UniqueConcat(db.txns, p.txns);
    UniqueEntriesConcat(db.entries, p.entries);
    forall e | e in db'.entries
      ensures HasTxn(db'.txns, e.txn) && EntrySound(db'.accounts, e)
      ensures AssertTransactionBalanced(Group(db'.entries, TxnOf, e.txn)).Accepted?
    {
      var t :| (t in db.txns || t in p.txns) && t.id == e.txn;
      assert t in db'.txns;
      if e in db.entries {
        CommitKeepsOldGroups(db, xid, p, e.txn);
      }
    }
  }

  /** A write set stays sound when a transaction apart from it commits. */
  lemma OtherStaysSound(db: Db, x: nat, p: Pending, y: nat, q: Pending)
    requires PendingSound(db, x, p) && PendingSound(db, y, q) && Apart(p, q)
    ensures PendingSound(Merged(Under(db, p), p), y, q)
  {
    var old', new' := Under(db, q), Under(Merged(Under(db, p), p), q);
    forall e | e in q.entries ensures EntrySound(new'.accounts + q.accounts, e) {
      assert Entries in Used(q);
      assert EntrySound(old'.accounts + q.accounts, e);
    }
    forall t, u | t in new'.txns && u in q.txns ensures !SameTxn(t, u) {
      assert t in old'.txns || t in p.txns;
    }
    forall d, e | d in new'.entries && e in q.entries ensures d.id != e.id {
      assert d in old'.entries || d in p.entries;
    }
  }

  lemma CommitKeepsInv(s: Store, xid: nat)
    requires StoreInv(s) && xid in s.open
    ensures StoreInv(DoCommit(s, xid))
  {
    AbortKeepsInv(s, xid);
    if Commits(s, xid) {
      PublishKeepsInv(s, xid);
    }
  }

  lemma PublishKeepsInv(s: Store, xid: nat)
    requires StoreInv(s) && xid in s.open && Commits(s, xid)
    ensures StoreInv(DoCommit(s, xid))
  {
    var p := s.open[xid];
    var s' := DoCommit(s, xid);
    assert PendingSound(s.db, xid, p);
    UnderIsSound(s.db, p);
    CommitIsSound(Under(s.db, p), xid, p);
    forall o | o in s'.open ensures PendingSound(s'.db, o, s'.open[o]) {
      assert Apart(p, s.open[o]) && PendingSound(s.db, o, s.open[o]);
      OtherStaysSound(s.db, xid, p, o, s.open[o]);
    }
    assert XidsSpent(s');
  }

  lemma ExecKeepsInv(s: Store, c: Statement)
    requires StoreInv(s)
    ensures StoreInv(Exec(s, c))
  {
    if c.Begin? {
      BeginKeepsInv(s);
    } else if c.xid in s.open && !Closed(s, c.xid, Touched(c)) {
      AbortKeepsInv(s, c.xid);
      match c
      case InsertAccount(xid, id, row) => InsertAccountKeepsInv(s, xid, id, row);
      case UpdateAccount(xid, id, newId, row) => UpdateAccountKeepsInv(s, xid, id, newId, row);
      case InsertTxn(xid, row) => InsertTxnKeepsInv(s, xid, row);
      case InsertEntry(xid, row) => InsertEntryKeepsInv(s, xid, row);
      case Truncate(xid, tables) => TruncateKeepsInv(s, xid, tables);
      case Commit(xid) => CommitKeepsInv(s, xid);
      case _ =>
    }
  }

  lemma {:induction false} ExecAllKeepsInv(s: Store, cs: seq<Statement>)
    requires StoreInv(s)
    ensures StoreInv(ExecAll(s, cs))
    decreases |cs|
  {
    if cs != [] {
      ExecKeepsInv(s, cs[0]);
      ExecAllKeepsInv(Exec(s, cs[0]), cs[1..]);
    }
  }

  // ----- what the schema guarantees, whoever writes -----

  /** Whatever is written, by whomever: every committed transaction that has entries has at
      least two, in one currency, netting to zero; keys and ids are unique; references are
      sound; amounts are positive; and no ordinary account is negative. */
  lemma SchemaHoldsAgainstAnyWriter(cs: seq<Statement>)
    ensures CommittedSound(ExecAll(EMPTY_STORE, cs).db)
  {
    ExecAllKeepsInv(EMPTY_STORE, cs);
  }

  /** Committed rows and the terms of committed accounts are kept, and entries are only ever
      added together with the transaction they belong to. */
  ghost predicate Appends(db: Db, db': Db) {
    && db.txns <= db'.txns
    && db.entries <= db'.entries
    && (forall id | HasTxn(db.txns, id) :: Group(db'.entries, TxnOf, id) == Group(db.entries, TxnOf, id))
    && (forall a | a in db.accounts :: a in db'.accounts && db'.accounts[a].terms == db.accounts[a].terms)
  }

  lemma AppendsTransitive(a: Db, b: Db, c: Db)
    requires Appends(a, b) && Appends(b, c)
    ensures Appends(a, c)
  {
    forall id | HasTxn(a.txns, id) ensures Group(c.entries, TxnOf, id) == Group(a.entries, TxnOf, id) {
      var t :| t in a.txns && t.id == id;
      assert t in b.txns;
      assert HasTxn(b.txns, id);
    }
  }

  lemma CommitAppends(s: Store, xid: nat)
    requires StoreInv(s) && xid in s.open && s.open[xid].wiped == {}
    ensures Appends(s.db, DoCommit(s, xid).db)
  {
    var p := s.open[xid];
    assert PendingSound(s.db, xid, p) && Under(s.db, p) == s.db;
    forall id | HasTxn(s.db.txns, id)
      ensures Group(s.db.entries + p.entries, TxnOf, id) == Group(s.db.entries, TxnOf, id)
    {
      CommitKeepsOldGroups(s.db, xid, p, id);
    }
  }

  /** A truncation takes effect: the transaction that made it commits. */
  predicate Truncates(s: Store, c: Statement) {
    c.Commit? && c.xid in s.open && s.open[c.xid].wiped != {} && Commits(s, c.xid)
  }

  lemma ExecAppends(s: Store, c: Statement)
    requires StoreInv(s) && !Truncates(s, c)
    ensures Appends(s.db, Exec(s, c).db)
  {
    if c.Commit? && c.xid in s.open && Commits(s, c.xid) {
      CommitAppends(s, c.xid);
    } else {
      OnlyCommitPublishes(s, c);
    }
  }

  lemma OnlyCommitPublishes(s: Store, c: Statement)
    requires c.Commit? && c.xid in s.open ==> !Commits(s, c.xid)
    ensures Exec(s, c).db == s.db
  {
  }

  predicate TruncationCommits(s: Store, cs: seq<Statement>)
    decreases |cs|
  {
    cs != [] && (Truncates(s, cs[0]) || TruncationCommits(Exec(s, cs[0]), cs[1..]))
  }

  lemma {:induction false} ExecAllAppends(s: Store, cs: seq<Statement>)
    requires StoreInv(s) && !TruncationCommits(s, cs)
    ensures Appends(s.db, ExecAll(s, cs).db)
    decreases |cs|
  {
    if cs != [] {
      var s1 := Exec(s, cs[0]);
      ExecKeepsInv(s, cs[0]);
      ExecAppends(s, cs[0]);
      ExecAllAppends(s1, cs[1..]);
      AppendsTransitive(s.db, s1.db, ExecAll(s1, cs[1..]).db);
    }
  }

  // ----- what a truncation does -----

  /** The transaction is gone, or has no entries left; its xid is never used again. */
  ghost predicate Lost(s: Store, t: TxnRow) {
    && t.xid !in s.open && t.xid < s.nextXid
    && (t !in s.db.txns || Group(s.db.entries, TxnOf, t.id) == [])
  }

  /** No commit brings entries back, or a row with an old xid. */
  lemma CommitKeepsLost(s: Store, xid: nat, t: TxnRow)
    requires StoreInv(s) && xid in s.open && Commits(s, xid)
    requires Lost(s, t) || (t in s.db.txns && s.open[xid].wiped != {})
    ensures Lost(DoCommit(s, xid), t)
  {
    var p := s.open[xid];
    var left := Under(s.db, p);
    assert PendingSound(s.db, xid, p);
    assert t !in p.txns;
    if t in left.txns {
      assert HasTxn(left.txns, t.id);
      CommitKeepsOldGroups(left, xid, p, t.id);
    }
  }

  /** Xids are drawn in order, and only once. */
  lemma XidsAreFresh(s: Store, c: Statement)
    ensures s.nextXid <= Exec(s, c).nextXid
    ensures forall x | x in Exec(s, c).open :: x in s.open || x == s.nextXid
  {
  }

  lemma ExecKeepsLost(s: Store, c: Statement, t: TxnRow)
    requires StoreInv(s) && Lost(s, t)
    ensures Lost(Exec(s, c), t)
  {
    if c.Commit? && c.xid in s.open && Commits(s, c.xid) {
      CommitKeepsLost(s, c.xid, t);
    } else {
      OnlyCommitPublishes(s, c);
      XidsAreFresh(s, c);
    }
  }

  lemma {:induction false} ExecAllKeepsLost(s: Store, cs: seq<Statement>, t: TxnRow)
    requires StoreInv(s) && Lost(s, t)
    ensures Lost(ExecAll(s, cs), t)
    decreases |cs|
  {
    if cs != [] {
      ExecKeepsInv(s, cs[0]);
      ExecKeepsLost(s, cs[0], t);
      ExecAllKeepsLost(Exec(s, cs[0]), cs[1..], t);
    }
  }

  lemma ExecKeepsTxn(s: Store, c: Statement, t: TxnRow)
    requires StoreInv(s) && t in s.db.txns && !Truncates(s, c)
    ensures t in Exec(s, c).db.txns
  {
    ExecAppends(s, c);
  }

  lemma TruncateLoses(s: Store, c: Statement, t: TxnRow)
    requires StoreInv(s) && t in s.db.txns && Truncates(s, c)
    ensures Lost(Exec(s, c), t)
  {
    CommitKeepsLost(s, c.xid, t);
  }

  lemma {:induction false} TruncationLoses(s: Store, cs: seq<Statement>, t: TxnRow)
    requires StoreInv(s) && t in s.db.txns && TruncationCommits(s, cs)
    ensures Lost(ExecAll(s, cs), t)
    decreases |cs|
  {
    var s1 := Exec(s, cs[0]);
    ExecKeepsInv(s, cs[0]);
    if Truncates(s, cs[0]) {
      TruncateLoses(s, cs[0], t);
      ExecAllKeepsLost(s1, cs[1..], t);
    } else {
      ExecKeepsTxn(s, cs[0], t);
      TruncationLoses(s1, cs[1..], t);
    }
  }

  lemma {:induction false} ExecAllConcat(s: Store, a: seq<Statement>, b: seq<Statement>)
    ensures ExecAll(s, a + b) == ExecAll(ExecAll(s, a), b)
    decreases |a|
  {
    if a == [] {
      assert a + b == b;
    } else {
      assert (a + b)[1..] == a[1..] + b && (a + b)[0] == a[0];
      ExecAllConcat(Exec(s, a[0]), a[1..], b);
    }
  }

  /** The transaction and all its entries are as they were. */
  ghost predicate Unchanged(db: Db, db': Db, t: TxnRow) {
    t in db'.txns && Group(db'.entries, TxnOf, t.id) == Group(db.entries, TxnOf, t.id)
  }

  /** INSERT, UPDATE and DELETE can never extend, edit or remove a committed transaction,
      whoever issues them; one that has entries stays as it is exactly as long as no TRUNCATE commits. */
  lemma CommittedTransactionsAreFinal(before: seq<Statement>, after: seq<Statement>, t: TxnRow)
    requires t in ExecAll(EMPTY_STORE, before).db.txns
    ensures var s := ExecAll(EMPTY_STORE, before); var db' := ExecAll(EMPTY_STORE, before + after).db;
      && (!TruncationCommits(s, after) ==> Unchanged(s.db, db', t))
      && (Group(s.db.entries, TxnOf, t.id) != [] ==> (Unchanged(s.db, db', t) <==> !TruncationCommits(s, after)))
  {
    var s := ExecAll(EMPTY_STORE, before);
    ExecAllKeepsInv(EMPTY_STORE, before);
    ExecAllConcat(EMPTY_STORE, before, after);
    if TruncationCommits(s, after) {
      TruncationLoses(s, after, t);
    } else {
      ExecAllAppends(s, after);
      assert HasTxn(s.db.txns, t.id);
    }
  }

  /** A TRUNCATE of both append-only tables empties them, against no trigger's objection. */
  lemma TruncateErasesEverything(before: seq<Statement>)
    requires ExecAll(EMPTY_STORE, before).open == map[]
    ensures var s := ExecAll(EMPTY_STORE, before);
      ExecAll(EMPTY_STORE, before + [Begin, Truncate(s.nextXid, {Txns, Entries}), Commit(s.nextXid)]).db
        == Db(s.db.accounts, [], [])
  {
    var s := ExecAll(EMPTY_STORE, before);
    var x := s.nextXid;
    var s1 := Exec(s, Begin);
    var s2 := Exec(s1, Truncate(x, {Txns, Entries}));
    assert s1.open == map[x := NOTHING_PENDING];
    assert s2 == Wrote(s1, x, Truncated(NOTHING_PENDING, {Txns, Entries}));
    assert s2.open[x].wiped == {Txns, Entries};
    assert s2.db.accounts + map[] == s2.db.accounts;
    ExecAllConcat(EMPTY_STORE, before, [Begin, Truncate(x, {Txns, Entries}), Commit(x)]);
    ThreeStatements(s, Begin, Truncate(x, {Txns, Entries}), Commit(x));
  }

  /** Local balance gives global balance: the entry log nets to zero, as a whole and in every currency. */
  lemma LogNetsToZero(cs: seq<Statement>, c: Currency)
    ensures SignedSum(ExecAll(EMPTY_STORE, cs).db.entries) == 0
    ensures SignedSum(Group(ExecAll(EMPTY_STORE, cs).db.entries, CurrencyOf, c)) == 0
  {
    var db := ExecAll(EMPTY_STORE, cs).db;
    SchemaHoldsAgainstAnyWriter(cs);
    SweepAgreesWithTrigger(db);
    LocalRowImpliesGlobalRow(db);
    LocalBalanceIsGlobalBalance(db.entries, c);
  }

  /** What the queries of the sweep see at seven moments of the writers' doings. */
  ghost function SeenAfter(cs: Name -> seq<Statement>): Name -> Db {
    n => ExecAll(EMPTY_STORE, cs(n)).db
  }

  /** Five rows of the sweep can never turn bad, whatever is written, also between its queries;
      the other two depend on the transfer path. */
  lemma SchemaGuaranteesFiveRows(cs: Name -> seq<Statement>)
    requires LedgerCheckInvariants(SeenAfter(cs)).Some?
    ensures forall r | r in LedgerCheckInvariants(SeenAfter(cs)).value
              && !r.name.NoEmptyTransactions? && !r.name.MaterializedBalanceMatchesEntries? :: r.ok
  {
    SweepIsSoundAndComplete(SeenAfter(cs));
    forall n: Name | !n.NoEmptyTransactions? && !n.MaterializedBalanceMatchesEntries? ensures Holds(SeenAfter(cs)(n), n) {
      SchemaHolds(cs(n), n);
    }
  }

  lemma SchemaHolds(cs: seq<Statement>, n: Name)
    requires !n.NoEmptyTransactions? && !n.MaterializedBalanceMatchesEntries?
    ensures Holds(ExecAll(EMPTY_STORE, cs).db, n)
  {
    var db := ExecAll(EMPTY_STORE, cs).db;
    SchemaHoldsAgainstAnyWriter(cs);
    SweepAgreesWithTrigger(db);
    LocalRowImpliesGlobalRow(db);
    BalancedRow(db);
    ShapeRow(db);
  }

  lemma ThreeStatements(s: Store, a: Statement, b: Statement, c: Statement)
    ensures ExecAll(s, [a, b, c]) == Exec(Exec(Exec(s, a), b), c)
  {
    ExecAllConcat(s, [a], [b, c]);
    ExecAllConcat(Exec(s, a), [b], [c]);
    assert [a] + [b, c] == [a, b, c] && [b] + [c] == [b, c];
    assert ExecAll(s, [a]) == Exec(s, a) && ExecAll(Exec(s, a), [b]) == Exec(Exec(s, a), b);
  }

  /** The balance trigger fires on entries only, so an empty transaction can be committed. */
  lemma EmptyTransactionIsPossible(row: TxnRow)
    ensures var db := ExecAll(EMPTY_STORE, [Begin, InsertTxn(0, row), Commit(0)]).db;
      |db.txns| == 1 && db.entries == [] && !NoEmptyTransaction(db)
  {
    var s1 := Exec(EMPTY_STORE, Begin);
    var s2 := Exec(s1, InsertTxn(0, row));
    var s3 := Exec(s2, Commit(0));
    assert s1.open[0] == NOTHING_PENDING;
    assert s2.open[0].txns == [row.(xid := 0)];
    assert s3.db.txns == [row.(xid := 0)];
    ThreeStatements(EMPTY_STORE, Begin, InsertTxn(0, row), Commit(0));
    assert s3.db.txns[0] in s3.db.txns;
  }

  /** The cached balance is not tied to the log by any constraint: an account can be opened
      with money that no entry accounts for. */
  lemma DriftIsPossible(id: Uuid, terms: AccountTerms)
    ensures var db := ExecAll(EMPTY_STORE, [Begin, InsertAccount(0, id, AccountRow(terms, 1)), Commit(0)]).db;
      !CacheAgrees(db)
  {
    var row := AccountRow(terms, 1);
    var s1 := Exec(EMPTY_STORE, Begin);
    var s2 := Exec(s1, InsertAccount(0, id, row));
    var s3 := Exec(s2, Commit(0));
    assert s1.open[0] == NOTHING_PENDING;
    assert s2.open[0].accounts == map[id := row];
    ThreeStatements(EMPTY_STORE, Begin, InsertAccount(0, id, row), Commit(0));
    assert s3.db.accounts[id] == row && s3.db.entries == [];
  }

  /** The drift that a writer can cause is reported: the sweep runs, and its row says that one
      account is off. */
  lemma DriftIsReported(id: Uuid, terms: AccountTerms, seen: Name -> Db)
    requires var db := ExecAll(EMPTY_STORE, [Begin, InsertAccount(0, id, AccountRow(terms, 1)), Commit(0)]).db;
      forall n :: seen(n) == db
    ensures LedgerCheckInvariants(seen).Some?
    ensures CheckRow(MaterializedBalanceMatchesEntries, false, 1) in LedgerCheckInvariants(seen).value
  {
    var db := seen(MaterializedBalanceMatchesEntries);
    DriftedStore(id, terms);
    ViewIsComplete(db);
    SweepFailsExactlyWhen(seen);
    assert DriftedAccounts(db) == {id};
    SweepCovers(seen, MaterializedBalanceMatchesEntries);
  }

  lemma DriftedStore(id: Uuid, terms: AccountTerms)
    ensures var db := ExecAll(EMPTY_STORE, [Begin, InsertAccount(0, id, AccountRow(terms, 1)), Commit(0)]).db;
      db == Db(map[id := AccountRow(terms, 1)], [], [])
  {
    var row := AccountRow(terms, 1);
    var s1 := Exec(EMPTY_STORE, Begin);
    var s2 := Exec(s1, InsertAccount(0, id, row));
    assert s1.open[0] == NOTHING_PENDING;
    assert s2.open[0].accounts == map[id := row];
    ThreeStatements(EMPTY_STORE, Begin, InsertAccount(0, id, row), Commit(0));
    assert map[] + map[id := row] == map[id := row];
  }
}
