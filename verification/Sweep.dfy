/** `account_balances_derived` and `ledger_check_invariants`: the grouped queries, and
    the plain statements they stand for. Nothing here assumes that the tables are sane. */
module Sweep {
  import opened LedgerTypes
  import opened Schema
  import opened SequentialLedger
  import opened Conservation

  // ----- the view -----

  function Nullable(es: seq<EntryRow>): seq<Option<EntryRow>> {
    if es == [] then [] else [Some(es[0])] + Nullable(es[1..])
  }

  /** `accounts a LEFT JOIN entries e ON e.account_id = a.id`: an account without
      entries still contributes one row, with a NULL entry. */
  function LeftJoin(db: Db, a: Uuid): seq<Option<EntryRow>> {
    var g := Group(db.entries, AccountOf, a);
    if g == [] then [None] else Nullable(g)
  }

  /** `SUM(CASE ...)`: NULLs are skipped, and the sum of no values is NULL. */
  function NullableSum(rows: seq<Option<EntryRow>>): Option<int> {
    if rows == [] then None
    else
      match (rows[0], NullableSum(rows[1..]))
      case (None, rest) => rest
      case (Some(e), None) => Some(SignedAmount(e))
      case (Some(e), Some(sum)) => Some(SignedAmount(e) + sum)
  }

  function Coalesce(x: Option<int>): int {
    match x
    case None => 0
    case Some(v) => v
  }

  /** The view before its cast to `NUMERIC(20, 8)`; one row an account. */
  function DerivedBalances(db: Db): map<Uuid, int> {
    map a | a in db.accounts :: Coalesce(NullableSum(LeftJoin(db, a)))
  }

  lemma {:induction false} NullableSumIsSum(es: seq<EntryRow>)
    ensures Coalesce(NullableSum(Nullable(es))) == SignedSum(es)
    ensures es != [] ==> NullableSum(Nullable(es)).Some?
  {
    if es != [] {
      NullableSumIsSum(es[1..]);
      assert Nullable(es)[1..] == Nullable(es[1..]);
      if es[1..] == [] {
        assert Nullable(es[1..]) == [];
      }
    }
  }

  /** The view skips no account, and derives the plain sum over the account's entries. */
  lemma ViewIsComplete(db: Db)
    ensures DerivedBalances(db).Keys == db.accounts.Keys
    ensures forall a | a in db.accounts :: DerivedBalances(db)[a] == SignedSum(Group(db.entries, AccountOf, a))
  {
    forall a | a in db.accounts ensures DerivedBalances(db)[a] == SignedSum(Group(db.entries, AccountOf, a)) {
      NullableSumIsSum(Group(db.entries, AccountOf, a));
      var nothing: seq<Option<EntryRow>> := [None];
      assert nothing[1..] == [] && NullableSum(nothing).None?;
    }
  }

  // ----- the queries, by their `bad` rows -----

  function TxnIds(es: seq<EntryRow>): set<Uuid> {
    set e | e in es :: e.txn
  }

  function UnbalancedTransactions(db: Db): set<Uuid> {
    set id | id in TxnIds(db.entries) && SignedSum(Group(db.entries, TxnOf, id)) != 0
  }

  function MisshapenTransactions(db: Db): set<Uuid> {
    set id | id in TxnIds(db.entries) &&
             (|Group(db.entries, TxnOf, id)| < 2
              || |set e | e in Group(db.entries, TxnOf, id) :: e.currency| != 1)
  }

  function EmptyTransactions(db: Db): set<nat> {
    set i | 0 <= i < |db.txns| && forall e | e in db.entries :: e.txn != db.txns[i].id
  }

  function DriftedAccounts(db: Db): set<Uuid> {
    set a | a in db.accounts && db.accounts[a].balance != DerivedBalances(db)[a]
  }

  function OverdrawnAccounts(db: Db): set<Uuid> {
    set a | a in db.accounts && db.accounts[a].balance < 0 && !db.accounts[a].terms.allowsNegative
  }

  function RowsWithKey(ts: seq<TxnRow>, key: string): set<nat> {
    set i | 0 <= i < |ts| && ts[i].key == key
  }

  function DuplicatedKeys(db: Db): set<string> {
    set t | t in db.txns && |RowsWithKey(db.txns, t.key)| > 1 :: t.key
  }

  datatype Name =
    | GlobalSumZero | PerTransactionBalanced | TransactionShape | NoEmptyTransactions
    | MaterializedBalanceMatchesEntries | NoUnauthorizedNegativeBalance | IdempotencyKeysUnique

  datatype CheckRow = CheckRow(name: Name, ok: bool, count: int)

  /** A row over the `bad` rows of its query. */
  function CountRow(name: Name, bad: nat): CheckRow {
    CheckRow(name, bad == 0, bad)
  }

  function GlobalCheck(db: Db): CheckRow {
    CheckRow(GlobalSumZero, SignedSum(db.entries) == 0, SignedSum(db.entries))
  }

  function BalancedCheck(db: Db): CheckRow {
    CountRow(PerTransactionBalanced, |UnbalancedTransactions(db)|)
  }

  function ShapeCheck(db: Db): CheckRow {
    CountRow(TransactionShape, |MisshapenTransactions(db)|)
  }

  function EmptyCheck(db: Db): CheckRow {
    CountRow(NoEmptyTransactions, |EmptyTransactions(db)|)
  }

  function DriftCheck(db: Db): CheckRow {
    CountRow(MaterializedBalanceMatchesEntries, |DriftedAccounts(db)|)
  }

  function OverdraftCheck(db: Db): CheckRow {
    CountRow(NoUnauthorizedNegativeBalance, |OverdrawnAccounts(db)|)
  }

  function KeysCheck(db: Db): CheckRow {
    CountRow(IdempotencyKeysUnique, |DuplicatedKeys(db)|)
  }

  /** The cast of the view overflows. */
  predicate ViewFails(db: Db) {
    exists a | a in db.accounts :: !Fits(DerivedBalances(db)[a])
  }

  const NAMES: seq<Name> := [
    GlobalSumZero, PerTransactionBalanced, TransactionShape, NoEmptyTransactions,
    MaterializedBalanceMatchesEntries, NoUnauthorizedNegativeBalance, IdempotencyKeysUnique]

  function Check(db: Db, n: Name): CheckRow {
    match n
    case GlobalSumZero => GlobalCheck(db)
    case PerTransactionBalanced => BalancedCheck(db)
    case TransactionShape => ShapeCheck(db)
    case NoEmptyTransactions => EmptyCheck(db)
    case MaterializedBalanceMatchesEntries => DriftCheck(db)
    case NoUnauthorizedNegativeBalance => OverdraftCheck(db)
    case IdempotencyKeysUnique => KeysCheck(db)
  }

  /** `ledger_check_invariants()`, row by row. Each of its queries takes a snapshot of its own:
      `seen(n)` is the one the query for `n` runs on. `None` when the view's cast overflows and
      the whole function fails. */
  function LedgerCheckInvariants(seen: Name -> Db): Option<seq<CheckRow>> {
    if ViewFails(seen(MaterializedBalanceMatchesEntries)) then None
    else Some(seq(|NAMES|, i requires 0 <= i < |NAMES| => Check(seen(NAMES[i]), NAMES[i])))
  }

  // ----- the plain statements -----

  ghost predicate EveryTransactionNets(db: Db) {
    forall id: Uuid :: SignedSum(Group(db.entries, TxnOf, id)) == 0
  }

  ghost predicate EveryTransactionShaped(db: Db) {
    forall e | e in db.entries ::
      var g := Group(db.entries, TxnOf, e.txn);
      |g| >= 2 && forall o | o in g :: o.currency == e.currency
  }

  ghost predicate NoEmptyTransaction(db: Db) {
    forall t | t in db.txns :: exists e :: e in db.entries && e.txn == t.id
  }

  lemma BalancedRow(db: Db)
    ensures UnbalancedTransactions(db) == {} <==> EveryTransactionNets(db)
  {
    if UnbalancedTransactions(db) == {} {
      forall id: Uuid ensures SignedSum(Group(db.entries, TxnOf, id)) == 0 {
        if id in TxnIds(db.entries) {
          assert id !in UnbalancedTransactions(db);
        } else {
          forall e | e in db.entries ensures TxnOf(e) != id {
            assert e.txn in TxnIds(db.entries);
          }
          GroupAbsent(db.entries, TxnOf, id);
        }
      }
    }
  }

  lemma ShapeRow(db: Db)
    ensures MisshapenTransactions(db) == {} <==> EveryTransactionShaped(db)
  {
    if MisshapenTransactions(db) == {} {
      forall e | e in db.entries
        ensures var g := Group(db.entries, TxnOf, e.txn); |g| >= 2 && forall o | o in g :: o.currency == e.currency
      {
        assert e.txn in TxnIds(db.entries) && e.txn !in MisshapenTransactions(db);
        InGroup(db.entries, TxnOf, e.txn);
        OneCurrency(Group(db.entries, TxnOf, e.txn));
      }
    }
    if EveryTransactionShaped(db) {
      forall id | id in TxnIds(db.entries) ensures id !in MisshapenTransactions(db) {
        var e :| e in db.entries && e.txn == id;
        InGroup(db.entries, TxnOf, id);
        OneCurrency(Group(db.entries, TxnOf, id));
      }
    }
  }

  lemma EmptyRow(db: Db)
    ensures EmptyTransactions(db) == {} <==> NoEmptyTransaction(db)
  {
    if EmptyTransactions(db) == {} {
      forall t | t in db.txns ensures exists e :: e in db.entries && e.txn == t.id {
        var i :| 0 <= i < |db.txns| && db.txns[i] == t;
        assert i !in EmptyTransactions(db);
      }
    }
    if NoEmptyTransaction(db) {
      forall i | 0 <= i < |db.txns| ensures i !in EmptyTransactions(db) {
        assert db.txns[i] in db.txns;
      }
    }
  }

  lemma DriftRow(db: Db)
    ensures DriftedAccounts(db) == {} <==> CacheAgrees(db)
  {
    ViewIsComplete(db);
    forall a | a in db.accounts
      ensures a in DriftedAccounts(db) <==> db.accounts[a].balance != SignedSum(Group(db.entries, AccountOf, a)) {
    }
  }

  lemma OverdraftRow(db: Db)
    ensures OverdrawnAccounts(db) == {} <==> NoOverdraft(db.accounts)
  {
    forall a | a in db.accounts
      ensures a in OverdrawnAccounts(db) <==> !BalanceAllowed(db.accounts[a].terms, db.accounts[a].balance) {
    }
  }

  lemma SharedKeyIsReported(db: Db, i: nat, j: nat)
    requires i < j < |db.txns| && db.txns[i].key == db.txns[j].key
    ensures db.txns[i].key in DuplicatedKeys(db)
  {
    var rows := RowsWithKey(db.txns, db.txns[i].key);
    assert {i, j} <= rows;
    SubsetSize({i, j}, rows);
    assert db.txns[i] in db.txns;
  }

  lemma KeysRow(db: Db)
    ensures DuplicatedKeys(db) == {} <==> UniqueKeys(db.txns)
  {
    if DuplicatedKeys(db) == {} {
      forall i, j | 0 <= i < j < |db.txns| ensures db.txns[i].key != db.txns[j].key {
        if db.txns[i].key == db.txns[j].key {
          SharedKeyIsReported(db, i, j);
        }
      }
    }
    if UniqueKeys(db.txns) {
      forall t | t in db.txns ensures |RowsWithKey(db.txns, t.key)| <= 1 {
        var i :| 0 <= i < |db.txns| && db.txns[i] == t;
        assert RowsWithKey(db.txns, t.key) == {i};
      }
    }
  }

  // ----- the sweep -----

  lemma OkMeansNoBadRows(db: Db)
    ensures BalancedCheck(db).ok <==> UnbalancedTransactions(db) == {}
    ensures ShapeCheck(db).ok <==> MisshapenTransactions(db) == {}
    ensures EmptyCheck(db).ok <==> EmptyTransactions(db) == {}
    ensures DriftCheck(db).ok <==> DriftedAccounts(db) == {}
    ensures OverdraftCheck(db).ok <==> OverdrawnAccounts(db) == {}
    ensures KeysCheck(db).ok <==> DuplicatedKeys(db) == {}
  {
  }

  /** The plain statement that a row of the sweep stands for. */
  ghost predicate Holds(db: Db, n: Name) {
    match n
    case GlobalSumZero => SignedSum(db.entries) == 0
    case PerTransactionBalanced => EveryTransactionNets(db)
    case TransactionShape => EveryTransactionShaped(db)
    case NoEmptyTransactions => NoEmptyTransaction(db)
    case MaterializedBalanceMatchesEntries => CacheAgrees(db)
    case NoUnauthorizedNegativeBalance => NoOverdraft(db.accounts)
    case IdempotencyKeysUnique => UniqueKeys(db.txns)
  }

  /** Each check is ok exactly when its plain statement holds. */
  lemma CheckIsSoundAndComplete(db: Db, n: Name)
    ensures Check(db, n).ok <==> Holds(db, n)
  {
    OkMeansNoBadRows(db);
    match n
    case GlobalSumZero =>
    case PerTransactionBalanced => BalancedRow(db);
    case TransactionShape => ShapeRow(db);
    case NoEmptyTransactions => EmptyRow(db);
    case MaterializedBalanceMatchesEntries => DriftRow(db);
    case NoUnauthorizedNegativeBalance => OverdraftRow(db);
    case IdempotencyKeysUnique => KeysRow(db);
  }

  lemma CheckHasName(db: Db, n: Name)
    ensures Check(db, n).name == n
  {
  }

  /** Every row of the sweep is a check, on the snapshot of its own query. */
  lemma RowsAreChecks(seen: Name -> Db, r: CheckRow)
    requires LedgerCheckInvariants(seen).Some? && r in LedgerCheckInvariants(seen).value
    ensures r == Check(seen(r.name), r.name)
  {
    var rows := LedgerCheckInvariants(seen).value;
    var i :| 0 <= i < |rows| && rows[i] == r;
    CheckHasName(seen(NAMES[i]), NAMES[i]);
  }

  /** No check is left out. */
  lemma SweepCovers(seen: Name -> Db, n: Name)
    requires LedgerCheckInvariants(seen).Some?
    ensures Check(seen(n), n) in LedgerCheckInvariants(seen).value
  {
    var i := Position(n);
    assert LedgerCheckInvariants(seen).value[i] == Check(seen(n), n);
  }

  lemma Position(n: Name) returns (i: nat)
    ensures i < |NAMES| && NAMES[i] == n
  {
    i := match n
         case GlobalSumZero => 0
         case PerTransactionBalanced => 1
         case TransactionShape => 2
         case NoEmptyTransactions => 3
         case MaterializedBalanceMatchesEntries => 4
         case NoUnauthorizedNegativeBalance => 5
         case IdempotencyKeysUnique => 6;
  }

  /** Each row of the sweep is ok exactly when its plain statement holds, and no statement is left out. */
  lemma SweepIsSoundAndComplete(seen: Name -> Db)
    requires LedgerCheckInvariants(seen).Some?
    ensures forall r | r in LedgerCheckInvariants(seen).value :: r.ok <==> Holds(seen(r.name), r.name)
    ensures (forall r | r in LedgerCheckInvariants(seen).value :: r.ok) <==> forall n: Name :: Holds(seen(n), n)
  {
    var rows := LedgerCheckInvariants(seen).value;
    forall r | r in rows ensures r.ok <==> Holds(seen(r.name), r.name) {
      RowsAreChecks(seen, r);
      CheckIsSoundAndComplete(seen(r.name), r.name);
    }
    if forall r | r in rows :: r.ok {
      forall n: Name ensures Holds(seen(n), n) {
        SweepCovers(seen, n);
        CheckIsSoundAndComplete(seen(n), n);
      }
    }
  }

  /** The sweep fails as a whole only when the balance derived for some account does not fit
      the column type; whatever else is wrong with the tables is reported. */
  lemma SweepFailsExactlyWhen(seen: Name -> Db)
    ensures LedgerCheckInvariants(seen).None? <==>
            var db := seen(MaterializedBalanceMatchesEntries);
            exists a | a in db.accounts ::
              var sum := SignedSum(Group(db.entries, AccountOf, a));
              sum <= -100_000_000_000_000_000_000 || sum >= 100_000_000_000_000_000_000
  {
    var db := seen(MaterializedBalanceMatchesEntries);
    ViewIsComplete(db);
    assert forall a | a in db.accounts :: DerivedBalances(db)[a] == SignedSum(Group(db.entries, AccountOf, a));
  }

  // ----- what the rows count -----

  /** `count` things are bad. */
  ghost predicate Counts<T(!new)>(count: int, bad: T -> bool) {
    exists all: set<T> :: (forall x :: x in all <==> bad(x)) && |all| == count
  }

  lemma CountOf<T(!new)>(all: set<T>, bad: T -> bool)
    requires forall x :: x in all <==> bad(x)
    ensures Counts(|all|, bad)
  {
  }

  ghost predicate Unbalanced(db: Db, id: Uuid) {
    SignedSum(Group(db.entries, TxnOf, id)) != 0
  }

  ghost predicate Misshapen(db: Db, id: Uuid) {
    var g := Group(db.entries, TxnOf, id);
    |g| == 1 || exists i, j | 0 <= i < |g| && 0 <= j < |g| :: g[i].currency != g[j].currency
  }

  ghost predicate EmptyAt(db: Db, i: nat) {
    i < |db.txns| && forall e | e in db.entries :: e.txn != db.txns[i].id
  }

  ghost predicate Drifted(db: Db, a: Uuid) {
    a in db.accounts && db.accounts[a].balance != SignedSum(Group(db.entries, AccountOf, a))
  }

  ghost predicate Overdrawn(db: Db, a: Uuid) {
    a in db.accounts && db.accounts[a].balance < 0 && !db.accounts[a].terms.allowsNegative
  }

  ghost predicate Shared(db: Db, key: string) {
    exists i, j | 0 <= i < j < |db.txns| :: db.txns[i].key == key == db.txns[j].key
  }

  /** What the number in a row of the sweep says. */
  ghost predicate CountsRightly(db: Db, r: CheckRow) {
    match r.name
    case GlobalSumZero => r.count == SignedSum(db.entries)
    case PerTransactionBalanced => Counts(r.count, id => Unbalanced(db, id))
    case TransactionShape => Counts(r.count, id => Misshapen(db, id))
    case NoEmptyTransactions => Counts(r.count, i => EmptyAt(db, i))
    case MaterializedBalanceMatchesEntries => Counts(r.count, a => Drifted(db, a))
    case NoUnauthorizedNegativeBalance => Counts(r.count, a => Overdrawn(db, a))
    case IdempotencyKeysUnique => Counts(r.count, key => Shared(db, key))
  }

  lemma UngroupedIsEmpty(db: Db, id: Uuid)
    requires id !in TxnIds(db.entries)
    ensures Group(db.entries, TxnOf, id) == []
  {
    forall e | e in db.entries ensures TxnOf(e) != id {
      assert e.txn in TxnIds(db.entries);
    }
    GroupAbsent(db.entries, TxnOf, id);
  }

  lemma UnbalancedCount(db: Db)
    ensures Counts(BalancedCheck(db).count, id => Unbalanced(db, id))
  {
    forall id: Uuid ensures id in UnbalancedTransactions(db) <==> Unbalanced(db, id) {
      if id !in TxnIds(db.entries) {
        UngroupedIsEmpty(db, id);
      }
    }
    CountOf(UnbalancedTransactions(db), id => Unbalanced(db, id));
  }

  lemma MixedCurrencies(g: seq<EntryRow>)
    requires g != []
    ensures |set e | e in g :: e.currency| != 1 <==>
            exists i, j | 0 <= i < |g| && 0 <= j < |g| :: g[i].currency != g[j].currency
  {
    OneCurrency(g);
    if e :| e in g && e.currency != g[0].currency {
      var i :| 0 <= i < |g| && g[i] == e;
      assert g[i].currency != g[0].currency;
    }
  }

  lemma MisshapenCount(db: Db)
    ensures Counts(ShapeCheck(db).count, id => Misshapen(db, id))
  {
    forall id: Uuid ensures id in MisshapenTransactions(db) <==> Misshapen(db, id) {
      if id in TxnIds(db.entries) {
        InGroup(db.entries, TxnOf, id);
        MixedCurrencies(Group(db.entries, TxnOf, id));
      } else {
        UngroupedIsEmpty(db, id);
      }
    }
    CountOf(MisshapenTransactions(db), id => Misshapen(db, id));
  }

  lemma EmptyCount(db: Db)
    ensures Counts(EmptyCheck(db).count, i => EmptyAt(db, i))
  {
    CountOf(EmptyTransactions(db), i => EmptyAt(db, i));
  }

  lemma DriftCount(db: Db)
    ensures Counts(DriftCheck(db).count, a => Drifted(db, a))
  {
    ViewIsComplete(db);
    forall a: Uuid ensures a in DriftedAccounts(db) <==> Drifted(db, a) {
      assert a in db.accounts ==> DerivedBalances(db)[a] == SignedSum(Group(db.entries, AccountOf, a));
    }
    CountOf(DriftedAccounts(db), a => Drifted(db, a));
  }

  lemma OverdraftCount(db: Db)
    ensures Counts(OverdraftCheck(db).count, a => Overdrawn(db, a))
  {
    CountOf(OverdrawnAccounts(db), a => Overdrawn(db, a));
  }

  lemma SharedCount(db: Db)
    ensures Counts(KeysCheck(db).count, key => Shared(db, key))
  {
    forall key ensures key in DuplicatedKeys(db) <==> Shared(db, key) {
      if Shared(db, key) {
        var i, j :| 0 <= i < j < |db.txns| && db.txns[i].key == key == db.txns[j].key;
        SharedKeyIsReported(db, i, j);
      }
      if key in DuplicatedKeys(db) {
        TwoRowsShare(db, key);
      }
    }
    CountOf(DuplicatedKeys(db), key => Shared(db, key));
  }

  lemma TwoRowsShare(db: Db, key: string)
    requires |RowsWithKey(db.txns, key)| > 1
    ensures Shared(db, key)
  {
    var rows := RowsWithKey(db.txns, key);
    var i :| i in rows;
    assert |rows - {i}| > 0;
    var j :| j in rows - {i};
    assert 0 <= (if i < j then i else j) < (if i < j then j else i) < |db.txns|;
  }

  /** Every row of the sweep counts exactly what is wrong with its snapshot. */
  lemma SweepCountsRightly(seen: Name -> Db, r: CheckRow)
    requires LedgerCheckInvariants(seen).Some? && r in LedgerCheckInvariants(seen).value
    ensures CountsRightly(seen(r.name), r)
  {
    var db := seen(r.name);
    RowsAreChecks(seen, r);
    match r.name
    case GlobalSumZero =>
    case PerTransactionBalanced => UnbalancedCount(db);
    case TransactionShape => MisshapenCount(db);
    case NoEmptyTransactions => EmptyCount(db);
    case MaterializedBalanceMatchesEntries => DriftCount(db);
    case NoUnauthorizedNegativeBalance => OverdraftCount(db);
    case IdempotencyKeysUnique => SharedCount(db);
  }

  /** The global row follows from the per-transaction row. */
  lemma LocalRowImpliesGlobalRow(db: Db)
    requires UnbalancedTransactions(db) == {}
    ensures SignedSum(db.entries) == 0
  {
    var ids := TxnIds(db.entries);
    SumByGroup(db.entries, TxnOf, ids);
    forall id | id in ids ensures GroupSum(db.entries, TxnOf)(id) == 0 {
      assert id !in UnbalancedTransactions(db);
    }
    SumOverZero(ids, GroupSum(db.entries, TxnOf));
  }

  /** The two per-transaction rows are ok exactly when the commit-time trigger would
      accept every transaction that has entries. */
  lemma SweepAgreesWithTrigger(db: Db)
    ensures UnbalancedTransactions(db) == {} && MisshapenTransactions(db) == {} <==>
            forall e | e in db.entries :: AssertTransactionBalanced(Group(db.entries, TxnOf, e.txn)).Accepted?
  {
    forall e | e in db.entries
      ensures AssertTransactionBalanced(Group(db.entries, TxnOf, e.txn)).Accepted? <==>
              e.txn !in UnbalancedTransactions(db) && e.txn !in MisshapenTransactions(db)
    {
      assert e.txn in TxnIds(db.entries);
    }
    assert forall id | id in UnbalancedTransactions(db) :: id in TxnIds(db.entries);
    assert forall id | id in MisshapenTransactions(db) :: id in TxnIds(db.entries);
  }

  lemma NetOfPairs(db: Db)
    requires Consistent(db)
    ensures EveryTransactionNets(db)
  {
    forall id: Uuid ensures SignedSum(Group(db.entries, TxnOf, id)) == 0 {
      var g := Group(db.entries, TxnOf, id);
      InGroup(db.entries, TxnOf, id);
      if g != [] {
        assert g[0] in g && EntryReferenced(db, g[0]);
        PairIsAccepted(g);
      }
    }
  }

  lemma PairsAreNotEmpty(db: Db)
    requires Consistent(db)
    ensures NoEmptyTransaction(db)
  {
    forall t | t in db.txns ensures exists e :: e in db.entries && e.txn == t.id {
      InGroup(db.entries, TxnOf, t.id);
      assert Group(db.entries, TxnOf, t.id)[0] in Group(db.entries, TxnOf, t.id);
    }
  }

  lemma ConsistentHolds(db: Db, n: Name)
    requires Consistent(db)
    ensures Holds(db, n)
  {
    NetOfPairs(db);
    BalancedRow(db);
    LocalRowImpliesGlobalRow(db);
    ShapeOfPairs(db);
    PairsAreNotEmpty(db);
  }

  /** On states the sequential ledger can reach the sweep runs, and every row is ok, even if
      the ledger moves on between the queries. */
  lemma SweepIsGreen(seen: Name -> Db)
    requires forall n :: Consistent(seen(n))
    ensures LedgerCheckInvariants(seen).Some?
    ensures forall r | r in LedgerCheckInvariants(seen).value :: r.ok
  {
    ViewIsComplete(seen(MaterializedBalanceMatchesEntries));
    forall n: Name ensures Holds(seen(n), n) {
      ConsistentHolds(seen(n), n);
    }
    SweepIsSoundAndComplete(seen);
  }

  lemma ShapeOfPairs(db: Db)
    requires Consistent(db)
    ensures EveryTransactionShaped(db)
  {
    forall e | e in db.entries
      ensures var g := Group(db.entries, TxnOf, e.txn); |g| >= 2 && forall o | o in g :: o.currency == e.currency
    {
      assert EntryReferenced(db, e);
      InGroup(db.entries, TxnOf, e.txn);
      assert IsPair(Group(db.entries, TxnOf, e.txn));
    }
  }
}
