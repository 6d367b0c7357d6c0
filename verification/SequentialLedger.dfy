/** The reference: a ledger that handles one request at a time. The concurrent
    protocol and the service class are both measured against it. */
module SequentialLedger {
  import opened LedgerTypes
  import opened Schema
  import opened OrderedRead

  /** Values a request draws while it runs: ids, the database transaction's xid and its start time. */
  datatype Fresh = Fresh(txn: Uuid, credit: Uuid, debit: Uuid, xid: nat, now: int)

  datatype Answer =
    | Created(id: Uuid)
    | Replayed(id: Uuid)
    | KeyConflict
    | SelfTransfer
    | NonPositiveAmount
    | AccountNotFound(account: Uuid)
    | CurrencyMismatch(account: Uuid)
    | InsufficientFunds(account: Uuid)
    | NumericOverflow          // 22003 from the database
    | DatabaseError            // any other database or connection error
    | CollisionWithoutRow      // "idempotency key collided but no transaction was found"
    | TransactionNotFound(id: Uuid)

  /** How often a call is tried again after a retryable error. */
  const MAX_CONFLICT_RETRIES: nat := 3

  function FirstLock(t: Terms): Uuid {
    if t.from < t.to then t.from else t.to
  }

  function SecondLock(t: Terms): Uuid {
    if t.from < t.to then t.to else t.from
  }

  /** The answer a request deserves in state `db`. */
  function Decide(db: Db, call: Call, f: Fresh): Answer {
    match FindByKey(db.txns, call.key)
    case Some(row) => if row.digest == call.digest then Replayed(row.id) else KeyConflict
    case None =>
      var t := call.terms;
      if t.from == t.to then SelfTransfer
      else if t.amount <= 0 then NonPositiveAmount
      else if FirstLock(t) !in db.accounts then AccountNotFound(FirstLock(t))
      else if SecondLock(t) !in db.accounts then AccountNotFound(SecondLock(t))
      else if db.accounts[t.from].terms.currency != t.currency then CurrencyMismatch(t.from)
      else if db.accounts[t.to].terms.currency != t.currency then CurrencyMismatch(t.to)
      else if !db.accounts[t.from].terms.allowsNegative && db.accounts[t.from].balance < t.amount then
        InsufficientFunds(t.from)
      else if !Fits(db.accounts[t.from].balance - t.amount) || !Fits(db.accounts[t.to].balance + t.amount) then
        NumericOverflow
      else Created(f.txn)
  }

  function NewRow(call: Call, f: Fresh): TxnRow {
    TxnRow(f.txn, call.key, call.digest, call.terms.description, f.xid, f.now)
  }

  function CreditEntry(call: Call, f: Fresh): EntryRow {
    EntryRow(f.credit, f.txn, call.terms.from, Credit, call.terms.amount, call.terms.currency, f.now)
  }

  function DebitEntry(call: Call, f: Fresh): EntryRow {
    EntryRow(f.debit, f.txn, call.terms.to, Debit, call.terms.amount, call.terms.currency, f.now)
  }

  function Moved(accounts: map<Uuid, AccountRow>, t: Terms): map<Uuid, AccountRow>
    requires t.from != t.to && t.from in accounts && t.to in accounts
    requires Fits(accounts[t.from].balance - t.amount) && Fits(accounts[t.to].balance + t.amount)
  {
    accounts[t.from := accounts[t.from].(balance := accounts[t.from].balance - t.amount)]
            [t.to := accounts[t.to].(balance := accounts[t.to].balance + t.amount)]
  }

  /** The accounts with pending balances written into them. */
  function Written(accounts: map<Uuid, AccountRow>, writes: map<Uuid, Units>): map<Uuid, AccountRow> {
    map a | a in accounts :: if a in writes then accounts[a].(balance := writes[a]) else accounts[a]
  }

  /** The state after a request that moves money. */
  function Post(db: Db, call: Call, f: Fresh): Db
    requires Decide(db, call, f).Created?
  {
    Db(Moved(db.accounts, call.terms),
       db.txns + [NewRow(call, f)],
       db.entries + [CreditEntry(call, f), DebitEntry(call, f)])
  }

  // ----- histories -----

  /** One atomic step of the sequential ledger: opening an account, or a request by
      `session` together with the answer it was given. */
  datatype Event =
    | Opened(id: Uuid, row: AccountRow)
    | Request(session: nat, call: Call, drawn: Fresh, answer: Answer)

  function Apply(db: Db, e: Event): Db {
    match e
    case Opened(id, row) => db.(accounts := db.accounts[id := row])
    case Request(_, call, f, _) => if Decide(db, call, f).Created? then Post(db, call, f) else db
  }

  ghost predicate FreshIds(db: Db, f: Fresh) {
    && f.credit != f.debit
    && (forall t | t in db.txns :: t.id != f.txn)
    && (forall e | e in db.entries :: e.txn != f.txn && e.id != f.credit && e.id != f.debit)
  }

  /** The event is possible in `db`, and carries the answer `db` calls for. */
  ghost predicate Correct(db: Db, e: Event) {
    match e
    case Opened(id, row) => id !in db.accounts && row.balance == 0
    case Request(_, call, f, answer) =>
      answer == Decide(db, call, f) && (answer.Created? ==> FreshIds(db, f))
  }

  function Replay(h: seq<Event>): Db {
    if h == [] then EMPTY_DB else Apply(Replay(h[..|h| - 1]), h[|h| - 1])
  }

  /** Every event of the history was possible, and got the answer due, where it stands. */
  ghost predicate Legal(h: seq<Event>) {
    h == [] || (Legal(h[..|h| - 1]) && Correct(Replay(h[..|h| - 1]), h[|h| - 1]))
  }

  lemma LegalSnoc(h: seq<Event>, e: Event)
    requires Legal(h) && Correct(Replay(h), e)
    ensures Legal(h + [e]) && Replay(h + [e]) == Apply(Replay(h), e)
  {
    assert (h + [e])[..|h|] == h;
  }

  lemma {:induction false} LegalPrefix(h: seq<Event>, n: nat)
    requires Legal(h) && n <= |h|
    ensures Legal(h[..n])
  {
    if n == |h| {
      assert h[..n] == h;
    } else {
      assert h[..|h| - 1][..n] == h[..n];
      LegalPrefix(h[..|h| - 1], n);
    }
  }

  lemma LegalAt(h: seq<Event>, i: nat)
    requires Legal(h) && i < |h|
    ensures Legal(h[..i]) && Correct(Replay(h[..i]), h[i])
  {
    LegalPrefix(h, i + 1);
    assert h[..i + 1][..i] == h[..i];
  }

  // ----- what every state of a legal history satisfies -----

  ghost predicate KeysAndIdsUnique(db: Db) {
    UniqueKeys(db.txns) && UniqueIds(db.txns) && UniqueEntryIds(db.entries)
  }

  /** Exactly two entries: the credit of one account and the debit of another, equal and positive. */
  ghost predicate IsPair(g: seq<EntryRow>) {
    && |g| == 2
    && g[0].direction == Credit && g[1].direction == Debit
    && g[0].account != g[1].account
    && g[0].amount == g[1].amount > 0
    && g[0].currency == g[1].currency
    && g[0].id != g[1].id
  }

  /** A pair nets to zero, and the balance trigger takes it. */
  lemma PairIsAccepted(rows: seq<EntryRow>)
    requires IsPair(rows)
    ensures SignedSum(rows) == 0 && AssertTransactionBalanced(rows).Accepted?
  {
    assert rows == [rows[0]] + [rows[1]];
    SignedSumConcat([rows[0]], [rows[1]]);
    assert SignedSum([rows[0]]) == SignedAmount(rows[0]) && SignedSum([rows[1]]) == SignedAmount(rows[1]);
    DomainCheckIsTriggerCheck(rows, rows);
  }

  ghost predicate TransactionsPaired(db: Db) {
    forall t | t in db.txns :: IsPair(Group(db.entries, TxnOf, t.id))
  }

  ghost predicate HasTxn(ts: seq<TxnRow>, id: Uuid) {
    exists t :: t in ts && t.id == id
  }

  ghost predicate EntryReferenced(db: Db, e: EntryRow) {
    && HasTxn(db.txns, e.txn)
    && e.account in db.accounts
    && db.accounts[e.account].terms.currency == e.currency
  }

  ghost predicate EntriesReferenced(db: Db) {
    forall e | e in db.entries :: EntryReferenced(db, e)
  }

  /** `accounts.balance` is debits minus credits over the account's entries. */
  ghost predicate CacheAgrees(db: Db) {
    forall a | a in db.accounts :: db.accounts[a].balance == SignedSum(Group(db.entries, AccountOf, a))
  }

  ghost predicate NoOverdraft(accounts: map<Uuid, AccountRow>) {
    forall a | a in accounts :: BalanceAllowed(accounts[a].terms, accounts[a].balance)
  }

  ghost predicate Consistent(db: Db) {
    && KeysAndIdsUnique(db)
    && TransactionsPaired(db)
    && EntriesReferenced(db)
    && CacheAgrees(db)
    && NoOverdraft(db.accounts)
  }

  lemma OpenKeepsConsistent(db: Db, id: Uuid, row: AccountRow)
    requires Consistent(db) && id !in db.accounts && row.balance == 0
    ensures Consistent(db.(accounts := db.accounts[id := row]))
  {
    var db' := db.(accounts := db.accounts[id := row]);
    forall e | e in db'.entries ensures EntryReferenced(db', e) {
      assert EntryReferenced(db, e);
    }
    forall e | e in db.entries ensures e.account != id {
      assert EntryReferenced(db, e);
    }
    GroupAbsent(db.entries, AccountOf, id);
  }

  lemma PostKeepsUnique(db: Db, call: Call, f: Fresh)
    requires Consistent(db) && Decide(db, call, f).Created? && FreshIds(db, f)
    ensures KeysAndIdsUnique(Post(db, call, f))
  {
    var db' := Post(db, call, f);
    forall i, j | 0 <= i < j < |db'.txns| ensures db'.txns[i].key != db'.txns[j].key && db'.txns[i].id != db'.txns[j].id {
      assert db'.txns[i] == db.txns[i];
      assert db.txns[i] in db.txns;
    }
    forall i, j | 0 <= i < j < |db'.entries| ensures db'.entries[i].id != db'.entries[j].id {
      if i < |db.entries| {
        assert db'.entries[i] == db.entries[i];
        assert db.entries[i] in db.entries;
      }
    }
  }

  /** The two rows a transfer adds, seen through any grouping. */
  lemma GroupOfPair<K>(a: EntryRow, b: EntryRow, f: EntryRow -> K, k: K)
    ensures Group([a, b], f, k) == (if f(a) == k then [a] else []) + (if f(b) == k then [b] else [])
  {
    assert [a, b][1..] == [b] && [b][1..] == [];
    assert Group([b], f, k) == if f(b) == k then [b] else [];
  }

  /** The two new entries are all of their transaction, and no part of any other. */
  lemma PostGroups(db: Db, call: Call, f: Fresh, id: Uuid)
    requires FreshIds(db, f)
    ensures Group(db.entries + [CreditEntry(call, f), DebitEntry(call, f)], TxnOf, id)
         == if id == f.txn then [CreditEntry(call, f), DebitEntry(call, f)] else Group(db.entries, TxnOf, id)
  {
    var c, d := CreditEntry(call, f), DebitEntry(call, f);
    GroupConcat(db.entries, [c, d], TxnOf, id);
    GroupOfPair(c, d, TxnOf, id);
    if id == f.txn {
      GroupAbsent(db.entries, TxnOf, id);
    }
  }

  lemma PostKeepsPairs(db: Db, call: Call, f: Fresh)
    requires TransactionsPaired(db) && Decide(db, call, f).Created? && FreshIds(db, f)
    ensures TransactionsPaired(Post(db, call, f))
  {
    var db' := Post(db, call, f);
    forall t | t in db'.txns ensures IsPair(Group(db'.entries, TxnOf, t.id)) {
      PostGroups(db, call, f, t.id);
      assert t.id != f.txn ==> t in db.txns;
    }
  }

  lemma PostKeepsReferences(db: Db, call: Call, f: Fresh)
    requires EntriesReferenced(db) && Decide(db, call, f).Created?
    ensures EntriesReferenced(Post(db, call, f))
  {
    var db' := Post(db, call, f);
    assert NewRow(call, f) in db'.txns;
    forall e | e in db'.entries ensures EntryReferenced(db', e) {
      if e in db.entries {
        assert EntryReferenced(db, e);
        var t :| t in db.txns && t.id == e.txn;
        assert t in db'.txns;
      }
    }
  }

  lemma EntryPairSum(es: seq<EntryRow>, call: Call, f: Fresh, a: Uuid)
    ensures SignedSum(Group(es + [CreditEntry(call, f), DebitEntry(call, f)], AccountOf, a))
         == SignedSum(Group(es, AccountOf, a))
              - (if a == call.terms.from then call.terms.amount else 0)
              + (if a == call.terms.to then call.terms.amount else 0)
  {
    var c, d := CreditEntry(call, f), DebitEntry(call, f);
    GroupConcat(es, [c, d], AccountOf, a);
    GroupOfPair(c, d, AccountOf, a);
    SignedSumConcat(Group(es, AccountOf, a), Group([c, d], AccountOf, a));
    SignedSumConcat([c], [d]);
    assert SignedSum([c]) == -call.terms.amount && SignedSum([d]) == call.terms.amount;
  }

  lemma PostKeepsCache(db: Db, call: Call, f: Fresh)
    requires CacheAgrees(db) && NoOverdraft(db.accounts) && Decide(db, call, f).Created?
    ensures CacheAgrees(Post(db, call, f)) && NoOverdraft(Post(db, call, f).accounts)
  {
    var db' := Post(db, call, f);
    forall a | a in db'.accounts ensures db'.accounts[a].balance == SignedSum(Group(db'.entries, AccountOf, a)) {
      EntryPairSum(db.entries, call, f, a);
    }
  }

  lemma ApplyKeepsConsistent(db: Db, e: Event)
    requires Consistent(db) && Correct(db, e)
    ensures Consistent(Apply(db, e))
  {
    match e
    case Opened(id, row) => OpenKeepsConsistent(db, id, row);
    case Request(_, call, f, _) =>
      if Decide(db, call, f).Created? {
        PostKeepsUnique(db, call, f);
        PostKeepsPairs(db, call, f);
        PostKeepsReferences(db, call, f);
        PostKeepsCache(db, call, f);
      }
  }

  /** Every state a sequential ledger reaches has unique keys and ids, paired entries,
      sound references, a cache that agrees with the log, and no overdraft. */
  lemma {:induction false} LegalStatesAreConsistent(h: seq<Event>)
    requires Legal(h)
    ensures Consistent(Replay(h))
  {
    if h != [] {
      var n := |h| - 1;
      LegalStatesAreConsistent(h[..n]);
      ApplyKeepsConsistent(Replay(h[..n]), h[n]);
    }
  }

  // ----- what a posting leaves to others -----

  lemma KeyStaysFree(db: Db, call: Call, f: Fresh, key: string)
    requires Decide(db, call, f).Created? && FindByKey(db.txns, key).None? && key != call.key
    ensures FindByKey(Post(db, call, f).txns, key).None?
  {
  }

  lemma FreshStays(db: Db, call: Call, f: Fresh, g: Fresh)
    requires Decide(db, call, f).Created? && FreshIds(db, g)
    requires {f.txn, f.credit, f.debit} !! {g.txn, g.credit, g.debit}
    ensures FreshIds(Post(db, call, f), g)
  {
  }

  /** Once posted, a request is replayed, under whatever ids it is sent again. */
  lemma PostedIsReplayed(db: Db, call: Call, f: Fresh, g: Fresh)
    requires Consistent(db) && Decide(db, call, f).Created? && FreshIds(db, f)
    ensures Decide(Post(db, call, f), call, g) == Replayed(f.txn)
    ensures FindByKey(Post(db, call, f).txns, call.key) == Some(NewRow(call, f))
  {
    PostKeepsUnique(db, call, f);
    assert NewRow(call, f) in Post(db, call, f).txns;
    UniqueRowIsFound(Post(db, call, f).txns, NewRow(call, f));
  }

  // ----- what a posting reads back as -----

  /** The detail says what was asked for: the request's own key, digest and description, one
      credit of its sender and one debit of its receiver for its amount and currency, all with
      the ids and the time that were drawn for it. */
  ghost predicate ShowsPosting(d: Detail, call: Call, f: Fresh) {
    var t := call.terms;
    && d.txn.id == f.txn && d.txn.key == call.key && d.txn.digest == call.digest
    && d.txn.description == t.description && d.txn.createdAt == f.now
    && multiset(d.entries) == multiset{
         EntryRow(f.credit, f.txn, t.from, Credit, t.amount, t.currency, f.now),
         EntryRow(f.debit, f.txn, t.to, Debit, t.amount, t.currency, f.now)}
  }

  lemma StoredPostingReadsBack(db: Db, call: Call, f: Fresh)
    requires UniqueKeys(db.txns) && UniqueIds(db.txns) && NewRow(call, f) in db.txns
    requires Group(db.entries, TxnOf, f.txn) == [CreditEntry(call, f), DebitEntry(call, f)]
    ensures DetailOf(db, f.txn).Some? && ShowsPosting(DetailOf(db, f.txn).value, call, f)
  {
    UniqueRowIsFound(db.txns, NewRow(call, f));
    OrderedIsSorted([CreditEntry(call, f), DebitEntry(call, f)]);
  }

  /** A posting reads back as what was asked for. */
  lemma PostingReadsBack(db: Db, call: Call, f: Fresh)
    requires Consistent(db) && Decide(db, call, f).Created? && FreshIds(db, f)
    ensures var db' := Post(db, call, f);
      DetailOf(db', f.txn).Some? && ShowsPosting(DetailOf(db', f.txn).value, call, f)
  {
    PostKeepsUnique(db, call, f);
    PostGroups(db, call, f, f.txn);
    StoredPostingReadsBack(Post(db, call, f), call, f);
  }
}
