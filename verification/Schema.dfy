/** Queries, triggers and constraints of the schema, as pure functions over rows. */
module Schema {
  import opened LedgerTypes

  // ----- signed sums and grouping -----

  /** The signed contribution of an amount on one side of a posting. */
  function Signed(direction: Direction, amount: int): int {
    match direction
    case Debit => amount
    case Credit => -amount
  }

  function SignedAmount(e: EntryRow): int {
    Signed(e.direction, e.amount)
  }

  /** `SUM(CASE WHEN direction = 'debit' THEN amount ELSE -amount END)`, with NULL read as 0. */
  function SignedSum(es: seq<EntryRow>): int {
    if es == [] then 0 else SignedAmount(es[0]) + SignedSum(es[1..])
  }

  function TxnOf(e: EntryRow): Uuid { e.txn }

  function AccountOf(e: EntryRow): Uuid { e.account }

  function CurrencyOf(e: EntryRow): Currency { e.currency }

  /** The rows `WHERE f(e) = k`, in table order. */
  function Group<K(==)>(es: seq<EntryRow>, f: EntryRow -> K, k: K): seq<EntryRow> {
    if es == [] then []
    else if f(es[0]) == k then [es[0]] + Group(es[1..], f, k)
    else Group(es[1..], f, k)
  }

  lemma {:induction false} InGroup<K>(es: seq<EntryRow>, f: EntryRow -> K, k: K)
    ensures forall e :: e in Group(es, f, k) <==> e in es && f(e) == k
  {
    if es != [] {
      InGroup(es[1..], f, k);
      assert forall e :: e in es <==> e == es[0] || e in es[1..];
    }
  }

  lemma {:induction false} SignedSumConcat(a: seq<EntryRow>, b: seq<EntryRow>)
    ensures SignedSum(a + b) == SignedSum(a) + SignedSum(b)
  {
    if a == [] {
      assert a + b == b;
    } else {
      SignedSumConcat(a[1..], b);
      assert (a + b)[1..] == a[1..] + b;
    }
  }

  lemma {:induction false} GroupConcat<K>(a: seq<EntryRow>, b: seq<EntryRow>, f: EntryRow -> K, k: K)
    ensures Group(a + b, f, k) == Group(a, f, k) + Group(b, f, k)
  {
    if a == [] {
      assert a + b == b;
    } else {
      GroupConcat(a[1..], b, f, k);
      assert (a + b)[1..] == a[1..] + b;
      assert (a + b)[0] == a[0];
    }
  }

  lemma {:induction false} GroupAbsent<K>(es: seq<EntryRow>, f: EntryRow -> K, k: K)
    requires forall e | e in es :: f(e) != k
    ensures Group(es, f, k) == []
  {
    if es != [] {
      GroupAbsent(es[1..], f, k);
    }
  }

  // ----- lookups -----

  /** `SELECT ... FROM transactions WHERE idempotency_key = key`. */
  function FindByKey(ts: seq<TxnRow>, key: string): (r: Option<TxnRow>)
    ensures r.None? <==> forall t | t in ts :: t.key != key
    ensures r.Some? ==> r.value in ts && r.value.key == key
  {
    if ts == [] then None
    else if ts[0].key == key then Some(ts[0])
    else FindByKey(ts[1..], key)
  }

  /** `SELECT ... FROM transactions WHERE id = id`. */
  function FindById(ts: seq<TxnRow>, id: Uuid): (r: Option<TxnRow>)
    ensures r.None? <==> forall t | t in ts :: t.id != id
    ensures r.Some? ==> r.value in ts && r.value.id == id
  {
    if ts == [] then None
    else if ts[0].id == id then Some(ts[0])
    else FindById(ts[1..], id)
  }

  ghost predicate UniqueKeys(ts: seq<TxnRow>) {
    forall i, j | 0 <= i < j < |ts| :: ts[i].key != ts[j].key
  }

  ghost predicate UniqueIds(ts: seq<TxnRow>) {
    forall i, j | 0 <= i < j < |ts| :: ts[i].id != ts[j].id
  }

  ghost predicate UniqueEntryIds(es: seq<EntryRow>) {
    forall i, j | 0 <= i < j < |es| :: es[i].id != es[j].id
  }

  lemma {:induction false} FindByIdAppend(ts: seq<TxnRow>, more: seq<TxnRow>, id: Uuid)
    requires FindById(ts, id).Some?
    ensures FindById(ts + more, id) == FindById(ts, id)
  {
    if ts[0].id != id {
      FindByIdAppend(ts[1..], more, id);
      assert (ts + more)[1..] == ts[1..] + more;
    }
  }

  lemma {:induction false} FindByKeyAppend(ts: seq<TxnRow>, more: seq<TxnRow>, key: string)
    requires FindByKey(ts, key).Some?
    ensures FindByKey(ts + more, key) == FindByKey(ts, key)
  {
    if ts[0].key != key {
      FindByKeyAppend(ts[1..], more, key);
      assert (ts + more)[1..] == ts[1..] + more;
    }
  }

  lemma UniqueRowIsFound(ts: seq<TxnRow>, row: TxnRow)
    requires UniqueKeys(ts) && UniqueIds(ts) && row in ts
    ensures FindByKey(ts, row.key) == Some(row) && FindById(ts, row.id) == Some(row)
  {
    var i :| 0 <= i < |ts| && ts[i] == row;
    var byKey, byId := FindByKey(ts, row.key).value, FindById(ts, row.id).value;
    var j :| 0 <= j < |ts| && ts[j] == byKey;
    var k :| 0 <= k < |ts| && ts[k] == byId;
  }

  // ----- the deferred balance trigger and its domain counterpart -----

  datatype Verdict = Accepted | MinTwoEntries | SingleCurrency | Unbalanced

  /** `assert_transaction_balanced` on the rows of one transaction. */
  function AssertTransactionBalanced(rows: seq<EntryRow>): Verdict {
    if |rows| < 2 then MinTwoEntries
    else if |set e | e in rows :: e.currency| != 1 then SingleCurrency
    else if SignedSum(rows) != 0 then Unbalanced
    else Accepted
  }

  /** `TransactionDetail::is_balanced` on an entry list. */
  predicate IsBalanced(rows: seq<EntryRow>) {
    && |rows| >= 2
    && (forall e | e in rows :: e.currency == rows[0].currency)
    && SignedSum(rows) == 0
  }

  /** One distinct currency is the same thing as every currency equalling the first. */
  lemma OneCurrency(rows: seq<EntryRow>)
    requires rows != []
    ensures |set e | e in rows :: e.currency| == 1 <==> forall e | e in rows :: e.currency == rows[0].currency
  {
    var cs := set e | e in rows :: e.currency;
    assert rows[0].currency in cs;
    if |cs| == 1 {
      assert |cs - {rows[0].currency}| == 0;
      forall e | e in rows ensures e.currency == rows[0].currency {
        assert e.currency in cs;
      }
    }
    if forall e | e in rows :: e.currency == rows[0].currency {
      assert cs == {rows[0].currency};
    }
  }

  /** The trigger names the first thing that is wrong: too few entries, or else more than one
      currency, or else a sum that is not zero. */
  lemma VerdictNamesTheFault(rows: seq<EntryRow>)
    ensures AssertTransactionBalanced(rows) == MinTwoEntries <==> |rows| < 2
    ensures AssertTransactionBalanced(rows) == SingleCurrency <==>
            |rows| >= 2 && exists i, j | 0 <= i < |rows| && 0 <= j < |rows| :: rows[i].currency != rows[j].currency
    ensures AssertTransactionBalanced(rows) == Unbalanced <==>
            && |rows| >= 2 && SignedSum(rows) != 0
            && forall i, j | 0 <= i < |rows| && 0 <= j < |rows| :: rows[i].currency == rows[j].currency
  {
    if |rows| >= 2 {
      OneCurrency(rows);
      if e :| e in rows && e.currency != rows[0].currency {
        var i :| 0 <= i < |rows| && rows[i] == e;
        assert rows[i].currency != rows[0].currency;
      }
    }
  }

  lemma IndexOf<T>(s: seq<T>, x: T) returns (i: nat)
    requires x in multiset(s)
    ensures i < |s| && s[i] == x
  {
    i :| 0 <= i < |s| && s[i] == x;
  }

  lemma WithoutOne<T>(s: seq<T>, i: nat)
    requires i < |s|
    ensures multiset(s[..i] + s[i + 1..]) == multiset(s) - multiset{s[i]}
  {
    assert s == s[..i] + [s[i]] + s[i + 1..];
  }

  lemma SignedSumWithoutOne(s: seq<EntryRow>, i: nat)
    requires i < |s|
    ensures SignedSum(s) == SignedAmount(s[i]) + SignedSum(s[..i] + s[i + 1..])
  {
    SignedSumConcat(s[..i], s[i..]);
    SignedSumConcat(s[..i], s[i + 1..]);
    assert s == s[..i] + s[i..];
    assert s[i..][1..] == s[i + 1..];
  }

  lemma {:induction false} SignedSumPermutation(a: seq<EntryRow>, b: seq<EntryRow>)
    requires multiset(a) == multiset(b)
    ensures SignedSum(a) == SignedSum(b)
    decreases |a|
  {
    if a == [] {
      assert |b| == |multiset(b)| == 0;
    } else {
      var e := a[0];
      assert e in multiset(a);
      var i := IndexOf(b, e);
      var a', b' := a[..0] + a[1..], b[..i] + b[i + 1..];
      assert multiset(a') == multiset(b') by {
        WithoutOne(a, 0);
        WithoutOne(b, i);
      }
      SignedSumPermutation(a', b');
      SignedSumWithoutOne(a, 0);
      SignedSumWithoutOne(b, i);
    }
  }

  /** The domain check says yes exactly when the database trigger accepts the same
      rows, whatever order either of them reads the rows in. */
  lemma DomainCheckIsTriggerCheck(listed: seq<EntryRow>, stored: seq<EntryRow>)
    requires multiset(listed) == multiset(stored)
    ensures IsBalanced(listed) <==> AssertTransactionBalanced(stored).Accepted?
  {
    assert |listed| == |multiset(listed)| == |stored|;
    SignedSumPermutation(listed, stored);
    if |stored| >= 2 {
      forall e ensures e in listed <==> e in stored {
        assert e in listed <==> e in multiset(listed);
      }
      OneCurrency(listed);
      OneCurrency(stored);
      assert (set e | e in listed :: e.currency) == (set e | e in stored :: e.currency);
    }
  }

  // ----- constraints on inserting an entry -----

  /** `CHECK (allows_negative_balance OR balance >= 0)`. */
  predicate BalanceAllowed(terms: AccountTerms, balance: int) {
    terms.allowsNegative || balance >= 0
  }

  /** `CHECK (amount > 0)`, the composite foreign key to accounts and the
      same-transaction trigger, for an entry whose parent row is `parent`. */
  predicate EntryAllowed(accounts: map<Uuid, AccountRow>, parent: Option<TxnRow>, xid: nat, e: EntryRow) {
    && e.amount > 0
    && e.account in accounts
    && accounts[e.account].terms.currency == e.currency
    && parent.Some?
    && parent.value.xid == xid
  }
}
