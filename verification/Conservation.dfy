/** Local balance gives global balance: sums over entries, over transactions and over
    accounts are the same sum, arranged differently. */
module Conservation {
  import opened LedgerTypes
  import opened Schema
  import opened SequentialLedger

  // ----- sums over sets -----

  ghost function SumOver<K(!new)>(s: set<K>, f: K -> int): int {
    if s == {} then 0
    else
      var k :| k in s;
      f(k) + SumOver(s - {k}, f)
  }

  lemma {:induction false} SumOverPick<K(!new)>(s: set<K>, f: K -> int, k: K)
    requires k in s
    ensures SumOver(s, f) == f(k) + SumOver(s - {k}, f)
  {
    var p :| p in s && SumOver(s, f) == f(p) + SumOver(s - {p}, f);
    if p != k {
      SumOverPick(s - {p}, f, k);
      SumOverPick(s - {k}, f, p);
      assert s - {p} - {k} == s - {k} - {p};
    }
  }

  lemma {:induction false} SumOverSame<K(!new)>(s: set<K>, f: K -> int, g: K -> int)
    requires forall k | k in s :: f(k) == g(k)
    ensures SumOver(s, f) == SumOver(s, g)
  {
    if s != {} {
      var k :| k in s;
      SumOverPick(s, f, k);
      SumOverPick(s, g, k);
      SumOverSame(s - {k}, f, g);
    }
  }

  lemma {:induction false} SumOverZero<K(!new)>(s: set<K>, f: K -> int)
    requires forall k | k in s :: f(k) == 0
    ensures SumOver(s, f) == 0
  {
    if s != {} {
      var k :| k in s;
      SumOverPick(s, f, k);
      SumOverZero(s - {k}, f);
    }
  }

  lemma {:induction false} SumOverNonNegative<K(!new)>(s: set<K>, f: K -> int)
    requires forall k | k in s :: f(k) >= 0
    ensures SumOver(s, f) >= 0
    ensures SumOver(s, f) == 0 ==> forall k | k in s :: f(k) == 0
  {
    if s != {} {
      var p :| p in s;
      SumOverPick(s, f, p);
      SumOverNonNegative(s - {p}, f);
    }
  }

  // ----- exchange of summation -----

  ghost function GroupSum<K>(es: seq<EntryRow>, f: EntryRow -> K): K -> int {
    k => SignedSum(Group(es, f, k))
  }

  /** Summing the rows is summing the sums of any grouping of them. */
  lemma {:induction false} SumByGroup<K(!new)>(es: seq<EntryRow>, f: EntryRow -> K, ks: set<K>)
    requires forall e | e in es :: f(e) in ks
    ensures SignedSum(es) == SumOver(ks, GroupSum(es, f))
  {
    if es == [] {
      SumOverZero(ks, GroupSum(es, f));
    } else {
      var k, rest := f(es[0]), es[1..];
      var all, later := GroupSum(es, f), GroupSum(rest, f);
      assert es[0] in es;
      SumByGroup(rest, f, ks);
      SumOverPick(ks, all, k);
      SumOverPick(ks, later, k);
      forall j | j in ks - {k} ensures all(j) == later(j) {
      }
      SumOverSame(ks - {k}, all, later);
      assert Group(es, f, k) == [es[0]] + Group(rest, f, k);
    }
  }

  lemma {:induction false} GroupsCommute<J, K>(es: seq<EntryRow>, f: EntryRow -> J, j: J, g: EntryRow -> K, k: K)
    ensures Group(Group(es, f, j), g, k) == Group(Group(es, g, k), f, j)
  {
    if es != [] {
      GroupsCommute(es[1..], f, j, g, k);
      if f(es[0]) == j {
        assert Group(es, f, j)[1..] == Group(es[1..], f, j);
      }
      if g(es[0]) == k {
        assert Group(es, g, k)[1..] == Group(es[1..], g, k);
      }
    }
  }

  lemma {:induction false} GroupAll<K>(es: seq<EntryRow>, f: EntryRow -> K, k: K)
    requires forall e | e in es :: f(e) == k
    ensures Group(es, f, k) == es
  {
    if es != [] {
      assert es[0] in es;
      GroupAll(es[1..], f, k);
    }
  }

  // ----- money is conserved -----

  lemma AcceptedNetsInEveryCurrency(g: seq<EntryRow>, c: Currency)
    requires g == [] || AssertTransactionBalanced(g).Accepted?
    ensures SignedSum(Group(g, CurrencyOf, c)) == 0
  {
    if g != [] {
      OneCurrency(g);
      if g[0].currency == c {
        GroupAll(g, CurrencyOf, c);
      } else {
        GroupAbsent(g, CurrencyOf, c);
      }
    }
  }

  /** If the balance trigger accepts every transaction by itself, then in every currency all
      entries together net to zero. */
  lemma LocalBalanceIsGlobalBalance(es: seq<EntryRow>, c: Currency)
    requires forall e | e in es :: AssertTransactionBalanced(Group(es, TxnOf, e.txn)).Accepted?
    ensures SignedSum(Group(es, CurrencyOf, c)) == 0
  {
    var inC := Group(es, CurrencyOf, c);
    var ids := set e | e in es :: e.txn;
    InGroup(es, CurrencyOf, c);
    SumByGroup(inC, TxnOf, ids);
    forall id | id in ids ensures GroupSum(inC, TxnOf)(id) == 0 {
      GroupsCommute(es, CurrencyOf, c, TxnOf, id);
      AcceptedNetsInEveryCurrency(Group(es, TxnOf, id), c);
    }
    SumOverZero(ids, GroupSum(inC, TxnOf));
  }

  /** In every currency, all entries of a ledger together net to zero. */
  lemma EntriesNetToZero(db: Db, c: Currency)
    requires TransactionsPaired(db) && EntriesReferenced(db)
    ensures SignedSum(Group(db.entries, CurrencyOf, c)) == 0
  {
    forall e | e in db.entries ensures AssertTransactionBalanced(Group(db.entries, TxnOf, e.txn)).Accepted? {
      assert EntryReferenced(db, e);
      PairIsAccepted(Group(db.entries, TxnOf, e.txn));
    }
    LocalBalanceIsGlobalBalance(db.entries, c);
  }

  ghost function AccountsIn(accounts: map<Uuid, AccountRow>, c: Currency): set<Uuid> {
    set a | a in accounts && accounts[a].terms.currency == c
  }

  ghost function BalanceIn(accounts: map<Uuid, AccountRow>): Uuid -> int {
    a => if a in accounts then accounts[a].balance else 0
  }

  /** In every currency, all cached balances together are zero. */
  lemma BalancesSumToZero(db: Db, c: Currency)
    requires Consistent(db)
    ensures SumOver(AccountsIn(db.accounts, c), BalanceIn(db.accounts)) == 0
  {
    var ids := AccountsIn(db.accounts, c);
    var es := Group(db.entries, CurrencyOf, c);
    EntriesNetToZero(db, c);
    InGroup(db.entries, CurrencyOf, c);
    forall e | e in es ensures AccountOf(e) in ids {
      assert EntryReferenced(db, e);
    }
    SumByGroup(es, AccountOf, ids);
    forall a | a in ids ensures GroupSum(es, AccountOf)(a) == BalanceIn(db.accounts)(a) {
      GroupsCommute(db.entries, CurrencyOf, c, AccountOf, a);
      InGroup(db.entries, AccountOf, a);
      forall e | e in Group(db.entries, AccountOf, a) ensures CurrencyOf(e) == c {
        assert EntryReferenced(db, e);
      }
      GroupAll(Group(db.entries, AccountOf, a), CurrencyOf, c);
    }
    SumOverSame(ids, GroupSum(es, AccountOf), BalanceIn(db.accounts));
  }

  // ----- why funding accounts exist -----

  ghost predicate NoFunding(accounts: map<Uuid, AccountRow>, c: Currency) {
    forall a | a in accounts && accounts[a].terms.currency == c :: !accounts[a].terms.allowsNegative
  }

  /** Without a funding account in a currency every balance in it is zero. */
  lemma WithoutFundingAllZero(db: Db, c: Currency)
    requires Consistent(db) && NoFunding(db.accounts, c)
    ensures forall a | a in AccountsIn(db.accounts, c) :: db.accounts[a].balance == 0
  {
    var ids := AccountsIn(db.accounts, c);
    BalancesSumToZero(db, c);
    forall a | a in ids ensures BalanceIn(db.accounts)(a) >= 0 {
      assert BalanceAllowed(db.accounts[a].terms, db.accounts[a].balance);
    }
    SumOverNonNegative(ids, BalanceIn(db.accounts));
    forall a | a in ids ensures db.accounts[a].balance == 0 {
      assert BalanceIn(db.accounts)(a) == 0;
    }
  }

  /** ... and no transfer in it is ever accepted. */
  lemma WithoutFundingNothingMoves(db: Db, c: Currency, call: Call, f: Fresh)
    requires Consistent(db) && NoFunding(db.accounts, c) && call.terms.currency == c
    ensures !Decide(db, call, f).Created?
  {
    WithoutFundingAllZero(db, c);
    assert Decide(db, call, f).Created? ==> call.terms.from in AccountsIn(db.accounts, c);
  }

  lemma ApplyKeepsAccount(db: Db, e: Event, a: Uuid)
    requires Correct(db, e) && a in db.accounts
    ensures a in Apply(db, e).accounts && Apply(db, e).accounts[a].terms == db.accounts[a].terms
  {
  }

  /** Accounts are never removed and their terms never change. */
  lemma {:induction false} AccountsAreKept(h: seq<Event>, n: nat, a: Uuid)
    requires Legal(h) && n <= |h| && a in Replay(h[..n]).accounts
    ensures a in Replay(h).accounts && Replay(h).accounts[a].terms == Replay(h[..n]).accounts[a].terms
    decreases |h|
  {
    if n == |h| {
      assert h[..n] == h;
    } else {
      var m := |h| - 1;
      assert h[..m][..n] == h[..n];
      AccountsAreKept(h[..m], n, a);
      ApplyKeepsAccount(Replay(h[..m]), h[m], a);
    }
  }

  /** A history that ends without a funding account in `c` never accepted a transfer in `c`. */
  lemma NoFundingNoTransferEver(h: seq<Event>, c: Currency, i: nat)
    requires Legal(h) && NoFunding(Replay(h).accounts, c)
    requires i < |h| && h[i].Request? && h[i].call.terms.currency == c
    ensures !h[i].answer.Created?
  {
    var db := Replay(h[..i]);
    forall a | a in db.accounts && db.accounts[a].terms.currency == c ensures !db.accounts[a].terms.allowsNegative {
      AccountsAreKept(h, i, a);
    }
    LegalAt(h, i);
    LegalStatesAreConsistent(h[..i]);
    WithoutFundingNothingMoves(db, c, h[i].call, h[i].drawn);
  }
}
