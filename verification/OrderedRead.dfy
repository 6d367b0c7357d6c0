/** Reading a transaction back: `ORDER BY created_at, id` gives one answer, whatever
    order the storage hands the rows over in. */
module OrderedRead {
  import opened LedgerTypes
  import opened Schema

  datatype Detail = Detail(txn: TxnRow, entries: seq<EntryRow>)

  predicate Before(a: EntryRow, b: EntryRow) {
    a.createdAt < b.createdAt || (a.createdAt == b.createdAt && a.id <= b.id)
  }

  function Insert(e: EntryRow, es: seq<EntryRow>): seq<EntryRow> {
    if es == [] then [e]
    else if Before(e, es[0]) then [e] + es
    else [es[0]] + Insert(e, es[1..])
  }

  function Ordered(es: seq<EntryRow>): seq<EntryRow> {
    if es == [] then [] else Insert(es[0], Ordered(es[1..]))
  }

  /** What `transactions::get` returns for an id. */
  function DetailOf(db: Db, id: Uuid): Option<Detail> {
    match FindById(db.txns, id)
    case None => None
    case Some(row) => Some(Detail(row, Ordered(Group(db.entries, TxnOf, id))))
  }

  ghost predicate Sorted(es: seq<EntryRow>) {
    forall i, j | 0 <= i < j < |es| :: Before(es[i], es[j])
  }

  lemma {:induction false} InsertKeepsRows(e: EntryRow, es: seq<EntryRow>)
    ensures multiset(Insert(e, es)) == multiset{e} + multiset(es)
  {
    if es != [] && !Before(e, es[0]) {
      InsertKeepsRows(e, es[1..]);
      assert es == [es[0]] + es[1..];
    }
  }

  lemma {:induction false} InsertKeepsOrder(e: EntryRow, es: seq<EntryRow>)
    requires Sorted(es)
    ensures Sorted(Insert(e, es))
  {
    if es != [] && !Before(e, es[0]) {
      var rest := Insert(e, es[1..]);
      InsertKeepsOrder(e, es[1..]);
      InsertKeepsRows(e, es[1..]);
      forall x | x in rest ensures Before(es[0], x) {
        assert x in multiset(rest);
        assert x == e || x in es[1..];
      }
    }
  }

  lemma {:induction false} OrderedIsSorted(es: seq<EntryRow>)
    ensures Sorted(Ordered(es)) && multiset(Ordered(es)) == multiset(es)
  {
    if es != [] {
      OrderedIsSorted(es[1..]);
      InsertKeepsOrder(es[0], Ordered(es[1..]));
      InsertKeepsRows(es[0], Ordered(es[1..]));
      assert es == [es[0]] + es[1..];
    }
  }

  /** A transaction is read back with its own row and entries, oldest entry first, and entries
      of the same time in the order of their ids. */
  lemma DetailIsAscending(db: Db, id: Uuid)
    requires DetailOf(db, id).Some?
    ensures var d := DetailOf(db, id).value;
      && d.txn in db.txns && d.txn.id == id
      && (forall e :: e in d.entries <==> e in db.entries && e.txn == id)
      && forall i, j | 0 <= i < j < |d.entries| ::
           var a, b := d.entries[i], d.entries[j];
           a.createdAt < b.createdAt || (a.createdAt == b.createdAt && a.id <= b.id)
  {
    var g := Group(db.entries, TxnOf, id);
    InGroup(db.entries, TxnOf, id);
    OrderedIsSorted(g);
    forall e ensures e in Ordered(g) <==> e in g {
      assert e in Ordered(g) <==> e in multiset(Ordered(g));
    }
  }

  lemma HeadIsLeast(s: seq<EntryRow>, x: EntryRow)
    requires Sorted(s) && x in multiset(s)
    ensures s != [] && Before(s[0], x)
  {
    var i := IndexOf(s, x);
    if i > 0 {
      assert Before(s[0], s[i]);
    }
  }

  ghost predicate IdsIdentifyRows(es: seq<EntryRow>) {
    forall x, y | x in es && y in es && x.id == y.id :: x == y
  }

  lemma HeadsAgree(a: seq<EntryRow>, b: seq<EntryRow>)
    requires Sorted(a) && Sorted(b) && multiset(a) == multiset(b) && IdsIdentifyRows(a) && a != []
    ensures b != [] && a[0] == b[0]
  {
    assert a[0] in multiset(a);
    HeadIsLeast(b, a[0]);
    assert b[0] in multiset(b);
    HeadIsLeast(a, b[0]);
    var i := IndexOf(a, b[0]);
    assert a[0].id == b[0].id;
  }

  lemma TailsAgree<T>(a: seq<T>, b: seq<T>)
    requires multiset(a) == multiset(b) && a != [] && b != [] && a[0] == b[0]
    ensures multiset(a[1..]) == multiset(b[1..])
  {
    assert a == [a[0]] + a[1..] && b == [b[0]] + b[1..];
    assert multiset(a[1..]) == multiset(a) - multiset{a[0]};
    assert multiset(b[1..]) == multiset(b) - multiset{b[0]};
  }

  lemma {:induction false} SortedIsUnique(a: seq<EntryRow>, b: seq<EntryRow>)
    requires Sorted(a) && Sorted(b) && multiset(a) == multiset(b) && IdsIdentifyRows(a)
    ensures a == b
  {
    if a == [] {
      assert |b| == |multiset(b)| == 0;
    } else {
      HeadsAgree(a, b);
      TailsAgree(a, b);
      SortedIsUnique(a[1..], b[1..]);
    }
  }

  /** Two listings of the same rows are read back in the same order. */
  lemma ReadOrderIsDeterministic(a: seq<EntryRow>, b: seq<EntryRow>)
    requires multiset(a) == multiset(b) && UniqueEntryIds(a)
    ensures Ordered(a) == Ordered(b)
  {
    OrderedIsSorted(a);
    OrderedIsSorted(b);
    forall x, y | x in Ordered(a) && y in Ordered(a) && x.id == y.id ensures x == y {
      assert x in multiset(Ordered(a)) && y in multiset(Ordered(a));
      var i := IndexOf(a, x);
      var j := IndexOf(a, y);
    }
    SortedIsUnique(Ordered(a), Ordered(b));
  }

  /** A committed transaction reads back the same after any commit that does not
      write entries for it. */
  lemma DetailIsPermanent(db: Db, db': Db, moreTxns: seq<TxnRow>, moreEntries: seq<EntryRow>, id: Uuid)
    requires db'.txns == db.txns + moreTxns && db'.entries == db.entries + moreEntries
    requires DetailOf(db, id).Some?
    requires forall e | e in moreEntries :: e.txn != id
    ensures DetailOf(db', id) == DetailOf(db, id)
  {
    FindByIdAppend(db.txns, moreTxns, id);
    GroupConcat(db.entries, moreEntries, TxnOf, id);
    GroupAbsent(moreEntries, TxnOf, id);
    assert Group(db.entries, TxnOf, id) + [] == Group(db.entries, TxnOf, id);
  }
}
