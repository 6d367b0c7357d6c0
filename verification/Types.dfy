/** The values every part of the ledger model shares: identifiers, currencies,
    amounts, table rows and the request a caller sends. */
module LedgerTypes {

  datatype Option<+T> = None | Some(value: T)

  /** One byte, as a hasher or a `BYTEA` column sees it. */
  type Byte = b: int | 0 <= b < 256

  const UUID_LIMIT: int := 0x1_0000_0000_0000_0000_0000_0000_0000_0000

  /** A UUID as its 128-bit big-endian number; the numeric order is the byte order
      that both the service and the database sort by. */
  type Uuid = u: int | 0 <= u < UUID_LIMIT

  /** Exclusive bound on what `NUMERIC(20, 8)` holds, counted in units of 10^-8. */
  const NUMERIC_LIMIT: int := 100_000_000_000_000_000_000

  predicate Fits(x: int) {
    -NUMERIC_LIMIT < x < NUMERIC_LIMIT
  }

  /** A `NUMERIC(20, 8)` value, counted in units of 10^-8. */
  type Units = x: int | Fits(x)

  predicate IsCurrencyCode(s: string) {
    |s| == 3 && forall i | 0 <= i < |s| :: 'A' <= s[i] <= 'Z'
  }

  type Currency = s: string | IsCurrencyCode(s) witness "USD"

  datatype Direction = Debit | Credit

  /** What a transfer request means, free of how its amount was spelled. */
  datatype Terms = Terms(from: Uuid, to: Uuid, amount: Units, currency: Currency, description: seq<Byte>)

  /** A request together with its idempotency key and the digest the service computed for it. */
  datatype Call = Call(key: string, terms: Terms, digest: seq<Byte>)

  /** The columns of `accounts` that are fixed when the account is opened. */
  datatype AccountTerms = AccountTerms(name: string, currency: Currency, allowsNegative: bool, createdAt: int)

  datatype AccountRow = AccountRow(terms: AccountTerms, balance: Units)

  datatype TxnRow = TxnRow(id: Uuid, key: string, digest: seq<Byte>, description: seq<Byte>, xid: nat, createdAt: int)

  datatype EntryRow = EntryRow(
    id: Uuid, txn: Uuid, account: Uuid, direction: Direction, amount: Units, currency: Currency, createdAt: int)

  /** The three tables. `accounts` is keyed by its primary key; the append-only
      tables are kept in insertion order. */
  datatype Db = Db(accounts: map<Uuid, AccountRow>, txns: seq<TxnRow>, entries: seq<EntryRow>)

  const EMPTY_DB: Db := Db(map[], [], [])

  lemma {:induction false} SubsetSize<T>(a: set<T>, b: set<T>)
    requires a <= b
    ensures |a| <= |b|
  {
    if a != {} {
      var x :| x in a;
      SubsetSize(a - {x}, b - {x});
    }
  }
}
