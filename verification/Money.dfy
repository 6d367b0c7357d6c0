/** Decimals, and the amounts the ledger can store. */
module MoneyArithmetic {
  import opened LedgerTypes

  datatype Result<+T> = Success(value: T) | Failure(error: MoneyError)

  datatype MoneyError =
    | TooManyDecimalPlaces(scale: nat)
    | MagnitudeTooLarge
    | Mismatch(lhs: Currency, rhs: Currency)
    | Inexact    // the decimal library would have had to round; never happens to amounts

  // ----- decimals -----

  const MAX_SCALE: nat := 8
  const MANTISSA_LIMIT: int := 0x1_0000_0000_0000_0000_0000_0000    // 2^96
  const MAX_MAGNITUDE: int := 1_000_000_000_000                      // 10^12

  /** `mantissa * 10^-scale`. */
  datatype DecimalPair = Decimal(mantissa: int, scale: nat)

  predicate IsDecimal(d: DecimalPair) {
    -MANTISSA_LIMIT < d.mantissa < MANTISSA_LIMIT && d.scale <= 28
  }

  type Decimal = d: DecimalPair | IsDecimal(d) witness Decimal(0, 0)

  /** `m * 10^n`: the numeral `m` with `n` zeros appended. */
  function Shift(m: int, n: nat): int {
    if n == 0 then m else 10 * Shift(m, n - 1)
  }

  function Abs(x: int): nat {
    if x < 0 then -x else x
  }

  /** Trailing zeros removed. */
  function Normalize(d: Decimal): Decimal
    decreases d.scale
  {
    if d.mantissa == 0 then Decimal(0, 0)
    else if d.scale > 0 && d.mantissa % 10 == 0 then Normalize(Decimal(d.mantissa / 10, d.scale - 1))
    else d
  }

  /** The exact sum, or `None` where 96 bits would not hold it. */
  function Add(a: Decimal, b: Decimal): Option<Decimal> {
    var scale := if a.scale < b.scale then b.scale else a.scale;
    var mantissa := Shift(a.mantissa, scale - a.scale) + Shift(b.mantissa, scale - b.scale);
    if Abs(mantissa) < MANTISSA_LIMIT then Some(Decimal(mantissa, scale)) else None
  }

  function Negate(d: Decimal): Decimal {
    Decimal(-d.mantissa, d.scale)
  }

  predicate Less(a: Decimal, b: Decimal) {
    Shift(a.mantissa, b.scale) < Shift(b.mantissa, a.scale)
  }

  // ----- money -----

  predicate Storable(d: Decimal) {
    d.scale <= MAX_SCALE && Abs(d.mantissa) < Shift(MAX_MAGNITUDE, d.scale)
  }

  datatype MoneyPair = Money(amount: Decimal, currency: Currency)

  /** `Money` can only be made by `New`, so it always holds a storable amount. */
  type Money = m: MoneyPair | Storable(m.amount) witness Money(Decimal(0, 0), "USD")

  function New(amount: Decimal, currency: Currency): Result<Money>
    decreases if amount.scale > MAX_SCALE then 1 else 0
  {
    if amount.scale > MAX_SCALE then
      var normalized := Normalize(amount);
      if normalized.scale > MAX_SCALE then Failure(TooManyDecimalPlaces(normalized.scale))
      else New(normalized, currency)
    else if Abs(amount.mantissa) >= Shift(MAX_MAGNITUDE, amount.scale) then Failure(MagnitudeTooLarge)
    else Success(Money(amount, currency))
  }

  function CheckedAdd(a: Money, b: Money): Result<Money> {
    if a.currency != b.currency then Failure(Mismatch(a.currency, b.currency))
    else
      match Add(a.amount, b.amount)
      case None => Failure(Inexact)
      case Some(sum) => New(sum, a.currency)
  }

  function CheckedSub(a: Money, b: Money): Result<Money> {
    if a.currency != b.currency then Failure(Mismatch(a.currency, b.currency))
    else
      match Add(a.amount, Negate(b.amount))
      case None => Failure(Inexact)
      case Some(difference) => New(difference, a.currency)
  }

  function CheckedLt(a: Money, b: Money): Result<bool> {
    if a.currency != b.currency then Failure(Mismatch(a.currency, b.currency))
    else Success(Less(a.amount, b.amount))
  }

  // ----- values -----

  /** The decimal is exactly `u` units of 10^-8. */
  ghost predicate IsUnits(d: DecimalPair, u: int) {
    Shift(d.mantissa, MAX_SCALE) == Shift(u, d.scale)
  }

  /** The amount counted in units of 10^-8, as the `NUMERIC(20, 8)` columns hold it. */
  function ToUnits(d: Decimal): int
    requires d.scale <= MAX_SCALE
  {
    Shift(d.mantissa, MAX_SCALE - d.scale)
  }

  lemma {:induction false} ShiftTwice(x: int, m: nat, n: nat)
    ensures Shift(Shift(x, m), n) == Shift(x, m + n)
  {
    if n > 0 {
      ShiftTwice(x, m, n - 1);
    }
  }

  lemma ShiftsCommute(x: int, m: nat, n: nat)
    ensures Shift(Shift(x, m), n) == Shift(Shift(x, n), m)
  {
    ShiftTwice(x, m, n);
    ShiftTwice(x, n, m);
  }

  /** Shifting neither merges nor reorders values. */
  lemma {:induction false} ShiftKeepsOrder(x: int, y: int, n: nat)
    ensures Shift(x, n) == Shift(y, n) <==> x == y
    ensures Shift(x, n) < Shift(y, n) <==> x < y
  {
    if n > 0 {
      ShiftKeepsOrder(x, y, n - 1);
    }
  }

  lemma {:induction false} ShiftAdds(x: int, y: int, n: nat)
    ensures Shift(x + y, n) == Shift(x, n) + Shift(y, n)
  {
    if n > 0 {
      ShiftAdds(x, y, n - 1);
    }
  }

  lemma {:induction false} ShiftSign(x: int, n: nat)
    ensures Shift(0, n) == 0 && Shift(-x, n) == -Shift(x, n)
    ensures Abs(Shift(x, n)) == Shift(Abs(x), n) >= Abs(x)
  {
    if n > 0 {
      ShiftSign(x, n - 1);
    }
  }

  lemma LimitIsMagnitude(scale: nat)
    requires scale <= MAX_SCALE
    ensures Shift(Shift(MAX_MAGNITUDE, scale), MAX_SCALE - scale) == NUMERIC_LIMIT
  {
    ShiftTwice(MAX_MAGNITUDE, scale, MAX_SCALE - scale);
    assert Shift(MAX_MAGNITUDE, 8) == NUMERIC_LIMIT;
  }

  /** Within the scale limit, every decimal is a whole number of units, of one number only. */
  lemma UnitsOf(d: Decimal, u: int)
    requires d.scale <= MAX_SCALE
    ensures IsUnits(d, u) <==> u == ToUnits(d)
    ensures Fits(ToUnits(d)) <==> Storable(d)
  {
    ShiftTwice(d.mantissa, MAX_SCALE - d.scale, d.scale);
    ShiftKeepsOrder(ToUnits(d), u, d.scale);
    ShiftSign(d.mantissa, MAX_SCALE - d.scale);
    ShiftKeepsOrder(Abs(d.mantissa), Shift(MAX_MAGNITUDE, d.scale), MAX_SCALE - d.scale);
    LimitIsMagnitude(d.scale);
  }

  // ----- normalisation -----

  predicate Normalized(d: DecimalPair) {
    if d.mantissa == 0 then d.scale == 0 else d.scale == 0 || d.mantissa % 10 != 0
  }

  /** `Normalize(d)` is `d` with `k` trailing zeros fewer. */
  lemma {:induction false} NormalizeStripsZeros(d: Decimal) returns (k: nat)
    ensures Normalized(Normalize(d)) && Normalize(d).scale <= d.scale
    ensures d.mantissa != 0 ==> Normalize(d).scale + k == d.scale && d.mantissa == Shift(Normalize(d).mantissa, k)
    decreases d.scale
  {
    k := 0;
    if d.mantissa != 0 && d.scale > 0 && d.mantissa % 10 == 0 {
      k := NormalizeStripsZeros(Decimal(d.mantissa / 10, d.scale - 1));
      k := k + 1;
    }
  }

  /** Normalising keeps the value. */
  lemma NormalizeKeepsValue(d: Decimal, u: int)
    ensures IsUnits(Normalize(d), u) <==> IsUnits(d, u)
  {
    var n := Normalize(d);
    if d.mantissa == 0 {
      ShiftSign(0, MAX_SCALE);
      ShiftSign(0, d.scale);
      ShiftKeepsOrder(u, 0, d.scale);
    } else {
      var k := NormalizeStripsZeros(d);
      ShiftsCommute(n.mantissa, k, MAX_SCALE);
      ShiftTwice(u, n.scale, k);
      ShiftKeepsOrder(Shift(n.mantissa, MAX_SCALE), Shift(u, n.scale), k);
    }
  }

  /** A normalised decimal with more than eight places is not a whole number of units. */
  lemma TooFine(n: Decimal, u: int)
    requires Normalized(n) && n.scale > MAX_SCALE
    ensures !IsUnits(n, u)
  {
    var k := n.scale - MAX_SCALE;
    ShiftTwice(u, k, MAX_SCALE);
    ShiftKeepsOrder(n.mantissa, Shift(u, k), MAX_SCALE);
  }

  /** `Money::new` accepts a decimal exactly when it is a whole number of units of 10^-8
      that `NUMERIC(20, 8)` holds, and then stores that very value. */
  lemma NewAcceptsExactlyStorable(d: Decimal, c: Currency)
    ensures New(d, c).Success? <==> exists u :: IsUnits(d, u) && Fits(u)
    ensures New(d, c).Success? ==> New(d, c).value.currency == c && IsUnits(d, ToUnits(New(d, c).value.amount))
    ensures New(d, c).Success? && d.scale <= 8 ==> New(d, c).value.amount == d
    ensures New(d, c) == Failure(MagnitudeTooLarge) <==> exists u :: IsUnits(d, u) && !Fits(u)
    ensures New(d, c).Failure? && New(d, c).error.TooManyDecimalPlaces? <==> forall u :: !IsUnits(d, u)
  {
    if d.scale <= MAX_SCALE {
      NewWithinScale(d, c);
    } else {
      var n := Normalize(d);
      var k := NormalizeStripsZeros(d);
      forall u ensures IsUnits(n, u) <==> IsUnits(d, u) {
        NormalizeKeepsValue(d, u);
      }
      if n.scale <= MAX_SCALE {
        NewWithinScale(n, c);
      } else {
        forall u ensures !IsUnits(d, u) {
          TooFine(n, u);
        }
      }
    }
  }

  ghost predicate SameValue(a: DecimalPair, b: DecimalPair) {
    Shift(a.mantissa, b.scale) == Shift(b.mantissa, a.scale)
  }

  /** `d` can be written with `n` decimal places. */
  ghost predicate Writable(d: DecimalPair, n: nat) {
    exists m :: SameValue(Decimal(m, n), d)
  }

  lemma EnoughPlaces(x: int, scale: nat, k: nat, n: nat)
    requires n >= scale
    ensures SameValue(Decimal(Shift(x, n - scale), n), Decimal(Shift(x, k), scale + k))
  {
    ShiftTwice(x, n - scale, scale + k);
    ShiftTwice(x, k, n);
  }

  lemma TooFewPlaces(x: int, scale: nat, k: nat, n: nat, m: int)
    requires n < scale && x % 10 != 0
    ensures !SameValue(Decimal(m, n), Decimal(Shift(x, k), scale + k))
  {
    ShiftTwice(x, k, n);
    ShiftTwice(m, scale - n, n + k);
    ShiftKeepsOrder(Shift(m, scale - n), x, n + k);
    assert Shift(m, scale - n) == 10 * Shift(m, scale - n - 1);
  }

  /** Dropping trailing zeros leaves the fewest places that will do. */
  lemma FewestPlaces(d: Decimal, n: nat)
    requires d.mantissa != 0
    ensures Writable(d, n) <==> n >= Normalize(d).scale
  {
    var k := NormalizeStripsZeros(d);
    var x, scale := Normalize(d).mantissa, Normalize(d).scale;
    assert d == Decimal(Shift(x, k), scale + k);
    if n >= scale {
      EnoughPlaces(x, scale, k, n);
    } else {
      forall m ensures !SameValue(Decimal(m, n), d) {
        TooFewPlaces(x, scale, k, n, m);
      }
    }
  }

  /** The scale in the error is the number of places that the amount really needs. */
  lemma ReportedScaleIsNeeded(d: Decimal, c: Currency, places: nat)
    requires New(d, c) == Failure(TooManyDecimalPlaces(places))
    ensures places > 8 && forall n: nat :: Writable(d, n) <==> n >= places
  {
    if d.mantissa != 0 {
      forall n: nat ensures Writable(d, n) <==> n >= places {
        FewestPlaces(d, n);
      }
    }
  }

  lemma NewWithinScale(d: Decimal, c: Currency)
    requires d.scale <= MAX_SCALE
    ensures New(d, c) == if Fits(ToUnits(d)) then Success(Money(d, c)) else Failure(MagnitudeTooLarge)
    ensures forall u :: IsUnits(d, u) <==> u == ToUnits(d)
  {
    UnitsOf(d, 0);
    forall u ensures IsUnits(d, u) <==> u == ToUnits(d) {
      UnitsOf(d, u);
    }
  }

  // ----- arithmetic on amounts is exact -----

  function Worth(m: Money): int {
    ToUnits(m.amount)
  }

  /** Adding two storable decimals never needs rounding, and adds their units. */
  lemma AddIsExact(a: Decimal, b: Decimal)
    requires Storable(a) && Storable(b)
    ensures Add(a, b).Some? && Add(a, b).value.scale <= MAX_SCALE
    ensures ToUnits(Add(a, b).value) == ToUnits(a) + ToUnits(b)
  {
    var scale := if a.scale < b.scale then b.scale else a.scale;
    var x, y := Shift(a.mantissa, scale - a.scale), Shift(b.mantissa, scale - b.scale);
    var n := MAX_SCALE - scale;
    ShiftTwice(a.mantissa, scale - a.scale, n);
    ShiftTwice(b.mantissa, scale - b.scale, n);
    ShiftAdds(x, y, n);
    UnitsOf(a, 0);
    UnitsOf(b, 0);
    ShiftSign(x + y, n);
  }

  lemma NegateUnits(d: Decimal)
    requires Storable(d)
    ensures Storable(Negate(d)) && ToUnits(Negate(d)) == -ToUnits(d)
  {
    ShiftSign(d.mantissa, MAX_SCALE - d.scale);
  }

  /** In one currency, addition is exact and fails only when the true sum leaves the range. */
  lemma CheckedAddIsExact(a: Money, b: Money)
    ensures a.currency != b.currency ==> CheckedAdd(a, b) == Failure(Mismatch(a.currency, b.currency))
    ensures a.currency == b.currency && Fits(Worth(a) + Worth(b)) ==>
              CheckedAdd(a, b).Success? && Worth(CheckedAdd(a, b).value) == Worth(a) + Worth(b)
              && CheckedAdd(a, b).value.currency == a.currency
    ensures a.currency == b.currency && !Fits(Worth(a) + Worth(b)) ==> CheckedAdd(a, b) == Failure(MagnitudeTooLarge)
  {
    AddIsExact(a.amount, b.amount);
    NewWithinScale(Add(a.amount, b.amount).value, a.currency);
  }

  lemma CheckedSubIsExact(a: Money, b: Money)
    ensures a.currency != b.currency ==> CheckedSub(a, b) == Failure(Mismatch(a.currency, b.currency))
    ensures a.currency == b.currency && Fits(Worth(a) - Worth(b)) ==>
              CheckedSub(a, b).Success? && Worth(CheckedSub(a, b).value) == Worth(a) - Worth(b)
              && CheckedSub(a, b).value.currency == a.currency
    ensures a.currency == b.currency && !Fits(Worth(a) - Worth(b)) ==> CheckedSub(a, b) == Failure(MagnitudeTooLarge)
  {
    NegateUnits(b.amount);
    AddIsExact(a.amount, Negate(b.amount));
    NewWithinScale(Add(a.amount, Negate(b.amount)).value, a.currency);
  }

  /** Subtracting what was added gives the same value back. */
  lemma AddThenSubtract(a: Money, b: Money)
    requires CheckedAdd(a, b).Success?
    ensures CheckedSub(CheckedAdd(a, b).value, b).Success?
    ensures Worth(CheckedSub(CheckedAdd(a, b).value, b).value) == Worth(a)
  {
    CheckedAddIsExact(a, b);
    UnitsOf(a.amount, 0);
    CheckedSubIsExact(CheckedAdd(a, b).value, b);
  }

  lemma CheckedLtIsOrder(a: Money, b: Money)
    ensures a.currency != b.currency ==> CheckedLt(a, b) == Failure(Mismatch(a.currency, b.currency))
    ensures a.currency == b.currency ==> CheckedLt(a, b) == Success(Worth(a) < Worth(b))
  {
    var x, y := a.amount, b.amount;
    UnitsOf(x, Worth(a));
    UnitsOf(y, Worth(b));
    ShiftsCommute(x.mantissa, y.scale, MAX_SCALE);
    ShiftsCommute(y.mantissa, x.scale, MAX_SCALE);
    ShiftsCommute(Worth(b), y.scale, x.scale);
    ShiftKeepsOrder(Shift(x.mantissa, y.scale), Shift(y.mantissa, x.scale), MAX_SCALE);
    ShiftKeepsOrder(Shift(Worth(a), x.scale), Shift(Worth(b), x.scale), y.scale);
    ShiftKeepsOrder(Worth(a), Worth(b), x.scale);
  }
}
