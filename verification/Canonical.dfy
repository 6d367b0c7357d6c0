/** The canonical text of an amount, and reading it back. */
module CanonicalText {
  import opened LedgerTypes
  import opened MoneyArithmetic

  // ----- writing -----

  function DigitChar(d: nat): char
    requires d < 10
  {
    '0' + d as char
  }

  /** Decimal digits of `n`, without leading zeros. */
  function Digits(n: nat): string {
    if n < 10 then [DigitChar(n)] else Digits(n / 10) + [DigitChar(n % 10)]
  }

  /** The last `width` decimal digits of `n`, zeros included. */
  function Padded(n: nat, width: nat): string {
    if width == 0 then "" else Padded(n / 10, width - 1) + [DigitChar(n % 10)]
  }

  /** `n` without its last `width` decimal digits. */
  function Whole(n: nat, width: nat): nat {
    if width == 0 then n else Whole(n / 10, width - 1)
  }

  function Joined(whole: string, fraction: string): string {
    whole + (if fraction == "" then "" else "." + fraction)
  }

  /** Integer part, and exactly `scale` fraction digits. */
  function UnsignedText(n: nat, scale: nat): string {
    Joined(Digits(Whole(n, scale)), Padded(n, scale))
  }

  /** `Decimal::to_string`: sign, integer part, and exactly `scale` fraction digits. */
  function FormatDecimal(d: Decimal): string {
    var n := Abs(d.mantissa);
    (if d.mantissa < 0 then "-" else "") + UnsignedText(n, d.scale)
  }

  function Canonical(m: Money): string {
    FormatDecimal(Normalize(m.amount)) + " " + m.currency
  }

  // ----- reading -----

  function DigitValue(c: char): int {
    c as int - '0' as int
  }

  function DigitsValue(s: string): int {
    if s == "" then 0 else DigitsValue(s[..|s| - 1]) * 10 + DigitValue(s[|s| - 1])
  }

  /** Position of the first `c`, or the length of the text if there is none. */
  function IndexOfChar(s: string, c: char): (i: nat)
    ensures i <= |s|
  {
    if s == "" || s[0] == c then 0 else 1 + IndexOfChar(s[1..], c)
  }

  function ReadUnsigned(s: string): DecimalPair {
    var dot := IndexOfChar(s, '.');
    var fraction := if dot < |s| then s[dot + 1..] else "";
    Decimal(DigitsValue(s[..dot] + fraction), |fraction|)
  }

  function ReadDecimal(s: string): DecimalPair {
    if s != "" && s[0] == '-' then
      var d := ReadUnsigned(s[1..]);
      Decimal(-d.mantissa, d.scale)
    else ReadUnsigned(s)
  }

  /** The number before the last blank and the code after it. */
  function ReadCanonical(s: string): Option<(DecimalPair, string)> {
    if |s| < 4 || s[|s| - 4] != ' ' then None else Some((ReadDecimal(s[..|s| - 4]), s[|s| - 3..]))
  }

  // ----- digits -----

  predicate IsDigit(c: char) {
    '0' <= c <= '9'
  }

  predicate AllDigits(s: string) {
    forall c | c in s :: IsDigit(c)
  }

  lemma {:induction false} DigitsRead(n: nat)
    ensures AllDigits(Digits(n)) && Digits(n) != "" && DigitsValue(Digits(n)) == n
  {
    if n >= 10 {
      DigitsRead(n / 10);
      assert Digits(n)[..|Digits(n)| - 1] == Digits(n / 10);
    } else {
      assert [DigitChar(n)][..0] == "";
    }
  }

  /** Cutting a number in two loses nothing. */
  lemma {:induction false} PaddedRead(n: nat, width: nat)
    ensures AllDigits(Padded(n, width)) && |Padded(n, width)| == width
    ensures Shift(Whole(n, width), width) + DigitsValue(Padded(n, width)) == n
  {
    if width > 0 {
      PaddedRead(n / 10, width - 1);
      assert Padded(n, width)[..width - 1] == Padded(n / 10, width - 1);
    }
  }

  lemma {:induction false} DigitsValueConcat(a: string, b: string)
    ensures DigitsValue(a + b) == Shift(DigitsValue(a), |b|) + DigitsValue(b)
    decreases |b|
  {
    if b == "" {
      assert a + b == a;
    } else {
      var n := |b| - 1;
      assert (a + b)[..|a + b| - 1] == a + b[..n];
      DigitsValueConcat(a, b[..n]);
    }
  }

  lemma {:induction false} FirstDot(a: string, b: string)
    requires '.' !in a
    ensures IndexOfChar(a, '.') == |a|
    ensures IndexOfChar(a + "." + b, '.') == |a|
  {
    if a != "" {
      assert (a + "." + b)[1..] == a[1..] + "." + b;
      FirstDot(a[1..], b);
    }
  }

  lemma DigitsAreNotDots(s: string)
    requires AllDigits(s)
    ensures '.' !in s && (s != "" ==> s[0] != '-')
  {
    if s != "" {
      assert s[0] in s;
    }
  }

  // ----- round trips -----

  function Composed(whole: string, fraction: string): DecimalPair {
    Decimal(Shift(DigitsValue(whole), |fraction|) + DigitsValue(fraction), |fraction|)
  }

  lemma FractionRoundTrip(a: string, b: string)
    requires AllDigits(a)
    ensures ReadUnsigned(a + "." + b) == Composed(a, b)
  {
    var text := a + "." + b;
    DigitsAreNotDots(a);
    FirstDot(a, b);
    assert text[..|a|] == a && text[|a| + 1..] == b;
    DigitsValueConcat(a, b);
  }

  lemma WholeRoundTrip(a: string)
    requires AllDigits(a)
    ensures ReadUnsigned(a) == Composed(a, "")
  {
    DigitsAreNotDots(a);
    FirstDot(a, "");
    assert a[..|a|] + "" == a;
  }

  lemma JoinedRoundTrip(a: string, b: string)
    requires AllDigits(a) && a != ""
    ensures ReadUnsigned(Joined(a, b)) == Composed(a, b)
  {
    if b == "" {
      WholeRoundTrip(a);
      assert Joined(a, b) == a;
    } else {
      FractionRoundTrip(a, b);
      assert Joined(a, b) == a + "." + b;
    }
  }

  lemma UnsignedRoundTrip(n: nat, scale: nat)
    ensures ReadUnsigned(UnsignedText(n, scale)) == Decimal(n, scale)
    ensures UnsignedText(n, scale) != "" && UnsignedText(n, scale)[0] != '-'
  {
    var a, b := Digits(Whole(n, scale)), Padded(n, scale);
    DigitsRead(Whole(n, scale));
    PaddedRead(n, scale);
    JoinedRoundTrip(a, b);
    DigitsAreNotDots(a);
  }

  /** Reading a formatted decimal gives back the very same mantissa and scale. */
  lemma DecimalRoundTrip(d: Decimal)
    ensures ReadDecimal(FormatDecimal(d)) == d
  {
    var n := Abs(d.mantissa);
    var text := UnsignedText(n, d.scale);
    UnsignedRoundTrip(n, d.scale);
    if d.mantissa < 0 {
      assert FormatDecimal(d) == "-" + text;
      assert ("-" + text)[1..] == text;
    } else {
      assert FormatDecimal(d) == text;
    }
  }

  /** Reading a canonical text recovers the normalised value and the currency. */
  lemma CanonicalRoundTrip(m: Money)
    ensures ReadCanonical(Canonical(m)) == Some((Normalize(m.amount), m.currency))
  {
    var number := FormatDecimal(Normalize(m.amount));
    var s := Canonical(m);
    assert s == number + " " + m.currency;
    assert s[..|s| - 4] == number && s[|s| - 4] == ' ' && s[|s| - 3..] == m.currency;
    DecimalRoundTrip(Normalize(m.amount));
  }

  // ----- the form of the text -----

  /** Digits without a needless leading zero. */
  predicate IsWhole(a: string) {
    AllDigits(a) && a != "" && (|a| > 1 ==> a[0] != '0')
  }

  /** A number as it is written by hand: no needless sign, and no needless leading zero. */
  predicate IsNumeral(sign: string, a: string, b: string) {
    && (sign == "" || (sign == "-" && !(a == "0" && DigitsValue(b) == 0)))
    && IsWhole(a) && AllDigits(b)
  }

  lemma {:induction false} DigitsAreWhole(n: nat)
    ensures IsWhole(Digits(n)) && (n > 0 ==> Digits(n)[0] != '0')
  {
    DigitsRead(n);
    if n >= 10 {
      DigitsAreWhole(n / 10);
    }
  }

  lemma DigitReadsBack(c: char)
    requires IsDigit(c)
    ensures 0 <= DigitValue(c) < 10 && DigitChar(DigitValue(c)) == c
  {
  }

  lemma OneMoreDigit(n: nat, d: nat)
    requires d < 10
    ensures (n * 10 + d) / 10 == n && (n * 10 + d) % 10 == d
    ensures n > 0 ==> Digits(n * 10 + d) == Digits(n) + [DigitChar(d)]
  {
  }

  lemma {:induction false} WholeReadsBack(a: string)
    requires IsWhole(a)
    ensures DigitsValue(a) >= 0 && Digits(DigitsValue(a)) == a
    ensures a[0] != '0' ==> DigitsValue(a) >= 1
  {
    var n := |a| - 1;
    var front := a[..n];
    assert a == front + [a[n]] && a[n] in a;
    DigitReadsBack(a[n]);
    if n > 0 {
      assert forall c | c in front :: c in a;
      WholeReadsBack(front);
      OneMoreDigit(DigitsValue(front), DigitValue(a[n]));
    } else {
      assert DigitsValue(front) == 0;
    }
  }

  /** What was cut off is put back. */
  lemma {:induction false} PaddedReadsBack(w: nat, b: string)
    requires AllDigits(b)
    ensures DigitsValue(b) >= 0 && Shift(w, |b|) >= 0
    ensures var n := Shift(w, |b|) + DigitsValue(b); Whole(n, |b|) == w && Padded(n, |b|) == b
    decreases |b|
  {
    if b != "" {
      var k := |b| - 1;
      var front := b[..k];
      assert b == front + [b[k]] && b[k] in b;
      assert forall c | c in front :: c in b;
      PaddedReadsBack(w, front);
      var n := Shift(w, |b|) + DigitsValue(b);
      DigitReadsBack(b[k]);
      OneMoreDigit(Shift(w, k) + DigitsValue(front), DigitValue(b[k]));
      assert Padded(n, |b|) == Padded(n / 10, k) + [DigitChar(n % 10)];
    }
  }

  lemma NormalizedNumeral(d: Decimal)
    requires Normalized(d)
    ensures var n, sign := Abs(d.mantissa), if d.mantissa < 0 then "-" else "";
      var a, b := Digits(Whole(n, d.scale)), Padded(n, d.scale);
      IsNumeral(sign, a, b) && (b != "" ==> b[|b| - 1] != '0')
  {
    var n := Abs(d.mantissa);
    DigitsAreWhole(Whole(n, d.scale));
    DigitsRead(Whole(n, d.scale));
    PaddedRead(n, d.scale);
    ShiftSign(0, d.scale);
    if d.scale > 0 {
      assert Padded(n, d.scale)[d.scale - 1] == DigitChar(n % 10);
    }
  }

  /** The text is an optional minus sign, digits without a needless leading zero, a fraction
      only if one is needed and without a trailing zero, a blank, and the currency code. */
  lemma CanonicalForm(m: Money) returns (sign: string, a: string, b: string)
    ensures Canonical(m) == sign + (a + (if b == "" then "" else "." + b)) + " " + m.currency
    ensures IsNumeral(sign, a, b) && (b != "" ==> b[|b| - 1] != '0')
  {
    var d := Normalize(m.amount);
    var n := Abs(d.mantissa);
    var k := NormalizeStripsZeros(m.amount);
    NormalizedNumeral(d);
    sign, a, b := if d.mantissa < 0 then "-" else "", Digits(Whole(n, d.scale)), Padded(n, d.scale);
  }

  lemma NumeralReads(sign: string, a: string, b: string)
    requires IsNumeral(sign, a, b)
    ensures var d := Composed(a, b);
      ReadDecimal(sign + Joined(a, b)) == if sign == "" then d else Decimal(-d.mantissa, d.scale)
  {
    var text := Joined(a, b);
    JoinedRoundTrip(a, b);
    DigitsAreNotDots(a);
    if sign == "" {
      assert sign + text == text;
    } else {
      assert (sign + text)[1..] == text;
    }
  }

  lemma PartsMakeText(n: nat, whole: nat, a: string, b: string)
    requires Whole(n, |b|) == whole && Padded(n, |b|) == b && Digits(whole) == a
    ensures UnsignedText(n, |b|) == Joined(a, b)
  {
  }

  /** Writing out what a numeral says gives the numeral back. */
  lemma NumeralIsWritten(a: string, b: string, n: int)
    requires IsWhole(a) && AllDigits(b) && n == Shift(DigitsValue(a), |b|) + DigitsValue(b)
    ensures n >= 0 && UnsignedText(n, |b|) == Joined(a, b)
  {
    var whole := DigitsValue(a);
    WholeReadsBack(a);
    PaddedReadsBack(whole, b);
    PartsMakeText(n, whole, a, b);
  }

  /** A text in this form that reads as the amount is the canonical text. */
  lemma CanonicalIsTheOnlySpelling(m: Money, sign: string, a: string, b: string, code: Currency)
    requires IsNumeral(sign, a, b)
    requires ReadCanonical(sign + Joined(a, b) + " " + code) == Some((Normalize(m.amount), m.currency))
    ensures sign + Joined(a, b) + " " + code == Canonical(m)
  {
    var s, number := sign + Joined(a, b) + " " + code, sign + Joined(a, b);
    assert s[..|s| - 4] == number && s[|s| - 3..] == code;
    NumeralReads(sign, a, b);
    NumeralIsWritten(a, b, Shift(DigitsValue(a), |b|) + DigitsValue(b));
    if sign == "-" {
      NotZero(a, b);
    }
    assert FormatDecimal(Normalize(m.amount)) == number;
  }

  lemma NotZero(a: string, b: string)
    requires IsWhole(a) && AllDigits(b) && !(a == "0" && DigitsValue(b) == 0)
    ensures Shift(DigitsValue(a), |b|) + DigitsValue(b) > 0
  {
    WholeReadsBack(a);
    PaddedReadsBack(DigitsValue(a), b);
    ShiftSign(DigitsValue(a), |b|);
    if DigitsValue(a) == 0 {
      assert a == Digits(0) == "0";
    }
  }

  /** Two normalised decimals of the same value are the same decimal. */
  lemma NormalFormIsUnique(a: Decimal, b: Decimal, u: int)
    requires Normalized(a) && Normalized(b) && IsUnits(a, u) && IsUnits(b, u)
    requires a.scale <= b.scale <= MAX_SCALE
    ensures a == b
  {
    var k := b.scale - a.scale;
    UnitsOf(a, u);
    UnitsOf(b, u);
    ShiftTwice(a.mantissa, k, MAX_SCALE - b.scale);
    ShiftKeepsOrder(Shift(a.mantissa, k), b.mantissa, MAX_SCALE - b.scale);
  }

  /** Canonical texts are equal exactly when the amounts and the currencies are. */
  lemma CanonicalIdentifiesAmounts(a: Money, b: Money)
    ensures Canonical(a) == Canonical(b) <==> Worth(a) == Worth(b) && a.currency == b.currency
  {
    CanonicalRoundTrip(a);
    CanonicalRoundTrip(b);
    var x, y := Normalize(a.amount), Normalize(b.amount);
    NormalizedUnits(a);
    NormalizedUnits(b);
    if Worth(a) == Worth(b) {
      if x.scale <= y.scale {
        NormalFormIsUnique(x, y, Worth(a));
      } else {
        NormalFormIsUnique(y, x, Worth(a));
      }
    }
  }

  lemma NormalizedUnits(m: Money)
    ensures var n := Normalize(m.amount); Normalized(n) && n.scale <= MAX_SCALE && IsUnits(n, Worth(m)) && ToUnits(n) == Worth(m)
  {
    var k := NormalizeStripsZeros(m.amount);
    UnitsOf(m.amount, Worth(m));
    NormalizeKeepsValue(m.amount, Worth(m));
    UnitsOf(Normalize(m.amount), Worth(m));
  }

  /** Plain ASCII on a single line. */
  predicate Plain(s: string) {
    forall c | c in s :: c as int < 128 && c != '\n'
  }

  lemma PlainConcat(a: string, b: string)
    requires Plain(a) && Plain(b)
    ensures Plain(a + b)
  {
  }

  lemma DigitsArePlain(s: string)
    requires AllDigits(s)
    ensures Plain(s)
  {
  }

  lemma UnsignedIsPlain(n: nat, scale: nat)
    ensures Plain(UnsignedText(n, scale))
  {
    var whole, fraction := Digits(Whole(n, scale)), Padded(n, scale);
    DigitsRead(Whole(n, scale));
    PaddedRead(n, scale);
    DigitsArePlain(whole);
    DigitsArePlain(fraction);
    PlainConcat(".", fraction);
    PlainConcat(whole, "." + fraction);
  }

  lemma DecimalIsPlain(d: Decimal)
    ensures Plain(FormatDecimal(d))
  {
    var sign := if d.mantissa < 0 then "-" else "";
    var text := UnsignedText(Abs(d.mantissa), d.scale);
    UnsignedIsPlain(Abs(d.mantissa), d.scale);
    PlainConcat(sign, text);
    assert FormatDecimal(d) == sign + text;
  }

  lemma CanonicalIsPlain(m: Money)
    ensures Plain(Canonical(m))
  {
    DecimalIsPlain(Normalize(m.amount));
    assert Plain(" ") && Plain(m.currency);
    PlainConcat(FormatDecimal(Normalize(m.amount)), " ");
    PlainConcat(FormatDecimal(Normalize(m.amount)) + " ", m.currency);
  }
}
