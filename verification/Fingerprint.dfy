/** The request fingerprint: what is hashed, and what equal fingerprints mean. */
module Fingerprint {
  import opened LedgerTypes
  import opened MoneyArithmetic
  import opened CanonicalText

  datatype Intent = Intent(from: Uuid, to: Uuid, amount: Money, description: seq<Byte>)

  /** What the intent asks for, whatever way its amount is spelled. */
  function TermsOf(i: Intent): Terms {
    UnitsOf(i.amount.amount, 0);
    Terms(i.from, i.to, Worth(i.amount), i.amount.currency, i.description)
  }

  // ----- bytes -----

  predicate IsAscii(s: string) {
    forall c | c in s :: c as int < 128
  }

  function Code(c: char): Byte
    requires c as int < 128
  {
    c as int
  }

  function Ascii(s: string): seq<Byte>
    requires IsAscii(s)
  {
    seq(|s|, i requires 0 <= i < |s| => assert s[i] in s; Code(s[i]))
  }

  function BigEndian(n: nat, width: nat): (b: seq<Byte>)
    ensures |b| == width
  {
    if width == 0 then [] else BigEndian(n / 256, width - 1) + [n % 256]
  }

  function UuidBytes(u: Uuid): seq<Byte> {
    BigEndian(u, 16)
  }

  function Pow256(n: nat): nat {
    if n == 0 then 1 else 256 * Pow256(n - 1)
  }

  lemma {:induction false} BigEndianIsInjective(m: nat, n: nat, width: nat)
    requires m < Pow256(width) && n < Pow256(width) && BigEndian(m, width) == BigEndian(n, width)
    ensures m == n
  {
    if width > 0 {
      var a, b := BigEndian(m, width), BigEndian(n, width);
      assert a[..width - 1] == BigEndian(m / 256, width - 1) && b[..width - 1] == BigEndian(n / 256, width - 1);
      assert a[width - 1] == m % 256 && b[width - 1] == n % 256;
      BigEndianIsInjective(m / 256, n / 256, width - 1);
    }
  }

  lemma UuidBytesAreInjective(u: Uuid, v: Uuid)
    requires UuidBytes(u) == UuidBytes(v)
    ensures u == v
  {
    SixteenBytes();
    BigEndianIsInjective(u, v, 16);
  }

  lemma AsciiIsInjective(a: string, b: string)
    requires IsAscii(a) && IsAscii(b) && Ascii(a) == Ascii(b)
    ensures a == b
  {
    forall i | 0 <= i < |a| ensures a[i] == b[i] {
      assert a[i] in a && b[i] in b;
      assert Ascii(a)[i] == Code(a[i]) && Ascii(b)[i] == Code(b[i]);
    }
  }

  // ----- the pre-image -----

  const HEADER: seq<Byte> := Ascii("ledger-rs/transfer/v1\n")
  const FROM_TAG: seq<Byte> := Ascii("from=")
  const TO_TAG: seq<Byte> := Ascii("\nto=")
  const AMOUNT_TAG: seq<Byte> := Ascii("\namount=")
  const DESCRIPTION_TAG: seq<Byte> := Ascii("\ndescription=")
  const END_TAG: seq<Byte> := Ascii("\n")

  const NEWLINE: Byte := 10

  function AmountBytes(m: Money): seq<Byte> {
    CanonicalIsPlain(m);
    Ascii(Canonical(m))
  }

  /** Ten consecutive fields. */
  function Join(h: seq<Byte>, f: seq<Byte>, from: seq<Byte>, t: seq<Byte>, to: seq<Byte>,
                m: seq<Byte>, amount: seq<Byte>, d: seq<Byte>, text: seq<Byte>, e: seq<Byte>): seq<Byte>
  {
    h + f + from + t + to + m + amount + d + text + e
  }

  /** The bytes `request_hash` feeds to the hasher. */
  function PreImage(i: Intent): seq<Byte> {
    Join(HEADER, FROM_TAG, UuidBytes(i.from), TO_TAG, UuidBytes(i.to),
         AMOUNT_TAG, AmountBytes(i.amount), DESCRIPTION_TAG, i.description, END_TAG)
  }

  /** The number that bytes spell, most significant byte first. */
  function Number(b: seq<Byte>): nat {
    if b == [] then 0 else Number(b[..|b| - 1]) * 256 + b[|b| - 1]
  }

  lemma {:induction false} BigEndianReads(n: nat, width: nat)
    requires n < Pow256(width)
    ensures Number(BigEndian(n, width)) == n
  {
    if width > 0 {
      var b := BigEndian(n, width);
      assert b[..width - 1] == BigEndian(n / 256, width - 1) && b[width - 1] == n % 256;
      BigEndianReads(n / 256, width - 1);
    }
  }

  lemma UuidReads(u: Uuid)
    ensures |UuidBytes(u)| == 16 && Number(UuidBytes(u)) == u
  {
    SixteenBytes();
    BigEndianReads(u, 16);
  }

  lemma SixteenBytes()
    ensures Pow256(16) == UUID_LIMIT
  {
    assert Pow256(4) == 0x1_0000_0000;
    assert Pow256(8) == 0x1_0000_0000_0000_0000;
    assert Pow256(12) == 0x1_0000_0000_0000_0000_0000_0000;
  }

  /** The bytes that are hashed, field by field: the version line, the sender's 16 bytes, the
      receiver's 16 bytes, the canonical amount, the description, each behind its tag, and a
      newline at the end. */
  lemma PreImageLayout(i: Intent) returns (from: seq<Byte>, to: seq<Byte>)
    ensures IsAscii(Canonical(i.amount))
    ensures |from| == 16 && Number(from) == i.from && |to| == 16 && Number(to) == i.to
    ensures PreImage(i) == Ascii("ledger-rs/transfer/v1\nfrom=") + from
                         + Ascii("\nto=") + to
                         + Ascii("\namount=") + Ascii(Canonical(i.amount))
                         + Ascii("\ndescription=") + i.description + [10]
  {
    CanonicalIsPlain(i.amount);
    from, to := UuidBytes(i.from), UuidBytes(i.to);
    UuidReads(i.from);
    UuidReads(i.to);
    assert HEADER + FROM_TAG == Ascii("ledger-rs/transfer/v1\nfrom=");
    assert END_TAG == [10];
  }

  // ----- the hasher -----

  /** A SHA-256 hasher, by what has been fed to it so far. */
  class Hasher {
    var input: seq<Byte>

    constructor ()
      ensures input == []
    {
      input := [];
    }

    method Update(bytes: seq<Byte>)
      modifies this
      ensures input == old(input) + bytes
    {
      input := input + bytes;
    }

    method Finalize(sha256: seq<Byte> -> seq<Byte>) returns (digest: seq<Byte>)
      ensures digest == sha256(input)
    {
      digest := sha256(input);
    }
  }

  /** The ten updates, in order. */
  method FeedAll(hasher: Hasher, h: seq<Byte>, f: seq<Byte>, from: seq<Byte>, t: seq<Byte>, to: seq<Byte>,
                 m: seq<Byte>, amount: seq<Byte>, d: seq<Byte>, text: seq<Byte>, e: seq<Byte>)
    modifies hasher
    ensures hasher.input == old(hasher.input) + Join(h, f, from, t, to, m, amount, d, text, e)
  {
    hasher.Update(h);
    hasher.Update(f);
    hasher.Update(from);
    hasher.Update(t);
    hasher.Update(to);
    hasher.Update(m);
    hasher.Update(amount);
    hasher.Update(d);
    hasher.Update(text);
    hasher.Update(e);
  }

  /** `request_hash`, for any hash function. */
  method RequestHash(i: Intent, sha256: seq<Byte> -> seq<Byte>) returns (digest: seq<Byte>)
    ensures digest == sha256(PreImage(i))
  {
    var hasher := new Hasher();
    FeedAll(hasher, HEADER, FROM_TAG, UuidBytes(i.from), TO_TAG, UuidBytes(i.to),
            AMOUNT_TAG, AmountBytes(i.amount), DESCRIPTION_TAG, i.description, END_TAG);
    assert [] + PreImage(i) == PreImage(i);
    digest := hasher.Finalize(sha256);
  }

  // ----- injectivity -----

  lemma SameFront<T>(a: seq<T>, x: seq<T>, b: seq<T>, y: seq<T>)
    requires a + x == b + y && |a| == |b|
    ensures a == b && x == y
  {
    assert a == (a + x)[..|a|] && b == (b + y)[..|b|];
    assert x == (a + x)[|a|..] && y == (b + y)[|b|..];
  }

  function FirstNewline(s: seq<Byte>): nat {
    if s == [] || s[0] == NEWLINE then 0 else 1 + FirstNewline(s[1..])
  }

  lemma {:induction false} NewlineEndsLine(a: seq<Byte>, x: seq<Byte>)
    requires NEWLINE !in a && x != [] && x[0] == NEWLINE
    ensures FirstNewline(a + x) == |a|
  {
    if a == [] {
      assert a + x == x;
    } else {
      assert (a + x)[1..] == a[1..] + x && (a + x)[0] == a[0];
      NewlineEndsLine(a[1..], x);
    }
  }

  /** The fields of a joined text can be told apart: the ids by their width, the amount by
      the newline that ends it, and the description by what is left. */
  lemma JoinIsInjective(h: seq<Byte>, f: seq<Byte>, t: seq<Byte>, m: seq<Byte>, d: seq<Byte>, e: seq<Byte>,
                        u: seq<Byte>, v: seq<Byte>, a: seq<Byte>, x: seq<Byte>,
                        u': seq<Byte>, v': seq<Byte>, a': seq<Byte>, x': seq<Byte>)
    requires |u| == |u'| && |v| == |v'| && NEWLINE !in a && NEWLINE !in a' && d != [] && d[0] == NEWLINE
    requires Join(h, f, u, t, v, m, a, d, x, e) == Join(h, f, u', t, v', m, a', d, x', e)
    ensures u == u' && v == v' && a == a' && x == x'
  {
    var fixed, fixed' := h + f + u + t + v + m, h + f + u' + t + v' + m;
    var rest, rest' := a + (d + (x + e)), a' + (d + (x' + e));
    assert Join(h, f, u, t, v, m, a, d, x, e) == fixed + rest;
    assert Join(h, f, u', t, v', m, a', d, x', e) == fixed' + rest';
    SameFront(fixed, rest, fixed', rest');
    SameIds(h, f, t, m, u, v, u', v');
    NewlineEndsLine(a, d + (x + e));
    NewlineEndsLine(a', d + (x' + e));
    SameFront(a, d + (x + e), a', d + (x' + e));
    SameFront(d, x + e, d, x' + e);
    assert |x + e| == |x' + e|;
    SameFront(x, e, x', e);
  }

  lemma SameIds(h: seq<Byte>, f: seq<Byte>, t: seq<Byte>, m: seq<Byte>,
                u: seq<Byte>, v: seq<Byte>, u': seq<Byte>, v': seq<Byte>)
    requires |u| == |u'| && |v| == |v'|
    requires h + f + u + t + v + m == h + f + u' + t + v' + m
    ensures u == u' && v == v'
  {
    SameFront(h + f + u + t + v, m, h + f + u' + t + v', m);
    SameFront(h + f + u + t, v, h + f + u' + t, v');
    SameFront(h + f + u, t, h + f + u', t);
    SameFront(h + f, u, h + f, u');
  }

  lemma AmountIsOneLine(m: Money)
    ensures NEWLINE !in AmountBytes(m)
  {
    var text := Canonical(m);
    CanonicalIsPlain(m);
    forall k | 0 <= k < |text| ensures AmountBytes(m)[k] != NEWLINE {
      assert text[k] in text;
    }
  }

  /** Two requests hash the same bytes exactly when they name the same accounts, the same
      value and currency, and the same description, even if descriptions contain newlines
      or field tags. */
  lemma PreImageIdentifiesTerms(i: Intent, j: Intent)
    ensures PreImage(i) == PreImage(j) <==> TermsOf(i) == TermsOf(j)
  {
    CanonicalIdentifiesAmounts(i.amount, j.amount);
    if PreImage(i) == PreImage(j) {
      AmountIsOneLine(i.amount);
      AmountIsOneLine(j.amount);
      assert DESCRIPTION_TAG[0] == NEWLINE;
      JoinIsInjective(HEADER, FROM_TAG, TO_TAG, AMOUNT_TAG, DESCRIPTION_TAG, END_TAG,
                      UuidBytes(i.from), UuidBytes(i.to), AmountBytes(i.amount), i.description,
                      UuidBytes(j.from), UuidBytes(j.to), AmountBytes(j.amount), j.description);
      UuidBytesAreInjective(i.from, j.from);
      UuidBytesAreInjective(i.to, j.to);
      CanonicalIsPlain(i.amount);
      CanonicalIsPlain(j.amount);
      AsciiIsInjective(Canonical(i.amount), Canonical(j.amount));
    }
  }

  /** The call the service makes of an intent. */
  function CallOf(key: string, i: Intent, sha256: seq<Byte> -> seq<Byte>): Call {
    Call(key, TermsOf(i), sha256(PreImage(i)))
  }

  /** Unless the hash collides on these two pre-images, digests agree exactly when terms do. */
  lemma DigestIdentifiesTerms(i: Intent, j: Intent, sha256: seq<Byte> -> seq<Byte>)
    requires sha256(PreImage(i)) == sha256(PreImage(j)) ==> PreImage(i) == PreImage(j)
    ensures sha256(PreImage(i)) == sha256(PreImage(j)) <==> TermsOf(i) == TermsOf(j)
  {
    PreImageIdentifiesTerms(i, j);
  }
}
