/** Display of an amount in cents as `$` followed by `(amount / 100).toFixed(2)`.
    For a whole number of cents the quotient has an exact two-decimal
    expansion, so `toFixed(2)` rounds nothing and the text is the integer
    division and remainder written out. `ParsePrice` reads such a text back;
    the two are inverse bijections between amounts and canonical price texts. */
module Money {
  import opened Js

  predicate IsDigit(c: char) {
    '0' <= c <= '9'
  }

  function DigitChar(d: nat): (c: char)
    requires d < 10
    ensures IsDigit(c)
  {
    ('0' as int + d) as char
  }

  function DigitValue(c: char): (d: nat)
    requires IsDigit(c)
    ensures d < 10
  {
    c as int - '0' as int
  }

  predicate AllDigits(s: string) {
    forall i :: 0 <= i < |s| ==> IsDigit(s[i])
  }

  /** A digit string as JavaScript prints a non-negative integer: at least
      one digit and no leading zero unless the number is zero itself. */
  predicate IsCanonicalDecimal(s: string) {
    |s| >= 1 && AllDigits(s) && (s[0] != '0' || |s| == 1)
  }

  /** Decimal text of `n`. */
  function Decimal(n: nat): (r: string)
    ensures IsCanonicalDecimal(r)
    ensures r == "0" <==> n == 0
    decreases n
  {
    if n < 10 then [DigitChar(n)] else Decimal(n / 10) + [DigitChar(n % 10)]
  }

  /** Value of a digit string, most significant digit first. */
  function DecimalValue(s: string): nat
    requires AllDigits(s)
    decreases |s|
  {
    if |s| == 0 then 0 else DecimalValue(s[..|s| - 1]) * 10 + DigitValue(s[|s| - 1])
  }

  lemma {:induction false} DecimalValueOfDecimal(n: nat)
    ensures DecimalValue(Decimal(n)) == n
    decreases n
  {
    if n >= 10 {
      var p := Decimal(n / 10);
      var s := p + [DigitChar(n % 10)];
      assert s[..|s| - 1] == p;
      DecimalValueOfDecimal(n / 10);
    }
  }

  /** A canonical digit string other than "0" has a non-zero value. */
  lemma {:induction false} CanonicalValuePositive(s: string)
    requires AllDigits(s) && |s| >= 1 && s[0] != '0'
    ensures DecimalValue(s) >= 1
    decreases |s|
  {
    if |s| > 1 {
      var p := s[..|s| - 1];
      assert p[0] == s[0];
      CanonicalValuePositive(p);
    }
  }

  lemma {:induction false} DecimalOfDecimalValue(s: string)
    requires IsCanonicalDecimal(s)
    ensures Decimal(DecimalValue(s)) == s
    decreases |s|
  {
    if |s| > 1 {
      var p := s[..|s| - 1];
      assert p[0] == s[0];
      CanonicalValuePositive(p);
      DecimalOfDecimalValue(p);
      var v := DecimalValue(s);
      assert v / 10 == DecimalValue(p) && v % 10 == DigitValue(s[|s| - 1]);
      assert DigitChar(DigitValue(s[|s| - 1])) == s[|s| - 1];
      assert s == p + [s[|s| - 1]];
    }
  }

  /** A price text: `$`, a canonical integer part, `.`, exactly two digits. */
  predicate IsPriceText(s: string) {
    && |s| >= 5
    && s[0] == '$'
    && IsCanonicalDecimal(s[1..|s| - 3])
    && s[|s| - 3] == '.'
    && IsDigit(s[|s| - 2]) && IsDigit(s[|s| - 1])
  }

  /** `$${(cents / 100).toFixed(2)}`. */
  function FormatCents(cents: nat): (r: string)
    ensures IsPriceText(r)
  {
    var r := "$" + Decimal(cents / 100) + "." + [DigitChar(cents % 100 / 10), DigitChar(cents % 10)];
    assert r[1..|r| - 3] == Decimal(cents / 100);
    r
  }

  /** The amount in cents a price text denotes. */
  function ParsePrice(s: string): Option<nat> {
    if IsPriceText(s) then
      Some(DecimalValue(s[1..|s| - 3]) * 100 + DigitValue(s[|s| - 2]) * 10 + DigitValue(s[|s| - 1]))
    else
      None
  }

  /** Reading a displayed price back gives the amount displayed. */
  lemma FormatThenParse(cents: nat)
    ensures ParsePrice(FormatCents(cents)) == Some(cents)
  {
    var r := FormatCents(cents);
    assert r[1..|r| - 3] == Decimal(cents / 100);
    DecimalValueOfDecimal(cents / 100);
  }

  /** Every price text is the display of the amount it denotes. */
  lemma ParseThenFormat(s: string)
    requires IsPriceText(s)
    ensures ParsePrice(s).Some? && FormatCents(ParsePrice(s).value) == s
  {
    var ip := s[1..|s| - 3];
    var d1, d2 := DigitValue(s[|s| - 2]), DigitValue(s[|s| - 1]);
    var c := DecimalValue(ip) * 100 + d1 * 10 + d2;
    assert ParsePrice(s) == Some(c);
    calc {
      FormatCents(c);
    == { FormatOfParts(DecimalValue(ip), d1, d2); }
      "$" + Decimal(DecimalValue(ip)) + "." + [DigitChar(d1), DigitChar(d2)];
    == { DecimalOfDecimalValue(ip); }
      "$" + ip + "." + [DigitChar(d1), DigitChar(d2)];
    == { PriceTextParts(s); }
      s;
    }
  }

  /** The display of an amount given as whole units and two digits. */
  lemma FormatOfParts(q: nat, d1: nat, d2: nat)
    requires d1 < 10 && d2 < 10
    ensures FormatCents(q * 100 + d1 * 10 + d2) == "$" + Decimal(q) + "." + [DigitChar(d1), DigitChar(d2)]
  {
    SplitCents(q, d1, d2);
  }

  /** A price text reassembled from its parts. */
  lemma PriceTextParts(s: string)
    requires IsPriceText(s)
    ensures s == "$" + s[1..|s| - 3] + "." + [DigitChar(DigitValue(s[|s| - 2])), DigitChar(DigitValue(s[|s| - 1]))]
  {
  }

  /** Whole units and two digits are recovered from the cents they make up. */
  lemma SplitCents(q: nat, d1: nat, d2: nat)
    requires d1 < 10 && d2 < 10
    ensures (q * 100 + d1 * 10 + d2) / 100 == q
    ensures (q * 100 + d1 * 10 + d2) % 100 / 10 == d1
    ensures (q * 100 + d1 * 10 + d2) % 10 == d2
  {
    var c := q * 100 + d1 * 10 + d2;
    assert c % 100 == d1 * 10 + d2;
    assert c == (q * 10 + d1) * 10 + d2;
  }

  /** Distinct amounts are displayed differently. */
  lemma FormatInjective(a: nat, b: nat)
    ensures FormatCents(a) == FormatCents(b) ==> a == b
  {
    FormatThenParse(a);
    FormatThenParse(b);
  }

  lemma FormatExamples()
    ensures FormatCents(399) == "$3.99"
    ensures FormatCents(5) == "$0.05"
    ensures FormatCents(1000) == "$10.00"
    ensures FormatCents(0) == "$0.00"
  {
  }
}
