/** The JavaScript string operations the lifecycle runner relies on. */
module Text {

  /**
   * The one key a plain JavaScript object does not store a string under:
   * `obj.__proto__ = v` calls the setter `Object.prototype` defines, which
   * ignores a value that is not an object.
   */
  const ProtoKey := "__proto__"

  /** `s.indexOf(p) === 0` */
  predicate StartsWith(s: string, p: string) {
    |p| <= |s| && s[..|p|] == p
  }

  /** `s.includes(t)`, or `s.match(/t/)` for a pattern without special characters */
  predicate Contains(s: string, t: string)
    decreases |s|
  {
    StartsWith(s, t) || (s != [] && Contains(s[1..], t))
  }

  predicate IsDigit(c: char) {
    '0' <= c <= '9'
  }

  predicate AllDigits(s: string) {
    forall i :: 0 <= i < |s| ==> IsDigit(s[i])
  }

  function DigitChar(d: nat): (c: char)
    requires d < 10
    ensures IsDigit(c) && c as int - '0' as int == d
  {
    ('0' as int + d) as char
  }

  /** The decimal text `${n}` gives for a non-negative integer. */
  function NatToDecimal(n: nat): (r: string)
    ensures |r| >= 1 && AllDigits(r)
    ensures (|r| == 1) == (n < 10)
    ensures r[0] == '0' ==> n == 0
    decreases n
  {
    if n < 10 then [DigitChar(n)] else NatToDecimal(n / 10) + [DigitChar(n % 10)]
  }

  /** Reads a string of decimal digits back as a number. */
  function DecimalValue(s: string): nat
    requires AllDigits(s)
    decreases |s|
  {
    if s == [] then 0
    else DecimalValue(s[..|s| - 1]) * 10 + (s[|s| - 1] as int - '0' as int)
  }

  /** The decimal rendering is read back as the number it renders. */
  lemma {:induction false} DecimalRoundTrip(n: nat)
    ensures DecimalValue(NatToDecimal(n)) == n
  {
    if n >= 10 {
      var a := NatToDecimal(n / 10);
      var r := a + [DigitChar(n % 10)];
      assert r[..|r| - 1] == a;
      DecimalRoundTrip(n / 10);
    }
  }

  /** The text `${i}` gives for an integer (no floating point). */
  function IntToDecimal(i: int): (r: string)
    ensures |r| >= 1
    ensures (r[0] == '-') == (i < 0)
    ensures i >= 0 ==> AllDigits(r) && DecimalValue(r) == i
    ensures i < 0 ==> AllDigits(r[1..]) && DecimalValue(r[1..]) == -i
    ensures i >= 0 && r[0] == '0' ==> i == 0
    ensures i < 0 ==> |r| >= 2 && r[1] != '0'
  {
    if i < 0 then
      DecimalRoundTrip(-i);
      var d := NatToDecimal(-i);
      assert ("-" + d)[1..] == d;
      "-" + d
    else
      DecimalRoundTrip(i);
      NatToDecimal(i)
  }

  /** Decimal digits without a leading zero, unless the number is zero itself. */
  predicate Canonical(s: string) {
    |s| >= 1 && AllDigits(s) && (s[0] == '0' ==> |s| == 1)
  }

  /** Digits that start with a non-zero digit stand for a positive number. */
  lemma {:induction false} LeadingDigitPositive(s: string)
    requires s != [] && AllDigits(s) && s[0] != '0'
    ensures DecimalValue(s) > 0
  {
    if |s| > 1 {
      LeadingDigitPositive(s[..|s| - 1]);
    }
  }

  /** The rendering is the only canonical text of a number: `NatToDecimal` is what `${n}` gives. */
  lemma {:induction false} CanonicalIsRendering(s: string, n: nat)
    requires Canonical(s) && DecimalValue(s) == n
    ensures s == NatToDecimal(n)
  {
    var t := s[..|s| - 1];
    var d := s[|s| - 1] as int - '0' as int;
    if |s| == 1 {
      assert t == [];
      assert s == [DigitChar(n)];
    } else {
      LeadingDigitPositive(t);
      assert DecimalValue(t) == n / 10 && d == n % 10;
      CanonicalIsRendering(t, n / 10);
      assert s == t + [DigitChar(n % 10)];
    }
  }

  /** `parts.join(sep)` */
  function Join(parts: seq<string>, sep: string): string
    decreases |parts|
  {
    if parts == [] then ""
    else if |parts| == 1 then parts[0]
    else parts[0] + sep + Join(parts[1..], sep)
  }
}
