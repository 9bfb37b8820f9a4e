/**
 * The parts of Java's string library that the service relies on:
 * String.equalsIgnoreCase, Collectors.joining, and the "%.2f" conversion
 * of a BigDecimal by java.util.Formatter.
 */
module JavaText {

  // ---------------------------------------------------------------------
  // String.equalsIgnoreCase
  // ---------------------------------------------------------------------

  /** Character.toUpperCase, for the ASCII letters. */
  function ToUpper(c: char): char
  {
    if 'a' <= c <= 'z' then (c as int - 32) as char else c
  }

  /** Character.toLowerCase, for the ASCII letters. */
  function ToLower(c: char): char
  {
    if 'A' <= c <= 'Z' then (c as int + 32) as char else c
  }

  /** The per-character test of String.regionMatches with ignoreCase set:
      equal, or equal upper cases, or equal lower cases of the upper cases. */
  predicate CharsEqualIgnoreCase(a: char, b: char)
  {
    a == b || ToUpper(a) == ToUpper(b) || ToLower(ToUpper(a)) == ToLower(ToUpper(b))
  }

  /** String.equalsIgnoreCase: same length and every position matches ignoring case;
      this holds exactly when the two case folds are equal. */
  predicate EqualsIgnoreCase(s: string, t: string): (b: bool)
    ensures b <==> CaseFold(s) == CaseFold(t)
  {
    PositionsMatchIffSameFold(s, t);
    |s| == |t| && forall i :: 0 <= i < |s| ==> CharsEqualIgnoreCase(s[i], t[i])
  }

  /** The case-folded form of a string: every character lowered after raising. */
  function CaseFold(s: string): string
  {
    seq(|s|, i requires 0 <= i < |s| => ToLower(ToUpper(s[i])))
  }

  /** Two strings match position by position ignoring case exactly when their case
      folds agree. */
  lemma PositionsMatchIffSameFold(s: string, t: string)
    ensures (|s| == |t| && forall i :: 0 <= i < |s| ==> CharsEqualIgnoreCase(s[i], t[i]))
        <==> CaseFold(s) == CaseFold(t)
  {
    if CaseFold(s) == CaseFold(t) {
      assert |s| == |CaseFold(s)| == |CaseFold(t)| == |t|;
      forall i | 0 <= i < |s|
        ensures CharsEqualIgnoreCase(s[i], t[i])
      {
        assert CaseFold(s)[i] == CaseFold(t)[i];
      }
    }
  }

  /** equalsIgnoreCase is an equivalence relation, so case variants are interchangeable. */
  lemma EqualsIgnoreCaseIsEquivalence(a: string, b: string, c: string)
    ensures EqualsIgnoreCase(a, a)
    ensures EqualsIgnoreCase(a, b) ==> EqualsIgnoreCase(b, a)
    ensures EqualsIgnoreCase(a, b) && EqualsIgnoreCase(b, c) ==> EqualsIgnoreCase(a, c)
  {
  }

  // ---------------------------------------------------------------------
  // Collectors.joining
  // ---------------------------------------------------------------------

  /** Collectors.joining(sep): the parts in order, sep between neighbours; nothing
      for no parts, and the first part leads. */
  function Join(parts: seq<string>, sep: string): (r: string)
    ensures |parts| == 0 ==> r == ""
    ensures |parts| > 0 ==> parts[0] <= r
  {
    if |parts| == 0 then ""
    else if |parts| == 1 then parts[0]
    else parts[0] + sep + Join(parts[1..], sep)
  }

  /** Cuts a string at every occurrence of c; the inverse of joining with c. */
  function Split(s: string, c: char): (r: seq<string>)
    ensures |r| >= 1
    ensures forall i :: 0 <= i < |r| ==> c !in r[i]
  {
    if |s| == 0 then [""]
    else
      var rest := Split(s[1..], c);
      if s[0] == c then [""] + rest
      else [[s[0]] + rest[0]] + rest[1..]
  }

  lemma {:induction false} SplitWithoutSeparator(p: string, c: char)
    requires c !in p
    ensures Split(p, c) == [p]
  {
    if |p| > 0 {
      SplitWithoutSeparator(p[1..], c);
      assert [p[0]] + p[1..] == p;
    }
  }

  lemma {:induction false} SplitAfterPart(p: string, t: string, c: char)
    requires c !in p
    ensures Split(p + [c] + t, c) == [p] + Split(t, c)
  {
    if |p| == 0 {
      assert (p + [c] + t)[1..] == t;
    } else {
      SplitAfterPart(p[1..], t, c);
      assert (p + [c] + t)[1..] == p[1..] + [c] + t;
      assert [p[0]] + p[1..] == p;
    }
  }

  /** Joining parts free of c with c and splitting at c gives the parts back:
      one separator between neighbours and none before or after. */
  lemma {:induction false} SplitJoin(parts: seq<string>, c: char)
    requires |parts| >= 1
    requires forall i :: 0 <= i < |parts| ==> c !in parts[i]
    ensures Split(Join(parts, [c]), c) == parts
  {
    if |parts| == 1 {
      SplitWithoutSeparator(parts[0], c);
    } else {
      SplitJoin(parts[1..], c);
      SplitAfterPart(parts[0], Join(parts[1..], [c]), c);
      assert [parts[0]] + parts[1..] == parts;
    }
  }

  // ---------------------------------------------------------------------
  // "%.2f" of a BigDecimal
  // ---------------------------------------------------------------------

  predicate IsDigits(s: string)
  {
    forall i :: 0 <= i < |s| ==> '0' <= s[i] <= '9'
  }

  function DigitChar(d: nat): char
    requires d < 10
  {
    ('0' as int + d) as char
  }

  function DigitValue(c: char): nat
    requires '0' <= c <= '9'
  {
    c as int - '0' as int
  }

  /** Rounds a non-negative value to an integer, halves away from zero
      (RoundingMode.HALF_UP). */
  function RoundHalfUp(y: real): (n: nat)
    requires y >= 0.0
    ensures n as real - 0.5 <= y < n as real + 0.5
  {
    (y + 0.5).Floor
  }

  /** The decimal digits of n, without leading zeros. */
  function NatToDecimal(n: nat): (s: string)
    ensures |s| >= 1 && IsDigits(s)
    ensures n > 0 ==> s[0] != '0'
  {
    if n < 10 then [DigitChar(n)] else NatToDecimal(n / 10) + [DigitChar(n % 10)]
  }

  /** The number a string of decimal digits denotes. */
  function DecimalValue(s: string): nat
    requires IsDigits(s)
  {
    if |s| == 0 then 0 else DecimalValue(s[..|s| - 1]) * 10 + DigitValue(s[|s| - 1])
  }

  lemma {:induction false} DecimalRoundTrip(n: nat)
    ensures DecimalValue(NatToDecimal(n)) == n
  {
    if n >= 10 {
      DecimalRoundTrip(n / 10);
      var s := NatToDecimal(n);
      assert s[..|s| - 1] == NatToDecimal(n / 10);
    }
  }

  /** Two digits for a value below one hundred, leading zero kept. */
  function TwoDigits(n: nat): (s: string)
    requires n < 100
    ensures |s| == 2 && IsDigits(s)
  {
    [DigitChar(n / 10), DigitChar(n % 10)]
  }

  function Abs(x: real): real
  {
    if x < 0.0 then -x else x
  }

  /** A non-negative number of hundredths written as "<whole>.<two digits>". */
  function AmountText(cents: nat): (s: string)
    ensures '\n' !in s && ':' !in s && '-' !in s
  {
    NatToDecimal(cents / 100) + "." + TwoDigits(cents % 100)
  }

  /** The magnitude of x in hundredths, rounded half-up: within half a cent of |x|. */
  function Cents(x: real): (n: nat)
    ensures n as real - 0.5 <= Abs(x) * 100.0 < n as real + 0.5
  {
    RoundHalfUp(Abs(x) * 100.0)
  }

  /** Formatter's "%.2f" for a BigDecimal: the sign of the value, then its
      magnitude rounded half-up to hundredths, written with a '.' separator. */
  function Fmt2(x: real): (s: string)
    ensures '\n' !in s && ':' !in s
  {
    SignText(x < 0.0) + AmountText(Cents(x))
  }

  lemma TwoDigitsValue(n: nat)
    requires n < 100
    ensures DecimalValue(TwoDigits(n)) == n
  {
    var two := TwoDigits(n);
    assert two[..1][..0] == [];
    assert DecimalValue(two[..1]) == n / 10;
  }

  /** The amount text reads back as the number of hundredths it was written from:
      digits, a '.', two digits. */
  lemma AmountTextReadsBack(cents: nat)
    ensures var t := AmountText(cents);
      && |t| >= 4 && t[|t| - 3] == '.'
      && IsDigits(t[..|t| - 3]) && IsDigits(t[|t| - 2..])
      && DecimalValue(t[..|t| - 3]) * 100 + DecimalValue(t[|t| - 2..]) == cents
  {
    var whole, two := NatToDecimal(cents / 100), TwoDigits(cents % 100);
    var t := AmountText(cents);
    assert t[..|t| - 3] == whole;
    assert t[|t| - 2..] == two;
    DecimalRoundTrip(cents / 100);
    TwoDigitsValue(cents % 100);
  }

  /** The minus sign String.format writes before a negative amount. */
  function SignText(neg: bool): string
  {
    if neg then "-" else ""
  }

  /** A signed amount text reads back as its sign and its amount in hundredths. */
  lemma SignedAmountReadsBack(neg: bool, cents: nat)
    ensures var s := SignText(neg) + AmountText(cents);
      var body := if neg then s[1..] else s;
      && (neg <==> s[0] == '-')
      && |body| >= 4 && body[|body| - 3] == '.'
      && IsDigits(body[..|body| - 3]) && IsDigits(body[|body| - 2..])
      && DecimalValue(body[..|body| - 3]) * 100 + DecimalValue(body[|body| - 2..]) == cents
  {
    var t := AmountText(cents);
    var s := SignText(neg) + t;
    AmountTextReadsBack(cents);
    var body := if neg then s[1..] else s;
    assert body == t by {
      if neg {
        assert s[1..] == t;
      }
    }
    assert neg <==> s[0] == '-' by {
      if !neg {
        assert t[0] in t;
      }
    }
  }

  /** Reading the rendered text back gives the sign of x and its magnitude in
      hundredths rounded half-up, which is within half a cent of |x|. */
  lemma Fmt2ReadsBack(x: real)
    ensures var s := Fmt2(x);
      var body := if x < 0.0 then s[1..] else s;
      && (x < 0.0 <==> s[0] == '-')
      && |body| >= 4 && body[|body| - 3] == '.'
      && IsDigits(body[..|body| - 3]) && IsDigits(body[|body| - 2..])
      && DecimalValue(body[..|body| - 3]) * 100 + DecimalValue(body[|body| - 2..]) == Cents(x)
  {
    SignedAmountReadsBack(x < 0.0, Cents(x));
  }
}
