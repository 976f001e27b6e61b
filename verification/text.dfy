/** Small helpers over strings shared by the upload model: an optional value,
    the JavaScript whitespace class, prefixes, first occurrence of a
    character, and the decimal rendering of a natural number. */
module Optional {

  /** A value that may be absent (`null` in the pages). */
  datatype Option<+T> = None | Some(value: T)
}

module Text {
  import opened Optional

  /** The characters matched by the regular-expression class `\s` of
      ECMAScript: WhiteSpace (TAB, VT, FF, ZWNBSP and every Zs space
      separator of Unicode 15) and LineTerminator (LF, CR, LS, PS). */
  predicate IsWhitespace(c: char) {
    || c == '\t' || c == '\n' || c == '\U{000B}' || c == '\U{000C}' || c == '\r'
    || c == ' ' || c == '\U{00A0}' || c == '\U{1680}'
    || ('\U{2000}' <= c <= '\U{200A}')
    || c == '\U{2028}' || c == '\U{2029}' || c == '\U{202F}' || c == '\U{205F}'
    || c == '\U{3000}' || c == '\U{FEFF}'
  }

  predicate HasNoWhitespace(s: string) {
    forall i :: 0 <= i < |s| ==> !IsWhitespace(s[i])
  }

  /** `String.prototype.startsWith`. */
  predicate StartsWith(s: string, prefix: string) {
    |prefix| <= |s| && s[..|prefix|] == prefix
  }

  /** The index of the first occurrence of `c` in `s`, if any. */
  function IndexOf(s: string, c: char): (r: Option<nat>)
    ensures r.Some? ==> r.value < |s| && s[r.value] == c
    ensures r.Some? ==> forall k :: 0 <= k < r.value ==> s[k] != c
    ensures r.None? <==> c !in s
  {
    if |s| == 0 then None
    else if s[0] == c then Some(0)
    else match IndexOf(s[1..], c)
      case None => None
      case Some(i) => Some(i + 1)
  }

  /** The first occurrence of `c` in `a + [c] + b` is right after `a` when
      `a` does not contain `c`. */
  lemma IndexOfAfter(a: string, c: char, b: string)
    requires c !in a
    ensures IndexOf(a + [c] + b, c) == Some(|a|)
  {
    var s := a + [c] + b;
    assert s[|a|] == c;
    assert s[..|a|] == a;
  }

  /** A prefix ending in `c`, whose other characters are not `c`, is
      recognised exactly by the position and contents before the first `c`. */
  lemma StartsWithUpTo(s: string, t: string, c: char)
    requires c !in t
    ensures StartsWith(s, t + [c]) <==> (IndexOf(s, c) == Some(|t|) && s[..|t|] == t)
  {
    if StartsWith(s, t + [c]) {
      assert s == t + [c] + s[|t| + 1..] by {
        assert s[..|t| + 1] == t + [c];
      }
      IndexOfAfter(t, c, s[|t| + 1..]);
      assert s[..|t|] == (t + [c])[..|t|];
    }
    if IndexOf(s, c) == Some(|t|) && s[..|t|] == t {
      assert s[..|t| + 1] == s[..|t|] + [s[|t|]];
    }
  }

  predicate IsDigit(c: char) {
    '0' <= c <= '9'
  }

  predicate AllDigits(s: string) {
    forall i :: 0 <= i < |s| ==> IsDigit(s[i])
  }

  function DigitChar(d: nat): (c: char)
    requires d < 10
    ensures IsDigit(c)
  {
    (48 + d) as char
  }

  function DigitValue(c: char): (d: nat)
    requires IsDigit(c)
    ensures d < 10
  {
    (c as int) - 48
  }

  /** Decimal text as JavaScript writes it: at least one digit, and no
      leading zero unless the text is `0` itself. */
  predicate CanonicalDecimal(s: string) {
    0 < |s| && AllDigits(s) && (s[0] != '0' || |s| == 1)
  }

  /** The decimal text of `n` as JavaScript renders an integral number
      below 10^21 in a template literal: no sign, no leading zero. */
  function Decimal(n: nat): (r: string)
    ensures 1 <= |r|
    ensures AllDigits(r)
    ensures r[0] == '0' <==> n == 0
    ensures n == 0 ==> r == "0"
    ensures CanonicalDecimal(r)
    decreases n
  {
    if n < 10 then [DigitChar(n)] else Decimal(n / 10) + [DigitChar(n % 10)]
  }

  /** The number a string of decimal digits denotes. */
  function DecimalValue(s: string): nat
    requires AllDigits(s)
  {
    if |s| == 0 then 0 else DecimalValue(s[..|s| - 1]) * 10 + DigitValue(s[|s| - 1])
  }

  /** Reading the decimal text back gives the number that was rendered. */
  lemma {:induction false} DecimalRoundTrip(n: nat)
    ensures DecimalValue(Decimal(n)) == n
    decreases n
  {
    var r := Decimal(n);
    if n < 10 {
      assert r[..|r| - 1] == [];
    } else {
      DecimalRoundTrip(n / 10);
      assert r[..|r| - 1] == Decimal(n / 10);
    }
  }

  /** A digit text without a leading zero denotes a positive number. */
  lemma {:induction false} LeadingNonZeroPositive(s: string)
    requires 0 < |s| && AllDigits(s) && s[0] != '0'
    ensures DecimalValue(s) >= 1
    decreases |s|
  {
    if |s| > 1 {
      var init := s[..|s| - 1];
      assert init[0] == s[0];
      LeadingNonZeroPositive(init);
    }
  }

  /** The converse round trip: every canonical decimal text is the
      rendering of the number it denotes, so `Decimal` produces each
      canonical text and nothing else. */
  lemma {:induction false} CanonicalDecimalRoundTrip(s: string)
    requires CanonicalDecimal(s)
    ensures Decimal(DecimalValue(s)) == s
    decreases |s|
  {
    var last := s[|s| - 1];
    var d := DigitValue(last);
    assert DigitChar(d) == last;
    if |s| == 1 {
      assert s[..0] == [];
      assert s == [last];
    } else {
      var init := s[..|s| - 1];
      assert init[0] == s[0];
      LeadingNonZeroPositive(init);
      CanonicalDecimalRoundTrip(init);
      var v := DecimalValue(s);
      assert v == DecimalValue(init) * 10 + d;
      assert v / 10 == DecimalValue(init) && v % 10 == d;
      assert s == init + [last];
    }
  }

  /** Distinct numbers have distinct decimal texts. */
  lemma DecimalInjective(m: nat, n: nat)
    requires Decimal(m) == Decimal(n)
    ensures m == n
  {
    DecimalRoundTrip(m);
    DecimalRoundTrip(n);
  }
}
