/** The string operations the member list and its titles rely on: ASCII case
    mapping (standing in for `toUpperCase` / `toLowerCase`), the lexicographic
    order of JavaScript's `<` and `>` on strings, `startsWith`, and the decimal
    rendering of a count inside a template literal. */
module Text {

  /** `toLowerCase` on one character, for the ASCII letters. */
  function LowerChar(c: char): char {
    if 'A' <= c <= 'Z' then (c as int + 32) as char else c
  }

  /** `toUpperCase` on one character, for the ASCII letters. */
  function UpperChar(c: char): char {
    if 'a' <= c <= 'z' then (c as int - 32) as char else c
  }

  function Lower(s: string): (r: string)
    ensures |r| == |s|
    ensures forall i :: 0 <= i < |s| ==> r[i] == LowerChar(s[i])
  {
    seq(|s|, i requires 0 <= i < |s| => LowerChar(s[i]))
  }

  function Upper(s: string): (r: string)
    ensures |r| == |s|
    ensures forall i :: 0 <= i < |s| ==> r[i] == UpperChar(s[i])
  {
    seq(|s|, i requires 0 <= i < |s| => UpperChar(s[i]))
  }

  /** Lower-casing an upper-cased string gives the lower-cased original. */
  lemma LowerOfUpper(s: string)
    ensures Lower(Upper(s)) == Lower(s)
  {
    forall i | 0 <= i < |s| ensures Lower(Upper(s))[i] == Lower(s)[i] {
      assert LowerChar(UpperChar(s[i])) == LowerChar(s[i]);
    }
  }

  lemma LowerConcat(a: string, b: string)
    ensures Lower(a + b) == Lower(a) + Lower(b)
  {
  }

  predicate StartsWith(s: string, prefix: string) {
    |prefix| <= |s| && s[..|prefix|] == prefix
  }

  /** `a < b` on JavaScript strings: a proper prefix, or smaller at the first difference. */
  predicate LexLess(a: string, b: string) {
    if |b| == 0 then false
    else if |a| == 0 then true
    else if a[0] != b[0] then a[0] < b[0]
    else LexLess(a[1..], b[1..])
  }

  predicate LexLessEq(a: string, b: string) {
    a == b || LexLess(a, b)
  }

  /** Any two distinct strings are ordered one way or the other. */
  lemma {:induction false} LexTotal(a: string, b: string)
    ensures a == b || LexLess(a, b) || LexLess(b, a)
  {
    if |a| > 0 && |b| > 0 && a[0] == b[0] {
      LexTotal(a[1..], b[1..]);
      if a[1..] == b[1..] {
        assert a == [a[0]] + a[1..] && b == [b[0]] + b[1..];
      }
    }
  }

  /** The order is strict: never both ways, and never a string before itself. */
  lemma {:induction false} LexAsymmetric(a: string, b: string)
    ensures !(LexLess(a, b) && LexLess(b, a))
    ensures !LexLess(a, a)
  {
    if |a| > 0 && |b| > 0 && a[0] == b[0] {
      LexAsymmetric(a[1..], b[1..]);
    }
    if |a| > 0 {
      LexAsymmetric(a[1..], a[1..]);
    }
  }

  function DigitChar(d: nat): char
    requires d < 10
  {
    ('0' as int + d) as char
  }

  predicate IsDigits(s: string) {
    forall i :: 0 <= i < |s| ==> '0' <= s[i] <= '9'
  }

  /** `${n}` for a non-negative integer: its decimal digits, most significant first, no leading zero. */
  function Decimal(n: nat): (r: string)
    ensures 1 <= |r|
    ensures IsDigits(r)
    ensures |r| > 1 ==> r[0] != '0'
    decreases n
  {
    if n < 10 then [DigitChar(n)] else Decimal(n / 10) + [DigitChar(n % 10)]
  }

  /** The number a string of decimal digits spells. */
  function DecimalValue(s: string): nat
    requires IsDigits(s)
  {
    if |s| == 0 then 0
    else DecimalValue(s[..|s| - 1]) * 10 + (s[|s| - 1] as int - '0' as int)
  }

  /** Reading back the digits of a count gives the count: the suffix of a
      title determines the number it was built from. */
  lemma {:induction false} DecimalRoundTrip(n: nat)
    ensures DecimalValue(Decimal(n)) == n
    decreases n
  {
    var s := Decimal(n);
    if n >= 10 {
      DecimalRoundTrip(n / 10);
      assert s[..|s| - 1] == Decimal(n / 10);
    }
  }
}
