/** The few JavaScript built-ins the application's logic rests on, stated exactly
    for the integer and string values the model uses. */
module JsSemantics {

  datatype Option<T> = None | Some(value: T)

  // ---------------------------------------------------------------------------
  // Numbers

  /** `Math.round(n / d)` for a positive divisor, computed exactly: the integer
      nearest to n/d, a tie going to the larger one (JavaScript rounds .5 up). */
  function RoundDiv(n: int, d: int): (r: int)
    requires d > 0
    ensures (2 * d) * r - d <= 2 * n < (2 * d) * r + d
  {
    var b := 2 * d;
    var q := (2 * n + d) / b;
    assert b * q + (2 * n + d) % b == 2 * n + d;
    q
  }

  /** `Math.max` and `Math.min` on integers. */
  function Max(a: int, b: int): (r: int)
    ensures r >= a && r >= b && (r == a || r == b)
  {
    if a >= b then a else b
  }

  function Min(a: int, b: int): (r: int)
    ensures r <= a && r <= b && (r == a || r == b)
  {
    if a <= b then a else b
  }

  /** JavaScript `%` by a positive divisor: the remainder of truncating division,
      which agrees with Dafny's Euclidean `%` on a non-negative dividend and
      carries the sign of a negative one. */
  function JsRem(a: int, b: int): (r: int)
    requires b > 0
    ensures a >= 0 ==> r == a % b
    ensures a < 0 ==> -b < r <= 0
  {
    if a >= 0 then a % b else -((-a) % b)
  }

  lemma MulMonotone(a: int, b: int, c: int)
    requires a > 0 && b <= c
    ensures a * b <= a * c
  {
  }

  /** The rounded percentage of c out of n is between 0 and 100. */
  lemma PercentInRange(c: int, n: int, p: int)
    requires 0 <= c <= n && n > 0 && (2 * n) * p - n <= 2 * (100 * c) < (2 * n) * p + n
    ensures 0 <= p <= 100
  {
    if p > 100 { MulMonotone(2 * n, 101, p); }
    if p < 0 { MulMonotone(2 * n, p, -1); }
  }

  /** It is 100 exactly when c/n is at least 99.5%, and 0 exactly when c/n is
      below 0.5%. */
  lemma PercentEnds(c: int, n: int, p: int)
    requires 0 <= c <= n && n > 0 && (2 * n) * p - n <= 2 * (100 * c) < (2 * n) * p + n
    ensures p == 100 <==> 200 * c >= 199 * n
    ensures p == 0 <==> 200 * c < n
  {
    PercentInRange(c, n, p);
    if p <= 99 { MulMonotone(2 * n, p, 99); }
    if p >= 1 { MulMonotone(2 * n, 1, p); }
  }

  /** `Math.round(c / n * 100)` for c out of n, taken exactly. */
  lemma RoundedPercent(c: int, n: int)
    requires 0 <= c <= n && n > 0
    ensures var p := RoundDiv(100 * c, n);
      0 <= p <= 100 && (p == 100 <==> 200 * c >= 199 * n) && (p == 0 <==> 200 * c < n)
  {
    var p := RoundDiv(100 * c, n);
    PercentInRange(c, n, p);
    PercentEnds(c, n, p);
  }

  // ---------------------------------------------------------------------------
  // Number#toString and String#padStart on integers

  function DigitChar(d: int): (c: char)
    requires 0 <= d < 10
    ensures '0' <= c <= '9' && c as int - '0' as int == d
  {
    ('0' as int + d) as char
  }

  predicate IsDigit(c: char) { '0' <= c <= '9' }

  predicate AllDigits(s: string) { forall i :: 0 <= i < |s| ==> IsDigit(s[i]) }

  /** The value of a string of decimal digits. */
  function DecimalValue(s: string): nat
    requires AllDigits(s)
  {
    if s == [] then 0
    else DecimalValue(s[..|s| - 1]) * 10 + (s[|s| - 1] as int - '0' as int)
  }

  /** `n.toString()` for a non-negative integer: decimal, no leading zeros. */
  function NatToString(n: nat): (s: string)
    ensures |s| >= 1 && AllDigits(s)
    ensures |s| > 1 ==> s[0] != '0'
    ensures n < 10 <==> |s| == 1
    decreases n
  {
    if n < 10 then [DigitChar(n)] else NatToString(n / 10) + [DigitChar(n % 10)]
  }

  /** Reading the digits back gives the number that was written. */
  lemma {:induction false} NatToStringRoundTrip(n: nat)
    ensures DecimalValue(NatToString(n)) == n
    decreases n
  {
    var s := NatToString(n);
    if n < 10 {
      assert s[..0] == [];
    } else {
      NatToStringRoundTrip(n / 10);
      assert s[..|s| - 1] == NatToString(n / 10);
    }
  }

  /** `i.toString()` for any integer: a minus sign before the magnitude. */
  function IntToString(i: int): (s: string)
    ensures i >= 0 ==> s == NatToString(i)
    ensures i < 0 ==> s == "-" + NatToString(-i)
  {
    if i < 0 then "-" + NatToString(-i) else NatToString(i)
  }

  /** `s.padStart(2, '0')`. */
  function PadStart2(s: string): (r: string)
    ensures |s| >= 2 ==> r == s
    ensures |s| < 2 ==> |r| == 2 && r[2 - |s|..] == s
  {
    if |s| >= 2 then s else if |s| == 1 then "0" + s else "00"
  }

  /** `n.toString().padStart(2, '0')`. */
  function TwoDigits(n: int): (r: string)
    ensures n >= 0 ==> |r| >= 2 && AllDigits(r)
    ensures 0 <= n < 10 ==> r == ['0', DigitChar(n)]
  {
    PadStart2(IntToString(n))
  }

  /** For 0..99 the padded form is exactly two digits holding the number. */
  lemma TwoDigitsRoundTrip(n: int)
    requires 0 <= n < 100
    ensures |TwoDigits(n)| == 2 && AllDigits(TwoDigits(n))
    ensures DecimalValue(TwoDigits(n)) == n
  {
    var s := NatToString(n);
    NatToStringRoundTrip(n);
    if n < 10 {
      var t := TwoDigits(n);
      assert t == "0" + s;
      assert t[..1] == "0";
      assert DecimalValue(t[..1]) == 0 by { assert t[..1][..0] == []; }
    } else {
      assert NatToString(n / 10) == [DigitChar(n / 10)];
    }
  }

  // ---------------------------------------------------------------------------
  // String#trim

  /** The code points String#trim removes: WhiteSpace and LineTerminator of the
      ECMAScript grammar (tab, VT, FF, space, NBSP, BOM, the Zs category, LF, CR,
      LS and PS). */
  predicate IsJsWhitespace(c: char)
    ensures IsJsWhitespace(c) ==> !IsDigit(c) && !('a' <= c <= 'z') && !('A' <= c <= 'Z')
  {
    c in {'\U{0009}', '\U{000B}', '\U{000C}', ' ', '\U{00A0}', '\U{FEFF}',
          '\U{1680}', '\U{2000}', '\U{2001}', '\U{2002}', '\U{2003}', '\U{2004}',
          '\U{2005}', '\U{2006}', '\U{2007}', '\U{2008}', '\U{2009}', '\U{200A}',
          '\U{202F}', '\U{205F}', '\U{3000}', '\U{000A}', '\U{000D}', '\U{2028}',
          '\U{2029}'}
  }

  function TrimStart(s: string): (r: string)
    ensures |r| <= |s| && r == s[|s| - |r|..]
    ensures r != [] ==> !IsJsWhitespace(r[0])
    ensures forall i :: 0 <= i < |s| - |r| ==> IsJsWhitespace(s[i])
  {
    if s != [] && IsJsWhitespace(s[0]) then TrimStart(s[1..]) else s
  }

  function TrimEnd(s: string): (r: string)
    ensures |r| <= |s| && r == s[..|r|]
    ensures r != [] ==> !IsJsWhitespace(r[|r| - 1])
    ensures forall i :: |r| <= i < |s| ==> IsJsWhitespace(s[i])
  {
    if s != [] && IsJsWhitespace(s[|s| - 1]) then TrimEnd(s[..|s| - 1]) else s
  }

  /** `s.trim()`. */
  function Trim(s: string): (r: string)
    ensures |r| <= |s|
    ensures r != [] ==> !IsJsWhitespace(r[0]) && !IsJsWhitespace(r[|r| - 1])
  {
    TrimStart(TrimEnd(s))
  }

  /** What trim keeps is a contiguous piece of the input with no whitespace at
      either end; it is empty exactly when the input is all whitespace. */
  lemma TrimSpec(s: string)
    ensures exists i, j :: 0 <= i <= j <= |s| && Trim(s) == s[i..j]
    ensures Trim(s) != [] ==> !IsJsWhitespace(Trim(s)[0]) && !IsJsWhitespace(Trim(s)[|Trim(s)| - 1])
    ensures Trim(s) == [] <==> forall i :: 0 <= i < |s| ==> IsJsWhitespace(s[i])
  {
    var e := TrimEnd(s);
    var r := TrimStart(e);
    assert r == s[|e| - |r|..|e|];
    if r == [] {
      forall i | 0 <= i < |s| ensures IsJsWhitespace(s[i]) {
        if i >= |e| {
        } else {
          assert IsJsWhitespace(e[i]);
        }
      }
    } else {
      assert r[|r| - 1] == e[|e| - 1];
      assert !IsJsWhitespace(s[|e| - 1]);
    }
  }

  // ---------------------------------------------------------------------------
  // String#indexOf, String#lastIndexOf, string comparison

  /** `s.indexOf(c)` for a one-character needle. */
  function IndexOf(s: string, c: char): (r: int)
    ensures -1 <= r < |s|
    ensures r == -1 <==> c !in s
    ensures r >= 0 ==> s[r] == c && forall k :: 0 <= k < r ==> s[k] != c
  {
    if s == [] then -1
    else if s[0] == c then 0
    else var k := IndexOf(s[1..], c); if k < 0 then -1 else k + 1
  }

  /** `s.lastIndexOf(c)` for a one-character needle. */
  function LastIndexOf(s: string, c: char): (r: int)
    ensures -1 <= r < |s|
    ensures r == -1 <==> c !in s
    ensures r >= 0 ==> s[r] == c && forall k :: r < k < |s| ==> s[k] != c
  {
    if s == [] then -1
    else if s[|s| - 1] == c then |s| - 1
    else LastIndexOf(s[..|s| - 1], c)
  }

  /** `a < b` on strings: lexicographic order on characters, a proper prefix
      coming first. */
  predicate LexLess(a: string, b: string)
    ensures LexLess(a, b) ==> a != b
  {
    if a == [] then b != []
    else if b == [] then false
    else if a[0] != b[0] then a[0] < b[0]
    else LexLess(a[1..], b[1..])
  }

  /** Of two strings at most one comes before the other. */
  lemma {:induction false} LexLessAsymmetric(a: string, b: string)
    ensures LexLess(a, b) ==> !LexLess(b, a)
  {
    if a != [] && b != [] && a[0] == b[0] {
      LexLessAsymmetric(a[1..], b[1..]);
    }
  }
}
