/** The integer helper: 32-bit bounds, three-way comparison and decimal text. */
module Integer {

  const MIN_VALUE: int := -0x8000_0000
  const MAX_VALUE: int := 0x7FFF_FFFF

  /** The bounds are those of a signed 32-bit int: -2^31 and 2^31 - 1. */
  lemma Int32Bounds()
    ensures MIN_VALUE == -0x8000_0000 && MAX_VALUE == 0x8000_0000 - 1
    ensures MAX_VALUE - MIN_VALUE + 1 == 0x1_0000_0000
  {
  }

  /** True when v fits a signed 32-bit int. */
  predicate IsInt32(v: int) { MIN_VALUE <= v <= MAX_VALUE }

  /** Three-way comparison: -1 when x < y, 0 when equal, 1 otherwise. */
  function Compare(x: int, y: int): (r: int)
    ensures r == -1 || r == 0 || r == 1
    ensures r == 0 <==> x == y
    ensures r == -1 <==> x < y
    ensures r == 1 <==> x > y
  {
    if x < y then -1 else if x == y then 0 else 1
  }

  lemma CompareAntisymmetric(x: int, y: int)
    ensures Compare(x, y) == -Compare(y, x)
  {
  }

  lemma CompareTransitive(x: int, y: int, z: int)
    requires Compare(x, y) == -1 && Compare(y, z) == -1
    ensures Compare(x, z) == -1
  {
  }

  // ---------------------------------------------------------------- decimal text

  predicate IsDigit(c: char) { '0' <= c <= '9' }

  function DigitValue(c: char): (d: nat)
    requires IsDigit(c)
    ensures d < 10
  {
    (c as int) - ('0' as int)
  }

  function DigitChar(d: nat): (c: char)
    requires d < 10
    ensures IsDigit(c) && DigitValue(c) == d
  {
    (('0' as int) + d) as char
  }

  /** Decimal digits of n, most significant first, no leading zero. */
  function Digits(n: nat): (s: string)
    ensures |s| > 0
    ensures forall i :: 0 <= i < |s| ==> IsDigit(s[i])
    ensures n > 0 ==> s[0] != '0'
  {
    if n < 10 then [DigitChar(n)] else Digits(n / 10) + [DigitChar(n % 10)]
  }

  /** The string a PHP (string) cast gives an int: a '-' sign for negatives, then the digits. */
  function ToString(x: int): (s: string)
    ensures |s| > 0
    ensures x < 0 <==> s[0] == '-'
  {
    if x < 0 then "-" + Digits(-x) else Digits(x)
  }

  /** Length of the run of digits at the start of s. */
  function DigitRun(s: string): (k: nat)
    ensures k <= |s|
    ensures forall i :: 0 <= i < k ==> IsDigit(s[i])
    ensures k < |s| ==> !IsDigit(s[k])
  {
    if |s| == 0 || !IsDigit(s[0]) then 0 else 1 + DigitRun(s[1..])
  }

  /** Value of a string of digits, read most significant first. */
  function DigitsValue(s: string): (v: nat)
    requires forall i :: 0 <= i < |s| ==> IsDigit(s[i])
  {
    if |s| == 0 then 0 else DigitsValue(s[..|s| - 1]) * 10 + DigitValue(s[|s| - 1])
  }

  /**
   * The PHP (int) cast on a string, restricted to its integer-literal part:
   * an optional sign followed by the leading run of digits; no digits gives 0.
   */
  function ParseInt(s: string): (r: int)
    ensures |s| > 0 && s[0] == '-' ==> r <= 0
    ensures !(|s| > 0 && s[0] == '-') ==> r >= 0
    ensures |s| == 0 || !(IsDigit(s[0]) || s[0] == '-' || s[0] == '+') ==> r == 0
    ensures (forall i :: 0 <= i < |s| ==> IsDigit(s[i])) ==> r == DigitsValue(s)
  {
    if |s| > 0 && (s[0] == '-' || s[0] == '+') then
      var rest := s[1..];
      var v: int := DigitsValue(rest[..DigitRun(rest)]);
      if s[0] == '-' then -v else v
    else
      DigitRunPrefix(s);
      DigitsValue(s[..DigitRun(s)])
  }

  /** When s is all digits, its leading run is all of it. */
  lemma DigitRunPrefix(s: string)
    ensures (forall i :: 0 <= i < |s| ==> IsDigit(s[i])) ==> s[..DigitRun(s)] == s
  {
    if forall i :: 0 <= i < |s| ==> IsDigit(s[i]) {
      DigitRunAll(s);
    }
  }

  /**
   * Parsing stops at the first character that can continue neither the digits
   * nor a decimal or exponent part: what follows is ignored.
   */
  lemma ParseIntIgnoresSuffix(digits: string, t: string)
    requires |digits| > 0 && forall i :: 0 <= i < |digits| ==> IsDigit(digits[i])
    requires |t| == 0 || !(IsDigit(t[0]) || t[0] == '.' || t[0] == 'e' || t[0] == 'E')
    ensures ParseInt(digits + t) == DigitsValue(digits)
  {
    var s := digits + t;
    DigitRunSplit(digits, t);
    assert IsDigit(s[0]);
    assert s[..DigitRun(s)] == digits;
  }

  lemma {:induction false} DigitRunSplit(digits: string, t: string)
    requires forall i :: 0 <= i < |digits| ==> IsDigit(digits[i])
    requires |t| == 0 || !IsDigit(t[0])
    ensures DigitRun(digits + t) == |digits|
  {
    if |digits| > 0 {
      assert (digits + t)[1..] == digits[1..] + t;
      DigitRunSplit(digits[1..], t);
    } else {
      assert digits + t == t;
    }
  }

  lemma DigitRunAll(s: string)
    requires forall i :: 0 <= i < |s| ==> IsDigit(s[i])
    ensures DigitRun(s) == |s|
  {
    if |s| > 0 {
      DigitRunAll(s[1..]);
    }
  }

  lemma {:induction false} DigitsValueOfDigits(n: nat)
    ensures DigitsValue(Digits(n)) == n
  {
    var s := Digits(n);
    if n >= 10 {
      DigitsValueOfDigits(n / 10);
      assert s[..|s| - 1] == Digits(n / 10);
      assert s[|s| - 1] == DigitChar(n % 10);
    }
  }

  /** Decimal round trip: parsing the printed form of any integer gives it back. */
  lemma ParseToString(x: int)
    ensures ParseInt(ToString(x)) == x
  {
    var s := ToString(x);
    if x < 0 {
      assert s[1..] == Digits(-x);
      DigitRunAll(Digits(-x));
      assert Digits(-x)[..|Digits(-x)|] == Digits(-x);
      DigitsValueOfDigits(-x);
    } else {
      DigitRunAll(s);
      assert s[..|s|] == s;
      DigitsValueOfDigits(x);
    }
  }

  /** Printing is injective: distinct integers print differently. */
  lemma ToStringInjective(x: int, y: int)
    requires ToString(x) == ToString(y)
    ensures x == y
  {
    ParseToString(x);
    ParseToString(y);
  }
}
