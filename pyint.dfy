/** Python's int() applied to a string (base 10) and str() of an int. */
module PyInt {
  import opened Wrappers
  import PyStr

  predicate IsDigit(c: char) {
    '0' <= c <= '9'
  }

  function DigitValue(c: char): (v: nat)
    requires IsDigit(c)
  {
    c as int - '0' as int
  }

  function DigitChar(d: nat): (c: char)
    requires d < 10
  {
    ('0' as int + d) as char
  }

  /** What int() accepts after the sign: digits, with single underscores only between two digits. */
  predicate WellFormedDigits(s: string) {
    && |s| > 0 && IsDigit(s[0]) && IsDigit(s[|s| - 1])
    && (forall i :: 0 <= i < |s| ==> IsDigit(s[i]) || s[i] == '_')
    && (forall i :: 0 <= i < |s| - 1 ==> s[i] != '_' || s[i + 1] != '_')
  }

  /** The text with every underscore taken out. */
  function WithoutUnderscores(s: string): (r: string)
    ensures forall i :: 0 <= i < |r| ==> r[i] != '_'
    ensures (forall i :: 0 <= i < |s| ==> IsDigit(s[i]) || s[i] == '_') ==>
              forall i :: 0 <= i < |r| ==> IsDigit(r[i])
  {
    if |s| == 0 then ""
    else WithoutUnderscores(s[..|s| - 1]) + (if s[|s| - 1] == '_' then "" else [s[|s| - 1]])
  }

  /** The value of a string of decimal digits, most significant first. */
  function DigitsValue(d: string): (v: nat)
    requires forall i :: 0 <= i < |d| ==> IsDigit(d[i])
  {
    if |d| == 0 then 0 else 10 * DigitsValue(d[..|d| - 1]) + DigitValue(d[|d| - 1])
  }

  /** The shorter text ParseDigits reads before the last digit: one underscore before that digit is dropped too. */
  function DigitsInit(s: string): (r: string)
    requires |s| >= 2
    ensures |r| < |s|
  {
    if s[|s| - 2] == '_' then s[..|s| - 2] else s[..|s| - 1]
  }

  /** Dropping the last digit (and the underscore before it) keeps the text well formed, and only that. */
  lemma {:induction false} WellFormedDigitsInit(s: string)
    requires |s| >= 2 && IsDigit(s[|s| - 1])
    ensures WellFormedDigits(s) <==> WellFormedDigits(DigitsInit(s))
    ensures WithoutUnderscores(s) == WithoutUnderscores(DigitsInit(s)) + [s[|s| - 1]]
  {
    var init := DigitsInit(s);
    var n := |s|;
    assert WithoutUnderscores(s) == WithoutUnderscores(s[..n - 1]) + [s[n - 1]];
    if s[n - 2] == '_' {
      assert s[..n - 1][..n - 2] == init;
      assert WithoutUnderscores(s[..n - 1]) == WithoutUnderscores(init);
      if WellFormedDigits(s) {
        assert n - 2 > 0;
        assert s[n - 3] != '_';
        assert IsDigit(init[|init| - 1]);
      }
      if WellFormedDigits(init) {
        forall i | 0 <= i < n - 1
          ensures s[i] != '_' || s[i + 1] != '_'
        {
          if i < n - 3 {
            assert s[i] == init[i] && s[i + 1] == init[i + 1];
          } else if i == n - 3 {
            assert s[i] == init[|init| - 1];
          }
        }
        forall i | 0 <= i < n
          ensures IsDigit(s[i]) || s[i] == '_'
        {
          if i < n - 2 {
            assert s[i] == init[i];
          }
        }
      }
    } else {
      assert init == s[..n - 1];
      if WellFormedDigits(init) {
        forall i | 0 <= i < n - 1
          ensures s[i] != '_' || s[i + 1] != '_'
        {
          if i < n - 2 {
            assert s[i] == init[i] && s[i + 1] == init[i + 1];
          }
        }
        forall i | 0 <= i < n
          ensures IsDigit(s[i]) || s[i] == '_'
        {
          if i < n - 1 {
            assert s[i] == init[i];
          }
        }
      }
    }
  }

  /**
   * The digit part of int(): digits, with single underscores allowed between two digits.
   * The value is read right to left, one digit at a time, skipping the underscores.
   */
  function ParseDigits(s: string): (r: Option<nat>)
    ensures r.Some? <==> WellFormedDigits(s)
    ensures r.Some? ==> r.value == DigitsValue(WithoutUnderscores(s))
    decreases |s|
  {
    if |s| == 0 || !IsDigit(s[|s| - 1]) then None
    else if |s| == 1 then
      assert WithoutUnderscores(s) == WithoutUnderscores(s[..0]) + [s[0]];
      Some(DigitValue(s[0]))
    else
      WellFormedDigitsInit(s);
      match ParseDigits(DigitsInit(s))
      case None => None
      case Some(v) => Some(10 * v + DigitValue(s[|s| - 1]))
  }

  /** int(s): surrounding whitespace is stripped, then an optional sign and the digits. */
  function ParseInt(s: string): (r: Option<int>)
    ensures var t := PyStr.Strip(s);
            var digits := if |t| > 0 && (t[0] == '-' || t[0] == '+') then t[1..] else t;
            && (r.Some? <==> WellFormedDigits(digits))
            && (r.Some? ==> r.value == (if |t| > 0 && t[0] == '-' then -1 else 1) * DigitsValue(WithoutUnderscores(digits)))
  {
    var t := PyStr.Strip(s);
    if |t| > 0 && t[0] == '-' then
      match ParseDigits(t[1..])
      case None => None
      case Some(v) => var k: int := v; Some(-k)
    else if |t| > 0 && t[0] == '+' then
      match ParseDigits(t[1..])
      case None => None
      case Some(v) => Some(v)
    else
      match ParseDigits(t)
      case None => None
      case Some(v) => Some(v)
  }

  /** The decimal digits of n, most significant first, with no leading zero. */
  function Decimal(n: nat): (s: string)
    ensures |s| > 0 && IsDigit(s[|s| - 1])
    ensures forall i :: 0 <= i < |s| ==> IsDigit(s[i])
    ensures |s| > 1 ==> s[0] != '0'
  {
    if n < 10 then [DigitChar(n)] else Decimal(n / 10) + [DigitChar(n % 10)]
  }

  /** str(i) for an int. */
  function IntToString(i: int): (s: string)
  {
    if i < 0 then "-" + Decimal(-i) else Decimal(i)
  }

  lemma {:induction false} ParseDecimal(n: nat)
    ensures ParseDigits(Decimal(n)) == Some(n)
  {
    if n >= 10 {
      var s := Decimal(n);
      var p := Decimal(n / 10);
      assert s == p + [DigitChar(n % 10)];
      assert s[|s| - 2] == p[|p| - 1];
      assert DigitsInit(s) == p;
      ParseDecimal(n / 10);
    }
  }

  /** int(str(i)) == i. */
  lemma ParseIntToString(i: int)
    ensures ParseInt(IntToString(i)) == Some(i)
  {
    var s := IntToString(i);
    var d := if i < 0 then Decimal(-i) else Decimal(i);
    assert PyStr.NoSpace(s) by {
      assert forall k :: 0 <= k < |d| ==> IsDigit(d[k]);
      if i < 0 {
        assert s == "-" + d;
        assert forall k :: 1 <= k < |s| ==> s[k] == d[k - 1];
      }
    }
    PyStr.StripNoSpace(s);
    assert PyStr.Strip(s) == s;
    ParseDecimal(if i < 0 then -i else i);
    if i < 0 {
      assert s[0] == '-' && s[1..] == d;
    } else {
      assert IsDigit(s[0]);
    }
  }
}
