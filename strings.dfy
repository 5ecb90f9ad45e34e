/**
 * The few string operations of Python's `str` that the system relies on:
 * `lower()`, `capitalize()`, `str(int)` and `int(str)`.
 * Only the ASCII letters are case-mapped; see README.
 */
module Strings {
  import opened Wrappers

  function LowerChar(c: char): char
  {
    if 'A' <= c <= 'Z' then (c as int + 32) as char else c
  }

  function UpperChar(c: char): char
  {
    if 'a' <= c <= 'z' then (c as int - 32) as char else c
  }

  /** `s.lower()` */
  function Lower(s: string): (r: string)
    ensures |r| == |s|
    ensures forall i :: 0 <= i < |s| ==> r[i] == LowerChar(s[i])
  {
    seq(|s|, i requires 0 <= i < |s| => LowerChar(s[i]))
  }

  /** `s.capitalize()`: first character upper-cased, the rest lower-cased. */
  function Capitalize(s: string): (r: string)
    ensures |r| == |s|
    ensures |s| > 0 ==> r[0] == UpperChar(s[0])
    ensures forall i :: 0 < i < |s| ==> r[i] == LowerChar(s[i])
  {
    if s == [] then [] else [UpperChar(s[0])] + Lower(s[1..])
  }

  predicate IsLower(s: string)
  {
    Lower(s) == s
  }

  /** Lower-casing undoes capitalisation: `s.capitalize().lower() == s.lower()`. */
  lemma LowerOfCapitalize(s: string)
    ensures Lower(Capitalize(s)) == Lower(s)
  {
    var c := Capitalize(s);
    assert |Lower(c)| == |Lower(s)|;
    forall i | 0 <= i < |s| ensures Lower(c)[i] == Lower(s)[i] {
      if i == 0 {
        assert LowerChar(UpperChar(s[0])) == LowerChar(s[0]);
      }
    }
  }

  predicate HasNoUpperCase(s: string)
  {
    forall k :: 0 <= k < |s| ==> !('A' <= s[k] <= 'Z')
  }

  lemma NoUpperCaseIsLower(s: string)
    requires HasNoUpperCase(s)
    ensures IsLower(s)
  {
  }

  predicate IsDigit(c: char)
  {
    '0' <= c <= '9'
  }

  predicate AllDigits(s: string)
  {
    forall i :: 0 <= i < |s| ==> IsDigit(s[i])
  }

  function DigitChar(d: nat): (c: char)
    requires d < 10
    ensures IsDigit(c) && c as int - '0' as int == d
  {
    ('0' as int + d) as char
  }

  /** Decimal digits of a natural number, most significant first, no leading zeros. */
  function NatToString(n: nat): string
    decreases n
  {
    if n < 10 then [DigitChar(n)] else NatToString(n / 10) + [DigitChar(n % 10)]
  }

  /** `str(n)` for an integer. */
  function IntToString(n: int): string
  {
    if n < 0 then "-" + NatToString(-n) else NatToString(n)
  }

  function DigitsValue(s: string): nat
    requires AllDigits(s)
  {
    if s == [] then 0 else DigitsValue(s[..|s| - 1]) * 10 + (s[|s| - 1] as int - '0' as int)
  }

  /**
   * `int(s)`: an optional sign followed by at least one ASCII digit; anything
   * else raises `ValueError` in Python, here `None`.
   */
  function ParseInt(s: string): Option<int>
  {
    if |s| > 1 && s[0] == '-' && AllDigits(s[1..]) then Some(0 - DigitsValue(s[1..]) as int)
    else if |s| > 1 && s[0] == '+' && AllDigits(s[1..]) then Some(DigitsValue(s[1..]))
    else if |s| > 0 && AllDigits(s) then Some(DigitsValue(s))
    else None
  }

  lemma {:induction false} NatToStringDigits(n: nat)
    ensures |NatToString(n)| > 0 && AllDigits(NatToString(n))
    ensures DigitsValue(NatToString(n)) == n
    decreases n
  {
    if n >= 10 {
      NatToStringDigits(n / 10);
      var s := NatToString(n);
      assert s[..|s| - 1] == NatToString(n / 10);
    }
  }

  /** Reading back what `str` wrote gives the number: `int(str(n)) == n`. */
  lemma ParseIntOfIntToString(n: int)
    ensures ParseInt(IntToString(n)) == Some(n)
  {
    if n < 0 {
      NatToStringDigits(-n);
      var s := IntToString(n);
      assert s[1..] == NatToString(-n);
    } else {
      NatToStringDigits(n);
      assert IntToString(n)[0] != '-' && IntToString(n)[0] != '+';
    }
  }

  /** `str(n)` is never the empty string, so it is always truthy in Python. */
  lemma IntToStringNonEmpty(n: int)
    ensures |IntToString(n)| > 0
  {
    NatToStringDigits(if n < 0 then -n else n);
  }
}
