/**
 * The two conversions between a `u8` id and its store key: `u8::to_string`
 * (the key `create_todo` writes) and `str::parse::<u8>` (the id `update_todo`
 * reads back from the path).
 */
module Decimal {
  import opened Wrappers
  import opened State

  predicate IsDigit(c: char) {
    '0' <= c <= '9'
  }

  predicate AllDigits(s: string) {
    forall i :: 0 <= i < |s| ==> IsDigit(s[i])
  }

  function DigitValue(c: char): (d: nat)
    requires IsDigit(c)
    ensures d < 10
  {
    c as int - '0' as int
  }

  function DigitChar(d: nat): (c: char)
    requires d < 10
    ensures IsDigit(c) && DigitValue(c) == d
  {
    ('0' as int + d) as char
  }

  /** The value of a string of decimal digits, most significant first (unbounded). */
  function DigitsValue(s: string): nat
    requires AllDigits(s)
  {
    if |s| == 0 then 0 else DigitsValue(s[..|s| - 1]) * 10 + DigitValue(s[|s| - 1])
  }

  /** A numeral as `to_string` prints one: digits only, no leading zero unless it is "0". */
  predicate Canonical(s: string) {
    |s| >= 1 && AllDigits(s) && (s[0] == '0' ==> |s| == 1)
  }

  /** Display of an unsigned integer: shortest decimal numeral. */
  function ToDecimal(n: nat): (s: string)
    ensures Canonical(s)
    ensures n < 10 <==> |s| == 1
    ensures n < 256 ==> |s| <= 3
  {
    if n < 10 then [DigitChar(n)] else ToDecimal(n / 10) + [DigitChar(n % 10)]
  }

  /**
   * `str::parse::<u8>`: one optional leading '+', then at least one decimal
   * digit and nothing else, with a value below 256. A leading '-' is an
   * invalid digit for an unsigned type; leading zeros are accepted.
   */
  function ParseU8(s: string): (r: Option<u8>)
    ensures r.Some? ==> |s| >= 1 && (s[0] == '+' || IsDigit(s[0]))
    ensures var d := if |s| > 0 && s[0] == '+' then s[1..] else s;
            && (r.Some? <==> |d| >= 1 && AllDigits(d) && DigitsValue(d) < 256)
            && (r.Some? ==> r.value == DigitsValue(d))
    ensures r.Some? && AllDigits(s) ==> r.value == DigitsValue(s)
    ensures 1 <= |s| <= 2 && AllDigits(s) ==> r.Some?
  {
    var digits := if |s| > 0 && s[0] == '+' then s[1..] else s;
    if |digits| == 0 || !AllDigits(digits) then None
    else
      DigitsValueBound(digits);
      if DigitsValue(digits) < 256 then Some(DigitsValue(digits)) else None
  }

  lemma {:induction false} DigitsValueBound(s: string)
    requires AllDigits(s)
    ensures |s| <= 2 ==> DigitsValue(s) < 100
    ensures |s| >= 1 && s[0] != '0' ==> DigitsValue(s) >= 1
  {
    if |s| > 0 {
      DigitsValueBound(s[..|s| - 1]);
    }
  }

  /** Reading back a printed numeral gives the number. */
  lemma {:induction false} DigitsOfDecimal(n: nat)
    ensures DigitsValue(ToDecimal(n)) == n
  {
    if n >= 10 {
      var s := ToDecimal(n);
      assert s[..|s| - 1] == ToDecimal(n / 10);
      DigitsOfDecimal(n / 10);
    }
  }

  /** Printing the value of a canonical numeral gives the numeral back. */
  lemma {:induction false} DecimalOfDigits(s: string)
    requires Canonical(s)
    ensures ToDecimal(DigitsValue(s)) == s
  {
    if |s| > 1 {
      var p := s[..|s| - 1];
      assert Canonical(p);
      DigitsValueBound(p);
      DecimalOfDigits(p);
      assert s == p + [s[|s| - 1]];
    }
  }

  /** The id `update_todo` parses from a key `create_todo` wrote is the id it was written for. */
  lemma ParseDecimal(n: u8)
    ensures ParseU8(ToDecimal(n)) == Some(n)
  {
    DigitsOfDecimal(n);
  }

  /** A numeral of a number past the u8 range does not parse: `unwrap` would panic. */
  lemma ParseDecimalOverflow(n: nat)
    requires n >= 256
    ensures ParseU8(ToDecimal(n)).None?
  {
    DigitsOfDecimal(n);
  }

  /** The keys `create_todo` writes are exactly the canonical numerals that parse as a u8. */
  lemma DecimalIffCanonical(n: u8, s: string)
    ensures s == ToDecimal(n) <==> Canonical(s) && ParseU8(s) == Some(n)
  {
    ParseDecimal(n);
    if Canonical(s) && ParseU8(s) == Some(n) {
      DecimalOfDigits(s);
    }
  }

  /** Non-canonical paths that still parse, and ones that do not. */
  lemma ParseU8Examples()
    ensures ParseU8("+7") == Some(7)
    ensures ParseU8("007") == Some(7)
    ensures ParseU8("255") == Some(255)
    ensures ParseU8("256").None?
    ensures ParseU8("-0").None?
    ensures ParseU8("+").None?
    ensures ParseU8("").None?
    ensures ParseU8("abc").None?
  {
    assert AllDigits("007") && DigitsValue("007") == 7 by {
      assert "007"[..2] == "00" && "00"[..1] == "0";
    }
    assert DigitsValue("255") == 255 by {
      assert "255"[..2] == "25" && "25"[..1] == "2";
    }
    assert DigitsValue("256") == 256 by {
      assert "256"[..2] == "25" && "25"[..1] == "2";
    }
    assert "+7"[1..] == "7";
    assert !IsDigit("-0"[0]);
    assert !IsDigit("abc"[0]);
  }
}
