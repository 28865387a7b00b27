/** Unsigned numerals in a given radix, and decimal printing. */
module Numerals {
  import opened Options

  const U64: int := 0x1_0000_0000_0000_0000

  /** A digit's value, 36 when the character is no digit at all. */
  function DigitVal(c: char): (r: nat)
    ensures r <= 36
  {
    if '0' <= c <= '9' then c as int - '0' as int
    else if 'a' <= c <= 'f' then c as int - 'a' as int + 10
    else if 'A' <= c <= 'F' then c as int - 'A' as int + 10
    else 36
  }

  predicate AllDigits(s: string, radix: nat) { forall i :: 0 <= i < |s| ==> DigitVal(s[i]) < radix }

  /** Positional value, most significant digit first. */
  function Value(s: string, radix: nat): nat {
    if s == [] then 0 else Value(s[..|s| - 1], radix) * radix + DigitVal(s[|s| - 1])
  }

  /** `u64::from_str_radix` on a non-empty unsigned spelling. */
  function FromStrRadix(s: string, radix: nat): Option<nat> {
    if AllDigits(s, radix) && Value(s, radix) < U64 then Some(Value(s, radix)) else None
  }

  function Digit(n: nat): (c: char)
    requires n < 10
    ensures DigitVal(c) == n && c != '.' && (c == '0' <==> n == 0)
  {
    ('0' as int + n) as char
  }

  function Decimal(n: nat): string {
    if n < 10 then [Digit(n)] else Decimal(n / 10) + [Digit(n % 10)]
  }

  lemma {:induction false} DecimalValue(n: nat)
    ensures AllDigits(Decimal(n), 10) && Value(Decimal(n), 10) == n && '.' !in Decimal(n)
    ensures Decimal(n) != "" && (n > 0 ==> Decimal(n)[0] != '0') && (|Decimal(n)| > 1 ==> n >= 10)
    ensures |Decimal(n)| > 1 ==> DigitVal(Decimal(n)[1]) < 10
  {
    if n < 10 {
      assert [Digit(n)][..0] == "";
    } else {
      DecimalValue(n / 10);
      var d := Decimal(n / 10);
      assert Decimal(n)[..|d|] == d;
    }
  }

  // ---- Other radices ---------------------------------------------------------------------

  /** The digit characters by value, in both cases. */
  const LOWER_DIGITS := "0123456789abcdef"
  const UPPER_DIGITS := "0123456789ABCDEF"

  predicate SpellsDigit(c: char, n: nat) { n < 16 && (c == LOWER_DIGITS[n] || c == UPPER_DIGITS[n]) }

  lemma DigitSpelled(c: char, n: nat)
    requires SpellsDigit(c, n)
    ensures DigitVal(c) == n && c != '.'
  {
  }

  /** `s` spells `n` in this radix, with no superfluous leading zero. */
  ghost predicate Spells(s: string, n: nat, radix: nat)
    requires 2 <= radix <= 16
    decreases n
  {
    && s != "" && SpellsDigit(s[|s| - 1], n % radix)
    && if n < radix then |s| == 1 else Spells(s[..|s| - 1], n / radix, radix)
  }

  lemma {:induction false} SpellsValue(s: string, n: nat, radix: nat)
    requires 2 <= radix <= 16 && Spells(s, n, radix)
    ensures AllDigits(s, radix) && Value(s, radix) == n && '.' !in s && s != ""
    decreases n
  {
    var q, r := DivMod(n, radix);
    DigitSpelled(s[|s| - 1], r);
    if n < radix {
      OneDigit(s, radix);
    } else {
      SpellsValue(s[..|s| - 1], q, radix);
      MoreDigits(s, radix, q, r);
    }
  }

  lemma DivMod(n: nat, radix: nat) returns (q: nat, r: nat)
    requires radix >= 2
    ensures q == n / radix && r == n % radix < radix && n == q * radix + r
    ensures if n < radix then r == n else q < n
  {
    q, r := n / radix, n % radix;
    Doubles(q, radix);
  }

  lemma Doubles(q: nat, radix: nat)
    requires radix >= 2
    ensures q * radix >= 2 * q && (q >= 1 ==> q * radix >= radix)
  {
    assert q * radix == 2 * q + q * (radix - 2);
    if q >= 1 { assert q * radix == radix + (q - 1) * radix; }
  }

  lemma OneDigit(s: string, radix: nat)
    requires |s| == 1 && DigitVal(s[0]) < radix && s[0] != '.'
    ensures AllDigits(s, radix) && Value(s, radix) == DigitVal(s[0]) && '.' !in s
  {
    assert s[..0] == "" && Value("", radix) == 0;
  }

  lemma MoreDigits(s: string, radix: nat, q: nat, r: nat)
    requires s != "" && DigitVal(s[|s| - 1]) == r < radix && s[|s| - 1] != '.'
    requires AllDigits(s[..|s| - 1], radix) && Value(s[..|s| - 1], radix) == q && '.' !in s[..|s| - 1]
    ensures AllDigits(s, radix) && Value(s, radix) == q * radix + r && '.' !in s
  {
    assert s == s[..|s| - 1] + [s[|s| - 1]];
    forall i | 0 <= i < |s| ensures DigitVal(s[i]) < radix { if i < |s| - 1 { assert s[..|s| - 1][i] == s[i]; } }
  }
}
