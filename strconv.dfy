/**
 * Go's 64-bit `int` and the two conversions of package strconv the pagination
 * code relies on: `Atoi` (parse a decimal string) and `Itoa` (render one).
 */
module StrConv {
  import opened Wrappers

  const MinInt: int := -0x8000_0000_0000_0000
  const MaxInt: int := 0x7fff_ffff_ffff_ffff
  const Modulus: int := 0x1_0000_0000_0000_0000

  /** A value of Go's `int` on a 64-bit platform. */
  type GoInt = x: int | MinInt <= x <= MaxInt

  /** Go's `a + b` on int: the exact sum, wrapped around once if it leaves the 64-bit range. */
  function Add(a: GoInt, b: GoInt): (r: GoInt)
    ensures (a + b - r) % Modulus == 0
    ensures MinInt <= a + b <= MaxInt ==> r == a + b
    ensures a + b > MaxInt ==> r == a + b - Modulus
    ensures a + b < MinInt ==> r == a + b + Modulus
  {
    if a + b > MaxInt then a + b - Modulus
    else if a + b < MinInt then a + b + Modulus
    else a + b
  }

  /** Go's wrapped sum is the only int congruent to the exact sum modulo 2^64. */
  lemma AddUnique(a: GoInt, b: GoInt, x: GoInt)
    requires (a + b - x) % Modulus == 0
    ensures x == Add(a, b)
  {
    var r := Add(a, b);
    var k := (a + b - x) / Modulus;
    assert a + b - x == k * Modulus;
    var j := (a + b - r) / Modulus;
    assert a + b - r == j * Modulus;
    assert r - x == (k - j) * Modulus;
    assert -Modulus < (k - j) * Modulus < Modulus;
  }

  predicate IsDigit(c: char) {
    '0' <= c <= '9'
  }

  predicate AllDigits(s: string) {
    forall i :: 0 <= i < |s| ==> IsDigit(s[i])
  }

  /** The value of a string of decimal digits, leading zeros allowed. */
  function DigitsValue(s: string): nat
    requires AllDigits(s)
  {
    if s == [] then 0
    else DigitsValue(s[..|s| - 1]) * 10 + (s[|s| - 1] as int - '0' as int)
  }

  /** The syntax `strconv.Atoi` accepts: an optional `+` or `-`, then one or more decimal digits. */
  predicate DecimalSyntax(s: string) {
    || (|s| > 0 && AllDigits(s))
    || (|s| > 1 && (s[0] == '+' || s[0] == '-') && AllDigits(s[1..]))
  }

  /**
   * `strconv.Atoi`: an optional `+` or `-`, then one or more decimal digits,
   * whose value must fit in a 64-bit int; anything else is a syntax or range error.
   */
  function Atoi(s: string): (r: Option<GoInt>)
    ensures r.Some? ==> DecimalSyntax(s)
    ensures s == [] ==> r == None
    ensures r.Some? && s[0] == '-' ==> r.value <= 0
    ensures r.Some? && s[0] != '-' ==> r.value >= 0
  {
    if s == [] then None
    else
      var body := if s[0] == '-' || s[0] == '+' then s[1..] else s;
      if body == [] || !AllDigits(body) then None
      else
        var mag: int := DigitsValue(body);
        var v := if s[0] == '-' then 0 - mag else mag;
        if MinInt <= v <= MaxInt then Some(v) else None
  }

  /** `strconv.Itoa` for a non-negative value: decimal digits, no leading zero. */
  function Itoa(n: nat): (s: string)
    ensures |s| > 0 && AllDigits(s)
    ensures |s| > 1 ==> s[0] != '0'
  {
    if n < 10 then [('0' as int + n) as char]
    else Itoa(n / 10) + [('0' as int + n % 10) as char]
  }

  /** The digits Itoa writes read back as the same number. */
  lemma {:induction false} DigitsValueItoa(n: nat)
    ensures DigitsValue(Itoa(n)) == n
  {
    if n >= 10 {
      var s := Itoa(n);
      assert s[..|s| - 1] == Itoa(n / 10);
      DigitsValueItoa(n / 10);
    }
  }

  /** Parsing the rendering of an int gives the int back: a cursor survives the round trip. */
  lemma AtoiItoa(n: nat)
    requires n <= MaxInt
    ensures Atoi(Itoa(n)) == Some(n)
  {
    DigitsValueItoa(n);
  }

  /** A `-` before the rendering of n parses to -n, down to the least int. */
  lemma AtoiMinusItoa(n: nat)
    requires 0 < n <= -MinInt
    ensures Atoi("-" + Itoa(n)) == Some(0 - n)
  {
    var s := "-" + Itoa(n);
    assert s[1..] == Itoa(n);
    DigitsValueItoa(n);
  }

  /** A `+` before the rendering of n parses to n. */
  lemma AtoiPlusItoa(n: nat)
    requires n <= MaxInt
    ensures Atoi("+" + Itoa(n)) == Some(n)
  {
    var s := "+" + Itoa(n);
    assert s[1..] == Itoa(n);
    DigitsValueItoa(n);
  }

  /** Strings outside the syntax are rejected. */
  lemma AtoiRejects()
    ensures Atoi("") == None && Atoi("-") == None && Atoi("+") == None
    ensures Atoi("1a") == None && Atoi(" 1") == None && Atoi("--1") == None
  {
    assert !IsDigit('a') && !IsDigit(' ') && !IsDigit('-');
    assert "1a"[1] == 'a' && " 1"[0] == ' ' && "--1"[1..][0] == '-';
  }

  /** A decimal rendering beyond the 64-bit range is a range error, signed or not. */
  lemma AtoiOutOfRange(n: nat)
    ensures n > MaxInt ==> Atoi(Itoa(n)) == None
    ensures n > -MinInt ==> Atoi("-" + Itoa(n)) == None
  {
    DigitsValueItoa(n);
    assert ("-" + Itoa(n))[1..] == Itoa(n);
  }
}
