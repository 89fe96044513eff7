/** strconv.Itoa (the %d verb) and strconv.Atoi, on unbounded integers. */
module Decimal {
  import opened Strings

  predicate IsDigit(c: char) { '0' <= c <= '9' }

  function Digit(d: nat): char
    requires d < 10
  {
    (d + '0' as int) as char
  }

  function FormatNat(n: nat): string {
    if n < 10 then [Digit(n)] else FormatNat(n / 10) + [Digit(n % 10)]
  }

  function Itoa(n: int): string {
    if n < 0 then ['-'] + FormatNat(-n) else FormatNat(n)
  }

  function ParseNat(s: string): nat
    requires All(s, IsDigit)
  {
    if s == [] then 0 else 10 * ParseNat(s[..|s| - 1]) + (s[|s| - 1] as int - '0' as int)
  }

  function Atoi(s: string): Option<int> {
    var digits := if s != [] && (s[0] == '-' || s[0] == '+') then s[1..] else s;
    if digits == [] || !All(digits, IsDigit) then None
    else if s[0] == '-' then Some(0 - ParseNat(digits)) else Some(ParseNat(digits))
  }

  lemma {:induction false} FormatNatDigits(n: nat)
    ensures FormatNat(n) != [] && All(FormatNat(n), IsDigit) && ParseNat(FormatNat(n)) == n
  {
    if n >= 10 {
      FormatNatDigits(n / 10);
      assert FormatNat(n)[..|FormatNat(n)| - 1] == FormatNat(n / 10);
    } else {
      assert FormatNat(n)[..0] == [];
    }
  }

  lemma AtoiItoa(n: int)
    ensures Atoi(Itoa(n)) == Some(n)
  {
    FormatNatDigits(if n < 0 then -n else n);
    if n < 0 { assert Itoa(n)[1..] == FormatNat(-n); }
  }

  predicate IsNumberRune(c: char) { IsDigit(c) || c == '-' }

  lemma ItoaRunes(n: int)
    ensures Itoa(n) != [] && All(Itoa(n), IsNumberRune)
  {
    FormatNatDigits(if n < 0 then -n else n);
  }
}
