/** Decimal rendering and reading of process ids, as `stringstream` does it. */
module Decimal {

  function Digit(d: int): char
    requires 0 <= d < 10
  {
    ('0' as int + d) as char
  }

  predicate IsDigit(c: char) {
    '0' <= c <= '9'
  }

  function Show(n: nat): string {
    if n < 10 then [Digit(n)] else Show(n / 10) + [Digit(n % 10)]
  }

  /** The number read so far is `acc`; reading stops at the first character that is not a digit. */
  function ReadDigits(s: string, acc: nat): nat
    decreases |s|
  {
    if s == [] || !IsDigit(s[0]) then acc
    else ReadDigits(s[1..], 10 * acc + (s[0] as int - '0' as int))
  }

  datatype Parsed = NoNumber | Number(value: nat)

  function Parse(s: string): Parsed {
    if s == [] || !IsDigit(s[0]) then NoNumber else Number(ReadDigits(s, 0))
  }

  lemma {:induction false} ReadDigitsAppend(s: string, d: nat, acc: nat)
    requires d < 10 && forall i :: 0 <= i < |s| ==> IsDigit(s[i])
    ensures ReadDigits(s + [Digit(d)], acc) == 10 * ReadDigits(s, acc) + d
    decreases |s|
  {
    if s == [] {
      assert ([Digit(d)])[1..] == [];
    } else {
      assert (s + [Digit(d)])[1..] == s[1..] + [Digit(d)];
      ReadDigitsAppend(s[1..], d, 10 * acc + (s[0] as int - '0' as int));
    }
  }

  lemma {:induction false} ShowIsDigits(n: nat)
    ensures |Show(n)| > 0 && forall i :: 0 <= i < |Show(n)| ==> IsDigit(Show(n)[i])
  {
    if n >= 10 {
      ShowIsDigits(n / 10);
    }
  }

  /** Reading back a rendered id gives the id, whatever its size. */
  lemma {:induction false} ParseShow(n: nat)
    ensures Parse(Show(n)) == Number(n)
  {
    ShowIsDigits(n);
    if n < 10 {
      assert Show(n)[1..] == [];
      assert ReadDigits([], n) == n;
    } else {
      ParseShow(n / 10);
      ShowIsDigits(n / 10);
      ReadDigitsAppend(Show(n / 10), n % 10, 0);
    }
  }
}
