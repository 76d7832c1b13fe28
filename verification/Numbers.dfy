// Decimal numerals: strconv.Itoa, Atoi and ParseUint in base 10.

module Numbers {
  import opened Outcomes

  function Digit(d: nat): char
    requires d < 10
  {
    ('0' as int + d) as char
  }

  predicate IsDigit(c: char) { '0' <= c <= '9' }

  /** strconv.Itoa of a number that is not negative, and the verb %d. */
  function Itoa(n: nat): string {
    if n < 10 then [Digit(n)] else Itoa(n / 10) + [Digit(n % 10)]
  }

  function Value(s: string): nat
    requires forall c | c in s :: IsDigit(c)
  {
    if s == "" then 0
    else
      assert IsDigit(s[|s| - 1]) && forall c | c in s[..|s| - 1] :: c in s;
      Value(s[..|s| - 1]) * 10 + (s[|s| - 1] as int - '0' as int)
  }

  /** strconv.ParseUint(s, 10, bits): digits only, and in range. */
  function ParseUint(s: string, limit: nat): Option<nat> {
    if s == "" || exists c | c in s :: !IsDigit(c) then None
    else if Value(s) >= limit then None
    else Some(Value(s))
  }

  const INT64 := 0x8000_0000_0000_0000

  /** strconv.Atoi: an optional sign, digits, and the range of a 64-bit int. */
  function Atoi(s: string): Option<int> {
    if s == "" then None
    else if s[0] == '-' then
      var magnitude := ParseUint(s[1..], INT64 + 1);
      if magnitude.None? then None else Some(-(magnitude.value as int))
    else ParseUint(if s[0] == '+' then s[1..] else s, INT64)
  }

  lemma {:induction false} ItoaDigits(n: nat)
    ensures Itoa(n) != "" && forall c | c in Itoa(n) :: IsDigit(c)
  {
    if n >= 10 { ItoaDigits(n / 10); }
  }

  lemma {:induction false} ValueItoa(n: nat)
    ensures forall c | c in Itoa(n) :: IsDigit(c)
    ensures Value(Itoa(n)) == n
  {
    ItoaDigits(n);
    if n >= 10 {
      ValueItoa(n / 10);
      assert Itoa(n)[..|Itoa(n)| - 1] == Itoa(n / 10);
    }
  }

  /** Reading back a printed number gives the number, up to the range limit. */
  lemma ParseItoa(n: nat, limit: nat)
    ensures ParseUint(Itoa(n), limit) == if n < limit then Some(n) else None
  {
    ItoaDigits(n);
    ValueItoa(n);
  }

  lemma AtoiItoa(n: nat)
    requires n < INT64
    ensures Atoi(Itoa(n)) == Some(n)
  {
    ItoaDigits(n);
    assert Itoa(n)[0] in Itoa(n);
    ParseItoa(n, INT64);
  }
}
