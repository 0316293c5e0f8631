/** Decimal printing of integers, as Go's `strconv.Itoa` and the `%d` verb do it, and its inverse. */
module DecimalText {
  function Digit(d: nat): char
    requires d < 10
  {
    ('0' as int + d) as char
  }

  predicate IsDigit(c: char) {
    '0' <= c <= '9'
  }

  function NatText(n: nat): (s: string)
    ensures s != ""
    ensures forall c :: c in s ==> IsDigit(c)
  {
    if n < 10 then [Digit(n)] else NatText(n / 10) + [Digit(n % 10)]
  }

  function IntText(n: int): (s: string)
    ensures s != ""
    ensures forall c :: c in s ==> IsDigit(c) || c == '-'
  {
    if n < 0 then "-" + NatText(-n) else NatText(n)
  }

  function NatValue(s: string): nat {
    if s == "" then 0
    else
      var last := s[|s| - 1];
      10 * NatValue(s[..|s| - 1]) + (if IsDigit(last) then last as int - '0' as int else 0)
  }

  function IntValue(s: string): int {
    if s != "" && s[0] == '-' then 0 - NatValue(s[1..]) else NatValue(s)
  }

  lemma {:induction false} NatRoundTrip(n: nat)
    ensures NatValue(NatText(n)) == n
  {
    if n < 10 {
      assert NatText(n)[..0] == "";
    } else {
      NatRoundTrip(n / 10);
      assert NatText(n)[..|NatText(n)| - 1] == NatText(n / 10);
    }
  }

  lemma {:induction false} IntRoundTrip(n: int)
    ensures IntValue(IntText(n)) == n
  {
    if n < 0 {
      NatRoundTrip(-n);
      assert IntText(n)[1..] == NatText(-n);
    } else {
      NatRoundTrip(n);
      assert NatText(n)[0] in NatText(n);
    }
  }

  lemma {:induction false} NatTextInjective(m: nat, n: nat)
    requires NatText(m) == NatText(n)
    ensures m == n
  {
    NatRoundTrip(m);
    NatRoundTrip(n);
  }
}
