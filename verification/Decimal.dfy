/** Decimal integers as Go prints them with `%d` and reads them back with `Sscanf`:
    the subscriber ids of the hub and the `Last-Event-ID` header both rely on it. */
module Decimal {

  predicate IsDigit(c: char) {
    '0' <= c <= '9'
  }

  function Digit(d: nat): (c: char)
    requires d < 10
    ensures IsDigit(c)
  {
    "0123456789"[d]
  }

  function Digits(n: nat): (s: string)
    ensures |s| > 0
    ensures forall c :: c in s ==> IsDigit(c)
  {
    if n < 10 then [Digit(n)] else Digits(n / 10) + [Digit(n % 10)]
  }

  /** `%d`. */
  function Render(i: int): string {
    if i < 0 then "-" + Digits(-i) else Digits(i)
  }

  function DigitsValue(s: string): (n: int)
    ensures n >= 0
    requires forall c :: c in s ==> IsDigit(c)
  {
    if s == "" then 0
    else
      var last := s[|s| - 1];
      assert last in s && IsDigit(last);
      DigitsValue(s[..|s| - 1]) * 10 + (last as int - '0' as int)
  }

  function DigitPrefix(s: string): (p: string)
    ensures p <= s
    ensures forall c :: c in p ==> IsDigit(c)
  {
    if s == "" || !IsDigit(s[0]) then "" else [s[0]] + DigitPrefix(s[1..])
  }

  /** `Sscanf(s, "%d", &v)` on a `v` that starts at 0: an optional sign and the digits
      that follow it; anything else leaves `v` at 0. */
  function Scan(s: string): int {
    if s != "" && s[0] == '-' then -DigitsValue(DigitPrefix(s[1..]))
    else if s != "" && s[0] == '+' then DigitsValue(DigitPrefix(s[1..]))
    else DigitsValue(DigitPrefix(s))
  }

  lemma {:induction false} DigitsRoundTrip(n: nat)
    ensures DigitsValue(Digits(n)) == n
  {
    if n < 10 {
      assert Digits(n)[..0] == "";
    } else {
      DigitsRoundTrip(n / 10);
      assert Digits(n)[..|Digits(n)| - 1] == Digits(n / 10);
    }
  }

  lemma {:induction false} DigitPrefixAll(s: string)
    requires forall c :: c in s ==> IsDigit(c)
    ensures DigitPrefix(s) == s
  {
    if s != "" {
      DigitPrefixAll(s[1..]);
    }
  }

  /** Reading back what `%d` printed gives the same integer. */
  lemma ScanRender(i: int)
    ensures Scan(Render(i)) == i
  {
    var n := if i < 0 then -i else i;
    DigitsRoundTrip(n);
    DigitPrefixAll(Digits(n));
    assert IsDigit(Digits(n)[0]);
  }

  lemma {:induction false} DigitsThenRest(s: string, rest: string)
    requires (forall c | c in s :: IsDigit(c)) && (rest == "" || !IsDigit(rest[0]))
    ensures DigitPrefix(s + rest) == s
  {
    if s == "" {
      assert s + rest == rest;
    } else {
      assert s[0] in s && forall c | c in s[1..] :: c in s;
      assert (s + rest)[1..] == s[1..] + rest;
      DigitsThenRest(s[1..], rest);
    }
  }

  /** What else a header may contain: digits count as far as they go, with or without a sign,
      and where there are none the number is 0. */
  lemma ScanOthers(n: nat, rest: string)
    requires rest == "" || !IsDigit(rest[0])
    ensures Scan(Digits(n) + rest) == n && Scan("+" + (Digits(n) + rest)) == n
    ensures Scan("-" + (Digits(n) + rest)) + n == 0
    ensures rest == "" || (rest[0] != '+' && rest[0] != '-') ==> Scan(rest) == 0
  {
    var s := Digits(n) + rest;
    DigitsThenRest(Digits(n), rest);
    DigitsThenRest("", rest);
    DigitsRoundTrip(n);
    assert "" + rest == rest && s[0] == Digits(n)[0] && IsDigit(s[0]);
    assert ("+" + s)[1..] == s && ("-" + s)[1..] == s;
    hide Digits, DigitPrefix;
  }

  lemma {:induction false} NoLeadingZero(n: nat)
    requires n > 0
    ensures Digits(n)[0] != '0'
  {
    if n >= 10 {
      NoLeadingZero(n / 10);
      assert Digits(n)[0] == Digits(n / 10)[0];
    } else {
      assert "0123456789"[n] != '0';
    }
  }

  /** No leading zeros, and a sign for negative integers only. */
  lemma RenderShape(i: int)
    ensures Render(0) == "0"
    ensures i > 0 ==> Render(i)[0] != '0' && forall c | c in Render(i) :: IsDigit(c)
    ensures i < 0 ==> Render(i) == "-" + Render(-i)
  {
    if i > 0 {
      NoLeadingZero(i);
    }
  }

  lemma RenderInjective(i: int, j: int)
    requires Render(i) == Render(j)
    ensures i == j
  {
    ScanRender(i);
    ScanRender(j);
  }
}
