/** Decimal text of 64-bit numbers. */
module Decimal {
  import opened Types
  import opened Text

  predicate IsDigit(c: char) { '0' <= c <= '9' }

  predicate AllDigits(s: string) { forall i | 0 <= i < |s| :: IsDigit(s[i]) }

  function DigitChar(d: nat): char
    requires d < 10
  {
    '0' + d as char
  }

  function DigitValue(c: char): nat
    requires IsDigit(c)
  {
    c as int - '0' as int
  }

  /** Decimal digits without leading zeros. */
  function NatText(n: nat): (s: string)
    ensures s != "" && AllDigits(s)
  {
    if n < 10 then [DigitChar(n)] else NatText(n / 10) + [DigitChar(n % 10)]
  }

  function IntText(n: int): string { if n < 0 then "-" + NatText(-n) else NatText(n) }

  function Value(s: string): nat
    requires AllDigits(s)
  {
    if s == "" then 0 else 10 * Value(s[..|s| - 1]) + DigitValue(s[|s| - 1])
  }

  /** How many leading characters are digits. */
  function DigitRun(s: string): (k: nat)
    ensures k <= |s| && AllDigits(s[..k])
    ensures k < |s| ==> !IsDigit(s[k])
  {
    if s == "" || !IsDigit(s[0]) then 0
    else
      var k := 1 + DigitRun(s[1..]);
      assert forall i | 0 < i < k :: s[i] == s[1..][i - 1];
      k
  }

  /** `from_chars` on an unsigned type: the digit run decides, trailing text is ignored. */
  function ParseUpTo(s: string, limit: nat): (r: Option<nat>)
    ensures r.Some? ==> r.value <= limit
  {
    var k := DigitRun(s);
    if k == 0 then None
    else
      var v := Value(s[..k]);
      if v <= limit then Some(v) else None
  }

  function ParseU64(s: string): Option<nat> { ParseUpTo(s, U64_MAX) }

  function ParseI64(s: string): (r: Option<int>)
    ensures r.Some? ==> IsI64(r.value)
  {
    if s != "" && s[0] == '-' then
      var r := ParseUpTo(s[1..], I64_MAX + 1);
      if r.Some? then Some(0 - r.value) else None
    else
      var r := ParseUpTo(s, I64_MAX);
      if r.Some? then Some(r.value) else None
  }

  function ParseI64OrZero(s: string): (r: int)
    ensures IsI64(r)
  {
    match ParseI64(s)
    case Some(v) => v
    case None => 0
  }

  /** The same for `int`. */
  function ParseI32OrZero(s: string): int {
    if s != "" && s[0] == '-' then
      var r := ParseUpTo(s[1..], 0x8000_0000);
      if r.Some? then 0 - r.value else 0
    else
      var r := ParseUpTo(s, 0x7fff_ffff);
      if r.Some? then r.value else 0
  }

  lemma {:induction false} ValueOfNatText(n: nat)
    ensures Value(NatText(n)) == n
  {
    if n >= 10 {
      ValueOfNatText(n / 10);
      var s := NatText(n);
      assert s[..|s| - 1] == NatText(n / 10);
      assert s[|s| - 1] == DigitChar(n % 10);
    } else {
      assert NatText(n)[..0] == "";
    }
  }

  lemma {:induction false} DigitRunSpans(s: string, rest: string)
    requires AllDigits(s) && (rest == "" || !IsDigit(rest[0]))
    ensures DigitRun(s + rest) == |s|
  {
    if s == "" {
      assert s + rest == rest;
    } else {
      DigitRunSpans(s[1..], rest);
      assert (s + rest)[1..] == s[1..] + rest;
    }
  }

  lemma ParseOfNatText(n: nat, rest: string, limit: nat)
    requires n <= limit && (rest == "" || !IsDigit(rest[0]))
    ensures ParseUpTo(NatText(n) + rest, limit) == Some(n)
  {
    var s := NatText(n);
    DigitRunSpans(s, rest);
    assert (s + rest)[..|s|] == s;
    ValueOfNatText(n);
  }

  lemma ParseU64OfText(n: nat)
    requires n <= U64_MAX
    ensures ParseU64(NatText(n)) == Some(n)
  {
    ParseOfNatText(n, "", U64_MAX);
    assert NatText(n) + "" == NatText(n);
  }

  /** Reading back what was printed returns the number, for every `int64_t`. */
  lemma ParseI64OfText(n: int)
    requires IsI64(n)
    ensures ParseI64(IntText(n)) == Some(n)
  {
    if n < 0 {
      ParseOfNatText(-n, "", I64_MAX + 1);
      assert NatText(-n) + "" == NatText(-n) == IntText(n)[1..];
    } else {
      ParseOfNatText(n, "", I64_MAX);
      assert NatText(n) + "" == NatText(n);
      assert IsDigit(NatText(n)[0]);
    }
  }

  /** Printing is injective on all integers. */
  lemma IntTextInjective(m: int, n: int)
    requires IntText(m) == IntText(n)
    ensures m == n
  {
    ValueOfNatText(if m < 0 then -m else m);
    ValueOfNatText(if n < 0 then -n else n);
    if m < 0 {
      assert IntText(m)[0] == '-' && IntText(m)[1..] == NatText(-m);
    } else {
      assert IsDigit(IntText(m)[0]);
    }
    if n < 0 {
      assert IntText(n)[0] == '-' && IntText(n)[1..] == NatText(-n);
    } else {
      assert IsDigit(IntText(n)[0]);
    }
  }

  /** Printed integers hold digits and a minus sign only. */
  lemma IntTextLacks(n: int, c: char)
    requires c != '-' && !IsDigit(c)
    ensures Lacks(IntText(n), c)
  {
    var s := NatText(if n < 0 then -n else n);
    assert forall i | 0 <= i < |s| :: IsDigit(s[i]);
  }
}
