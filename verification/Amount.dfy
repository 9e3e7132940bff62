/** Amounts as the Windows shell prints and reads them. */
module Amount {
  import opened Types
  import opened Decimal
  import opened Canonical

  function Zeros(k: nat): (s: string)
    ensures |s| == k && AllDigits(s) && (forall i | 0 <= i < k :: s[i] == '0')
  {
    if k == 0 then "" else Zeros(k - 1) + "0"
  }

  // ----- printing

  /** `%08llu` of the fraction. */
  function Pad8(n: nat): (s: string)
    ensures AllDigits(s)
  {
    var s := NatText(n);
    if |s| < 8 then Zeros(8 - |s|) + s else s
  }

  function StripZeros(s: string): string {
    if s != "" && s[|s| - 1] == '0' then StripZeros(s[..|s| - 1]) else s
  }

  /** The text of an amount: sign, whole Basils, and the fraction without trailing zeros. */
  function BasilText(leafs: int): string {
    var abs := if leafs < 0 then -leafs else leafs;
    var whole, frac := abs / 100000000, abs % 100000000;
    var head := (if leafs < 0 then "-" else "") + NatText(whole);
    var tail := StripZeros(Pad8(frac));
    if frac == 0 || |tail| == 0 then head else head + "." + tail
  }

  method FormatLeafAmountAsBasil(leafs: int) returns (out: string)
    requires IsI64(leafs) && IsI64(-leafs) // the source negates in 64 bits
    ensures out == BasilText(leafs)
  {
    var negative := leafs < 0;
    var abs := if negative then -leafs else leafs;
    var whole := abs / 100000000;
    out := (if negative then "-" else "") + NatText(whole);
    var frac := abs % 100000000;
    if frac != 0 {
      var fracText := Pad8(frac);
      while fracText != "" && fracText[|fracText| - 1] == '0'
        invariant StripZeros(fracText) == StripZeros(Pad8(frac))
        decreases |fracText|
      {
        fracText := fracText[..|fracText| - 1];
      }
      if fracText != "" {
        out := out + "." + fracText;
      }
    }
  }

  // ----- reading

  function Spaceless(s: string): string {
    if s == "" then ""
    else Spaceless(s[..|s| - 1]) + (if IsSpace(s[|s| - 1]) then "" else [s[|s| - 1]])
  }

  /** Position of the first dot at or after `i`, or the length when there is none. */
  function DotFrom(s: string, i: nat): (k: nat)
    requires i <= |s|
    ensures i <= k <= |s|
    decreases |s| - i
  {
    if i == |s| || s[i] == '.' then i else DotFrom(s, i + 1)
  }

  function DotAt(s: string): (k: nat)
    ensures k <= |s|
  {
    DotFrom(s, 0)
  }

  function WholePart(text: string): string { text[..DotAt(text)] }

  function FracPart(text: string): string { text[Min(DotAt(text) + 1, |text|)..] }

  /** What the reader accepts, on text without spaces. */
  predicate Acceptable(text: string) {
    && text != "" && text[0] != '-'
    && WholePart(text) != "" && AllDigits(WholePart(text)) && AllDigits(FracPart(text)) && |FracPart(text)| <= 8
    && Value(WholePart(text)) <= 92233720368
  }

  /** The Leafs in a decimal fraction of at most eight digits. */
  function FracLeafs(frac: string): nat
    requires AllDigits(frac) && |frac| <= 8
  {
    if |frac| == 0 then 0 else Value(frac + Zeros(8 - |frac|))
  }

  /** The amount a text denotes: whole Basils plus a decimal fraction of one. */
  function ParseBasil(input: string): Option<int> { ParseText(Spaceless(input)) }

  function ParseText(text: string): Option<int> {
    if Acceptable(text) then Some(Value(WholePart(text)) * 100000000 + FracLeafs(FracPart(text))) else None
  }

  method ParseBasilAmountToLeafs(input: string) returns (r: Option<int>)
    ensures r == ParseBasil(input)
  {
    var text := "";
    for i := 0 to |input|
      invariant text == Spaceless(input[..i])
    {
      assert input[..i + 1][..i] == input[..i];
      if !IsSpace(input[i]) {
        text := text + [input[i]];
      }
    }
    assert input[..|input|] == input;
    r := ParseSpaceless(text);
  }

  method ParseSpaceless(text: string) returns (r: Option<int>)
    ensures r == ParseText(text)
  {
    if text == "" || text[0] == '-' {
      return None;
    }
    var dot := DotAt(text);
    var whole := text[..dot];
    var frac := text[Min(dot + 1, |text|)..];
    if AllDigits(frac) {
      DotPastDigits(frac, 0, |frac|);
    }
    if whole == "" || !AllDigits(whole) || !AllDigits(frac) || |frac| > 8 || DotAt(frac) < |frac| {
      return None;
    }
    WholeDigits(whole);
    var wholeParse := ParseI64(whole);
    if wholeParse.None? {
      return None;
    }
    if wholeParse.value > 92233720368 {
      return None;
    }
    var padded := frac + Zeros(8 - |frac|);
    PaddedFits(padded);
    PaddedIsFraction(frac);
    return Some(wholeParse.value * 100000000 + ParseI64OrZero(padded));
  }

  // ----- lemmas

  lemma {:induction false} DotPastDigits(s: string, i: nat, k: nat)
    requires i <= k <= |s| && (forall j | i <= j < k :: IsDigit(s[j])) && (k < |s| ==> s[k] == '.')
    ensures DotFrom(s, i) == k
    decreases k - i
  {
    if i < k {
      DotPastDigits(s, i + 1, k);
    }
  }

  lemma WholeDigits(s: string)
    requires s != "" && AllDigits(s)
    ensures ParseI64(s) == if Value(s) <= I64_MAX then Some(Value(s)) else None
  {
    DigitRunSpans(s, "");
    assert s + "" == s && s[..|s|] == s;
    assert IsDigit(s[0]);
  }

  function Pow10(k: nat): nat { if k == 0 then 1 else 10 * Pow10(k - 1) }

  lemma {:induction false} ValueOfZeros(k: nat)
    ensures Value(Zeros(k)) == 0
  {
    if k > 0 {
      ValueOfZeros(k - 1);
      assert Zeros(k)[..k - 1] == Zeros(k - 1);
    }
  }

  lemma {:induction false} LeadingZeros(k: nat, s: string)
    requires AllDigits(s)
    ensures Value(Zeros(k) + s) == Value(s)
  {
    if s == "" {
      assert Zeros(k) + s == Zeros(k);
      ValueOfZeros(k);
    } else {
      var front := s[..|s| - 1];
      LeadingZeros(k, front);
      assert (Zeros(k) + s)[..k + |front|] == Zeros(k) + front;
    }
  }

  lemma {:induction false} ValueBound(s: string)
    requires AllDigits(s)
    ensures Value(s) < Pow10(|s|)
  {
    if s != "" {
      ValueBound(s[..|s| - 1]);
    }
  }

  lemma PaddedFits(s: string)
    requires |s| == 8 && AllDigits(s)
    ensures ParseI64OrZero(s) == Value(s)
  {
    ValueBound(s);
    WholeDigits(s);
    Pow10Eight();
  }

  lemma Pow10Eight()
    ensures Pow10(8) == 100000000
  {
    assert Pow10(2) == 100;
    assert Pow10(4) == 10000;
    assert Pow10(6) == 1000000;
  }

  lemma {:induction false} NatTextLength(n: nat, k: nat)
    requires k >= 1 && n < Pow10(k)
    ensures |NatText(n)| <= k
  {
    if n >= 10 {
      assert k >= 2;
      NatTextLength(n / 10, k - 1);
    }
  }

  lemma Pad8Length(n: nat)
    requires n < 100000000
    ensures |Pad8(n)| == 8 && |NatText(n)| <= 8
  {
    Pow10Eight();
    NatTextLength(n, 8);
  }

  lemma Pad8Value(n: nat)
    requires n < 100000000
    ensures |Pad8(n)| == 8 && FracLeafs(Pad8(n)) == n
  {
    Pad8Length(n);
    assert Value(Pad8(n)) == n by {
      ValueOfNatText(n);
      if |NatText(n)| < 8 {
        LeadingZeros(8 - |NatText(n)|, NatText(n));
      }
    }
    assert Pad8(n) + Zeros(0) == Pad8(n);
  }

  lemma {:induction false} StripKeepsFraction(s: string)
    requires AllDigits(s) && |s| <= 8
    ensures var t := StripZeros(s); |t| <= |s| && AllDigits(t) && FracLeafs(t) == FracLeafs(s)
  {
    if s != "" && s[|s| - 1] == '0' {
      var front := s[..|s| - 1];
      StripKeepsFraction(front);
      assert front + Zeros(8 - |front|) == s + Zeros(8 - |s|);
      PaddedIsFraction(front);
    }
  }

  lemma {:induction false} SpacelessKeeps(s: string)
    requires forall i | 0 <= i < |s| :: !IsSpace(s[i])
    ensures Spaceless(s) == s
  {
    if s != "" {
      SpacelessKeeps(s[..|s| - 1]);
      assert s == s[..|s| - 1] + [s[|s| - 1]];
    }
  }

  lemma DotSplits(whole: string, frac: string)
    requires AllDigits(whole)
    ensures WholePart(whole) == whole && |FracPart(whole)| == 0
    ensures WholePart(whole + "." + frac) == whole && FracPart(whole + "." + frac) == frac
  {
    DotPastDigits(whole, 0, |whole|);
    assert whole[..|whole|] == whole;
    var s := whole + "." + frac;
    assert s[|whole|] == '.' && forall j | 0 <= j < |whole| :: s[j] == whole[j];
    DotPastDigits(s, 0, |whole|);
    assert s[..|whole|] == whole && s[|whole| + 1..] == frac;
  }

  lemma NoSpaces(whole: string, frac: string)
    requires AllDigits(whole) && AllDigits(frac)
    ensures Spaceless(whole) == whole && Spaceless(whole + "." + frac) == whole + "." + frac
  {
    var text := whole + "." + frac;
    forall i | 0 <= i < |text| ensures !IsSpace(text[i]) {
      assert IsDigit(text[i]) || text[i] == '.';
    }
    SpacelessKeeps(text);
    SpacelessKeeps(whole);
  }

  /** Reading `whole.frac` gives its value when both parts are in range. */
  lemma ParseOfParts(whole: string, frac: string)
    requires whole != "" && AllDigits(whole) && AllDigits(frac) && |frac| <= 8
    requires Value(whole) <= 92233720368
    ensures ParseBasil(whole + "." + frac) == Some(Value(whole) * 100000000 + FracLeafs(frac))
  {
    NoSpaces(whole, frac);
    DotSplits(whole, frac);
    ParseOfText(whole + "." + frac, whole, frac);
  }

  lemma ParseOfWhole(whole: string)
    requires whole != "" && AllDigits(whole) && Value(whole) <= 92233720368
    ensures ParseBasil(whole) == Some(Value(whole) * 100000000)
  {
    NoSpaces(whole, whole);
    DotSplits(whole, whole);
    ParseOfText(whole, whole, FracPart(whole));
  }

  lemma PaddedIsFraction(frac: string)
    requires AllDigits(frac) && |frac| <= 8
    ensures Value(frac + Zeros(8 - |frac|)) == FracLeafs(frac)
  {
    if |frac| == 0 {
      var k := 8 - |frac|;
      assert frac + Zeros(k) == Zeros(k);
      ValueOfZeros(k);
    }
  }

  lemma ParseOfText(text: string, whole: string, frac: string)
    requires Spaceless(text) == text && WholePart(text) == whole && FracPart(text) == frac
    requires whole != "" && AllDigits(whole) && AllDigits(frac) && |frac| <= 8
    requires Value(whole) <= 92233720368
    ensures ParseBasil(text) == Some(Value(whole) * 100000000 + FracLeafs(frac))
  {
    assert IsDigit(whole[0]) && text[0] == whole[0];
  }

  lemma NegativeRefused(text: string)
    ensures ParseBasil("-" + text).None?
  {
    SpacelessHead('-', text);
  }

  lemma {:induction false} SpacelessHead(c: char, s: string)
    requires !IsSpace(c)
    ensures Spaceless([c] + s) == [c] + Spaceless(s)
  {
    var t := [c] + s;
    if |s| == 0 {
      assert t[..0] == s;
    } else {
      SpacelessHead(c, s[..|s| - 1]);
      assert t[..|s|] == [c] + s[..|s| - 1];
    }
  }

  lemma NonNegativeRoundTrip(whole: nat, frac: nat)
    requires whole <= 92233720368 && frac < 100000000
    ensures var tail := StripZeros(Pad8(frac));
            ParseBasil(if frac == 0 || |tail| == 0 then NatText(whole) else NatText(whole) + "." + tail) ==
              Some(whole * 100000000 + frac)
  {
    var tail := StripZeros(Pad8(frac));
    ValueOfNatText(whole);
    StripOfPad(frac);
    if frac == 0 || |tail| == 0 {
      ParseOfWhole(NatText(whole));
    } else {
      ParseOfParts(NatText(whole), tail);
    }
  }

  lemma StripOfPad(frac: nat)
    requires frac < 100000000
    ensures var tail := StripZeros(Pad8(frac));
            |tail| <= 8 && AllDigits(tail) && FracLeafs(tail) == frac && (|tail| == 0 ==> frac == 0)
  {
    Pad8Value(frac);
    StripKeepsFraction(Pad8(frac));
  }

  lemma NegativeText(leafs: int)
    requires leafs < 0
    ensures BasilText(leafs) != "" && BasilText(leafs) == "-" + BasilText(leafs)[1..]
  {
  }

  lemma NonNegativeText(leafs: int)
    requires leafs >= 0
    ensures var whole, frac := leafs / 100000000, leafs % 100000000;
            var tail := StripZeros(Pad8(frac));
            BasilText(leafs) == if frac == 0 || |tail| == 0 then NatText(whole) else NatText(whole) + "." + tail
  {
    hide StripZeros, Pad8, NatText;
    var whole := leafs / 100000000;
    assert "" + NatText(whole) == NatText(whole);
  }

  /** Reading a printed amount returns it; a printed negative amount is refused. */
  lemma RoundTrip(leafs: int)
    requires IsI64(leafs) && IsI64(-leafs)
    ensures ParseBasil(BasilText(leafs)) == if leafs < 0 then None else Some(leafs)
  {
    hide BasilText, ParseBasil;
    if leafs < 0 {
      NegativeText(leafs);
      NegativeRefused(BasilText(leafs)[1..]);
    } else {
      NonNegativeText(leafs);
      NonNegativeRoundTrip(leafs / 100000000, leafs % 100000000);
    }
  }

  /** The 64-bit guard on the whole part admits sums past `INT64_MAX`: exactly those at the last admitted Basil. */
  lemma ParsedOverflow(input: string)
    requires ParseBasil(input).Some?
    ensures var text := Spaceless(input);
            !IsI64(ParseBasil(input).value) <==>
              Value(WholePart(text)) == 92233720368 &&
              FracLeafs(FracPart(text)) > 54775807
  {
    var text := Spaceless(input);
    var frac := FracPart(text);
    ValueBound(frac + Zeros(8 - |frac|));
    Pow10Eight();
  }

  /** One such input: 92233720368.54775808 reads as 2^63. */
  lemma OverflowExample()
    ensures ParseBasil(NatText(92233720368) + "." + NatText(54775808)) == Some(I64_MAX + 1)
  {
    EightDigits(54775808);
    ValueOfNatText(92233720368);
    ParseOfParts(NatText(92233720368), NatText(54775808));
  }

  lemma EightDigits(n: nat)
    requires 10000000 <= n < 100000000
    ensures |NatText(n)| == 8 && FracLeafs(NatText(n)) == n
  {
    Pad8Value(n);
    Pow10Eight();
    ValueOfNatText(n);
    ValueBound(NatText(n));
    PowMonotone(|NatText(n)|, 7);
    NatTextLength(n, 8);
    assert Zeros(0) + NatText(n) == NatText(n);
  }

  lemma {:induction false} PowMonotone(j: nat, k: nat)
    ensures j <= k ==> Pow10(j) <= Pow10(k)
  {
    if j < k {
      PowMonotone(j, k - 1);
    }
  }
}
