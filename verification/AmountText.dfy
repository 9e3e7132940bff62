/** Which texts are amounts. */
module AmountText {
  import opened Types
  import opened Decimal
  import opened Canonical
  import opened Amount

  /** Digits, and perhaps a dot and up to eight digits more; at most as many whole Basils as 64 bits have room for. */
  predicate Denotes(text: string, whole: string, frac: string) {
    && |whole| > 0 && AllDigits(whole) && AllDigits(frac) && |frac| <= 8 && Value(whole) <= 92_233_720_368
    && (text == whole + "." + frac || (text == whole && |frac| == 0))
  }

  lemma {:induction false} ShiftedValue(s: string, k: nat)
    requires AllDigits(s)
    ensures AllDigits(s + Zeros(k)) && Value(s + Zeros(k)) == Value(s) * Pow10(k)
  {
    if k == 0 {
      assert s + Zeros(0) == s;
    } else {
      ShiftedValue(s, k - 1);
      assert (s + Zeros(k))[..|s| + k - 1] == s + Zeros(k - 1);
    }
  }

  lemma FractionValue(frac: string)
    requires AllDigits(frac) && |frac| <= 8
    ensures FracLeafs(frac) == Value(frac) * Pow10(8 - |frac|)
  {
    hide Value, Pow10, AllDigits;
    ShiftedValue(frac, 8 - |frac|);
    NoDigits(frac);
  }

  lemma NoDigits(s: string)
    requires AllDigits(s)
    ensures |s| == 0 ==> Value(s) == 0
  {
  }

  lemma DenotedParts(text: string, whole: string, frac: string)
    requires Denotes(text, whole, frac)
    ensures WholePart(text) == whole && FracPart(text) == frac && Acceptable(text)
  {
    hide Value, DotFrom;
    DotSplits(whole, frac);
    assert IsDigit(whole[0]) && text[0] == whole[0];
  }

  lemma AcceptedDenotes(text: string)
    requires Acceptable(text)
    ensures Denotes(text, WholePart(text), FracPart(text))
  {
    hide Value;
    var dot := DotAt(text);
    DotFound(text, 0);
    assert text == text[..dot] + text[dot..];
  }

  lemma DotFound(s: string, i: nat)
    requires i <= |s|
    ensures var k := DotFrom(s, i); k < |s| ==> s[k] == '.'
    decreases |s| - i
  {
    if !(i == |s| || s[i] == '.') {
      DotFound(s, i + 1);
    }
  }

  /** The reader takes exactly the texts that denote an amount once the spaces are gone, and reads the amount they denote. */
  lemma ReadsExactly(input: string)
    ensures ParseBasil(input).Some? <==> exists whole, frac :: Denotes(Spaceless(input), whole, frac)
    ensures forall whole, frac | Denotes(Spaceless(input), whole, frac) ::
              ParseBasil(input) == Some(Value(whole) * 100_000_000 + Value(frac) * Pow10(8 - |frac|))
  {
    hide Value, Spaceless, FracLeafs, WholePart, FracPart, Pow10, AllDigits, Acceptable, Denotes, ParseBasil;
    var text := Spaceless(input);
    Unfolded(input);
    if Acceptable(text) {
      AcceptedDenotes(text);
    }
    forall whole, frac | Denotes(text, whole, frac)
      ensures AllDigits(whole) && AllDigits(frac) && |frac| <= 8
      ensures ParseBasil(input) == Some(Value(whole) * 100_000_000 + Value(frac) * Pow10(8 - |frac|))
    {
      DigitsOf(text, whole, frac);
      DenotedReads(input, whole, frac);
    }
  }

  lemma Unfolded(input: string)
    ensures ParseBasil(input).Some? <==> Acceptable(Spaceless(input))
  {
    hide Value, Spaceless, FracLeafs, WholePart, FracPart, AllDigits;
  }

  lemma DigitsOf(text: string, whole: string, frac: string)
    requires Denotes(text, whole, frac)
    ensures AllDigits(whole) && AllDigits(frac) && |frac| <= 8
  {
  }

  lemma DenotedReads(input: string, whole: string, frac: string)
    requires Denotes(Spaceless(input), whole, frac)
    ensures ParseBasil(input) == Some(Value(whole) * 100_000_000 + Value(frac) * Pow10(8 - |frac|))
  {
    hide Value, Spaceless, FracLeafs, WholePart, FracPart, Pow10, AllDigits;
    DenotedParts(Spaceless(input), whole, frac);
    FractionValue(frac);
  }

  // ----- spaces

  /** Spaces go. */
  lemma SpaceGoes(c: char)
    ensures Spaceless([c]) == if c == ' ' || '\t' <= c <= '\r' then "" else [c]
  {
    assert [c][..0] == "";
  }

  /** Everything else stays in its place. */
  lemma {:induction false} RestStays(a: string, b: string)
    ensures Spaceless(a + b) == Spaceless(a) + Spaceless(b)
  {
    hide IsSpace;
    if b == "" {
      assert a + b == a;
    } else {
      var front := b[..|b| - 1];
      RestStays(a, front);
      assert (a + b)[..|a + b| - 1] == a + front;
    }
  }

  // ----- printing

  lemma {:induction false} Stripped(s: string)
    ensures var t := StripZeros(s); t == "" || t[|t| - 1] != '0'
  {
    if s != "" && s[|s| - 1] == '0' {
      Stripped(s[..|s| - 1]);
    }
  }

  /** The text of an amount that is not negative: whole Basils, and a fraction without trailing zeros only if there is one. */
  lemma PrintsShort(leafs: nat)
    ensures leafs % 100_000_000 == 0 ==> BasilText(leafs) == NatText(leafs / 100_000_000)
    ensures leafs % 100_000_000 != 0 ==>
              exists tail :: 1 <= |tail| <= 8 && AllDigits(tail) && tail[|tail| - 1] != '0' &&
                Value(tail) * Pow10(8 - |tail|) == leafs % 100_000_000 &&
                BasilText(leafs) == NatText(leafs / 100_000_000) + "." + tail
  {
    hide StripZeros, Pad8, NatText, Value, Pow10, FracLeafs, BasilText;
    NonNegativeText(leafs);
    var frac := leafs % 100_000_000;
    StripOfPad(frac);
    var tail := StripZeros(Pad8(frac));
    Stripped(Pad8(frac));
    FractionValue(tail);
  }

  /** And a sign in front of it if it is negative. */
  lemma PrintsSign(leafs: int)
    requires leafs > 0
    ensures BasilText(-leafs) == "-" + BasilText(leafs)
  {
    hide StripZeros, Pad8, NatText;
    var whole, tail := NatText(leafs / 100_000_000), StripZeros(Pad8(leafs % 100_000_000));
    SignFirst(whole, tail);
    assert "" + whole == whole;
  }

  lemma SignFirst(whole: string, tail: string)
    ensures "-" + whole + "." + tail == "-" + (whole + "." + tail)
  {
  }
}
