/**
 The profit-curve band editor, components/admin/profit-curve-panel-section.tsx: percent and amount
 texts, and the way from a stored configuration to a draft and back to a candidate.
 */
module ProfitCurve {
  import opened Common
  import opened JsStrings

  const MAX_BPS := 100000

  // ---- Percent texts ----

  /** The decimal integer texts, the ones `BigInt.toString` writes among them. */
  predicate IsIntText(s: string) {
    (s != "" && AllDigits(s)) || (|s| > 1 && s[0] == '-' && AllDigits(s[1..]))
  }

  /** `String(n)`; also `BigInt.toString`. */
  function IntText(n: int): (s: string)
    ensures IsIntText(s)
  {
    if n < 0 then "-" + Decimal(-n) else Decimal(n)
  }

  /** JavaScript's remainder takes the sign of the dividend. */
  function Remainder(a: int, b: int): int
    requires b > 0
  {
    if a >= 0 then a % b else -((-a) % b)
  }

  function PadStart2(s: string): string {
    if |s| < 2 then seq(2 - |s|, _ => '0') + s else s
  }

  function PadEnd2(s: string): string {
    if |s| < 2 then s + seq(2 - |s|, _ => '0') else s
  }

  function DropFinalZero(s: string): string {
    if s != [] && s[|s| - 1] == '0' then s[..|s| - 1] else s
  }

  function BpsToPercent(bps: int): string {
    var whole := bps / 100;
    var fraction := Remainder(bps, 100);
    if fraction == 0 then IntText(whole)
    else IntText(whole) + "." + DropFinalZero(PadStart2(IntText(fraction)))
  }

  /** `/^\d+(?:\.\d{1,2})?$/`, with the text already split at its points. */
  predicate IsPercent(parts: seq<string>) {
    && 1 <= |parts| <= 2
    && parts[0] != "" && AllDigits(parts[0])
    && (|parts| == 2 ==> 1 <= |parts[1]| <= 2 && AllDigits(parts[1]))
  }

  function PercentToBps(percent: string): (bps: Option<int>)
    ensures bps.Some? ==> 0 <= bps.value <= MAX_BPS
  {
    var parts := Split(Trim(percent), '.');
    if !IsPercent(parts) then None
    else
      var fraction := if |parts| == 2 then parts[1] else "";
      assert AllDigits(PadEnd2(fraction));
      var bps := DecimalValue(parts[0]) * 100 + DecimalValue(PadEnd2(fraction));
      if bps > MAX_BPS then None else Some(bps)
  }

  function FractionText(f: int): (s: string)
    requires 0 < f < 100
    ensures 1 <= |s| <= 2 && AllDigits(s)
  {
    if f % 10 == 0 then [DigitChar(f / 10)] else [DigitChar(f / 10), DigitChar(f % 10)]
  }

  lemma FractionShown(f: int)
    requires 0 < f < 100
    ensures DropFinalZero(PadStart2(IntText(f))) == FractionText(f)
  {
    if f < 10 {
      assert PadStart2(IntText(f)) == [DigitChar(0), DigitChar(f)];
    } else {
      assert Decimal(f) == Decimal(f / 10) + [DigitChar(f % 10)] == [DigitChar(f / 10), DigitChar(f % 10)];
    }
    assert f % 10 == 0 <==> DigitChar(f % 10) == '0';
  }

  lemma FractionValue(f: int)
    requires 0 < f < 100
    ensures AllDigits(PadEnd2(FractionText(f))) && DecimalValue(PadEnd2(FractionText(f))) == f
  {
    var t := PadEnd2(FractionText(f));
    assert t == [DigitChar(f / 10), DigitChar(f % 10)];
    TwoDigits(DigitChar(f / 10), DigitChar(f % 10));
  }

  lemma TwoDigits(a: char, b: char)
    requires IsDigit(a) && IsDigit(b)
    ensures DecimalValue([a, b]) == 10 * DigitValue(a) + DigitValue(b)
  {
    assert [a, b][..1] == [a];
    assert [a][..0] == [];
    assert DecimalValue([a]) == DigitValue(a);
  }

  lemma DigitsHaveNo(s: string, c: char)
    requires AllDigits(s) && !IsDigit(c)
    ensures c !in s
  {
  }

  lemma WholePercent(whole: nat)
    ensures PercentToBps(Decimal(whole)) == if whole * 100 <= MAX_BPS then Some(whole * 100) else None
  {
    var t := Decimal(whole);
    TrimNothing(t);
    DigitsHaveNo(t, '.');
    SplitWhole(t, '.');
    DecimalRoundTrip(whole);
    assert PadEnd2("") == ['0', '0'];
    TwoDigits('0', '0');
  }

  lemma FractionalPercent(whole: nat, f: int)
    requires 0 < f < 100
    ensures PercentToBps(Decimal(whole) + "." + FractionText(f))
         == if whole * 100 + f <= MAX_BPS then Some(whole * 100 + f) else None
  {
    var w, d := Decimal(whole), FractionText(f);
    var t := w + "." + d;
    assert t[0] == w[0] && t[|t| - 1] == d[|d| - 1];
    TrimNothing(t);
    DigitsHaveNo(w, '.');
    DigitsHaveNo(d, '.');
    SplitWhole(w, '.');
    SplitWhole(d, '.');
    SplitAppend(w, d, '.');
    assert t == w + ['.'] + d;
    assert Split(t, '.') == [w, d];
    DecimalRoundTrip(whole);
    FractionValue(f);
  }

  lemma NegativePercent(text: string)
    requires text != [] && text[0] == '-' && !IsSpace(text[|text| - 1])
    ensures PercentToBps(text) == None
  {
    TrimNothing(text);
    var parts := Split(text, '.');
    assert parts[0] != [] && parts[0][0] == '-';
  }

  lemma EndsVisible(s: string)
    requires s != []
    requires forall i :: 0 <= i < |s| ==> IsDigit(s[i]) || s[i] == '-' || s[i] == '.'
    ensures !IsSpace(s[|s| - 1])
  {
  }

  lemma NegativeShown(bps: int)
    requires bps < 0
    ensures PercentToBps(BpsToPercent(bps)) == None
  {
    hide PercentToBps;
    var t := BpsToPercent(bps);
    assert IntText(bps / 100)[0] == '-';
    EndsVisible(t);
    NegativePercent(t);
  }

  /** Exactly the basis points from 0 to 100,000 survive being shown as a percentage and read back. */
  lemma PercentRoundTrip(bps: int)
    ensures PercentToBps(BpsToPercent(bps)) == if 0 <= bps <= MAX_BPS then Some(bps) else None
  {
    hide PercentToBps;
    var fraction := Remainder(bps, 100);
    if bps < 0 {
      NegativeShown(bps);
    } else if fraction == 0 {
      WholePercent(bps / 100);
    } else {
      FractionShown(fraction);
      FractionalPercent(bps / 100, fraction);
    }
  }

  // ---- The texts themselves ----

  lemma ShownParts(bps: nat)
    ensures BpsToPercent(bps)
         == if bps % 100 == 0 then Decimal(bps / 100) else Decimal(bps / 100) + "." + FractionText(bps % 100)
  {
    hide FractionText, DropFinalZero, PadStart2, Decimal;
    if bps % 100 != 0 {
      FractionShown(bps % 100);
    }
  }

  lemma LastDigit(bps: nat)
    ensures bps % 100 % 10 == bps % 10
  {
  }

  /** A basis-point value of 0 or more is shown as its whole percents and, if any, its shortest fraction. */
  lemma PercentShown(bps: nat)
    ensures
      BpsToPercent(bps) ==
        if bps % 100 == 0 then Decimal(bps / 100)
        else if bps % 10 == 0 then Decimal(bps / 100) + "." + ["0123456789"[bps % 100 / 10]]
        else Decimal(bps / 100) + "." + ["0123456789"[bps % 100 / 10], "0123456789"[bps % 10]]
  {
    ShownParts(bps);
    LastDigit(bps);
    hide BpsToPercent, Decimal, FractionText;
    if bps % 100 != 0 {
      FractionWritten(bps % 100);
    }
  }

  lemma FractionWritten(f: int)
    requires 0 < f < 100
    ensures FractionText(f) == if f % 10 == 0 then ["0123456789"[f / 10]] else ["0123456789"[f / 10], "0123456789"[f % 10]]
  {
    DigitWritten(f / 10);
    DigitWritten(f % 10);
  }

  lemma DigitWritten(d: nat)
    requires d < 10
    ensures DigitChar(d) == "0123456789"[d]
  {
  }

  /** A percentage as it may be typed: blanks, whole percents, at most two further digits, blanks. */
  function Typed(pre: string, whole: string, fraction: string, post: string): string {
    pre + (if fraction == "" then whole else whole + "." + fraction) + post
  }

  predicate IsTyped(pre: string, whole: string, fraction: string, post: string) {
    && Blank(pre) && Blank(post)
    && whole != "" && AllDigits(whole) && AllDigits(fraction) && |fraction| <= 2
  }

  function TypedBps(whole: string, fraction: string): nat
    requires AllDigits(whole) && AllDigits(fraction)
  {
    100 * DecimalValue(whole) + if |fraction| == 1 then 10 * DecimalValue(fraction) else DecimalValue(fraction)
  }

  lemma CoreOfTyped(whole: string, fraction: string)
    requires whole != "" && AllDigits(whole) && AllDigits(fraction)
    ensures IsCore(if fraction == "" then whole else whole + "." + fraction)
  {
    var core := if fraction == "" then whole else whole + "." + fraction;
    assert core[0] == whole[0];
    assert core[|core| - 1] == if fraction == "" then whole[|whole| - 1] else fraction[|fraction| - 1];
  }

  lemma PiecesOfTyped(whole: string, fraction: string)
    requires AllDigits(whole) && AllDigits(fraction)
    ensures Split(whole, '.') == [whole] && Split(whole + "." + fraction, '.') == [whole, fraction]
  {
    DigitsHaveNo(whole, '.');
    DigitsHaveNo(fraction, '.');
    SplitWhole(whole, '.');
    SplitWhole(fraction, '.');
    SplitAppend(whole, fraction, '.');
  }

  lemma FractionPadded(fraction: string)
    requires AllDigits(fraction) && |fraction| <= 2
    ensures PadEnd2(fraction)
         == if fraction == "" then ['0', '0'] else if |fraction| == 1 then [fraction[0], '0'] else fraction
  {
  }

  lemma FractionRead(fraction: string)
    requires AllDigits(fraction) && |fraction| <= 2
    ensures AllDigits(PadEnd2(fraction))
    ensures DecimalValue(PadEnd2(fraction))
         == if |fraction| == 1 then 10 * DecimalValue(fraction) else DecimalValue(fraction)
  {
    FractionPadded(fraction);
    hide PadEnd2;
    if |fraction| <= 1 {
      TwoDigits(if fraction == "" then '0' else fraction[0], '0');
    }
    if |fraction| == 1 {
      OneDigit(fraction[0]);
      assert fraction == [fraction[0]];
    }
  }

  lemma OneDigit(c: char)
    requires IsDigit(c)
    ensures DecimalValue([c]) == DigitValue(c)
  {
    assert [c][..0] == "";
  }

  /** Every typed percentage of at most 100,000 basis points is read as it is written, blanks around it or not. */
  lemma TypedIsRead(pre: string, whole: string, fraction: string, post: string)
    requires IsTyped(pre, whole, fraction, post)
    ensures PercentToBps(Typed(pre, whole, fraction, post))
         == if TypedBps(whole, fraction) <= 100_000 then Some(TypedBps(whole, fraction)) else None
  {
    CoreOfTyped(whole, fraction);
    TrimDropsBlanks(pre, if fraction == "" then whole else whole + "." + fraction, post);
    PiecesOfTyped(whole, fraction);
    FractionRead(fraction);
    hide Trim, Split, DecimalValue, Blank, IsCore, PadEnd2;
  }

  /** And nothing else is read. */
  lemma ReadIsTyped(text: string) returns (pre: string, whole: string, fraction: string, post: string)
    requires PercentToBps(text).Some?
    ensures IsTyped(pre, whole, fraction, post) && text == Typed(pre, whole, fraction, post)
  {
    pre, post := TrimParts(text);
    var parts := Split(Trim(text), '.');
    JoinSplit(Trim(text), '.');
    whole := parts[0];
    fraction := if |parts| == 2 then parts[1] else "";
    hide Trim, Split, Blank, DecimalValue;
    assert |parts| == 2 ==> parts[1..] == [parts[1]];
  }
}
