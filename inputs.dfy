/**
 * The weight and height inputs of the diary form: the keystroke sanitisers
 * (`handleWeightChange`, `handleHeightChange`) and the -/+ steppers
 * (`adjustWeight`, `adjustHeight`), each as the value it would store.
 */
module Inputs {
  import opened Optional
  import opened Text
  import opened Numerals

  predicate IsWeightChar(c: char) { IsDigit(c) || c == '.' }

  /** Weight text as the form keeps it: digits and at most one point, with at most one
      digit after the point. */
  predicate IsWeightText(w: string)
  {
    && (forall i :: 0 <= i < |w| ==> IsWeightChar(w[i]))
    && (forall i :: 0 <= i < |w| && w[i] == '.' ==> i + 2 >= |w| && (i + 1 == |w| || IsDigit(w[i + 1])))
  }

  /** Height text as the form keeps it: at most three digits. */
  predicate IsHeightText(h: string)
  {
    AllDigits(h) && |h| <= 3
  }

  /** The texts the form opens with, `65.0` kg and `170` cm, are valid. */
  lemma {:induction false} OpeningTextsValid()
    ensures IsWeightText("65.0") && IsHeightText("170")
  {
    assert "65.0"[2] == '.' && IsDigit("65.0"[3]);
  }

  function Min(a: int, b: int): int { if a <= b then a else b }

  function Max(a: int, b: int): int { if a >= b then a else b }

  function MaxReal(a: real, b: real): real { if a >= b then a else b }

  /** The weight text `handleWeightChange(value)` stores, or `None` when it rejects the edit.
      Everything but digits and points is dropped; the edit is rejected exactly when more than
      one point is left; otherwise what is stored is valid weight text and a prefix of the
      cleaned input, and only fraction digits beyond the first are cut off: either the cleaned
      input is kept whole or it is cut just after the first digit behind the point. */
  function SanitizeWeight(value: string): (r: Option<string>)
    ensures var cleaned := KeepIf(value, IsWeightChar);
      && (r.None? <==> Count(cleaned, '.') >= 2)
      && (r.Some? ==> IsWeightText(r.value) && r.value <= cleaned
                      && (forall i :: |r.value| <= i < |cleaned| ==> IsDigit(cleaned[i]))
                      && (r.value == cleaned || (|r.value| >= 2 && r.value[|r.value| - 2] == '.')))
  {
    var cleaned := KeepIf(value, IsWeightChar);
    var parts := Split(cleaned, '.');
    if |parts| > 2 then None
    else
      var formatted :=
        if |parts| == 2 then parts[0] + "." + parts[1][..Min(1, |parts[1]|)] else cleaned;
      FormattedWeight(cleaned);
      Some(formatted)
  }

  lemma {:induction false} FormattedWeight(cleaned: string)
    requires forall i :: 0 <= i < |cleaned| ==> IsWeightChar(cleaned[i])
    requires |Split(cleaned, '.')| <= 2
    ensures var parts := Split(cleaned, '.');
      var formatted :=
        if |parts| == 2 then parts[0] + "." + parts[1][..Min(1, |parts[1]|)] else cleaned;
      IsWeightText(formatted) && formatted <= cleaned
      && (forall i :: |formatted| <= i < |cleaned| ==> IsDigit(cleaned[i]))
      && (formatted == cleaned || (|formatted| >= 2 && formatted[|formatted| - 2] == '.'))
  {
    var parts := Split(cleaned, '.');
    if |parts| == 1 {
      assert cleaned == parts[0];
      forall i | 0 <= i < |cleaned| ensures cleaned[i] != '.' {
        assert cleaned[i] in parts[0];
      }
    } else {
      var p0, p1 := parts[0], parts[1];
      assert Join(parts[1..], '.') == p1;
      assert cleaned == p0 + "." + p1;
      var k := Min(1, |p1|);
      var formatted := p0 + "." + p1[..k];
      assert AllDigits(p0) by {
        forall i | 0 <= i < |p0| ensures IsDigit(p0[i]) {
          assert cleaned[i] == p0[i];
          assert p0[i] in p0;
        }
      }
      assert AllDigits(p1) by {
        forall i | 0 <= i < |p1| ensures IsDigit(p1[i]) {
          assert cleaned[|p0| + 1 + i] == p1[i];
          assert p1[i] in p1;
        }
      }
      assert formatted <= cleaned by {
        assert cleaned == formatted + p1[k..];
      }
      forall i | |formatted| <= i < |cleaned| ensures IsDigit(cleaned[i]) {
        assert cleaned[i] == p1[i - |p0| - 1];
      }
      if k == |p1| {
        assert p1[..k] == p1;
      } else {
        assert formatted[|formatted| - 2] == '.';
      }
    }
  }

  /** A valid weight text splits at its point into at most two runs of digits, the second
      of at most one digit. */
  lemma {:induction false} WeightTextParts(w: string)
    requires IsWeightText(w)
    ensures var parts := Split(w, '.');
      && |parts| <= 2
      && (forall i :: 0 <= i < |parts| ==> AllDigits(parts[i]))
      && (|parts| == 2 ==> |parts[1]| <= 1)
  {
    var parts := Split(w, '.');
    var p0 := parts[0];
    WeightTextPoints(w);
    forall j, i | 0 <= j < |parts| && 0 <= i < |parts[j]| ensures IsDigit(parts[j][i]) {
      if j == 0 {
        if |parts| == 2 {
          assert Join(parts[1..], '.') == parts[1];
          assert w == p0 + "." + parts[1];
        }
        assert w[i] == p0[i];
      } else {
        assert Join(parts[1..], '.') == parts[1];
        assert w == p0 + "." + parts[1];
        assert w[|p0| + 1 + i] == parts[1][i];
      }
      assert parts[j][i] in parts[j];
    }
    if |parts| == 2 {
      assert Join(parts[1..], '.') == parts[1];
      assert w == p0 + "." + parts[1];
      assert w[|p0|] == '.';
    }
  }

  /** A valid weight text holds at most one point. */
  lemma {:induction false} WeightTextPoints(w: string)
    requires IsWeightText(w)
    ensures Count(w, '.') <= 1
    decreases |w|
  {
    if w != [] {
      var rest := w[1..];
      if w[0] == '.' {
        assert |rest| <= 1 && (|rest| == 1 ==> IsDigit(w[1]));
        assert Count(rest, '.') == 0 by {
          if |rest| == 1 { assert rest[1..] == []; }
        }
      } else {
        assert IsWeightText(rest) by {
          forall i | 0 <= i < |rest| && rest[i] == '.'
            ensures i + 2 >= |rest| && (i + 1 == |rest| || IsDigit(rest[i + 1]))
          {
            assert w[i + 1] == '.';
          }
        }
        WeightTextPoints(rest);
      }
    }
  }

  /** Every valid weight text is a numeral `parseFloat` reads. */
  lemma {:induction false} WeightTextIsNumeral(w: string)
    requires IsWeightText(w)
    ensures IsNumeral(w)
  {
    WeightTextParts(w);
    assert Unsigned(w) == w by {
      if |w| > 0 { assert IsWeightChar(w[0]); }
    }
  }

  /** `handleWeightChange` leaves valid weight text as it is. */
  lemma {:induction false} SanitizeWeightIdempotent(w: string)
    requires IsWeightText(w)
    ensures SanitizeWeight(w) == Some(w)
  {
    WeightTextParts(w);
    var parts := Split(w, '.');
    if |parts| == 2 {
      assert Join(parts[1..], '.') == parts[1];
      assert parts[1][..Min(1, |parts[1]|)] == parts[1];
    }
  }

  /** The height text `handleHeightChange(value)` stores, or `None` when it rejects the edit:
      the digits of the input, accepted exactly when there are at most three. */
  function SanitizeHeight(value: string): (r: Option<string>)
    ensures var cleaned := KeepIf(value, IsDigit);
      && (r.None? <==> |cleaned| > 3)
      && (r.Some? ==> IsHeightText(r.value) && r.value == cleaned)
  {
    var cleaned := KeepIf(value, IsDigit);
    if |cleaned| <= 3 then Some(cleaned) else None
  }

  /** `handleHeightChange` leaves valid height text as it is. */
  lemma {:induction false} SanitizeHeightIdempotent(h: string)
    requires IsHeightText(h)
    ensures SanitizeHeight(h) == Some(h)
  {
  }

  /** The weight in kilograms the form reads from its text: `parseFloat(weight) || 0`. The text
      has no minus sign, so the weight is never negative. */
  function WeightKg(weight: string): (r: real)
    requires IsWeightText(weight)
    ensures r >= 0.0
  {
    WeightTextIsNumeral(weight);
    assert |weight| > 0 ==> IsWeightChar(weight[0]);
    OrZero(ParseFloat(weight))
  }

  /** A weight that reads as positive is exactly what `parseFloat` reads. */
  lemma {:induction false} WeightKgParsed(weight: string)
    requires IsWeightText(weight) && WeightKg(weight) > 0.0
    ensures IsNumeral(weight) && ParseFloat(weight) == Some(WeightKg(weight))
  {
    WeightTextIsNumeral(weight);
  }

  /** The text `adjustWeight(delta)` stores: the weight moved by `delta`, floored at zero,
      printed with one decimal. It is valid weight text and reads back as that value rounded
      to one decimal, so never below zero. */
  function AdjustedWeight(weight: string, delta: real): (r: string)
    requires IsWeightText(weight)
    ensures IsWeightText(r) && IsNumeral(r)
    ensures ParseFloat(r) == Some(Round1(MaxReal(0.0, WeightKg(weight) + delta)))
    ensures ParseFloat(r).value >= 0.0
  {
    var newWeight := MaxReal(0.0, WeightKg(weight) + delta);
    var r := ToFixed1(newWeight);
    var n := TenthsMagnitude(newWeight);
    ToFixed1Text(newWeight);
    UnsignedFixedText(n);
    FixedIsWeightText(NatToDigits(n / 10), DigitChar(n % 10));
    r
  }

  /** `w.d` with a digit run `w` and a digit `d` is valid weight text. */
  lemma {:induction false} FixedIsWeightText(whole: string, d: char)
    requires AllDigits(whole) && IsDigit(d)
    ensures IsWeightText(whole + "." + [d])
  {
    var s := whole + "." + [d];
  }

  /** The height in centimetres the stepper starts from: `parseInt(height) || 0`, the number
      the digits spell, and 0 for an empty box. */
  function HeightCm(height: string): (r: nat)
    requires AllDigits(height)
    ensures r == DigitsValue(height)
  {
    match ParseInt(height)
    case None => 0
    case Some(v) => v
  }

  /** The text `adjustHeight(delta)` stores: the height moved by `delta` and clamped to
      0..300, printed as a plain integer, so always valid height text. */
  function AdjustedHeight(height: string, delta: int): (r: string)
    requires IsHeightText(height)
    ensures IsHeightText(r) && r == NatToDigits(DigitsValue(r))
    ensures 0 <= DigitsValue(r) <= 300
    ensures var target := HeightCm(height) + delta;
      && (0 <= target <= 300 ==> DigitsValue(r) == target)
      && (target < 0 ==> DigitsValue(r) == 0)
      && (target > 300 ==> DigitsValue(r) == 300)
  {
    var newHeight := Max(0, Min(300, HeightCm(height) + delta));
    NatToDigitsLength(newHeight);
    NatToDigits(newHeight)
  }
}
