/**
 * Worked measurements for the BMI advisor, from the form's initial state
 * (65.0 kg, 170 cm) and around it, including the boundary case where rounding
 * lifts a BMI below 23 into the overweight band and the tip asks to lose a
 * negative amount.
 */
module BmiScenarios {
  import opened Optional
  import opened Numerals
  import opened Inputs
  import opened BmiAdvisor

  /** Weight text of `tenths` tenths is read as `tenths / 10` kilograms. */
  lemma {:induction false} WeightReads(s: string, tenths: nat)
    requires s == FixedText(false, tenths)
    ensures IsWeightText(s) && WeightKg(s) == tenths as real / 10.0
  {
    UnsignedFixedText(tenths);
    FixedIsWeightText(NatToDigits(tenths / 10), DigitChar(tenths % 10));
    FixedTextReadsBack(false, tenths);
  }

  /** Height text of a plain integer is read as that many centimetres. */
  lemma {:induction false} HeightReads(s: string, cm: nat)
    requires s == NatToDigits(cm)
    ensures AllDigits(s) && s != [] && HeightCm(s) == cm
  {
  }

  /** `x.toFixed(1)` for an `x` whose rounded tenths are known. */
  lemma {:induction false} PrintsAs(x: real, tenths: int)
    requires RoundTenths(x) == tenths
    ensures ToFixed1(x) == FixedText(x < 0.0, if x < 0.0 then -tenths else tenths)
  {
    ToFixed1Text(x);
  }

  /** The BMI text of a measurement of `kg` kilograms at `cm` centimetres whose exact BMI
      rounds to `tenths` tenths. */
  lemma {:induction false} BmiPrints(weight: string, height: string, kg: real, cm: nat, tenths: nat)
    requires IsMeasurement(weight, height) && WeightKg(weight) == kg && HeightCm(height) == cm
    requires kg > 0.0 && cm > 0
    requires RoundTenths(ExactBmi(kg, cm as real)) == tenths
    ensures CalculateBmi(weight, height) == FixedText(false, tenths)
    ensures BandOf(weight, height) == Classify(Some(tenths as real / 10.0))
  {
    ParseDigits(height);
    ExactBmiPositive(kg, cm as real);
    PrintsAs(ExactBmi(kg, cm as real), tenths);
    FixedTextReadsBack(false, tenths);
  }

  /** The exact BMIs at 170 cm of the weights worked through below, in tenths. */
  lemma {:induction false} TenthsAt170()
    ensures RoundTenths(ExactBmi(65.0, 170.0)) == 225
    ensures RoundTenths(ExactBmi(80.0, 170.0)) == 277
    ensures RoundTenths(ExactBmi(45.0, 170.0)) == 156
    ensures RoundTenths(ExactBmi(66.4, 170.0)) == 230
    ensures ExactBmi(66.4, 170.0) < 23.0
  {
    Tenths(65.0, 225);
    Tenths(80.0, 277);
    Tenths(45.0, 156);
    Tenths(66.4, 230);
  }

  /** `kg / 2.89` lies within half a tenth of `tenths / 10`, so it rounds to `tenths`. */
  lemma {:induction false} Tenths(kg: real, tenths: nat)
    requires kg > 0.0
    requires (tenths as real - 0.5) * 0.289 <= kg < (tenths as real + 0.5) * 0.289
    ensures RoundTenths(ExactBmi(kg, 170.0)) == tenths
  {
    var x := ExactBmi(kg, 170.0);
    assert x == kg / 2.89;
    assert x * 10.0 == kg / 0.289;
    assert tenths as real <= x * 10.0 + 0.5 < tenths as real + 1.0;
  }

  /** The one-decimal texts worked through below. */
  lemma {:induction false} Texts()
    ensures FixedText(false, 225) == "22.5"
    ensures FixedText(false, 277) == "27.7"
    ensures FixedText(false, 156) == "15.6"
    ensures FixedText(false, 230) == "23.0"
    ensures FixedText(false, 665) == "66.5"
    ensures FixedText(false, 135) == "13.5"
    ensures FixedText(false, 650) == "65.0"
    ensures FixedText(true, 1) == "-0.1"
  {
    ThreeDigitText(225, 2, 2, 5);
    ThreeDigitText(277, 2, 7, 7);
    ThreeDigitText(156, 1, 5, 6);
    ThreeDigitText(230, 2, 3, 0);
    ThreeDigitText(665, 6, 6, 5);
    ThreeDigitText(135, 1, 3, 5);
    ThreeDigitText(650, 6, 5, 0);
    assert NatToDigits(0) == "0";
  }

  /** The text of `n` tenths for a three-digit `n`. */
  lemma {:induction false} ThreeDigitText(n: nat, a: nat, b: nat, c: nat)
    requires 1 <= a < 10 && b < 10 && c < 10 && n == 100 * a + 10 * b + c
    ensures FixedText(false, n) == [DigitChar(a), DigitChar(b), '.', DigitChar(c)]
  {
    UnsignedFixedText(n);
    assert n / 10 == 10 * a + b && n % 10 == c;
    assert NatToDigits(a) == [DigitChar(a)];
    assert NatToDigits(10 * a + b) == [DigitChar(a), DigitChar(b)];
  }

  /** The initial state, 65.0 kg at 170 cm: BMI 22.5, normal. */
  lemma {:induction false} InitialBmi(weight: string, height: string)
    requires IsMeasurement(weight, height) && WeightKg(weight) == 65.0 && HeightCm(height) == 170
    ensures CalculateBmi(weight, height) == "22.5"
    ensures BandOf(weight, height) == Normal
  {
    TenthsAt170();
    Texts();
    BmiPrints(weight, height, 65.0, 170, 225);
  }

  /** So the initial state shows the normal label, the fixed congratulation and the flexed arm. */
  lemma {:induction false} InitialAdvice(weight: string, height: string)
    requires IsMeasurement(weight, height) && WeightKg(weight) == 65.0 && HeightCm(height) == 170
    ensures GetBmiStatus(weight, height) == "ปกติ (สมส่วน)"
    ensures GetBmiTip(weight, height) == "🎉 ยอดเยี่ยม! รักษาน้ำหนักให้อยู่ในเขตสุขภาพดีนะ"
    ensures GetBmiEmoji(weight, height) == "💪"
  {
    InitialBmi(weight, height);
    assert GetBmiStatus(weight, height) == StatusOf(Normal);
    assert GetBmiEmoji(weight, height) == EmojiOf(Normal);
    assert !Normal.AboveNormal();
    assert GetBmiTip(weight, height) == TipFor(Normal, "");
  }

  /** The target weight at 170 cm: 23 x 1.7 x 1.7 = 66.47 prints as 66.5. */
  lemma {:induction false} TargetAt170(height: string)
    requires AllDigits(height) && height != [] && HeightCm(height) == 170
    ensures TargetWeight(height) == "66.5"
    ensures IsNumeral("66.5") && ParseFloat("66.5") == Some(66.5)
  {
    assert RoundTenths(TargetKg(170.0)) == 665;
    PrintsAs(TargetKg(170.0), 665);
    Texts();
    FixedTextReadsBack(false, 665);
  }

  /** 80.0 kg at 170 cm: BMI 27.7, obese class I. */
  lemma {:induction false} ObeseBmi(weight: string, height: string)
    requires IsMeasurement(weight, height) && WeightKg(weight) == 80.0 && HeightCm(height) == 170
    ensures CalculateBmi(weight, height) == "27.7"
    ensures BandOf(weight, height) == ObeseI
  {
    TenthsAt170();
    Texts();
    BmiPrints(weight, height, 80.0, 170, 277);
  }

  /** At 80.0 kg and 170 cm the weight to lose is 80.0 - 66.5 = 13.5 kg. */
  lemma {:induction false} ObeseWeightToLose(weight: string, height: string)
    requires IsMeasurement(weight, height) && WeightKg(weight) == 80.0 && HeightCm(height) == 170
    ensures height != [] && WeightToLose(weight, height) == "13.5"
  {
    TargetAt170(height);
    WeightTextIsNumeral(weight);
    assert WeightToLose(weight, height) == ToFixed1(80.0 - 66.5) by {
      assert ParseFloat(weight).value == 80.0;
    }
    ThirteenAndAHalfPrints();
  }

  /** 80.0 - 66.5 prints as `13.5`. */
  lemma {:induction false} ThirteenAndAHalfPrints()
    ensures ToFixed1(80.0 - 66.5) == "13.5"
  {
    assert RoundTenths(80.0 - 66.5) == 135;
    PrintsAs(80.0 - 66.5, 135);
    Texts();
  }

  /** So the obese class I tip asks to lose 13.5 kg. */
  lemma {:induction false} ObeseAdvice(weight: string, height: string)
    requires IsMeasurement(weight, height) && WeightKg(weight) == 80.0 && HeightCm(height) == 170
    ensures GetBmiTip(weight, height) == "💪 ลดน้ำหนักอีก " + "13.5" + " กก. เพื่อลดความเสี่ยงต่อโรค!"
  {
    ObeseBmi(weight, height);
    ObeseWeightToLose(weight, height);
  }

  /** 45.0 kg at 170 cm: BMI 15.6, underweight, with the fixed encouragement. */
  lemma {:induction false} UnderweightAdvice(weight: string, height: string)
    requires IsMeasurement(weight, height) && WeightKg(weight) == 45.0 && HeightCm(height) == 170
    ensures GetBmiTip(weight, height) == "💪 พยายามกินอาหารให้เพียงพอ"
  {
    UnderweightBmi(weight, height);
    assert !Underweight.AboveNormal();
    assert GetBmiTip(weight, height) == TipFor(Underweight, "");
  }

  /** 45.0 kg at 170 cm prints as BMI 15.6. */
  lemma {:induction false} UnderweightBmi(weight: string, height: string)
    requires IsMeasurement(weight, height) && WeightKg(weight) == 45.0 && HeightCm(height) == 170
    ensures CalculateBmi(weight, height) == "15.6"
    ensures BandOf(weight, height) == Underweight
  {
    TenthsAt170();
    Texts();
    BmiPrints(weight, height, 45.0, 170, 156);
  }

  /** 66.4 kg at 170 cm: the exact BMI 22.98 is below 23, but the getters classify the printed
      23.0 as overweight. */
  lemma {:induction false} RoundedIntoOverweight(weight: string, height: string)
    requires IsMeasurement(weight, height) && WeightKg(weight) == 66.4 && HeightCm(height) == 170
    ensures ExactBmi(WeightKg(weight), HeightCm(height) as real) < 23.0
    ensures CalculateBmi(weight, height) == "23.0"
    ensures BandOf(weight, height) == Overweight
  {
    TenthsAt170();
    Texts();
    BmiPrints(weight, height, 66.4, 170, 230);
  }

  /** At 66.4 kg and 170 cm the weight to lose, 66.4 - 66.5, is not clamped and prints as -0.1. */
  lemma {:induction false} NegativeWeightToLose(weight: string, height: string)
    requires IsMeasurement(weight, height) && WeightKg(weight) == 66.4 && HeightCm(height) == 170
    ensures height != [] && WeightToLose(weight, height) == "-0.1"
  {
    TargetAt170(height);
    WeightTextIsNumeral(weight);
    assert WeightToLose(weight, height) == ToFixed1(66.4 - 66.5) by {
      assert ParseFloat(weight).value == 66.4;
    }
    MinusTenthPrints();
  }

  /** A tenth below zero prints as `-0.1`. */
  lemma {:induction false} MinusTenthPrints()
    ensures ToFixed1(66.4 - 66.5) == "-0.1"
  {
    assert RoundTenths(66.4 - 66.5) == -1;
    PrintsAs(66.4 - 66.5, -1);
    Texts();
  }

  /** So the overweight tip asks to lose -0.1 kg. */
  lemma {:induction false} NegativeAdvice(weight: string, height: string)
    requires IsMeasurement(weight, height) && WeightKg(weight) == 66.4 && HeightCm(height) == 170
    ensures GetBmiTip(weight, height) == "🎯 ลดน้ำหนักอีก " + "-0.1" + " กก. เพื่อสุขภาพที่ดีขึ้น!"
  {
    RoundedIntoOverweight(weight, height);
    NegativeWeightToLose(weight, height);
  }

  /** The form's initial texts: "65.0" reads as 65.0 kg and "170" as 170 cm. */
  lemma {:induction false} InitialTexts()
    ensures IsMeasurement("65.0", "170") && WeightKg("65.0") == 65.0 && HeightCm("170") == 170
  {
    Texts();
    WeightReads("65.0", 650);
    Digits170();
    HeightReads("170", 170);
  }

  /** `(170).toString()` is `"170"`. */
  lemma {:induction false} Digits170()
    ensures NatToDigits(170) == "170"
  {
    Digits17();
    assert NatToDigits(170) == NatToDigits(17) + [DigitChar(0)];
  }

  lemma {:induction false} Digits17()
    ensures NatToDigits(17) == "17"
  {
    assert NatToDigits(1) == "1";
    assert NatToDigits(17) == NatToDigits(1) + [DigitChar(7)];
  }

  /** An emptied weight text yields the sentinel and the unknown band. */
  lemma {:induction false} EmptyWeight(height: string)
    requires AllDigits(height)
    ensures IsMeasurement("", height) && CalculateBmi("", height) == "-" && BandOf("", height) == Unknown
  {
    assert Text.Split([], '.') == [[]];
    assert ParseFloat("") == None;
    SentinelIsNaN();
  }
}
