/**
 * The BMI advisor of the diary form: `calculateBMI` and the four getters
 * (`getBMIColor`, `getBMIStatus`, `getBMITip`, `getBMIEmoji`) that classify its
 * result. Each getter re-reads the one-decimal text `calculateBMI` returns, so
 * classification runs on the rounded BMI. The bands use the Asian-population
 * cutoffs 18.5, 23, 25 and 30, each the inclusive lower bound of the next band.
 */
module BmiAdvisor {
  import opened Optional
  import opened Numerals
  import opened Inputs

  /** The outcome shared by the four getters; `Unknown` is the `'-'` sentinel. */
  datatype Band = Unknown | Underweight | Normal | Overweight | ObeseI | ObeseII
  {
    /** Position in the ascending order of the bands. */
    function Rank(): nat
    {
      match this
      case Unknown => 0
      case Underweight => 1
      case Normal => 2
      case Overweight => 3
      case ObeseI => 4
      case ObeseII => 5
    }

    /** The bands whose tip tells how much weight to lose. */
    predicate AboveNormal()
    {
      Overweight? || ObeseI? || ObeseII?
    }
  }

  /** The three colour classes `getBMIColor` returns. */
  datatype Palette = Palette(bg: string, border: string, text: string)

  /** `weightKg / (heightM * heightM)` with `heightM = heightCm / 100`: the BMI times the
      square of the height in metres gives the weight back. */
  function ExactBmi(weightKg: real, heightCm: real): (bmi: real)
    requires heightCm > 0.0
    ensures bmi * ((heightCm / 100.0) * (heightCm / 100.0)) == weightKg
  {
    var heightM := heightCm / 100.0;
    weightKg / (heightM * heightM)
  }

  /** A positive weight over a positive height gives a positive BMI. */
  lemma {:induction false} ExactBmiPositive(weightKg: real, heightCm: real)
    requires weightKg > 0.0 && heightCm > 0.0
    ensures ExactBmi(weightKg, heightCm) > 0.0
  {
    var heightM := heightCm / 100.0;
    QuotientPositive(weightKg, heightM);
    QuotientPositive(weightKg / heightM, heightM);
    assert weightKg / heightM / heightM == weightKg / (heightM * heightM);
  }

  /** A quotient of positive reals is positive. */
  lemma QuotientPositive(x: real, y: real)
    requires x > 0.0 && y > 0.0
    ensures x / y > 0.0
  {
  }

  /** Weight text and height text as the form holds them. */
  predicate IsMeasurement(weight: string, height: string)
  {
    IsWeightText(weight) && AllDigits(height)
  }

  /** The `'-'` sentinel is a numeral without digits: `parseFloat('-')` is `NaN`. */
  lemma {:induction false} SentinelIsNaN()
    ensures IsNumeral("-") && ParseFloat("-") == None
  {
    assert Unsigned("-") == [];
    assert Text.Split([], '.') == [[]];
  }

  /** `calculateBMI()`: the sentinel `'-'` exactly when the weight or the height reads as
      zero, negative or `NaN`; otherwise one-decimal text that reads back as the exact BMI
      rounded to one decimal. */
  function CalculateBmi(weight: string, height: string): (r: string)
    requires IsMeasurement(weight, height)
    ensures IsNumeral(r)
    ensures r == "-" <==> !(WeightKg(weight) > 0.0 && HeightCm(height) > 0)
  {
    ParseDigits(height);
    SentinelIsNaN();
    var weightKg := WeightKg(weight);
    var heightCm := OrZero(ParseFloat(height));
    if weightKg > 0.0 && heightCm > 0.0 then ToFixed1(ExactBmi(weightKg, heightCm)) else "-"
  }

  /** Any other text `calculateBMI` returns reads back as the exact BMI rounded to one decimal. */
  lemma {:induction false} CalculateBmiReadsBack(weight: string, height: string)
    requires IsMeasurement(weight, height)
    requires WeightKg(weight) > 0.0 && HeightCm(height) > 0
    ensures ParseFloat(CalculateBmi(weight, height)) == Some(Round1(ExactBmi(WeightKg(weight), HeightCm(height) as real)))
  {
    ParseDigits(height);
  }

  /** The if-chain every getter runs on `parseFloat(calculateBMI())`, first match wins; only
      `NaN` is left unclassified. */
  function Classify(bmi: Option<real>): (b: Band)
    ensures b == Unknown <==> bmi.None?
  {
    match bmi
    case None => Unknown
    case Some(b) =>
      if b < 18.5 then Underweight
      else if b < 23.0 then Normal
      else if b < 25.0 then Overweight
      else if b < 30.0 then ObeseI
      else ObeseII
  }

  /** The band all four getters agree on: `parseFloat(calculateBMI())` run through the
      if-chain. */
  function BandOf(weight: string, height: string): (b: Band)
    requires IsMeasurement(weight, height)
    ensures b == Unknown <==> CalculateBmi(weight, height) == "-"
  {
    SentinelAloneIsNaN(weight, height);
    Classify(ParseFloat(CalculateBmi(weight, height)))
  }

  /** `calculateBMI`'s text parses as `NaN` exactly when it is the sentinel. */
  lemma {:induction false} SentinelAloneIsNaN(weight: string, height: string)
    requires IsMeasurement(weight, height)
    ensures ParseFloat(CalculateBmi(weight, height)).None? <==> CalculateBmi(weight, height) == "-"
  {
    SentinelIsNaN();
    if WeightKg(weight) > 0.0 && HeightCm(height) > 0 {
      CalculateBmiReadsBack(weight, height);
    }
  }

  /** The getters' band is unknown exactly when `calculateBMI` returns the sentinel, and
      otherwise the class of the BMI rounded to one decimal, not of the exact quotient. */
  lemma {:induction false} BandOfRounded(weight: string, height: string)
    requires IsMeasurement(weight, height)
    ensures BandOf(weight, height) == if WeightKg(weight) > 0.0 && HeightCm(height) > 0
      then Classify(Some(Round1(ExactBmi(WeightKg(weight), HeightCm(height) as real))))
      else Unknown
  {
    SentinelIsNaN();
    if WeightKg(weight) > 0.0 && HeightCm(height) > 0 {
      CalculateBmiReadsBack(weight, height);
    }
  }

  /** Each band is the half-open interval between its cutoffs, lower bound included. */
  lemma {:induction false} ClassifyIntervals(b: real)
    ensures Classify(Some(b)) == Underweight <==> b < 18.5
    ensures Classify(Some(b)) == Normal <==> 18.5 <= b < 23.0
    ensures Classify(Some(b)) == Overweight <==> 23.0 <= b < 25.0
    ensures Classify(Some(b)) == ObeseI <==> 25.0 <= b < 30.0
    ensures Classify(Some(b)) == ObeseII <==> 30.0 <= b
    ensures Classify(Some(b)) != Unknown
  {
  }

  /** A larger BMI never falls in a lower band. */
  lemma {:induction false} ClassifyMonotone(a: real, b: real)
    requires a <= b
    ensures Classify(Some(a)).Rank() <= Classify(Some(b)).Rank()
  {
  }

  /** Rounding moves the BMI by at most 0.05, so the band lies between the bands of the
      exact BMI minus and plus 0.05. */
  lemma {:induction false} BandNearExact(weight: string, height: string)
    requires IsMeasurement(weight, height)
    requires WeightKg(weight) > 0.0 && HeightCm(height) > 0
    ensures var q := ExactBmi(WeightKg(weight), HeightCm(height) as real);
      && Classify(Some(q - 0.05)).Rank() <= BandOf(weight, height).Rank()
      && BandOf(weight, height).Rank() <= Classify(Some(q + 0.05)).Rank()
  {
    var q := ExactBmi(WeightKg(weight), HeightCm(height) as real);
    BandOfRounded(weight, height);
    ClassifyMonotone(q - 0.05, Round1(q));
    ClassifyMonotone(Round1(q), q + 0.05);
  }

  /** `getBMIColor`'s classes by band; grey for the sentinel. */
  function ColorOf(b: Band): Palette
  {
    match b
    case Unknown => Palette("from-gray-100 to-gray-200", "border-gray-300", "text-gray-500")
    case Underweight => Palette("from-blue-100 to-blue-200", "border-blue-300", "text-blue-600")
    case Normal => Palette("from-green-100 to-green-200", "border-green-300", "text-green-600")
    case Overweight => Palette("from-yellow-100 to-yellow-200", "border-yellow-300", "text-yellow-600")
    case ObeseI => Palette("from-orange-100 to-orange-200", "border-orange-300", "text-orange-600")
    case ObeseII => Palette("from-red-200 to-red-300", "border-red-400", "text-red-700")
  }

  /** `getBMIStatus`'s label by band; empty for the sentinel. */
  function StatusOf(b: Band): string
  {
    match b
    case Unknown => ""
    case Underweight => "น้ำหนักน้อย/ผอม"
    case Normal => "ปกติ (สมส่วน)"
    case Overweight => "น้ำหนักเกิน"
    case ObeseI => "โรคอ้วนระดับ 1"
    case ObeseII => "โรคอ้วนระดับ 2"
  }

  /** `getBMIEmoji`'s emoji by band; the sentinel shares the underweight smile. */
  function EmojiOf(b: Band): string
  {
    match b
    case Unknown => "😊"
    case Underweight => "😊"
    case Normal => "💪"
    case Overweight => "🙂"
    case ObeseI => "😰"
    case ObeseII => "😟"
  }

  /** `getBMITip`'s text by band, with the weight to lose spliced into the three bands above
      normal; empty for the sentinel. */
  function TipFor(b: Band, toLose: string): string
  {
    match b
    case Unknown => ""
    case Underweight => "💪 พยายามกินอาหารให้เพียงพอ"
    case Normal => "🎉 ยอดเยี่ยม! รักษาน้ำหนักให้อยู่ในเขตสุขภาพดีนะ"
    case Overweight => "🎯 ลดน้ำหนักอีก " + toLose + " กก. เพื่อสุขภาพที่ดีขึ้น!"
    case ObeseI => "💪 ลดน้ำหนักอีก " + toLose + " กก. เพื่อลดความเสี่ยงต่อโรค!"
    case ObeseII => "⚠️ ควรปรึกษาแพทย์ ลดน้ำหนักอีก " + toLose + " กก. เพื่อสุขภาพระยะยาว"
  }

  /** `23 * Math.pow(heightCm / 100, 2)`: the weight at which the BMI is exactly 23, the top
      of the normal band. */
  function TargetKg(heightCm: real): (kg: real)
    ensures heightCm > 0.0 ==> ExactBmi(kg, heightCm) == 23.0
  {
    BmiOfTarget(heightCm);
    23.0 * ((heightCm / 100.0) * (heightCm / 100.0))
  }

  /** 23 times the squared height in metres is a BMI of 23 at that height. */
  lemma {:induction false} BmiOfTarget(heightCm: real)
    ensures heightCm > 0.0 ==> ExactBmi(23.0 * ((heightCm / 100.0) * (heightCm / 100.0)), heightCm) == 23.0
  {
    if heightCm > 0.0 {
      CancelSquare(ExactBmi(23.0 * ((heightCm / 100.0) * (heightCm / 100.0)), heightCm), 23.0, heightCm / 100.0);
    }
  }

  /** A positive square can be divided out of an equation. */
  lemma {:induction false} CancelSquare(a: real, b: real, m: real)
    requires m > 0.0 && a * (m * m) == b * (m * m)
    ensures a == b
  {
    assert (a - b) * (m * m) == 0.0;
    assert m * m > 0.0;
  }

  /** The target weight printed with one decimal (lines 88, 92, 96). */
  function TargetWeight(height: string): (r: string)
    requires AllDigits(height) && height != []
    ensures IsNumeral(r) && ParseFloat(r) == Some(Round1(TargetKg(HeightCm(height) as real)))
  {
    ToFixed1(TargetKg(HeightCm(height) as real))
  }

  /** The weight to lose spliced into the tip: the weight minus the one-decimal target
      weight, both as `parseFloat` reads them, printed with one decimal. */
  function WeightToLose(weight: string, height: string): (r: string)
    requires IsWeightText(weight) && WeightKg(weight) > 0.0
    requires AllDigits(height) && height != []
    ensures IsNumeral(r)
  {
    WeightKgParsed(weight);
    DifferenceText(ParseFloat(weight).value, ParseFloat(TargetWeight(height)).value)
  }

  /** `(a - b).toFixed(1)`: the difference printed with one decimal, which reads back as the
      difference rounded to a tenth. */
  function DifferenceText(a: real, b: real): (r: string)
    ensures IsNumeral(r) && ParseFloat(r) == Some(Round1(a - b))
  {
    ToFixed1(a - b)
  }

  /** The weight to lose reads back as the weight minus the rounded target weight, rounded
      again. It is not clamped: it may be zero or negative. */
  lemma {:induction false} WeightToLoseReadsBack(weight: string, height: string)
    requires IsWeightText(weight) && WeightKg(weight) > 0.0
    requires AllDigits(height) && height != []
    ensures ParseFloat(WeightToLose(weight, height)) == Some(Round1(WeightKg(weight) - Round1(TargetKg(HeightCm(height) as real))))
  {
    WeightToLoseOperands(weight, height);
  }

  /** The two operands of the weight to lose are the weight and the one-decimal target. */
  lemma {:induction false} WeightToLoseOperands(weight: string, height: string)
    requires IsWeightText(weight) && WeightKg(weight) > 0.0
    requires AllDigits(height) && height != []
    ensures WeightToLose(weight, height) == DifferenceText(WeightKg(weight), Round1(TargetKg(HeightCm(height) as real)))
  {
    WeightKgParsed(weight);
  }

  /** `getBMIColor()`: grey exactly when the weight or the height does not read as positive. */
  function GetBmiColor(weight: string, height: string): (r: Palette)
    requires IsMeasurement(weight, height)
    ensures r == ColorOf(Unknown) <==> !(WeightKg(weight) > 0.0 && HeightCm(height) > 0)
  {
    ColorsDistinct(BandOf(weight, height), Unknown);
    ColorOf(BandOf(weight, height))
  }

  /** `getBMIStatus()`: no label exactly when the weight or the height does not read as
      positive. */
  function GetBmiStatus(weight: string, height: string): (r: string)
    requires IsMeasurement(weight, height)
    ensures r == "" <==> !(WeightKg(weight) > 0.0 && HeightCm(height) > 0)
  {
    StatusesDistinct(BandOf(weight, height), Unknown);
    StatusOf(BandOf(weight, height))
  }

  /** `getBMIEmoji()`: the smile exactly when there is no reading or it is underweight. */
  function GetBmiEmoji(weight: string, height: string): (r: string)
    requires IsMeasurement(weight, height)
    ensures r == "😊" <==> BandOf(weight, height).Rank() <= 1
  {
    EmojisDistinct(BandOf(weight, height), Unknown);
    EmojiOf(BandOf(weight, height))
  }

  /** `getBMITip()`: no tip exactly when the weight or the height does not read as positive. */
  function GetBmiTip(weight: string, height: string): (r: string)
    requires IsMeasurement(weight, height)
    ensures r == "" <==> !(WeightKg(weight) > 0.0 && HeightCm(height) > 0)
  {
    var b := BandOf(weight, height);
    if b.AboveNormal() then TipFor(b, WeightToLose(weight, height)) else TipFor(b, "")
  }

  /** Colours and status labels are one-to-one with the bands. */
  lemma {:induction false} PresentationOneToOne(a: Band, b: Band)
    ensures ColorOf(a) == ColorOf(b) <==> a == b
    ensures StatusOf(a) == StatusOf(b) <==> a == b
    ensures EmojiOf(a) == EmojiOf(b) <==> a == b || (a.Rank() <= 1 && b.Rank() <= 1)
  {
    ColorsDistinct(a, b);
    StatusesDistinct(a, b);
    EmojisDistinct(a, b);
  }

  lemma {:induction false} ColorsDistinct(a: Band, b: Band)
    ensures ColorOf(a) == ColorOf(b) <==> a == b
  {
  }

  lemma {:induction false} StatusesDistinct(a: Band, b: Band)
    ensures StatusOf(a) == StatusOf(b) <==> a == b
  {
  }

  lemma {:induction false} EmojisDistinct(a: Band, b: Band)
    ensures EmojiOf(a) == EmojiOf(b) <==> a == b || (a.Rank() <= 1 && b.Rank() <= 1)
  {
  }

  /** The getters read one band: two measurements get the same colour exactly when they get
      the same status label, and then also the same emoji. */
  lemma {:induction false} GettersAgree(w1: string, h1: string, w2: string, h2: string)
    requires IsMeasurement(w1, h1) && IsMeasurement(w2, h2)
    ensures GetBmiColor(w1, h1) == GetBmiColor(w2, h2) <==> GetBmiStatus(w1, h1) == GetBmiStatus(w2, h2)
    ensures GetBmiColor(w1, h1) == GetBmiColor(w2, h2) ==> GetBmiEmoji(w1, h1) == GetBmiEmoji(w2, h2)
  {
    PresentationOneToOne(BandOf(w1, h1), BandOf(w2, h2));
  }

  /** The sentinel shows grey, no status, the smile and no tip. */
  lemma {:induction false} SentinelPresentation(weight: string, height: string)
    requires IsMeasurement(weight, height)
    requires !(WeightKg(weight) > 0.0 && HeightCm(height) > 0)
    ensures GetBmiColor(weight, height) == Palette("from-gray-100 to-gray-200", "border-gray-300", "text-gray-500")
    ensures GetBmiStatus(weight, height) == "" && GetBmiTip(weight, height) == ""
    ensures GetBmiEmoji(weight, height) == "😊"
  {
    BandOfRounded(weight, height);
  }

  /** The two lower bands get a fixed tip without any digit whatever the measurement; the
      three upper bands splice in the weight to lose. */
  lemma {:induction false} TipByBand(weight: string, height: string)
    requires IsMeasurement(weight, height)
    ensures var b := BandOf(weight, height);
      var tip := GetBmiTip(weight, height);
      && (b == Unknown ==> tip == "")
      && (b == Underweight || b == Normal ==> tip == TipFor(b, "") && DigitFree(tip))
      && (b.AboveNormal() ==> height != [] && WeightKg(weight) > 0.0 && tip == TipFor(b, WeightToLose(weight, height)))
  {
    BandOfRounded(weight, height);
    FixedTipsWithoutDigits();
  }

  /** The underweight and normal tips hold no number. */
  lemma {:induction false} FixedTipsWithoutDigits()
    ensures DigitFree(TipFor(Underweight, ""))
    ensures DigitFree(TipFor(Normal, ""))
  {
    UnderweightTipDigitFree();
    NormalTipDigitFree();
  }

  /** No character of `s` is a decimal digit. */
  predicate DigitFree(s: string)
  {
    forall i :: 0 <= i < |s| ==> !IsDigit(s[i])
  }

  lemma {:induction false} DigitFreeConcat(a: string, b: string)
    requires DigitFree(a) && DigitFree(b)
    ensures DigitFree(a + b)
  {
    forall i | 0 <= i < |a + b| ensures !IsDigit((a + b)[i]) {
      if i >= |a| {
        assert (a + b)[i] == b[i - |a|];
      }
    }
  }

  lemma {:induction false} UnderweightTipDigitFree()
    ensures DigitFree(TipFor(Underweight, ""))
  {
    var head, tail := "💪 พยายาม", "กินอาหารให้เพียงพอ";
    assert DigitFree(head);
    assert DigitFree(tail);
    DigitFreeConcat(head, tail);
    assert TipFor(Underweight, "") == head + tail;
  }

  lemma {:induction false} NormalTipDigitFree()
    ensures DigitFree(TipFor(Normal, ""))
  {
    var a, b, c, d := "🎉 ยอดเยี่ยม! ", "รักษาน้ำหนัก", "ให้อยู่ในเขต", "สุขภาพดีนะ";
    assert DigitFree(a);
    assert DigitFree(b);
    assert DigitFree(c);
    assert DigitFree(d);
    DigitFreeConcat(a, b);
    DigitFreeConcat(a + b, c);
    DigitFreeConcat(a + b + c, d);
    NormalTipPieces();
  }

  /** The normal tip cut into pieces short enough to check character by character. */
  lemma {:induction false} NormalTipPieces()
    ensures TipFor(Normal, "") == "🎉 ยอดเยี่ยม! " + "รักษาน้ำหนัก" + "ให้อยู่ในเขต" + "สุขภาพดีนะ"
  {
  }
}
