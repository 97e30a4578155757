/** The diary form's state and the handlers that change it. Each React setter is an immediate
    assignment to the matching field. */
module Diary {
  import opened Optional
  import opened Numerals
  import opened Inputs
  import opened Selections

  class HealthDiary {
    /** The weight box's text, in kilograms with at most one decimal. */
    var weight: string
    /** The height box's text, whole centimetres, at most three digits. */
    var height: string
    /** The ids of the risk behaviours ticked, in the order they were ticked. */
    var riskFactors: seq<Id>
    /** The ids of the good habits ticked, in the order they were ticked. */
    var positiveHabits: seq<Id>
    /** The exercise duration chosen, if any. */
    var exerciseDuration: Option<Id>

    /** What every handler keeps: the two boxes hold sanitised text and no id is ticked twice. */
    ghost predicate Valid()
      reads this
    {
      && IsWeightText(weight)
      && IsHeightText(height)
      && NoDup(riskFactors)
      && NoDup(positiveHabits)
    }

    /** The form opens at 65.0 kg and 170 cm with nothing ticked or chosen. */
    constructor ()
      ensures Valid()
      ensures weight == "65.0" && height == "170"
      ensures riskFactors == [] && positiveHabits == [] && exerciseDuration == None
    {
      weight := "65.0";
      height := "170";
      riskFactors := [];
      positiveHabits := [];
      exerciseDuration := None;
      OpeningTextsValid();
    }

    /** Typing in the weight box: the edit is dropped when the typed text holds two or more
        decimal points once other characters are stripped; otherwise the cleaned text, with its
        fraction cut to one digit, is stored. */
    method HandleWeightChange(value: string)
      requires Valid()
      modifies this`weight
      ensures Valid()
      ensures SanitizeWeight(value) == None ==> weight == old(weight)
      ensures SanitizeWeight(value).Some? ==> weight == SanitizeWeight(value).value
    {
      match SanitizeWeight(value)
      case None =>
      case Some(formatted) =>
        weight := formatted;
    }

    /** The weight stepper: the current weight moved by `delta`, floored at zero, stored with
        one decimal. */
    method AdjustWeight(delta: real)
      requires Valid()
      modifies this`weight
      ensures Valid()
      ensures weight == AdjustedWeight(old(weight), delta)
      ensures WeightKg(weight) == Round1(MaxReal(0.0, WeightKg(old(weight)) + delta))
      ensures WeightKg(weight) >= 0.0
    {
      weight := AdjustedWeight(weight, delta);
    }

    /** Typing in the height box: only digits are kept, and the edit is dropped when more than
        three remain. */
    method HandleHeightChange(value: string)
      requires Valid()
      modifies this`height
      ensures Valid()
      ensures SanitizeHeight(value) == None ==> height == old(height)
      ensures SanitizeHeight(value).Some? ==> height == SanitizeHeight(value).value
    {
      var cleaned := SanitizeHeight(value);
      if cleaned.Some? {
        height := cleaned.value;
      }
    }

    /** The height stepper: the current height moved by `delta` and clamped to 0..300 cm. */
    method AdjustHeight(delta: int)
      requires Valid()
      modifies this`height
      ensures Valid()
      ensures height == AdjustedHeight(old(height), delta)
      ensures 0 <= HeightCm(height) <= 300
    {
      height := AdjustedHeight(height, delta);
    }

    /** Ticking or unticking a risk behaviour. */
    method ToggleRiskFactor(id: Id)
      requires Valid()
      modifies this`riskFactors
      ensures Valid()
      ensures riskFactors == Toggled(old(riskFactors), id)
      ensures id in riskFactors <==> id !in old(riskFactors)
    {
      ToggledNoDup(riskFactors, id);
      riskFactors := Toggled(riskFactors, id);
    }

    /** Ticking or unticking a good habit. */
    method TogglePositiveHabit(id: Id)
      requires Valid()
      modifies this`positiveHabits
      ensures Valid()
      ensures positiveHabits == Toggled(old(positiveHabits), id)
      ensures id in positiveHabits <==> id !in old(positiveHabits)
    {
      ToggledNoDup(positiveHabits, id);
      positiveHabits := Toggled(positiveHabits, id);
    }

    /** Choosing an exercise duration, or clearing it by choosing it again. */
    method ToggleExerciseDuration(value: Id)
      requires Valid()
      modifies this`exerciseDuration
      ensures Valid()
      ensures exerciseDuration == ToggledChoice(old(exerciseDuration), value)
      ensures exerciseDuration == None <==> old(exerciseDuration) == Some(value)
    {
      exerciseDuration := ToggledChoice(exerciseDuration, value);
    }
  }
}
