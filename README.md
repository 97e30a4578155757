# Yesterday health diary: BMI advisor, input handlers and selection toggles

This project is a Dafny model of the logic behind `yesterday-health-diary.jsx`. That file is a
React form where a patient records yesterday's weight and height, the risk behaviours and good
habits they had, and how long they exercised. It has three parts:

- **BMI advisor.** `calculateBMI` turns the weight and height boxes into one-decimal BMI text,
  or the sentinel `'-'` when either value is not positive. `getBMIColor`, `getBMIStatus`,
  `getBMITip` and `getBMIEmoji` each re-parse that text and run the same first-match if-chain,
  using the Asian cutoffs 18.5, 23, 25 and 30.
  - The model makes this chain a `Band` datatype (`Unknown`, `Underweight`, `Normal`,
    `Overweight`, `ObeseI`, `ObeseII`).
  - Each getter is a total map from band to output: palette, Thai label, tip or emoji.
  - For the upper three bands the tip embeds the kilograms to lose down to a BMI of 23.
- **Input handlers.**
  - `handleWeightChange` and `handleHeightChange` strip and validate what is typed. They leave
    the state alone when the edit is rejected.
  - `adjustWeight` and `adjustHeight` are the ± buttons. Weight is floored at 0, height is
    clamped to 0..300.
- **Selection toggles.** Risk factors and good habits are lists of ids used as sets: toggling
  removes an id or appends it. The exercise duration is an optional single choice.

The component state (`weight`, `height`, `riskFactors`, `positiveHabits`, `exerciseDuration`)
is the class `Diary.HealthDiary`. Each handler is a method that assigns the field its setter
updates. The BMI logic and the input transformations are pure functions with lemmas.

Every value passes through text, as in the component:

- `parseFloat` is modelled on decimal numerals. `None` stands for `NaN`.
- `parseInt` is modelled on digit runs. `|| 0` is `OrZero`.
- `toFixed(1)` rounds the exact real value half away from zero and prints it with one
  decimal. A negative value is printed as `-` followed by its magnitude.
- `String.prototype.split` and the character-stripping regular expressions are modelled as
  functions on `seq<char>`.

So the model states literally that the getters classify the rounded text, not the exact
quotient. The following consequences are kept as the source has them and proved:

- At 66.4 kg and 170 cm the exact BMI is 22.98, but it prints as `23.0`. The form therefore
  shows "overweight" and a tip to lose `-0.1` kg (`BmiScenarios.RoundedIntoOverweight`,
  `BmiScenarios.NegativeAdvice`).
- Toggling a ticked id twice does not restore the list when that id is not the last one: the
  id comes back at the end (`Selections.ToggleTwice`, `Selections.ToggleTwiceReorders`).
- Choosing a different exercise duration and then choosing it again clears the choice. The
  earlier one is not restored (`Selections.ToggleChoiceTwice`).

Modules:

- `Optional`: the `Option` type.
- `Text`: character filtering, counting, `split` and `join`.
- `Numerals`: digits, `parseFloat`, `parseInt`, `toFixed(1)`.
- `Inputs`: the weight and height sanitisers and steppers.
- `BmiAdvisor`: BMI, bands, getters.
- `BmiScenarios`: concrete readings worked through.
- `Selections`: the toggles.
- `Diary`: the component state.

## Model

| member | source | states |
|---|---|---|
| Text.Split | yesterday-health-diary.jsx:117 | `cleaned.split('.')` gives one more part than there are points; no part contains a point; joining the parts with points gives back the input |
| Text.SplitJoin | yesterday-health-diary.jsx:117 | splitting the join of point-free parts gives back those parts |
| Text.KeepIf | yesterday-health-diary.jsx:115 | the regular-expression strip keeps only accepted characters, each accepted character exactly as often as in the input and no rejected one; it never lengthens the text and leaves accepted text unchanged |
| Numerals.NatToDigits | yesterday-health-diary.jsx:145 | `Number.prototype.toString` of a whole number: a non-empty digit run without a leading zero that reads back as the number |
| Numerals.NatToDigitsLength | yesterday-health-diary.jsx:143-145 | a height below 1000 prints in at most three digits |
| Numerals.ParseFloatNaN | yesterday-health-diary.jsx:13-14 | `parseFloat` of a numeral is `NaN` exactly when the numeral has no digit |
| Numerals.ParseFloatSign | yesterday-health-diary.jsx:13-14 | a value read after a minus sign is never positive, and one read without it is never negative |
| Numerals.OrZero | yesterday-health-diary.jsx:13-14 | a reading with the fallback to 0 is positive exactly when the reading is a positive number, and it is 0 for `NaN` |
| Numerals.ParseInt | yesterday-health-diary.jsx:143 | `parseInt` of a digit run is `NaN` exactly when the run is empty |
| Numerals.ParseDigits | yesterday-health-diary.jsx:14 | `parseFloat` of a digit run is its integer value, or `NaN` when empty |
| Numerals.RoundTenths | yesterday-health-diary.jsx:18 | the number of tenths `toFixed(1)` prints: the nearest whole number of tenths, ties away from zero |
| Numerals.Round1 | yesterday-health-diary.jsx:18 | rounding to one decimal moves a value by at most 0.05 |
| Numerals.ToFixed1 | yesterday-health-diary.jsx:18 | `toFixed(1)` text is a numeral that `parseFloat` reads back as the value rounded to one decimal |
| Numerals.FixedTextReadsBack | yesterday-health-diary.jsx:18 | the printed sign, whole tenths and tenth digit read back as that many tenths with that sign |
| Numerals.ToFixed1Shape | yesterday-health-diary.jsx:18 | `toFixed(1)` text starts with a minus exactly when the value is negative; after it come a non-empty digit run without a leading zero, exactly one point and exactly one digit |
| Inputs.SanitizeWeight | yesterday-health-diary.jsx:113-126 | the weight edit is rejected exactly when the stripped text has two or more points; otherwise the stored text is valid weight text and a prefix of the stripped text, and is either the whole stripped text or that text cut just after the first digit behind the point |
| Inputs.WeightTextPoints | yesterday-health-diary.jsx:118-125 | stored weight text holds at most one point |
| Inputs.WeightTextParts | yesterday-health-diary.jsx:117-125 | stored weight text splits into at most two digit runs, the second at most one digit long |
| Inputs.WeightTextIsNumeral | yesterday-health-diary.jsx:13 | stored weight text is a numeral `parseFloat` reads |
| Inputs.WeightKg | yesterday-health-diary.jsx:13 | the weight the form reads from stored weight text is never negative |
| Inputs.WeightKgParsed | yesterday-health-diary.jsx:13 | a weight that reads as positive is exactly the number `parseFloat` reads |
| Inputs.SanitizeWeightIdempotent | yesterday-health-diary.jsx:113-126 | retyping a stored weight stores it unchanged |
| Inputs.SanitizeHeight | yesterday-health-diary.jsx:134-140 | the height edit keeps only digits and is rejected exactly when more than three remain |
| Inputs.SanitizeHeightIdempotent | yesterday-health-diary.jsx:134-140 | retyping a stored height stores it unchanged |
| Inputs.HeightCm | yesterday-health-diary.jsx:143 | `parseInt` of stored height text, falling back to 0, is the number its digits spell, 0 for an empty box |
| Inputs.AdjustedWeight | yesterday-health-diary.jsx:128-132 | the stepped weight is valid weight text that reads back as `max(0, weight + delta)` rounded to one decimal, so never negative |
| Inputs.AdjustedHeight | yesterday-health-diary.jsx:142-146 | the stepped height is valid height text for `height + delta` clamped to 0..300: the target itself inside the range, 0 below it, 300 above it |
| Inputs.OpeningTextsValid | yesterday-health-diary.jsx:5-6 | the opening texts `65.0` and `170` are valid weight and height text |
| BmiAdvisor.SentinelIsNaN | yesterday-health-diary.jsx:20-25 | the sentinel `'-'` parses as `NaN` |
| BmiAdvisor.CalculateBmi | yesterday-health-diary.jsx:12-21 | the result is the sentinel exactly when the weight or the height does not read as positive (unparsable reads as 0) |
| BmiAdvisor.ExactBmi | yesterday-health-diary.jsx:16-17 | the BMI times the square of the height in metres is the weight |
| BmiAdvisor.ExactBmiPositive | yesterday-health-diary.jsx:15-17 | a positive weight over a positive height gives a positive BMI |
| BmiAdvisor.CalculateBmiReadsBack | yesterday-health-diary.jsx:15-18 | otherwise the text reads back as weight / (height/100)² rounded to one decimal |
| BmiAdvisor.SentinelAloneIsNaN | yesterday-health-diary.jsx:12-25 | the text of `calculateBMI` parses as `NaN` exactly when it is the sentinel |
| BmiAdvisor.Classify | yesterday-health-diary.jsx:33-64 | the if-chain leaves only `NaN` unclassified |
| BmiAdvisor.BandOf | yesterday-health-diary.jsx:23-25 | the band every getter computes is unknown exactly when `calculateBMI` returns the sentinel |
| BmiAdvisor.BandOfRounded | yesterday-health-diary.jsx:23-111 | every getter's band is unknown for the sentinel and otherwise the band of the ROUNDED BMI |
| BmiAdvisor.ClassifyIntervals | yesterday-health-diary.jsx:33-64 | the five bands are the half-open intervals at 18.5, 23, 25 and 30, each boundary in the higher band |
| BmiAdvisor.ClassifyMonotone | yesterday-health-diary.jsx:34-64 | a larger BMI never falls in a lower band |
| BmiAdvisor.BandNearExact | yesterday-health-diary.jsx:15-64 | the shown band lies between the bands of the exact BMI minus and plus 0.05 |
| BmiAdvisor.TargetKg | yesterday-health-diary.jsx:88 | the target weight is the weight at which the exact BMI is 23 |
| BmiAdvisor.TargetWeight | yesterday-health-diary.jsx:88 | the target weight text reads back as 23·(height/100)² rounded to one decimal |
| BmiAdvisor.WeightToLose | yesterday-health-diary.jsx:89 | the kilograms to lose are printed as a decimal numeral |
| BmiAdvisor.DifferenceText | yesterday-health-diary.jsx:89 | `(a - b).toFixed(1)` is a numeral that reads back as the difference rounded to one decimal |
| BmiAdvisor.WeightToLoseOperands | yesterday-health-diary.jsx:88-89 | the subtraction takes the weight as read and the target weight as read back from its one-decimal text |
| BmiAdvisor.WeightToLoseReadsBack | yesterday-health-diary.jsx:88-89 | the kilograms to lose read back as the weight minus the rounded target, rounded again, and are not clamped at zero |
| BmiAdvisor.GetBmiColor | yesterday-health-diary.jsx:23-65 | the palette is grey exactly when the weight or the height does not read as positive |
| BmiAdvisor.GetBmiStatus | yesterday-health-diary.jsx:67-76 | the label is empty exactly when the weight or the height does not read as positive |
| BmiAdvisor.GetBmiTip | yesterday-health-diary.jsx:78-100 | there is no tip exactly when the weight or the height does not read as positive |
| BmiAdvisor.GetBmiEmoji | yesterday-health-diary.jsx:102-111 | the emoji is 😊 exactly when there is no reading or the reading is underweight |
| BmiAdvisor.PresentationOneToOne | yesterday-health-diary.jsx:23-111 | distinct bands give distinct palettes and distinct labels; the emoji tells all bands apart except that unknown and underweight share 😊 |
| BmiAdvisor.GettersAgree | yesterday-health-diary.jsx:23-111 | the colour and status getters agree on the band: two readings share a colour exactly when they share a status, and then also share an emoji |
| BmiAdvisor.SentinelPresentation | yesterday-health-diary.jsx:23-111 | without a positive weight and height the form shows the grey palette (`from-gray-100 to-gray-200`, `border-gray-300`, `text-gray-500`), an empty label, no tip and 😊 |
| BmiAdvisor.TipByBand | yesterday-health-diary.jsx:78-100 | no reading gives no tip; underweight and normal get their fixed tips, which hold no digit; the upper three bands embed the kilograms to lose |
| BmiAdvisor.FixedTipsWithoutDigits | yesterday-health-diary.jsx:82-86 | the underweight and normal tips contain no digit |
| BmiScenarios.InitialBmi | yesterday-health-diary.jsx:5-21 | the opening 65.0 kg at 170 cm shows BMI `22.5`, normal |
| BmiScenarios.InitialAdvice | yesterday-health-diary.jsx:67-111 | and so the normal label, the congratulation and 💪 |
| BmiScenarios.TenthsAt170 | yesterday-health-diary.jsx:15-18 | at 170 cm the exact BMIs of 65, 80, 45 and 66.4 kg round to 225, 277, 156 and 230 tenths, the last from below 23 |
| BmiScenarios.TargetAt170 | yesterday-health-diary.jsx:88 | the target weight at 170 cm is `66.5` |
| BmiScenarios.ObeseBmi | yesterday-health-diary.jsx:12-57 | 80.0 kg at 170 cm shows `27.7`, obese class I |
| BmiScenarios.ObeseWeightToLose | yesterday-health-diary.jsx:92-93 | and the kilograms to lose print as `13.5` |
| BmiScenarios.ObeseAdvice | yesterday-health-diary.jsx:91-94 | the obese class I tip embeds `13.5` |
| BmiScenarios.UnderweightBmi | yesterday-health-diary.jsx:12-39 | 45.0 kg at 170 cm shows `15.6`, underweight |
| BmiScenarios.UnderweightAdvice | yesterday-health-diary.jsx:78-84 | and so the tip to eat enough |
| BmiScenarios.RoundedIntoOverweight | yesterday-health-diary.jsx:12-51 | 66.4 kg at 170 cm: exact BMI below 23, printed `23.0`, classed overweight |
| BmiScenarios.NegativeWeightToLose | yesterday-health-diary.jsx:88-89 | there the kilograms to lose print as `-0.1` |
| BmiScenarios.NegativeAdvice | yesterday-health-diary.jsx:87-90 | and the overweight tip asks to lose `-0.1` kg |
| BmiScenarios.InitialTexts | yesterday-health-diary.jsx:5-6 | the opening texts are valid and read as 65.0 kg and 170 cm |
| BmiScenarios.EmptyWeight | yesterday-health-diary.jsx:13-20 | an empty weight box gives the sentinel and the unknown band |
| Selections.Without | yesterday-health-diary.jsx:165 | the filter removes every occurrence of the id and keeps exactly the other ids |
| Selections.Toggled | yesterday-health-diary.jsx:162-176 | the id is in the result exactly when it was not before; other ids are unaffected; an absent id is appended at the end |
| Selections.WithoutMultiset | yesterday-health-diary.jsx:165 | the filter keeps every other id as often as before |
| Selections.ToggledNoDup | yesterday-health-diary.jsx:162-176 | a duplicate-free selection stays duplicate-free |
| Selections.ToggledMultiset | yesterday-health-diary.jsx:162-176 | on a duplicate-free selection only the count of the toggled id changes, to 1 or 0 |
| Selections.ToggledKeepsOthers | yesterday-health-diary.jsx:162-176 | the other ids keep their relative order |
| Selections.ToggleTwice | yesterday-health-diary.jsx:162-176 | toggling twice restores a selection without the id, and moves a present id to the end |
| Selections.ToggleTwiceRestores | yesterday-health-diary.jsx:162-176 | toggling twice restores the selection exactly when the id is absent or last |
| Selections.ToggleTwiceReorders | yesterday-health-diary.jsx:162-168 | toggling `a` twice in `[a, b]` gives `[b, a]` |
| Selections.ToggledChoice | yesterday-health-diary.jsx:178-182 | the choice is cleared exactly when the value was already chosen, and is the value otherwise |
| Selections.ToggleChoiceTwice | yesterday-health-diary.jsx:178-182 | choosing a value twice restores the state exactly when nothing or that value was chosen; from another value it ends cleared |
| Diary.HealthDiary.constructor | yesterday-health-diary.jsx:5-9 | the form opens at `65.0` kg, `170` cm, nothing ticked or chosen, in a valid state |
| Diary.HealthDiary.HandleWeightChange | yesterday-health-diary.jsx:113-126 | the weight field keeps valid text; a rejected edit leaves it unchanged; otherwise it stores the sanitised text |
| Diary.HealthDiary.AdjustWeight | yesterday-health-diary.jsx:128-132 | the weight becomes `max(0, weight + delta)` rounded to one decimal, never negative |
| Diary.HealthDiary.HandleHeightChange | yesterday-health-diary.jsx:134-140 | the height field keeps valid text; a rejected edit leaves it unchanged |
| Diary.HealthDiary.AdjustHeight | yesterday-health-diary.jsx:142-146 | the height becomes the clamped stepped value, always within 0..300 |
| Diary.HealthDiary.ToggleRiskFactor | yesterday-health-diary.jsx:162-168 | the risk list is toggled and stays duplicate-free |
| Diary.HealthDiary.TogglePositiveHabit | yesterday-health-diary.jsx:170-176 | the habit list is toggled and stays duplicate-free |
| Diary.HealthDiary.ToggleExerciseDuration | yesterday-health-diary.jsx:178-182 | the duration is cleared exactly when the same value is chosen again |

## Left out

- `handleSave` and the `isSubmitting` latch (yesterday-health-diary.jsx:10, 184-223) are left out. They are a network POST with alerts and console logging, which is I/O.
- JSX rendering, CSS classes and the static option catalogues (yesterday-health-diary.jsx:148-160, 225-481) are left out. They are presentation and data with no behaviour. Option ids are plain strings here.
- React `useState` scheduling is left out. Each setter is an immediate assignment to a field.
- IEEE-754 doubles are left out. Division, `Math.pow`, `toFixed` and `parseFloat` work on exact reals, so the model makes no claim about the last bit of a float.
- `toFixed` exponential notation for magnitudes of 1e21 and above is left out. `ToFixed1` always prints plain decimal text.
- The leniency of `parseFloat` and `parseInt` on arbitrary strings is left out. Examples are trailing garbage, exponents and leading blanks. Only sanitised digit and decimal text reaches them, so parsing is modelled on decimal numerals only.
- The target weight computed and thrown away in the underweight branch (yesterday-health-diary.jsx:83) is left out. It has no effect.
- Inputs.AdjustedHeight: the delta is a whole number. The buttons pass ±1, and a fractional delta would make `toString` print a fraction.
- BmiAdvisor.WeightToLose: requires a positive weight. The source only evaluates it inside the upper three bands, where the weight reads as positive.
