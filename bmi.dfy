/** Body-mass index and its category (calculateBmi in app.js). */
module Bmi {
  import opened Wrappers
  import opened Units

  /** The object calculateBmi returns: `bmi` is `None` where the source returns null. */
  datatype BmiResult = BmiResult(bmi: Option<real>, category: string)

  const Prompt := "Enter weight and height"

  /** The category labels, lightest first. */
  const Categories: seq<string> := ["Underweight", "Normal weight", "Overweight", "Obesity"]

  /**
   * The category of a BMI, by lower-inclusive thresholds: below 18.5, from
   * 18.5 to below 25, from 25 to below 30, and 30 or more.
   */
  function Category(bmi: real): (c: string)
    ensures c == Categories[Band(bmi)]
  {
    if bmi < 18.5 then "Underweight"
    else if bmi < 25.0 then "Normal weight"
    else if bmi < 30.0 then "Overweight"
    else "Obesity"
  }

  /** The position of a BMI's band among Categories, read off the interval it lies in. */
  function Band(bmi: real): (k: nat)
    ensures k < |Categories|
    ensures k == 0 <==> bmi < 18.5
    ensures k == 1 <==> 18.5 <= bmi < 25.0
    ensures k == 2 <==> 25.0 <= bmi < 30.0
    ensures k == 3 <==> 30.0 <= bmi
  {
    (if bmi >= 18.5 then 1 else 0) + (if bmi >= 25.0 then 1 else 0) + (if bmi >= 30.0 then 1 else 0)
  }

  /**
   * The BMI of a weight in kilograms and a height in meters: the prompt with no
   * BMI unless both are positive; otherwise the weight over the square of the
   * height, with its category.
   */
  function MetricBmi(kg: Number, m: Number): (r: BmiResult)
    ensures r.bmi.None? <==> !Positive(kg) || !Positive(m)
    ensures r.bmi.None? ==> r.category == Prompt
    ensures r.bmi.Some? ==> r.bmi.value > 0.0 && r.bmi.value * (m.value * m.value) == kg.value
    ensures r.bmi.Some? ==> r.category == Categories[Band(r.bmi.value)]
  {
    if !Positive(kg) || !Positive(m) then BmiResult(None, Prompt)
    else
      var bmi := kg.value / (m.value * m.value);
      BmiResult(Some(bmi), Category(bmi))
  }

  /**
   * calculateBmi: the weight and the height are converted to kilograms and
   * meters first. A missing, non-finite, zero or negative measurement gives the
   * prompt, whatever the units.
   */
  function CalculateBmi(weightValue: Number, weightUnit: string, heightValue: Number, heightUnit: string): (r: BmiResult)
    ensures r.bmi.None? <==> !Positive(weightValue) || !Positive(heightValue)
    ensures r.bmi.None? ==> r.category == Prompt
    ensures r.bmi.Some? ==> r.category == Categories[Band(r.bmi.value)]
  {
    MetricBmi(ToKilograms(weightValue, weightUnit), ToMeters(heightValue, heightUnit))
  }

  /** A larger BMI never falls in a lighter band. */
  lemma CategoryMonotone(a: real, b: real)
    requires a <= b
    ensures Band(a) <= Band(b)
  {
  }

  /** The boundary values belong to the heavier band. */
  lemma CategoryBoundaries()
    ensures Category(18.4) == "Underweight" && Category(18.5) == "Normal weight"
    ensures Category(24.999) == "Normal weight" && Category(25.0) == "Overweight"
    ensures Category(29.999) == "Overweight" && Category(30.0) == "Obesity"
  {
  }

  /**
   * The result does not depend on the units the body measurements are entered
   * in: the same weight and height, written in any weight unit and any height
   * unit, give the result they give in kilograms and meters.
   */
  lemma BmiUnitInvariant(kg: real, m: real, weightUnit: string, heightUnit: string)
    ensures CalculateBmi(Some(WeightIn(kg, weightUnit)), weightUnit, Some(HeightIn(m, heightUnit)), heightUnit)
         == CalculateBmi(Some(kg), "kg", Some(m), "m")
  {
    assert ToKilograms(Some(WeightIn(kg, weightUnit)), weightUnit) == ToKilograms(Some(kg), "kg");
    assert ToMeters(Some(HeightIn(m, heightUnit)), heightUnit) == ToMeters(Some(m), "m");
  }

  /** 70 kg at 175 cm is a BMI of about 22.86, in the normal band. */
  lemma BmiExample()
    ensures var r := CalculateBmi(Some(70.0), "kg", Some(175.0), "cm");
      r.bmi.Some? && 22.85 < r.bmi.value < 22.86 && r.category == "Normal weight"
  {
  }
}
