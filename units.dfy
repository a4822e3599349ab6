/**
 * Weight and height conversion to kilograms and meters (toKilograms and
 * toMeters in app.js). A JavaScript number is `Some(x)` when it is finite and
 * `None` when it is NaN or infinite; arithmetic is exact over `real`.
 */
module Units {
  import opened Wrappers

  type Number = Option<real>

  /** The international pound, in kilograms. */
  const KilogramsPerPound: real := 0.45359237
  /** The international inch, in meters. */
  const MetersPerInch: real := 0.0254
  const CentimetersPerMeter: real := 100.0

  predicate Positive(x: Number) {
    x.Some? && x.value > 0.0
  }

  /**
   * toKilograms: a weight in pounds when the unit is "lb", in kilograms for any
   * other unit. A non-finite weight gives NaN; a finite one keeps its sign.
   */
  function ToKilograms(weight: Number, unit: string): (kg: Number)
    ensures kg.Some? <==> weight.Some?
    ensures Positive(kg) <==> Positive(weight)
    ensures unit != "lb" ==> kg == weight
    ensures unit == "lb" && weight.Some? ==> kg.value < weight.value || weight.value <= 0.0
  {
    match weight
    case None => None
    case Some(w) => if unit == "lb" then Some(w * KilogramsPerPound) else Some(w)
  }

  /**
   * toMeters: a height in inches for "in", in centimeters for "cm", in meters
   * for any other unit. A non-finite height gives NaN; a finite one keeps its sign.
   */
  function ToMeters(height: Number, unit: string): (m: Number)
    ensures m.Some? <==> height.Some?
    ensures Positive(m) <==> Positive(height)
    ensures unit != "in" && unit != "cm" ==> m == height
  {
    match height
    case None => None
    case Some(h) =>
      if unit == "in" then Some(h * MetersPerInch)
      else if unit == "cm" then Some(h / CentimetersPerMeter)
      else Some(h)
  }

  /** A weight of `kg` kilograms as entered in `unit`: in pounds for "lb", in kilograms otherwise. */
  function WeightIn(kg: real, unit: string): (w: real)
    ensures ToKilograms(Some(w), unit) == Some(kg)
    ensures w > 0.0 <==> kg > 0.0
  {
    if unit == "lb" then kg / KilogramsPerPound else kg
  }

  /** A height of `m` meters as entered in `unit`: in inches for "in", centimeters for "cm", meters otherwise. */
  function HeightIn(m: real, unit: string): (h: real)
    ensures ToMeters(Some(h), unit) == Some(m)
    ensures h > 0.0 <==> m > 0.0
  {
    if unit == "in" then m / MetersPerInch
    else if unit == "cm" then m * CentimetersPerMeter
    else m
  }

  /** Both conversions are order-preserving: a larger input never converts to a smaller value. */
  lemma ConversionsMonotone(a: real, b: real, unit: string)
    requires a <= b
    ensures ToKilograms(Some(a), unit).value <= ToKilograms(Some(b), unit).value
    ensures ToMeters(Some(a), unit).value <= ToMeters(Some(b), unit).value
  {
  }
}
