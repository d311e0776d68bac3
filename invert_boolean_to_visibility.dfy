/**
 * `InvertBooleanToVisibilityConverter`: collapses an element for true and
 * shows it otherwise.
 */
module InvertBooleanToVisibilityConverter {
  import opened Wpf
  import BooleanToVisibilityConverter

  /** `Convert(value)`. */
  function Convert(value: Value): (r: Visibility)
    ensures r == Collapsed <==> value == Bool(true)
    ensures r != Hidden
  {
    if value.Bool? && value.b then Collapsed else Visible
  }

  /** `ConvertBack(value)`: always a bool, never UnsetValue. */
  function ConvertBack(value: Value): (r: Value)
    ensures r.Bool?
    ensures r.b <==> value != Vis(Visible)
  {
    if value.Vis? && value.v == Visible then Bool(false) else Bool(true)
  }

  /** Converting a bool and back gives the bool again. */
  lemma RoundTrip(b: bool)
    ensures ConvertBack(Vis(Convert(Bool(b)))) == Bool(b)
  {
  }

  /** On a bool, and on every visibility read back, this converter is the
      parameterised one with parameter "invert"; on any value that is not a
      bool the two disagree (Visible here, Collapsed there). */
  lemma AgreesWithInvertParameter(b: bool, v: Visibility, other: Value)
    requires !other.Bool?
    ensures Convert(Bool(b)) == BooleanToVisibilityConverter.Convert(Bool(b), Str("invert"))
    ensures ConvertBack(Vis(v)) == BooleanToVisibilityConverter.ConvertBack(Vis(v), Str("invert"))
    ensures Convert(other) == Visible
    ensures BooleanToVisibilityConverter.Convert(other, Str("invert")) == Collapsed
  {
    BooleanToVisibilityConverter.InvertInAnyCase();
  }
}
