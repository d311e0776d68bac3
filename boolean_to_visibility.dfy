/**
 * `BooleanToVisibilityConverter`: shows an element for true and collapses it
 * for false, the other way round when the converter parameter reads
 * "invert" in any letter case.
 */
module BooleanToVisibilityConverter {
  import opened Text
  import opened Wpf

  /** The parameter asks for inversion: it is not null and its `ToString()`,
      lower-cased, is "invert". Only a string or an object of some other
      type can, and only with a six-character text. */
  predicate IsInvert(parameter: Value): (r: bool)
    ensures r ==> (parameter.Str? || parameter.Other?) && |ToString(parameter)| == 6
  {
    assert parameter.Bool? ==> |Lower(ToString(parameter))| != 6;
    assert Lower("Hidden")[0] == 'h';
    !parameter.Null? && Lower(ToString(parameter)) == "invert"
  }

  /** "invert" inverts in any letter case. */
  lemma InvertInAnyCase()
    ensures IsInvert(Str("invert")) && IsInvert(Str("INVERT")) && IsInvert(Str("Invert"))
  {
    LowersToInvert("invert");
    LowersToInvert("INVERT");
    LowersToInvert("Invert");
  }

  /** A six-letter text whose letters each lower-case to those of "invert"
      inverts. */
  lemma LowersToInvert(s: string)
    requires |s| == 6
    requires LowerChar(s[0]) == 'i' && LowerChar(s[1]) == 'n' && LowerChar(s[2]) == 'v'
    requires LowerChar(s[3]) == 'e' && LowerChar(s[4]) == 'r' && LowerChar(s[5]) == 't'
    ensures IsInvert(Str(s))
  {
    var u := Lower(s);
    forall i | 0 <= i < 6
      ensures u[i] == "invert"[i]
    {
      assert i == 0 || i == 1 || i == 2 || i == 3 || i == 4 || i == 5;
    }
  }

  /** `Convert(value, parameter)`. */
  function Convert(value: Value, parameter: Value): (r: Visibility)
    ensures r == Visible <==> value.Bool? && value.b != IsInvert(parameter)
    ensures r != Hidden
  {
    if value.Bool? then
      var invert := IsInvert(parameter);
      var boolValue := if invert then !value.b else value.b;
      if boolValue then Visible else Collapsed
    else
      Collapsed
  }

  /** `ConvertBack(value, parameter)`. */
  function ConvertBack(value: Value, parameter: Value): (r: Value)
    ensures value.Vis? ==> r == Bool((value.v == Visible) != IsInvert(parameter))
    ensures !value.Vis? ==> r == UnsetValue
  {
    if value.Vis? then
      var invert := IsInvert(parameter);
      var boolValue := value.v == Visible;
      Bool(if invert then !boolValue else boolValue)
    else
      UnsetValue
  }

  /** Converting a bool and back gives the bool again, whatever the
      parameter. */
  lemma RoundTrip(b: bool, parameter: Value)
    ensures ConvertBack(Vis(Convert(Bool(b), parameter)), parameter) == Bool(b)
  {
  }

  /** Hidden and Collapsed read back alike; converting a read-back value
      gives Visible and Collapsed back unchanged and turns Hidden into
      Collapsed. */
  lemma BackAndForth(v: Visibility, parameter: Value)
    ensures ConvertBack(Vis(Hidden), parameter) == ConvertBack(Vis(Collapsed), parameter)
    ensures Convert(ConvertBack(Vis(v), parameter), parameter) == (if v == Hidden then Collapsed else v)
  {
  }
}
