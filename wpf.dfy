/**
 * The WPF values that the two visibility converters exchange with a binding:
 * the `Visibility` enumeration and the boxed `object` a converter receives
 * or returns.
 */
module Wpf {
  import opened Text

  datatype Visibility = Visible | Hidden | Collapsed

  /** A boxed `object`: null, a bool, a Visibility, a string,
      `DependencyProperty.UnsetValue`, or an object of any other type, given by
      what its `ToString()` returns. */
  datatype Value =
    | Null
    | Bool(b: bool)
    | Vis(v: Visibility)
    | Str(s: string)
    | UnsetValue
    | Other(text: string)

  /** `object.ToString()` of a non-null value. */
  function ToString(x: Value): string
    requires !x.Null?
  {
    match x
    case Bool(b) => if b then "True" else "False"
    case Vis(v) => (match v case Visible => "Visible" case Hidden => "Hidden" case Collapsed => "Collapsed")
    case Str(s) => s
    case UnsetValue => "{DependencyProperty.UnsetValue}"
    case Other(text) => text
  }
}
