/** `SizeInteger`: an integer field that reads a blank value as a default.
    Only the normalisation step is modelled; the integer conversion it hands
    the value to belongs to the schema library. */
module SizeInteger {

  /** The JSON scalars an integer field can be given. */
  datatype Raw = Null | Bool(b: bool) | Int(i: int) | Str(s: string)

  /** Python truthiness of a scalar: exactly the four blank values are false. */
  function Falsy(v: Raw): (b: bool)
    ensures b <==> v == Null || v == Bool(false) || v == Int(0) || v == Str("")
  {
    match v
    case Null => true
    case Bool(b) => !b
    case Int(i) => i == 0
    case Str(s) => s == ""
  }

  /** The default the field is configured with when none is given. */
  const DefaultEmpty: int := 0

  /** The value handed on to the integer conversion. */
  function FormatNum(value: Raw, emptyDefault: int): (r: Raw)
    ensures Falsy(value) ==> r == Int(emptyDefault)
    ensures !Falsy(value) ==> r == value
  {
    if Falsy(value) then Int(emptyDefault) else value
  }

  /** Normalising twice is normalising once. */
  lemma FormatNumIdempotent(value: Raw, emptyDefault: int)
    ensures FormatNum(FormatNum(value, emptyDefault), emptyDefault) == FormatNum(value, emptyDefault)
  {
  }

  /** The normalised value is blank only when the input was blank and the
      default is itself zero; in particular nothing blank other than the
      integer 0 is ever passed on. */
  lemma FormatNumFalsyOnlyAsZero(value: Raw, emptyDefault: int)
    ensures Falsy(FormatNum(value, emptyDefault)) <==> Falsy(value) && emptyDefault == 0
    ensures Falsy(FormatNum(value, emptyDefault)) ==> FormatNum(value, emptyDefault) == Int(0)
  {
  }

  /** With the default configuration, every blank input becomes the integer 0. */
  lemma DefaultBlanksAreZero()
    ensures FormatNum(Str(""), DefaultEmpty) == Int(0)
    ensures FormatNum(Null, DefaultEmpty) == Int(0)
    ensures FormatNum(Int(0), DefaultEmpty) == Int(0)
    ensures FormatNum(Bool(false), DefaultEmpty) == Int(0)
  {
  }
}
