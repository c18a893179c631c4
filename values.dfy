/** The Python values an attribute can hold, and Python's str() of them. */
module Values {
  import opened Digits
  import opened DateTimes

  /**
   * An attribute value.  VOther stands for any other object (a float, a list,
   * a dict, ...), of which the model only keeps what str() returns for it.
   */
  datatype Value =
    | VStr(s: string)
    | VInt(i: int)
    | VBool(b: bool)
    | VNone
    | VTime(time: DateTime)
    | VOther(text: string)

  /** `str(v)`. */
  function ToStr(v: Value): string {
    match v
    case VStr(s) => s
    case VInt(i) => IntText(i)
    case VBool(b) => if b then "True" else "False"
    case VNone => "None"
    case VTime(t) => IsoFormat(t, ' ')
    case VOther(text) => text
  }
}
