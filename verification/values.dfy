/**
 Chunk metadata as the pipeline stores it next to each chunk: a string-keyed
 map whose values are strings, integers, booleans or floats.
 */
module Values {
  import opened Text

  datatype Value = Str(s: string) | Int(i: int) | Bool(b: bool) | Float(x: real)

  type Metadata = map<string, Value>

  /** Python's `str(v)`, the form an f-string interpolates. A float is rendered
      with its integer part and at most four decimals, trailing zeros dropped
      and at least one kept (`1.0`, `0.25`). */
  function Display(v: Value): string
  {
    match v
    case Str(s) => s
    case Int(i) => IntToString(i)
    case Bool(b) => if b then "True" else "False"
    case Float(x) => FloatText(x)
  }

  function FloatText(x: real): (r: string)
    ensures r != ""
  {
    var a := if x < 0.0 then -x else x;
    var whole := a.Floor;
    var tenThousandths := ((a - whole as real) * 10000.0).Floor;
    (if x < 0.0 then "-" else "") + IntToString(whole) + "." + DropTrailingZeros(Padded(tenThousandths, 4))
  }

  /** The `width`-digit zero-padded decimal rendering of `f % 10^width`. */
  function Padded(f: int, width: nat): (r: string)
    decreases width
    ensures |r| == width && AllDigits(r)
  {
    if width == 0 then "" else Padded(f / 10, width - 1) + [DigitChar(f % 10)]
  }

  /** Drops trailing zeros, keeping at least one digit. */
  function DropTrailingZeros(s: string): (r: string)
    ensures |r| <= |s| && r == s[..|r|]
    ensures |s| > 0 ==> |r| > 0
  {
    if |s| > 1 && s[|s| - 1] == '0' then DropTrailingZeros(s[..|s| - 1]) else s
  }
}
