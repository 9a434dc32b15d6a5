/** The Python values the scripts handle: decoded JSON, IEEE doubles, the
    exceptions that end a run, and the library conversions the scripts call
    (float(), int(), the ":.6f" format, datetime.fromisoformat) as functions
    handed in from outside. */
module Py {
  import opened Wrappers
  import opened Calendar

  /** A Python float, kept as its IEEE-754 bit pattern. Only its truth value
      is interpreted here; everything else goes through a `Lib` function. */
  datatype Num = Double(bits: bv64)

  /** The float 0.0 (positive zero), what `float(0)` and the literal `0.0` give. */
  const Zero: Num := Double(0)

  /** Python's `bool(x)` on a float: false exactly for 0.0 and -0.0. */
  predicate IsZero(n: Num) {
    n.bits & 0x7FFF_FFFF_FFFF_FFFF == 0
  }

  /** The value of `json.loads`: null, booleans, integers, floats, strings,
      lists and objects (an object is a dict; its key order is not kept). */
  datatype Json =
    | JNull
    | JBool(b: bool)
    | JInt(i: int)
    | JFloat(x: Num)
    | JStr(s: string)
    | JList(items: seq<Json>)
    | JObj(fields: map<string, Json>)

  /** The exceptions that stop a script, with the message where the script
      writes one. */
  datatype PyError =
    | AttributeError
    | TypeError
    | ValueError
    | KeyError(key: string)
    | IndexError
    | OverflowError
    | UnboundLocalError
    | SystemExit(message: string)
    | RuntimeError(message: string)
    | RemoteError(message: string)

  datatype Result<+T> = Ok(value: T) | Err(error: PyError)

  /** A value written to a CSV cell or sent in a request: text or a float. */
  datatype Value = Text(s: string) | Number(x: Num)

  /** The float nan (the quiet NaN pandas uses for an empty cell). */
  const NaN: Num := Double(0x7FF8_0000_0000_0000)

  /** Library conversions the model does not interpret. Each returns the
      exception Python raises where it fails. */
  datatype Lib = Lib(
    parseFloat: string -> Result<Num>,   // float(s) for a str s
    intToFloat: int -> Result<Num>,      // float(i) for an int i (OverflowError when too large)
    truncate: Num -> Result<int>,        // int(x) for a float x (fails on nan and inf)
    parseInt: string -> Result<int>,     // int(s) for a str s
    fmt6: Num -> string,                 // f"{x:.6f}"
    fromIso: string -> Option<ValidDate> // datetime.fromisoformat(s).date(), None where it raises
  )

  /** `datetime.fromisoformat(s).date()`, None where it raises; the empty
      string is never an ISO date. */
  function FromIso(lib: Lib, s: string): (r: Option<ValidDate>)
    ensures s == [] ==> r.None?
  {
    if s == [] then None else lib.fromIso(s)
  }

  /** `d.get(k)` on an object: the value, or None (JNull) when the key is absent. */
  function Get(m: map<string, Json>, k: string): Json {
    if k in m then m[k] else JNull
  }

  /** Python's truth value of a JSON value. */
  predicate Truthy(j: Json) {
    match j
    case JNull => false
    case JBool(b) => b
    case JInt(i) => i != 0
    case JFloat(x) => !IsZero(x)
    case JStr(s) => s != []
    case JList(items) => items != []
    case JObj(fields) => fields != map[]
  }

  /** `int(j)`: an int converts to itself, a bool to 0 or 1; None, lists and
      dicts raise TypeError. */
  function IntOf(lib: Lib, j: Json): (r: Result<int>)
    ensures j.JInt? ==> r == Ok(j.i)
    ensures j.JBool? ==> r == Ok(if j.b then 1 else 0)
    ensures j.JNull? || j.JList? || j.JObj? ==> r == Err(TypeError)
  {
    match j
    case JInt(i) => Ok(i)
    case JBool(b) => Ok(if b then 1 else 0)
    case JFloat(x) => lib.truncate(x)
    case JStr(s) => lib.parseInt(s)
    case _ => Err(TypeError)
  }

  /** `float(j)`: a float converts to itself; None, lists and dicts raise
      TypeError. */
  function FloatOf(lib: Lib, j: Json): (r: Result<Num>)
    ensures j.JFloat? ==> r == Ok(j.x)
    ensures j.JNull? || j.JList? || j.JObj? ==> r == Err(TypeError)
  {
    match j
    case JFloat(x) => Ok(x)
    case JInt(i) => lib.intToFloat(i)
    case JBool(b) => lib.intToFloat(if b then 1 else 0)
    case JStr(s) => lib.parseFloat(s)
    case _ => Err(TypeError)
  }

  /** The `"" if v is None else f"{float(v):.6f}"` cell of the output CSVs:
      Some("") for None, the formatted number, or None when float() raises. */
  function Cell6(lib: Lib, v: Json): (r: Option<string>)
    ensures v.JNull? ==> r == Some("")
    ensures v.JFloat? ==> r == Some(lib.fmt6(v.x))
    ensures !v.JNull? ==> (r.Some? <==> FloatOf(lib, v).Ok?)
  {
    if v.JNull? then Some("")
    else match FloatOf(lib, v)
      case Ok(x) => Some(lib.fmt6(x))
      case Err(_) => None
  }
}
