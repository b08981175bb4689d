/** Parsed JSON values and the Python conversions the program applies to them. */
module Json {
  import opened Prelude

  datatype Json =
    | Null
    | Bool(b: bool)
    | Int(n: int)
    | Real(x: real)
    | NotFinite(nan: bool)
    | Str(s: string)
    | List(items: seq<Json>)
    | Obj(fields: map<string, Json>)

  /** Foreign conversions: str(), parsing of numeric strings, and which ints exceed a float. */
  datatype Python = Python(
    str: Json -> string, floatOf: string -> Option<Json>, intOf: string -> Option<int>, tooLarge: int -> bool)

  /** payload.get(key) for an object; a missing key and an explicit null are the same. */
  function Get(fields: map<string, Json>, key: string): Json {
    if key in fields then fields[key] else Null
  }

  /** json.loads: NotJson is a JSONDecodeError, Breaks any other exception (an integer past the digit limit, say). */
  datatype Decoding = Decoded(json: Json) | NotJson | Breaks

  datatype Converted<T> = Value(v: T) | BadValue | Overflow

  /** int(x) truncates towards zero. */
  function Truncate(x: real): int {
    if x >= 0.0 then x.Floor else -((-x).Floor)
  }

  function ToInt(j: Json, py: Python): Converted<int> {
    match j
    case Bool(b) => Value(if b then 1 else 0)
    case Int(n) => Value(n)
    case Real(x) => Value(Truncate(x))
    case NotFinite(nan) => if nan then BadValue else Overflow
    case Str(s) => if py.intOf(s).Some? then Value(py.intOf(s).value) else BadValue
    case _ => BadValue
  }

  /** float(j); None stands for a value that is not finite. */
  function ToFloat(j: Json, py: Python): Converted<Option<real>> {
    match j
    case Bool(b) => Value(Some(if b then 1.0 else 0.0))
    case Int(n) => if py.tooLarge(n) then Overflow else Value(Some(n as real))
    case Real(x) => Value(Some(x))
    case NotFinite(_) => Value(None)
    case Str(s) =>
      (match py.floatOf(s)
       case Some(Real(x)) => Value(Some(x))
       case Some(NotFinite(_)) => Value(None)
       case _ => BadValue)
    case _ => BadValue
  }

  /** The two conversions of a number or a truth value agree: the integer is the float without its fraction. */
  lemma ConversionsAgree(j: Json, py: Python)
    requires j.Bool? || j.Int? || j.Real?
    ensures ToInt(j, py).Value? && (ToFloat(j, py).Overflow? <==> j.Int? && py.tooLarge(j.n))
    ensures ToFloat(j, py) != Overflow ==>
              && ToFloat(j, py).Value? && ToFloat(j, py).v.Some?
              && var n, x := ToInt(j, py).v as real, ToFloat(j, py).v.value;
                 if x >= 0.0 then n <= x < n + 1.0 else n - 1.0 < x <= n
    ensures ToInt(Bool(true), py) == Value(1) && ToInt(Bool(false), py) == Value(0)
  {
  }

  /** A string converts to what Python parses it as, an infinity overflows as an integer only, and nothing else converts. */
  lemma OtherConversions(j: Json, py: Python)
    requires !(j.Bool? || j.Int? || j.Real?)
    ensures ToInt(j, py).Value? <==> j.Str? && py.intOf(j.s).Some?
    ensures ToInt(j, py).Value? ==> Some(ToInt(j, py).v) == py.intOf(j.s)
    ensures ToInt(j, py).Overflow? <==> j == NotFinite(false)
    ensures ToFloat(j, py).Value? <==>
              j.NotFinite? || (j.Str? && py.floatOf(j.s).Some? && (py.floatOf(j.s).value.Real? || py.floatOf(j.s).value.NotFinite?))
    ensures ToFloat(j, py).Value? && ToFloat(j, py).v.Some? ==> j.Str? && py.floatOf(j.s) == Some(Real(ToFloat(j, py).v.value))
    ensures !ToFloat(j, py).Overflow?
  {
  }
}
