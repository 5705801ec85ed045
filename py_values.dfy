/**
 * Loosely typed tool arguments, Python's `int()` coercion of them, and what a
 * tool function hands back to the tool-server framework.
 */
module PyValues {
  import opened Wrappers
  import opened Text

  /**
   * An argument as a tool receives it from the agent: a string, an integer,
   * a float (a finite one), a boolean, a list of strings, or any other value
   * (named by its Python type).
   */
  datatype PyValue = PyStr(s: string) | PyInt(i: int) | PyFloat(x: real) | PyBool(b: bool)
                   | PyStrList(items: seq<string>) | PyOther(typeName: string)

  /** `type(v).__name__`. */
  function TypeName(v: PyValue): string {
    match v
    case PyStr(_) => "str"
    case PyInt(_) => "int"
    case PyFloat(_) => "float"
    case PyBool(_) => "bool"
    case PyStrList(_) => "list"
    case PyOther(t) => t
  }

  /** `n` is `x` with its fractional part dropped: the integer between 0 and `x` closest to `x`. */
  predicate TowardZero(x: real, n: int) {
    (x >= 0.0 ==> n as real <= x < n as real + 1.0)
    && (x < 0.0 ==> n as real - 1.0 < x <= n as real)
  }

  /** `int(x)` for a float: truncation toward zero. */
  function Truncate(x: real): (n: int)
    ensures TowardZero(x, n)
  {
    if x >= 0.0 then x.Floor else -((-x).Floor)
  }

  /** `repr(s)` for a string without quotes, backslashes or unprintable characters. */
  function Repr(s: string): string {
    "'" + s + "'"
  }

  /**
   * `int(v)`: the integer, or the text of the `ValueError` or `TypeError`
   * Python raises.
   */
  function IntOf(v: PyValue): (r: Result<int, string>)
    ensures v.PyInt? ==> r == Success(v.i)
    ensures v.PyStr? ==> (r.Success? <==> ParseInt(v.s).Some?)
    ensures v.PyStr? && r.Success? ==> Some(r.value) == ParseInt(v.s)
    ensures v.PyFloat? ==> r.Success? && TowardZero(v.x, r.value)
    ensures v.PyBool? ==> r == Success(if v.b then 1 else 0)
    ensures v.PyStrList? || v.PyOther? ==> r.Failure?
  {
    match v
    case PyInt(i) => Success(i)
    case PyFloat(x) => Success(Truncate(x))
    case PyBool(b) => Success(if b then 1 else 0)
    case PyStr(s) =>
      (match ParseInt(s)
       case Some(n) => Success(n)
       case None => Failure("invalid literal for int() with base 10: " + Repr(s)))
    case _ =>
      Failure("int() argument must be a string, a bytes-like object or a real number, not '"
              + TypeName(v) + "'")
  }

  /** A float with no fractional part converts to the integer it equals. */
  lemma IntOfWholeFloat(n: int)
    ensures IntOf(PyFloat(n as real)) == Success(n)
  {
    var x := n as real;
    if n < 0 {
      assert (-x).Floor == -n;
    }
  }

  /** At most one integer is `x` truncated toward zero, so `IntOf`'s contract for floats fixes its result. */
  lemma TowardZeroUnique(x: real, m: int, n: int)
    requires TowardZero(x, m) && TowardZero(x, n)
    ensures m == n
  {
  }

  /** An integer the agent sent as its decimal text is read back as that integer. */
  lemma IntOfDecimalText(n: int)
    ensures IntOf(PyStr(DecimalString(n))) == Success(n)
  {
    ParseDecimalString(n);
  }

  /**
   * What a tool function does: return a value (`None` or a string) or raise
   * an exception with the given text.
   */
  datatype ToolOutcome = Returned(value: Option<string>) | Raised(error: string)
}
