/** The JavaScript values the model needs to speak about. */
module JsValues {
  import opened Wrappers

  /** A JavaScript number: finite, `NaN` or positive `Infinity`. */
  datatype JsNumber = Finite(r: real) | NaN | Infinity

  datatype JsValue =
    | Undefined
    | Null
    | Bool(b: bool)
    | Num(n: JsNumber)
    | Str(s: string)
    | Arr(elements: seq<JsValue>)
    | Obj(properties: seq<(string, JsValue)>)
    | Ref(id: nat)   // a function, promise or other object the model does not look into

  /** `${b}` for a boolean. */
  function BoolText(b: bool): string {
    if b then "true" else "false"
  }

  /** 2^32: `new Array(n)` refuses a length that does not fit in 32 bits. */
  const ArrayLengthLimit: int := 0x1_0000_0000

  /**
   * The length of `new Array(v)`, or `None` when it throws a RangeError.
   * A number must be a whole number below 2^32; any other value becomes the
   * single element of a one-element array.
   */
  function NewArrayLength(v: JsValue): (r: Option<nat>)
    ensures !v.Num? ==> r == Some(1)
    ensures v.Num? && r.Some? ==> v.n == Finite(r.value as real) && r.value < ArrayLengthLimit
  {
    match v
    case Num(Finite(x)) =>
      if 0.0 <= x && x == x.Floor as real && x < ArrayLengthLimit as real then Some(x.Floor) else None
    case Num(_) => None
    case _ => Some(1)
  }

  /** `new Array(n).fill(null)` for a length already known. */
  function Nulls(n: nat): (r: seq<JsValue>)
    ensures |r| == n && forall i :: 0 <= i < n ==> r[i] == Null
  {
    seq(n, _ => Null)
  }

  /** Every whole number below 2^32 is a valid length, and gives that length. */
  lemma NewArrayLengthOfWholeNumber(k: nat)
    requires k < ArrayLengthLimit
    ensures NewArrayLength(Num(Finite(k as real))) == Some(k)
  {
  }
}
