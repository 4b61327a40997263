/** Value wrappers shared by every module: optional values, the errors the
    TypeScript and Python sources can throw, results that carry either, and
    JavaScript numbers that may be NaN. */
module Base {

  /** `undefined`/`null`/`None` versus a present value. */
  datatype Option<T> = None | Some(value: T) {
    function GetOr(default: T): T {
      if Some? then value else default
    }
  }

  /** The exceptions the modelled code can raise. JavaScript raises TypeError
      (property access on undefined); Python raises the other kinds. */
  datatype Error =
    | TypeError
    | IndexError
    | ValueError
    | AttributeError
    | KeyError
    | UnboundLocalError

  /** A computation that either returns a value or throws. */
  datatype Result<T> = Ok(value: T) | Err(error: Error) {
    predicate IsFailure() {
      Err?
    }

    function PropagateFailure<U>(): Result<U>
      requires Err?
    {
      Err(error)
    }

    function Extract(): T
      requires Ok?
    {
      value
    }
  }

  /** An integral JavaScript number, or NaN (what `parseInt` returns when it
      finds no digits). Every comparison involving NaN is false. */
  datatype JsNumber = Num(n: int) | NaN

  function Plus(x: JsNumber, k: int): (r: JsNumber)
    ensures r.NaN? <==> x.NaN?
  {
    match x
    case Num(n) => Num(n + k)
    case NaN => NaN
  }

  /** `x < y` on JavaScript numbers. */
  predicate Less(x: JsNumber, y: JsNumber) {
    x.Num? && y.Num? && x.n < y.n
  }

  /** `x <= y` on JavaScript numbers. */
  predicate LessEq(x: JsNumber, y: JsNumber) {
    x.Num? && y.Num? && x.n <= y.n
  }
}
