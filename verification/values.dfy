/**
 JavaScript values reduced to what the framework inspects about them: whether a value
 is truthy and whether `typeof value === "function"`. Function values are opaque and
 are named by the module and export they come from.
 */
module Values {

  datatype Option<+T> = None | Some(value: T) {

    /** `this || fallback` for an optional (undefined when absent) value. */
    function GetOr(fallback: T): T {
      match this
      case Some(v) => v
      case None => fallback
    }
  }

  /** A computation that either yields a value or throws an error. */
  datatype Result<+T, +E> = Ok(value: T) | Err(error: E)

  /** An opaque function value: `origin` is the module it was defined in, `name` the binding. */
  datatype Callable = Callable(origin: string, name: string)

  /** A JavaScript value as seen by truthiness and `typeof` tests. */
  datatype JsValue = Fn(f: Callable) | TruthyValue | FalsyValue {

    predicate IsTruthy() {
      !FalsyValue?
    }

    /** `typeof v === "function"`; a function is always truthy. */
    predicate IsFunction() {
      Fn?
    }
  }
}
