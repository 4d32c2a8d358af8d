/** Small value types shared by every part of the model: optional values
    (JavaScript `null`/`undefined` and Python `None`) and JavaScript numbers,
    which may be `NaN` after a failed `parseFloat` or infinite after parsing
    "Infinity" or an overflowing exponent. */
module Values {

  datatype Option<+T> = None | Some(value: T) {

    /** The value in Some, or `default` when None. */
    function GetOr(default: T): T {
      match this
      case Some(v) => v
      case None => default
    }
  }

  /** A JavaScript number as far as the screens use it: NaN (the result of
      parsing text that is not a number), an infinity, or a finite value.
      IEEE rounding is not modelled; a finite value is an exact real. */
  datatype JsNumber = NaN | Infinite(positive: bool) | Num(value: real) {

    /** JavaScript truthiness of a number: NaN and zero are falsy. */
    predicate Truthy() {
      Infinite? || (Num? && value != 0.0)
    }
  }

  /** Multiplying by a positive factor keeps the sign of a real. */
  lemma PositiveFactorSign(x: real, p: real)
    requires p > 0.0
    ensures x * p >= 0.0 <==> x >= 0.0
  {
    if x < 0.0 {
      assert (-x) * p > 0.0;
    }
  }
}
