/** The JavaScript number operators the components use, on integers. */
module JsNumber {

  /** `a % b` for a positive divisor: truncating, so the remainder takes the sign of `a`. */
  function Rem(a: int, b: int): (r: int)
    requires b > 0
    ensures a >= 0 ==> r == a % b
    ensures a < 0 ==> -b < r <= 0
    ensures a == b * (if a >= 0 then a / b else -((-a) / b)) + r
  {
    assert -a == b * ((-a) / b) + (-a) % b;
    if a >= 0 then a % b else -((-a) % b)
  }

  /** `Math.min(a, b)`. */
  function Min(a: real, b: real): (r: real)
    ensures r <= a && r <= b && (r == a || r == b)
  {
    if a <= b then a else b
  }
}
