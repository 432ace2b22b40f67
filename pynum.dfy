/** Python's integer conversions of floats, used by the slider and by the intelligence score. */
module PyNum {
  /** `round(x)`: nearest integer, ties to the even neighbour. */
  function Round(x: real): (r: int)
    ensures -0.5 <= x - r as real <= 0.5
    ensures (x - r as real == 0.5 || x - r as real == -0.5) ==> r % 2 == 0
  {
    var f := x.Floor;
    var d := x - f as real;
    if d < 0.5 then f
    else if d > 0.5 then f + 1
    else if f % 2 == 0 then f
    else f + 1
  }

  /** `int(x)`: drops the fraction, rounding toward zero. */
  function Trunc(x: real): (r: int)
    ensures 0.0 <= x ==> 0 <= r && r as real <= x < r as real + 1.0
    ensures x < 0.0 ==> r <= 0 && r as real - 1.0 < x <= r as real
  {
    if x >= 0.0 then x.Floor else -((-x).Floor)
  }

  /** A value closer than one half to an integer rounds to it. */
  lemma {:induction false} RoundNear(x: real, v: int)
    requires v as real - 0.5 < x < v as real + 0.5
    ensures Round(x) == v
  {
  }

  /** Python's `min` of two integers. */
  function Min(a: int, b: int): (r: int)
    ensures r <= a && r <= b && (r == a || r == b)
  {
    if a <= b then a else b
  }

  /** Python's `max` of two integers. */
  function Max(a: int, b: int): (r: int)
    ensures r >= a && r >= b && (r == a || r == b)
  {
    if a >= b then a else b
  }
}
