module Rounding {

  /** Python's `round`: to the nearest integer, halves to the even one. */
  function RoundHalfEven(x: real): (r: int)
    ensures -0.5 <= r as real - x <= 0.5
    ensures x >= 0.0 ==> r >= 0
  {
    var low := x.Floor;
    var over := x - low as real;
    if over < 0.5 then low
    else if over > 0.5 then low + 1
    else if low % 2 == 0 then low
    else low + 1
  }
}
