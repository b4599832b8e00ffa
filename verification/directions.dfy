/** The four cardinal directions a horse can face and walk in, numbered the way
    the host numbers facing directions (Up = 0, Right = 1, Down = 2, Left = 3). */
module Directions {

  datatype Direction = Up | Right | Down | Left

  /** The direction whose host number is `n`; the cast of a draw from 0..3. */
  function FromInt(n: int): Direction
    requires 0 <= n < 4
  {
    if n == 0 then Up
    else if n == 1 then Right
    else if n == 2 then Down
    else Left
  }

  /** The host number of a direction: a value in 0..3 that casts back to it. */
  function ToInt(d: Direction): (n: int)
    ensures 0 <= n < 4
    ensures FromInt(n) == d
  {
    match d
    case Up => 0
    case Right => 1
    case Down => 2
    case Left => 3
  }

  /** Casting a number in 0..3 to a direction and back gives the number. */
  lemma FromIntToInt(n: int)
    requires 0 <= n < 4
    ensures ToInt(FromInt(n)) == n
  {
  }
}
