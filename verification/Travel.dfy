/** Directions of travel and the geometry of a shaft, shared by the one-car and the many-car model. */
module Travel {

  // The states of an elevator, in the source's order.
  datatype Direction = Up | Down | Stop

  function Opposite(d: Direction): Direction {
    match d
    case Up => Down
    case Down => Up
    case Stop => Stop
  }

  // How a car that keeps going in direction d changes its floor.
  function Delta(d: Direction): int {
    match d
    case Up => 1
    case Down => -1
    case Stop => 0
  }

  // Floor g lies strictly ahead of floor f for a car travelling in direction d.
  predicate Beyond(d: Direction, f: int, g: int) {
    match d
    case Up => f < g
    case Down => g < f
    case Stop => false
  }

  // The hall barrier a rider from src to dst waits at.
  function Heading(src: int, dst: int): Direction {
    if src < dst then Up else Down
  }

  // What a rider thread promises before it calls an elevator.
  predicate ValidTrip(numFloors: int, src: int, dst: int) {
    0 <= src < numFloors && 0 <= dst < numFloors && src != dst
  }

  function Abs(x: int): nat {
    if x < 0 then -x else x
  }

  // Distances compare as their squares do.
  lemma AbsSquares(x: int, y: int)
    ensures Abs(x) <= Abs(y) <==> x * x <= y * y
  {
    assert x * x == Abs(x) * Abs(x) && y * y == Abs(y) * Abs(y);
    SquaresGrow(Abs(x), Abs(y));
    SquaresGrow(Abs(y), Abs(x));
  }

  lemma SquaresGrow(a: nat, b: nat)
    ensures a < b ==> a * a < b * b
  {
    if a < b {
      assert b * b - a * a == (b - a) * (b + a);
    }
  }
}
