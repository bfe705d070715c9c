/** The four compass directions and quarter turns (aoc_tools/src/direction.rs). */
module Direction {

  datatype Direction = Up | Right | Down | Left

  datatype Rotation = Clockwise | AntiClockwise

  /** `Direction::turn`. */
  function Turn(d: Direction, rotation: Rotation): (t: Direction)
    ensures t != d
  {
    match rotation
    case Clockwise =>
      (match d
       case Up => Right
       case Right => Down
       case Down => Left
       case Left => Up)
    case AntiClockwise =>
      (match d
       case Up => Left
       case Left => Down
       case Down => Right
       case Right => Up)
  }

  /** `dir as usize`: the declaration order of the enum. */
  function Index(d: Direction): (i: nat)
    ensures i < 4
  {
    match d
    case Up => 0
    case Right => 1
    case Down => 2
    case Left => 3
  }

  function Reverse(rotation: Rotation): Rotation {
    match rotation
    case Clockwise => AntiClockwise
    case AntiClockwise => Clockwise
  }

  /** A turn moves one step forward (clockwise) or backward around Up, Right, Down, Left. */
  lemma TurnIsCyclicStep(d: Direction, rotation: Rotation)
    ensures Index(Turn(d, rotation)) == if rotation == Clockwise then (Index(d) + 1) % 4 else (Index(d) + 3) % 4
  {
  }

  /** A turn followed by the opposite turn gives back the original direction. */
  lemma TurnThenReverse(d: Direction, rotation: Rotation)
    ensures Turn(Turn(d, rotation), Reverse(rotation)) == d
  {
  }

  /** Four quarter turns in the same sense are the identity. */
  lemma FourTurns(d: Direction, rotation: Rotation)
    ensures Turn(Turn(Turn(Turn(d, rotation), rotation), rotation), rotation) == d
  {
  }
}
