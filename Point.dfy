/** Grid coordinates with bounded steps (aoc_tools/src/point.rs). */
module Point {
  import opened Wrappers
  import opened Direction
  import opened NumExt

  /** `Point { x, y }` with `usize` fields. */
  datatype Point = Point(x: nat, y: nat)

  /** The unit offset `(dx, dy)` of a direction; `Up` decreases `y`. */
  function Offset(d: Direction): (int, int) {
    match d
    case Up => (0, -1)
    case Down => (0, 1)
    case Left => (-1, 0)
    case Right => (1, 0)
  }

  predicate IsVertical(d: Direction) {
    d == Up || d == Down
  }

  predicate InBounds(p: Point, bounds: (nat, nat)) {
    p.x < bounds.0 && p.y < bounds.1
  }

  /** `Point::advance_with_distance`: only the coordinate that moves is checked
      against its bound; the other one is copied unchanged. */
  function AdvanceWithDistance(p: Point, d: Direction, bounds: (nat, nat), distance: nat): (r: Option<Point>)
    ensures IsVertical(d) ==> (r.Some? <==> 0 <= p.y + Offset(d).1 * distance < bounds.1)
    ensures !IsVertical(d) ==> (r.Some? <==> 0 <= p.x + Offset(d).0 * distance < bounds.0)
    ensures r.Some? ==> r.value.x == p.x + Offset(d).0 * distance && r.value.y == p.y + Offset(d).1 * distance
  {
    match d
    case Up =>
      (match ClampedAddSigned(p.y, -1 * distance, bounds.1)
       case None => None
       case Some(y) => Some(Point(p.x, y)))
    case Down =>
      (match ClampedAddSigned(p.y, distance, bounds.1)
       case None => None
       case Some(y) => Some(Point(p.x, y)))
    case Left =>
      (match ClampedAddSigned(p.x, -1 * distance, bounds.0)
       case None => None
       case Some(x) => Some(Point(x, p.y)))
    case Right =>
      (match ClampedAddSigned(p.x, distance, bounds.0)
       case None => None
       case Some(x) => Some(Point(x, p.y)))
  }

  /** `Point::advance`: one step; a successful step changes exactly one coordinate by one. */
  function Advance(p: Point, d: Direction, bounds: (nat, nat)): (r: Option<Point>)
    ensures r.Some? ==> (if IsVertical(d) then r.value.x == p.x && (r.value.y == p.y + 1 || r.value.y + 1 == p.y)
                         else r.value.y == p.y && (r.value.x == p.x + 1 || r.value.x + 1 == p.x))
  {
    AdvanceWithDistance(p, d, bounds, 1)
  }

  /** A successful step from a point inside the bounds stays inside them. */
  lemma AdvanceStaysInBounds(p: Point, d: Direction, bounds: (nat, nat), distance: nat)
    requires InBounds(p, bounds)
    requires AdvanceWithDistance(p, d, bounds, distance).Some?
    ensures InBounds(AdvanceWithDistance(p, d, bounds, distance).value, bounds)
  {
  }

  /** Stepping back in the opposite direction by the same distance returns to the start. */
  lemma AdvanceThenBack(p: Point, d: Direction, bounds: (nat, nat), distance: nat)
    requires InBounds(p, bounds)
    requires AdvanceWithDistance(p, d, bounds, distance).Some?
    ensures AdvanceWithDistance(AdvanceWithDistance(p, d, bounds, distance).value, Turn(Turn(d, Clockwise), Clockwise), bounds, distance) == Some(p)
  {
  }

  /** `Point::middle`: the componentwise floor average. */
  function Middle(p: Point, q: Point): (m: Point)
    ensures 2 * m.x <= p.x + q.x < 2 * m.x + 2
    ensures 2 * m.y <= p.y + q.y < 2 * m.y + 2
  {
    Point((q.x + p.x) / 2, (q.y + p.y) / 2)
  }

  lemma MiddleSymmetric(p: Point, q: Point)
    ensures Middle(p, q) == Middle(q, p)
  {
  }

  lemma MiddleOfSelf(p: Point)
    ensures Middle(p, p) == p
  {
  }

  /** `From<(usize, usize)> for Point`. */
  function FromTuple(t: (nat, nat)): (p: Point)
    ensures p.x == t.0 && p.y == t.1
  {
    Point(t.0, t.1)
  }

  /** `From<Point> for (usize, usize)`. */
  function ToTuple(p: Point): (t: (nat, nat))
    ensures t.0 == p.x && t.1 == p.y
  {
    (p.x, p.y)
  }

  lemma TupleRoundTrips(p: Point, t: (nat, nat))
    ensures FromTuple(ToTuple(p)) == p && ToTuple(FromTuple(t)) == t
  {
  }
}
