/** Day 14 (day14/src/main.rs): robots walk on a `width` by `height` floor
    that wraps around at its edges. Part 1 places every robot after 100
    seconds and multiplies the robot counts of the four quadrants. */
module Day14 {
  import opened Wrappers
  import Grid

  datatype Robot = Robot(px: int, py: int, vx: int, vy: int)

  /** Rust's `%` on signed integers: truncated division, the remainder takes the sign of `a`. */
  function TruncRem(a: int, b: int): (r: int)
    requires b > 0
    ensures a >= 0 ==> 0 <= r < b
    ensures a < 0 ==> -b < r <= 0
  {
    if a >= 0 then a % b else -((-a) % b)
  }

  /** `((a % w) + w) % w`: the truncated remainder shifted into `0 .. w`, which
      is the floored remainder of `a`. */
  function Wrap(a: int, w: int): (r: int)
    requires w > 0
  {
    TruncRem(TruncRem(a, w) + w, w)
  }

  /** `Wrap` agrees with the mathematical (Euclidean) remainder and so stays inside `0 .. w`. */
  lemma WrapIsRemainder(a: int, w: int)
    requires w > 0
    ensures Wrap(a, w) == a % w && 0 <= Wrap(a, w) < w
  {
    var t := TruncRem(a, w);
    if a >= 0 {
      Grid.DivModUnique(t + w, w, 1, t);
    } else {
      var q := (-a) / w;
      var s := (-a) % w;
      assert -a == q * w + s;
      if s == 0 {
        Grid.DivModUnique(a, w, -q, 0);
        Grid.DivModUnique(t + w, w, 1, 0);
      } else {
        Grid.DivModUnique(a, w, -q - 1, w - s);
        Grid.DivModUnique(t + w, w, 0, w - s);
      }
    }
  }

  /** `position_after`: where the robot stands after `time` seconds; the
      remainder by a zero width or height panics (`None`). */
  function PositionAfter(r: Robot, time: nat, width: nat, height: nat): (p: Option<(nat, nat)>)
    ensures p.Some? <==> width > 0 && height > 0
    ensures p.Some? ==> p.value.0 < width && p.value.1 < height
  {
    if width == 0 || height == 0 then None
    else
      WrapIsRemainder(r.px + r.vx * time, width);
      WrapIsRemainder(r.py + r.vy * time, height);
      Some((Wrap(r.px + r.vx * time, width) as nat, Wrap(r.py + r.vy * time, height) as nat))
  }

  /** Where the robot stands after `time` seconds, as the mathematical remainder. */
  lemma PositionAfterIsRemainder(r: Robot, time: nat, width: nat, height: nat)
    requires width > 0 && height > 0
    ensures PositionAfter(r, time, width, height) ==
      Some(((r.px + r.vx * time) % width, (r.py + r.vy * time) % height))
  {
    WrapIsRemainder(r.px + r.vx * time, width);
    WrapIsRemainder(r.py + r.vy * time, height);
  }

  /** A robot that starts on the floor is still at its start after no time. */
  lemma PositionAfterZero(r: Robot, width: nat, height: nat)
    requires 0 <= r.px < width && 0 <= r.py < height
    ensures PositionAfter(r, 0, width, height) == Some((r.px as nat, r.py as nat))
  {
    PositionAfterIsRemainder(r, 0, width, height);
    Grid.DivModUnique(r.px, width, 0, r.px);
    Grid.DivModUnique(r.py, height, 0, r.py);
  }

  /** Walking `w` more seconds at speed `v` does not change the remainder by `w`. */
  lemma RemainderShift(p: int, v: int, t: nat, w: nat)
    requires w > 0
    ensures (p + v * (t + w)) % w == (p + v * t) % w
  {
    var a := p + v * t;
    assert p + v * (t + w) == a + v * w;
    Grid.DivModUnique(a + v * w, w, a / w + v, a % w);
  }

  /** The column repeats every `width` seconds. */
  lemma ColumnPeriodic(r: Robot, time: nat, width: nat, height: nat)
    requires width > 0 && height > 0
    ensures PositionAfter(r, time + width, width, height).value.0 == PositionAfter(r, time, width, height).value.0
  {
    PositionAfterIsRemainder(r, time, width, height);
    PositionAfterIsRemainder(r, time + width, width, height);
    RemainderShift(r.px, r.vx, time, width);
  }

  /** The row repeats every `height` seconds. */
  lemma RowPeriodic(r: Robot, time: nat, width: nat, height: nat)
    requires width > 0 && height > 0
    ensures PositionAfter(r, time + height, width, height).value.1 == PositionAfter(r, time, width, height).value.1
  {
    PositionAfterIsRemainder(r, time, width, height);
    PositionAfterIsRemainder(r, time + height, width, height);
    RemainderShift(r.py, r.vy, time, height);
  }

  /** The quadrant `calculate_p1` counts a position in: 0 top left, 1 bottom
      left, 2 top right, 3 bottom right; none on the middle row or column. */
  function Quadrant(x: nat, y: nat, width: nat, height: nat): (q: Option<nat>)
    ensures q.Some? ==> q.value < 4
    ensures q.None? <==> x == width / 2 || y == height / 2
    ensures q.Some? ==> (q.value < 2 <==> x < width / 2) && (q.value % 2 == 0 <==> y < height / 2)
  {
    if x < width / 2 then
      (if y < height / 2 then Some(0) else if y > height / 2 then Some(1) else None)
    else if x > width / 2 then
      (if y < height / 2 then Some(2) else if y > height / 2 then Some(3) else None)
    else None
  }

  /** The quadrant of a robot after 100 seconds. */
  function RobotQuadrant(r: Robot, width: nat, height: nat): Option<nat>
    requires width > 0 && height > 0
  {
    var p := PositionAfter(r, 100, width, height).value;
    Quadrant(p.0, p.1, width, height)
  }

  /** The robots among `rs` that end in quadrant `q`. */
  function QuadrantCount(rs: seq<Robot>, width: nat, height: nat, q: Option<nat>): nat
    requires width > 0 && height > 0
  {
    if rs == [] then 0
    else QuadrantCount(rs[..|rs| - 1], width, height, q) + (if RobotQuadrant(rs[|rs| - 1], width, height) == q then 1 else 0)
  }

  /** Every robot is counted exactly once: in one of the four quadrants or on a middle line. */
  lemma {:induction false} QuadrantsPartition(rs: seq<Robot>, width: nat, height: nat)
    requires width > 0 && height > 0
    ensures QuadrantCount(rs, width, height, Some(0)) + QuadrantCount(rs, width, height, Some(1)) +
      QuadrantCount(rs, width, height, Some(2)) + QuadrantCount(rs, width, height, Some(3)) +
      QuadrantCount(rs, width, height, None) == |rs|
  {
    if rs != [] {
      QuadrantsPartition(rs[..|rs| - 1], width, height);
    }
  }

  /** The product of the four quadrant counts of `rs`. */
  function SafetyFactor(rs: seq<Robot>, width: nat, height: nat): nat
    requires width > 0 && height > 0
  {
    Product(QuadrantCount(rs, width, height, Some(0)), QuadrantCount(rs, width, height, Some(1)),
      QuadrantCount(rs, width, height, Some(2)), QuadrantCount(rs, width, height, Some(3)))
  }

  function Product(a: nat, b: nat, c: nat, d: nat): nat {
    a * b * c * d
  }

  /** With every robot on a middle line or all in the same half the factor is 0. */
  lemma SafetyFactorZero(rs: seq<Robot>, width: nat, height: nat)
    requires width > 0 && height > 0
    requires forall i :: 0 <= i < |rs| ==> RobotQuadrant(rs[i], width, height) != Some(0)
    ensures SafetyFactor(rs, width, height) == 0
  {
    NoneCounted(rs, width, height, Some(0));
  }

  lemma {:induction false} NoneCounted(rs: seq<Robot>, width: nat, height: nat, q: Option<nat>)
    requires width > 0 && height > 0
    requires forall i :: 0 <= i < |rs| ==> RobotQuadrant(rs[i], width, height) != q
    ensures QuadrantCount(rs, width, height, q) == 0
  {
    if rs != [] {
      NoneCounted(rs[..|rs| - 1], width, height, q);
    }
  }

  /** `calculate_p1`: one pass over the robots with four counters, then their
      product; a zero width or height panics once there is a robot to place. */
  method CalculateP1(input: seq<Robot>, width: nat, height: nat) returns (r: Option<nat>)
    ensures width > 0 && height > 0 ==> r == Some(SafetyFactor(input, width, height))
    ensures width == 0 || height == 0 ==> (r.Some? <==> input == [])
  {
    var time := 100;
    var q1: nat, q2: nat, q3: nat, q4: nat := 0, 0, 0, 0;
    for i := 0 to |input|
      invariant width == 0 || height == 0 ==> i == 0
      invariant width > 0 && height > 0 ==>
        q1 == QuadrantCount(input[..i], width, height, Some(0)) && q2 == QuadrantCount(input[..i], width, height, Some(1)) &&
        q3 == QuadrantCount(input[..i], width, height, Some(2)) && q4 == QuadrantCount(input[..i], width, height, Some(3))
    {
      var pos := PositionAfter(input[i], time, width, height);
      if pos.None? {
        return None;
      }
      var (targetX, targetY) := pos.value;
      assert input[..i + 1][..i] == input[..i];
      if targetX < width / 2 {
        if targetY < height / 2 {
          q1 := q1 + 1;
        } else if targetY > height / 2 {
          q2 := q2 + 1;
        }
      } else if targetX > width / 2 {
        if targetY < height / 2 {
          q3 := q3 + 1;
        } else if targetY > height / 2 {
          q4 := q4 + 1;
        }
      }
    }
    assert input[..|input|] == input;
    r := Some(Product(q1, q2, q3, q4));
  }
}
