/** Day 15, part 2 (day15/src/main.rs): the warehouse twice as wide. Every
    box covers two cells, '[' then ']'; `all_boxes` lists them. A push
    first collects, depth first, every box resting against a moving one
    (`collect_boxes`) and then erases and redraws the whole set one cell
    further (`move_boxes`). */
module Day15Wide {
  import opened Wrappers
  import opened Neighbours
  import opened Grid
  import opened Day15
  import Sets

  /** `WhBox`: the left and the right cell of a box. */
  datatype WhBox = WhBox(left: Pos, right: Pos)

  /** `WhBox::is_located_here`. */
  predicate IsLocatedHere(b: WhBox, pos: Pos) {
    b.left == pos || b.right == pos
  }

  /** The box whose left cell is `p`. */
  function BoxAt(p: Pos): WhBox {
    WhBox(p, (p.0 + 1, p.1))
  }

  /** The box a '[' or ']' cell belongs to in a consistent warehouse. */
  function BoxOf(m: Cells, p: Pos): (b: WhBox)
    requires p in m && (m[p] == ']' ==> p.0 >= 1)
    ensures IsLocatedHere(b, p)
  {
    if m[p] == ']' then BoxAt((p.0 - 1, p.1)) else BoxAt(p)
  }

  /** Cell `p` agrees with the boxes: a wall, free, or one half of a listed box. */
  ghost predicate CellAgrees(m: Cells, boxes: set<WhBox>, p: Pos)
    requires p in m
  {
    m[p] == '#' || m[p] == '.' ||
    (m[p] == '[' && BoxAt(p) in boxes) ||
    (m[p] == ']' && p.0 >= 1 && BoxAt((p.0 - 1, p.1)) in boxes)
  }

  /** Box `b` is two adjacent cells inside the grid drawn as '[' and ']'. */
  ghost predicate Drawn(m: Cells, size: (nat, nat), b: WhBox)
    requires Covers(m, size.0, size.1)
  {
    b == BoxAt(b.left) && InArea(b.right, size.0, size.1) && m[b.left] == '[' && m[b.right] == ']'
  }

  /** The part 2 invariant: the grid and the list of boxes describe the same
      boxes, and every cell is a wall, free, or half of a box. */
  ghost predicate Consistent(m: Cells, boxes: set<WhBox>, size: (nat, nat)) {
    Covers(m, size.0, size.1) &&
    (forall b :: b in boxes ==> Drawn(m, size, b)) &&
    (forall p :: InArea(p, size.0, size.1) ==> CellAgrees(m, boxes, p))
  }

  /** In a consistent warehouse a box cell belongs to exactly one listed box. */
  lemma BoxOfUnique(m: Cells, boxes: set<WhBox>, size: (nat, nat), b: WhBox, p: Pos)
    requires Consistent(m, boxes, size) && b in boxes && IsLocatedHere(b, p)
    ensures p in m && (m[p] == '[' || m[p] == ']') && BoxOf(m, p) == b
  {
    assert Drawn(m, size, b);
  }

  // ---------------------------------------------------------------- collecting

  /** `move_to` on a cell of a box; `None` where `unwrap` panics. */
  function MoveTo(p: Pos, size: (nat, nat), d: NeighbourMap): Option<Pos>
    requires IsArrow(d)
  {
    Ahead(p, size, 1, d)
  }

  /** The cell `np` a collected box moves into is no wall, and a box there is collected too. */
  ghost predicate Passable(m: Cells, toMove: set<WhBox>, np: Pos)
    requires np in m
  {
    m[np] != '#' &&
    (m[np] == '[' ==> BoxAt(np) in toMove) &&
    (m[np] == ']' ==> np.0 >= 1 && BoxAt((np.0 - 1, np.1)) in toMove)
  }

  /** The cell `c` of a collected box may move: the cell ahead exists and is passable. */
  ghost predicate CellSupported(m: Cells, size: (nat, nat), d: NeighbourMap, toMove: set<WhBox>, c: Pos)
    requires IsArrow(d) && Covers(m, size.0, size.1)
  {
    MoveTo(c, size, d).Some? && Passable(m, toMove, MoveTo(c, size, d).value)
  }

  /** Both cells of `b` may move. */
  ghost predicate Supported(m: Cells, size: (nat, nat), d: NeighbourMap, toMove: set<WhBox>, b: WhBox)
    requires IsArrow(d) && Covers(m, size.0, size.1)
  {
    CellSupported(m, size, d, toMove, b.left) && CellSupported(m, size, d, toMove, b.right)
  }

  /** Every box of `added` is listed and may move along with `toMove`. */
  ghost predicate AllSupported(m: Cells, size: (nat, nat), boxes: set<WhBox>, d: NeighbourMap, toMove: set<WhBox>, added: set<WhBox>)
    requires IsArrow(d) && Covers(m, size.0, size.1)
  {
    forall b :: b in added ==> b in boxes && Supported(m, size, d, toMove, b)
  }

  /** Collecting more boxes keeps every collected box movable. */
  lemma SupportedGrows(m: Cells, size: (nat, nat), boxes: set<WhBox>, d: NeighbourMap, t: set<WhBox>, t': set<WhBox>, added: set<WhBox>)
    requires IsArrow(d) && Covers(m, size.0, size.1) && t <= t' && AllSupported(m, size, boxes, d, t, added)
    ensures AllSupported(m, size, boxes, d, t', added)
  {
    forall b | b in added
      ensures Supported(m, size, d, t', b)
    {
      assert Supported(m, size, d, t, b);
    }
  }

  /** The box of a '[' or ']' cell is listed and drawn. */
  lemma BoxOfListed(m: Cells, boxes: set<WhBox>, size: (nat, nat), pos: Pos)
    requires Consistent(m, boxes, size) && InArea(pos, size.0, size.1) && (m[pos] == '[' || m[pos] == ']')
    ensures BoxOf(m, pos) in boxes && Drawn(m, size, BoxOf(m, pos))
  {
    assert CellAgrees(m, boxes, pos);
  }

  /** Collecting a listed box not collected before leaves fewer boxes to collect. */
  lemma FewerLeft(boxes: set<WhBox>, toMove: set<WhBox>, b: WhBox, t: set<WhBox>)
    requires b in boxes && b !in toMove && toMove + {b} <= t
    ensures |boxes - t| < |boxes - toMove|
  {
    assert boxes - toMove == (boxes - (toMove + {b})) + {b};
    Sets.SubsetCard(boxes - t, boxes - (toMove + {b}));
  }

  /** `collect_boxes(toMove, pos, …)`: `None` where it panics (a box cell
      would leave the grid), else whether the push can go ahead together with
      the boxes collected so far. */
  function Collect(m: Cells, size: (nat, nat), boxes: set<WhBox>, d: NeighbourMap, toMove: set<WhBox>, pos: Pos): (r: Option<(bool, set<WhBox>)>)
    requires IsArrow(d) && Consistent(m, boxes, size) && InArea(pos, size.0, size.1)
    requires m[pos] == '[' || m[pos] == ']'
    ensures r.Some? ==> toMove <= r.value.1
    ensures r.Some? && r.value.0 ==> BoxOf(m, pos) in r.value.1
    ensures r.Some? && r.value.0 ==> AllSupported(m, size, boxes, d, r.value.1, r.value.1 - toMove)
    decreases |boxes - toMove|, 0
  {
    var b := BoxOf(m, pos);
    if b in toMove then Some((true, toMove))
    else
      BoxOfListed(m, boxes, size, pos);
      FewerLeft(boxes, toMove, b, toMove + {b});
      match CollectCell(m, size, boxes, d, toMove + {b}, b.left)
      case None => None
      case Some((false, t)) => Some((false, t))
      case Some((true, t)) =>
        FewerLeft(boxes, toMove, b, t);
        var r := CollectCell(m, size, boxes, d, t, b.right);
        CollectStep(m, size, boxes, d, toMove, b, t, r);
        r
  }

  /** The last step of `Collect`: the box `b` and the boxes collected from
      its left cell stay movable after its right cell is handled. */
  lemma CollectStep(m: Cells, size: (nat, nat), boxes: set<WhBox>, d: NeighbourMap, toMove: set<WhBox>, b: WhBox,
                    t: set<WhBox>, r: Option<(bool, set<WhBox>)>)
    requires IsArrow(d) && Consistent(m, boxes, size) && b in boxes && b !in toMove
    requires toMove + {b} <= t && CellSupported(m, size, d, t, b.left)
    requires AllSupported(m, size, boxes, d, t, t - (toMove + {b}))
    requires r.Some? ==> t <= r.value.1
    requires r.Some? && r.value.0 ==> CellSupported(m, size, d, r.value.1, b.right)
    requires r.Some? && r.value.0 ==> AllSupported(m, size, boxes, d, r.value.1, r.value.1 - t)
    ensures r.Some? && r.value.0 ==> AllSupported(m, size, boxes, d, r.value.1, r.value.1 - toMove)
  {
    if r.Some? && r.value.0 {
      var t' := r.value.1;
      SupportedGrows(m, size, boxes, d, t, t', t - (toMove + {b}));
      assert CellSupported(m, size, d, t', b.left);
      assert t' - toMove == (t - (toMove + {b})) + (t' - t) + {b};
    }
  }

  /** One iteration of `collect_boxes`'s loop over the cells of a box: the
      cell ahead of `c` stops the push (a wall), lets it pass (free) or
      collects the box there. */
  function CollectCell(m: Cells, size: (nat, nat), boxes: set<WhBox>, d: NeighbourMap, toMove: set<WhBox>, c: Pos): (r: Option<(bool, set<WhBox>)>)
    requires IsArrow(d) && Consistent(m, boxes, size) && InArea(c, size.0, size.1)
    ensures r.Some? ==> toMove <= r.value.1
    ensures r.Some? && r.value.0 ==> CellSupported(m, size, d, r.value.1, c)
    ensures r.Some? && r.value.0 ==> AllSupported(m, size, boxes, d, r.value.1, r.value.1 - toMove)
    decreases |boxes - toMove|, 1
  {
    match MoveTo(c, size, d)
    case None => None
    case Some(np) =>
      if m[np] == '#' then Some((false, toMove))
      else if m[np] == '.' then Some((true, toMove))
      else if m[np] == '[' || m[np] == ']' then Collect(m, size, boxes, d, toMove, np)
      else None
  }

  // ---------------------------------------------------------------- moving

  /** `move_to` on both cells of a box; `None` where it panics. */
  function Shift(b: WhBox, size: (nat, nat), d: NeighbourMap): (r: Option<WhBox>)
    requires IsArrow(d)
    ensures b == BoxAt(b.left) && r.Some? ==> r.value == BoxAt(r.value.left)
  {
    match (MoveTo(b.left, size, d), MoveTo(b.right, size, d))
    case (Some(l), Some(r)) => Some(WhBox(l, r))
    case _ => None
  }

  /** The moved boxes, each one cell further in direction `d`. */
  function ShiftAll(toMove: set<WhBox>, size: (nat, nat), d: NeighbourMap): set<WhBox>
    requires IsArrow(d)
  {
    set b | b in toMove && Shift(b, size, d).Some? :: Shift(b, size, d).value
  }

  /** The cell one step against direction `d`, the inverse of `MoveTo`. */
  function Back(p: Pos, d: NeighbourMap): Option<Pos>
    requires IsArrow(d)
  {
    match d
    case Top => Some((p.0, p.1 + 1))
    case Bottom => if p.1 >= 1 then Some((p.0, p.1 - 1)) else None
    case Left => Some((p.0 + 1, p.1))
    case Right => if p.0 >= 1 then Some((p.0 - 1, p.1)) else None
  }

  /** `Back` undoes `MoveTo`, and every cell with a predecessor inside the grid is reached from it. */
  lemma BackMoveTo(q: Pos, p: Pos, size: (nat, nat), d: NeighbourMap)
    requires IsArrow(d) && InArea(p, size.0, size.1) && InArea(q, size.0, size.1)
    ensures MoveTo(q, size, d) == Some(p) <==> Back(p, d) == Some(q)
  {
  }

  /** Cell `p` is half of one of the boxes `bs`. */
  predicate Covered(bs: set<WhBox>, p: Pos) {
    BoxAt(p) in bs || (p.0 >= 1 && BoxAt((p.0 - 1, p.1)) in bs)
  }

  /** The first loop of `move_boxes`: both cells of every box of `bs` set to '.'. */
  function Erased(m: Cells, bs: set<WhBox>): (m': Cells)
    ensures forall p :: p in m' <==> p in m
  {
    map p | p in m :: if Covered(bs, p) then '.' else m[p]
  }

  /** A box of `bs` moves its left cell onto `p`. */
  predicate PaintsLeft(bs: set<WhBox>, d: NeighbourMap, p: Pos)
    requires IsArrow(d)
  {
    Back(p, d).Some? && BoxAt(Back(p, d).value) in bs
  }

  /** A box of `bs` moves its right cell onto `p`. */
  predicate PaintsRight(bs: set<WhBox>, d: NeighbourMap, p: Pos)
    requires IsArrow(d)
  {
    Back(p, d).Some? && Back(p, d).value.0 >= 1 && BoxAt((Back(p, d).value.0 - 1, Back(p, d).value.1)) in bs
  }

  /** What the second loop of `move_boxes` writes on cell `p`: '[' where a
      box of `bs` moves its left cell, ']' where it moves its right cell. */
  function PaintedCell(m: Cells, bs: set<WhBox>, d: NeighbourMap, p: Pos): char
    requires IsArrow(d) && p in m
  {
    if PaintsLeft(bs, d, p) then '['
    else if PaintsRight(bs, d, p) then ']'
    else m[p]
  }

  /** The second loop of `move_boxes`: every box of `bs` drawn one cell further. */
  function Painted(m: Cells, bs: set<WhBox>, d: NeighbourMap): (m': Cells)
    requires IsArrow(d)
    ensures forall p :: p in m' <==> p in m
  {
    map p | p in m :: PaintedCell(m, bs, d, p)
  }

  /** The grid after `move_boxes` moved `toMove` in direction `d`. */
  function MovedGrid(m: Cells, toMove: set<WhBox>, d: NeighbourMap): Cells
    requires IsArrow(d)
  {
    Painted(Erased(m, toMove), toMove, d)
  }

  /** The list of boxes after `move_boxes`, as a set. */
  function MovedBoxes(boxes: set<WhBox>, toMove: set<WhBox>, size: (nat, nat), d: NeighbourMap): set<WhBox>
    requires IsArrow(d)
  {
    (boxes - toMove) + ShiftAll(toMove, size, d)
  }

  /** A cell half of a moved box belongs to that box. */
  lemma CoveredBox(m: Cells, boxes: set<WhBox>, size: (nat, nat), toMove: set<WhBox>, p: Pos)
    requires Consistent(m, boxes, size) && toMove <= boxes
    ensures Covered(toMove, p) ==> InArea(p, size.0, size.1) && (m[p] == '[' || m[p] == ']') && BoxOf(m, p) in toMove
  {
    if BoxAt(p) in toMove {
      BoxOfUnique(m, boxes, size, BoxAt(p), p);
    } else if p.0 >= 1 && BoxAt((p.0 - 1, p.1)) in toMove {
      BoxOfUnique(m, boxes, size, BoxAt((p.0 - 1, p.1)), p);
    }
  }

  /** A cell a moved box moves into lies inside the grid and was passable for the push. */
  lemma PaintedPassable(m: Cells, boxes: set<WhBox>, size: (nat, nat), d: NeighbourMap, toMove: set<WhBox>, p: Pos)
    requires IsArrow(d) && Consistent(m, boxes, size) && toMove <= boxes && AllSupported(m, size, boxes, d, toMove, toMove)
    ensures PaintsLeft(toMove, d, p) || PaintsRight(toMove, d, p) ==> InArea(p, size.0, size.1) && Passable(m, toMove, p)
  {
    if PaintsLeft(toMove, d, p) {
      PaintedFrom(m, boxes, size, d, toMove, p, BoxAt(Back(p, d).value), Back(p, d).value);
    } else if PaintsRight(toMove, d, p) {
      var q := Back(p, d).value;
      PaintedFrom(m, boxes, size, d, toMove, p, BoxAt((q.0 - 1, q.1)), q);
    }
  }

  /** The cell `p` one step ahead of the cell `q` of a moved box `c`. */
  lemma PaintedFrom(m: Cells, boxes: set<WhBox>, size: (nat, nat), d: NeighbourMap, toMove: set<WhBox>, p: Pos, c: WhBox, q: Pos)
    requires IsArrow(d) && Consistent(m, boxes, size) && toMove <= boxes && AllSupported(m, size, boxes, d, toMove, toMove)
    requires c in toMove && IsLocatedHere(c, q) && Back(p, d) == Some(q)
    ensures InArea(p, size.0, size.1) && Passable(m, toMove, p)
  {
    assert Supported(m, size, d, toMove, c) && Drawn(m, size, c);
    assert CellSupported(m, size, d, toMove, q);
    var p' := MoveTo(q, size, d).value;
    BackMoveTo(q, p', size, d);
  }

  /** A box that is not moved keeps both its cells. */
  lemma UnmovedCell(m: Cells, boxes: set<WhBox>, size: (nat, nat), d: NeighbourMap, toMove: set<WhBox>, b: WhBox, p: Pos)
    requires IsArrow(d) && Consistent(m, boxes, size) && toMove <= boxes && AllSupported(m, size, boxes, d, toMove, toMove)
    requires b in boxes - toMove && IsLocatedHere(b, p)
    ensures p in m && MovedGrid(m, toMove, d)[p] == m[p]
  {
    BoxOfUnique(m, boxes, size, b, p);
    CoveredBox(m, boxes, size, toMove, p);
    assert Drawn(m, size, b);
    PaintedPassable(m, boxes, size, d, toMove, p);
  }

  /** A box that is not moved stays drawn where it was. */
  lemma UnmovedStays(m: Cells, boxes: set<WhBox>, size: (nat, nat), d: NeighbourMap, toMove: set<WhBox>, b: WhBox)
    requires IsArrow(d) && Consistent(m, boxes, size) && toMove <= boxes && AllSupported(m, size, boxes, d, toMove, toMove)
    requires b in boxes - toMove
    ensures Drawn(MovedGrid(m, toMove, d), size, b)
  {
    assert Drawn(m, size, b);
    UnmovedCell(m, boxes, size, d, toMove, b, b.left);
    UnmovedCell(m, boxes, size, d, toMove, b, b.right);
  }

  /** A moved box is drawn at its new place. */
  lemma ShiftedDrawn(m: Cells, boxes: set<WhBox>, size: (nat, nat), d: NeighbourMap, toMove: set<WhBox>, c: WhBox)
    requires IsArrow(d) && Consistent(m, boxes, size) && toMove <= boxes && AllSupported(m, size, boxes, d, toMove, toMove)
    requires c in toMove
    ensures Shift(c, size, d).Some? && Drawn(MovedGrid(m, toMove, d), size, Shift(c, size, d).value)
  {
    assert Supported(m, size, d, toMove, c) && Drawn(m, size, c);
    var b' := Shift(c, size, d).value;
    BackMoveTo(c.left, b'.left, size, d);
    BackMoveTo(c.right, b'.right, size, d);
    assert BoxAt(c.right) in toMove ==> Drawn(m, size, BoxAt(c.right));
    assert PaintsLeft(toMove, d, b'.left);
    assert PaintsRight(toMove, d, b'.right);
  }

  /** Where a moved box's cell lands, the box is listed at its new place. */
  lemma PaintedAgrees(m: Cells, boxes: set<WhBox>, size: (nat, nat), d: NeighbourMap, toMove: set<WhBox>, p: Pos, left: bool)
    requires IsArrow(d) && Consistent(m, boxes, size) && toMove <= boxes && AllSupported(m, size, boxes, d, toMove, toMove)
    requires InArea(p, size.0, size.1) && (if left then PaintsLeft(toMove, d, p) else PaintsRight(toMove, d, p))
    ensures if left then BoxAt(p) in ShiftAll(toMove, size, d)
            else p.0 >= 1 && BoxAt((p.0 - 1, p.1)) in ShiftAll(toMove, size, d)
  {
    var q := Back(p, d).value;
    var c := if left then BoxAt(q) else BoxAt((q.0 - 1, q.1));
    assert Supported(m, size, d, toMove, c) && Drawn(m, size, c);
    BackMoveTo(q, p, size, d);
    assert Shift(c, size, d).value in ShiftAll(toMove, size, d);
  }

  /** After a move every cell still agrees with the moved list of boxes. */
  lemma MovedCellAgrees(m: Cells, boxes: set<WhBox>, size: (nat, nat), d: NeighbourMap, toMove: set<WhBox>, p: Pos)
    requires IsArrow(d) && Consistent(m, boxes, size) && toMove <= boxes && AllSupported(m, size, boxes, d, toMove, toMove)
    requires InArea(p, size.0, size.1)
    ensures p in MovedGrid(m, toMove, d) && CellAgrees(MovedGrid(m, toMove, d), MovedBoxes(boxes, toMove, size, d), p)
  {
    if PaintsLeft(toMove, d, p) {
      PaintedAgrees(m, boxes, size, d, toMove, p, true);
    } else if PaintsRight(toMove, d, p) {
      PaintedAgrees(m, boxes, size, d, toMove, p, false);
    } else {
      assert CellAgrees(m, boxes, p);
    }
  }

  /** `move_boxes` after a successful `collect_boxes` keeps the warehouse consistent. */
  lemma MoveKeepsConsistent(m: Cells, boxes: set<WhBox>, size: (nat, nat), d: NeighbourMap, toMove: set<WhBox>)
    requires IsArrow(d) && Consistent(m, boxes, size) && toMove <= boxes && AllSupported(m, size, boxes, d, toMove, toMove)
    ensures Consistent(MovedGrid(m, toMove, d), MovedBoxes(boxes, toMove, size, d), size)
  {
    var m' := MovedGrid(m, toMove, d);
    var boxes' := MovedBoxes(boxes, toMove, size, d);
    forall b | b in boxes'
      ensures Drawn(m', size, b)
    {
      if b in boxes - toMove {
        UnmovedStays(m, boxes, size, d, toMove, b);
      } else {
        var c :| c in toMove && Shift(c, size, d).Some? && Shift(c, size, d).value == b;
        ShiftedDrawn(m, boxes, size, d, toMove, c);
      }
    }
    forall p | InArea(p, size.0, size.1)
      ensures CellAgrees(m', boxes', p)
    {
      MovedCellAgrees(m, boxes, size, d, toMove, p);
    }
  }

  // ---------------------------------------------------------------- commands

  /** One command of `calculate_p2`: into a box the robot moves only if every
      box collected can move, into a free cell freely, and a wall stops it;
      `None` where the source panics (the robot would leave the grid, a box
      would leave the grid, or an unexpected character). */
  function StepP2(m: Cells, boxes: set<WhBox>, size: (nat, nat), rpos: Pos, d: NeighbourMap): (r: Option<(Cells, set<WhBox>, Pos)>)
    requires IsArrow(d) && Consistent(m, boxes, size)
    ensures r.Some? ==> Consistent(r.value.0, r.value.1, size)
  {
    match MoveTo(rpos, size, d)
    case None => None
    case Some(np) =>
      if m[np] == '[' || m[np] == ']' then
        match Collect(m, size, boxes, d, {}, np)
        case None => None
        case Some((false, _)) => Some((m, boxes, rpos))
        case Some((true, toMove)) =>
          assert toMove - {} == toMove;
          MoveKeepsConsistent(m, boxes, size, d, toMove);
          Some((MovedGrid(m, toMove, d), MovedBoxes(boxes, toMove, size, d), np))
      else if m[np] == '.' then Some((m, boxes, np))
      else if m[np] == '#' then Some((m, boxes, rpos))
      else None
  }

  /** The commands `cmds` of part 2 run one after the other. */
  function RunP2(m: Cells, boxes: set<WhBox>, size: (nat, nat), rpos: Pos, cmds: string): (r: Option<(Cells, set<WhBox>, Pos)>)
    requires Consistent(m, boxes, size)
    ensures r.Some? ==> Consistent(r.value.0, r.value.1, size)
    decreases |cmds|
  {
    if cmds == [] then Some((m, boxes, rpos))
    else match RunP2(m, boxes, size, rpos, cmds[..|cmds| - 1])
      case None => None
      case Some((m', boxes', rpos')) =>
        match CommandToDirection(cmds[|cmds| - 1])
        case None => None
        case Some(d) => StepP2(m', boxes', size, rpos', d)
  }

  // ---------------------------------------------------------------- widening

  /** The cell `p` of the doubled grid `calculate_p2` builds: a wall twice, a
      box as '[' and ']', anything else (the robot included) free. */
  function WideCell(m: Cells, w: nat, h: nat, p: Pos): char
    requires Covers(m, w, h)
  {
    if p.0 / 2 < w && p.1 < h then
      var c := m[(p.0 / 2, p.1)];
      if c == '#' then '#'
      else if c == 'O' then (if p.0 % 2 == 0 then '[' else ']')
      else '.'
    else '.'
  }

  /** The doubled grid: `MAX_WIDTH` by `MAX_HEIGHT` cells, '.' outside the doubled area. */
  function Wide(m: Cells, w: nat, h: nat): (m': Cells)
    requires Covers(m, w, h)
    ensures forall p :: p in m' <==> InArea(p, MAX_WIDTH, MAX_HEIGHT)
  {
    map p | p in Area(MAX_WIDTH, MAX_HEIGHT) :: WideCell(m, w, h, p)
  }

  /** `all_boxes` after widening, as a set: one box per 'O'. */
  function WideBoxes(m: Cells, w: nat, h: nat): set<WhBox>
    requires Covers(m, w, h)
  {
    set q | q in Area(w, h) && m[q] == 'O' :: BoxAt((2 * q.0, q.1))
  }

  /** The box widened from the 'O' on `q` is drawn on the doubled grid. */
  lemma WideBoxDrawn(m: Cells, w: nat, h: nat, q: Pos)
    requires Covers(m, w, h) && 2 * w <= MAX_WIDTH && h <= MAX_HEIGHT && InArea(q, w, h) && m[q] == 'O'
    ensures Covers(Wide(m, w, h), 2 * w, h) && Drawn(Wide(m, w, h), (2 * w, h), BoxAt((2 * q.0, q.1)))
  {
    assert (2 * q.0) / 2 == q.0 && (2 * q.0) % 2 == 0;
    assert (2 * q.0 + 1) / 2 == q.0 && (2 * q.0 + 1) % 2 == 1;
  }

  /** Every cell of the doubled area agrees with the widened boxes. */
  lemma WideCellAgrees(m: Cells, w: nat, h: nat, p: Pos)
    requires Covers(m, w, h) && 2 * w <= MAX_WIDTH && h <= MAX_HEIGHT && InArea(p, 2 * w, h)
    ensures p in Wide(m, w, h) && CellAgrees(Wide(m, w, h), WideBoxes(m, w, h), p)
  {
    var q := (p.0 / 2, p.1);
    if m[q] == 'O' {
      if p.0 % 2 == 0 {
        assert p == (2 * q.0, q.1);
      } else {
        assert (p.0 - 1, p.1) == (2 * q.0, q.1);
      }
      assert BoxAt((2 * q.0, q.1)) in WideBoxes(m, w, h);
    }
  }

  /** The doubled grid and its boxes are consistent. */
  lemma WideConsistent(m: Cells, w: nat, h: nat)
    requires Covers(m, w, h) && 2 * w <= MAX_WIDTH && h <= MAX_HEIGHT
    ensures Consistent(Wide(m, w, h), WideBoxes(m, w, h), (2 * w, h))
  {
    var m' := Wide(m, w, h);
    forall b | b in WideBoxes(m, w, h)
      ensures Drawn(m', (2 * w, h), b)
    {
      var q :| q in Area(w, h) && m[q] == 'O' && b == BoxAt((2 * q.0, q.1));
      WideBoxDrawn(m, w, h, q);
    }
    forall p | InArea(p, 2 * w, h)
      ensures CellAgrees(m', WideBoxes(m, w, h), p)
    {
      WideCellAgrees(m, w, h, p);
    }
  }

  /** The robot starts on a free cell of the doubled grid. */
  lemma WideStart(m: Cells, w: nat, h: nat, s: Pos)
    requires Covers(m, w, h) && 2 * w <= MAX_WIDTH && h <= MAX_HEIGHT && InArea(s, w, h) && m[s] == '@'
    ensures InArea((2 * s.0, s.1), 2 * w, h) && Wide(m, w, h)[(2 * s.0, s.1)] == '.'
  {
    assert (2 * s.0) / 2 == s.0;
  }

  /** The position of the last item showing `c`: `calculate_p2` keeps
      overwriting `start` and does not stop at the first robot. */
  function LastAt(items: seq<(char, Pos)>, c: char): (r: Option<Pos>)
    ensures r.Some? <==> exists k :: 0 <= k < |items| && items[k].0 == c
    ensures r.Some? ==> exists k :: 0 <= k < |items| && items[k] == (c, r.value) &&
                                    forall j :: k < j < |items| ==> items[j].0 != c
  {
    if items == [] then None
    else if items[|items| - 1].0 == c then Some(items[|items| - 1].1)
    else LastAt(items[..|items| - 1], c)
  }

  /** What `calculate_p2` returns on a grid whose snapshot is `m`: `None`
      where it panics (no robot, or a command panics). */
  function PartTwo(m: Cells, w: nat, h: nat, commands: string): Option<nat>
    requires Covers(m, w, h) && 2 * w <= MAX_WIDTH && h <= MAX_HEIGHT
  {
    match LastAt(Items(m, w, h), '@')
    case None => None
    case Some(s) =>
      WideConsistent(m, w, h);
      match RunP2(Wide(m, w, h), WideBoxes(m, w, h), (2 * w, h), (2 * s.0, s.1), commands)
      case None => None
      case Some((m', _, _)) => Some(GpsOf(Items(m', 2 * w, h), '['))
  }

  // ---------------------------------------------------------------- properties

  /** `move_boxes` never writes on a wall and never makes one. */
  lemma MoveKeepsWalls(m: Cells, boxes: set<WhBox>, size: (nat, nat), d: NeighbourMap, toMove: set<WhBox>)
    requires IsArrow(d) && Consistent(m, boxes, size) && toMove <= boxes && AllSupported(m, size, boxes, d, toMove, toMove)
    ensures SameWalls(m, MovedGrid(m, toMove, d))
  {
    forall p | p in m
      ensures p in MovedGrid(m, toMove, d) && (m[p] == '#' <==> MovedGrid(m, toMove, d)[p] == '#')
    {
      PaintedPassable(m, boxes, size, d, toMove, p);
      CoveredBox(m, boxes, size, toMove, p);
    }
  }

  /** After a push the robot's new cell, which held a moved box, is free. */
  lemma PushClearsRobotCell(m: Cells, boxes: set<WhBox>, size: (nat, nat), d: NeighbourMap, toMove: set<WhBox>, rpos: Pos, np: Pos)
    requires IsArrow(d) && Consistent(m, boxes, size) && toMove <= boxes && AllSupported(m, size, boxes, d, toMove, toMove)
    requires InArea(rpos, size.0, size.1) && m[rpos] == '.' && MoveTo(rpos, size, d) == Some(np)
    requires (m[np] == '[' || m[np] == ']') && BoxOf(m, np) in toMove
    ensures MovedGrid(m, toMove, d)[np] == '.'
  {
    BackMoveTo(rpos, np, size, d);
    assert BoxAt(rpos) in toMove ==> Drawn(m, size, BoxAt(rpos));
    assert rpos.0 >= 1 && BoxAt((rpos.0 - 1, rpos.1)) in toMove ==> Drawn(m, size, BoxAt((rpos.0 - 1, rpos.1)));
    assert !PaintsLeft(toMove, d, np) && !PaintsRight(toMove, d, np);
    assert Covered(toMove, np);
  }

  /** One command of part 2: the robot stays, or moves one cell in direction
      `d`; it always stands on a free cell, enters a free cell without
      changing anything, and walls stay. */
  lemma StepP2Robot(m: Cells, boxes: set<WhBox>, size: (nat, nat), rpos: Pos, d: NeighbourMap)
    requires IsArrow(d) && Consistent(m, boxes, size) && InArea(rpos, size.0, size.1) && m[rpos] == '.'
    requires StepP2(m, boxes, size, rpos, d).Some?
    ensures var (m', boxes', rpos') := StepP2(m, boxes, size, rpos, d).value;
      InArea(rpos', size.0, size.1) && m'[rpos'] == '.' && SameWalls(m, m') &&
      (rpos' == rpos || MoveTo(rpos, size, d) == Some(rpos')) &&
      (m[MoveTo(rpos, size, d).value] == '.' ==> rpos' == MoveTo(rpos, size, d).value && m' == m && boxes' == boxes) &&
      (m[MoveTo(rpos, size, d).value] == '#' ==> rpos' == rpos && m' == m && boxes' == boxes)
  {
    var np := MoveTo(rpos, size, d).value;
    if m[np] == '[' || m[np] == ']' {
      var c := Collect(m, size, boxes, d, {}, np).value;
      if c.0 {
        assert c.1 - {} == c.1;
        MoveKeepsWalls(m, boxes, size, d, c.1);
        PushClearsRobotCell(m, boxes, size, d, c.1, rpos, np);
      }
    }
  }

  lemma SameWallsTrans(m1: Cells, m2: Cells, m3: Cells)
    requires SameWalls(m1, m2) && SameWalls(m2, m3)
    ensures SameWalls(m1, m3)
  {
  }

  /** Over a whole run of part 2 the robot stays on free cells inside the
      grid and the walls stay. */
  lemma {:induction false} RunP2Robot(m: Cells, boxes: set<WhBox>, size: (nat, nat), rpos: Pos, cmds: string)
    requires Consistent(m, boxes, size) && InArea(rpos, size.0, size.1) && m[rpos] == '.'
    requires RunP2(m, boxes, size, rpos, cmds).Some?
    ensures var (m', _, rpos') := RunP2(m, boxes, size, rpos, cmds).value;
      InArea(rpos', size.0, size.1) && m'[rpos'] == '.' && SameWalls(m, m')
    decreases |cmds|
  {
    if cmds != [] {
      var init := cmds[..|cmds| - 1];
      RunP2Robot(m, boxes, size, rpos, init);
      var (m1, b1, r1) := RunP2(m, boxes, size, rpos, init).value;
      var d := CommandToDirection(cmds[|cmds| - 1]).value;
      StepP2Robot(m1, b1, size, r1, d);
      SameWallsTrans(m, m1, StepP2(m1, b1, size, r1, d).value.0);
    }
  }

  // ---------------------------------------------------------------- step lemmas for the methods

  /** Two shifted boxes are equal only if the boxes were. */
  lemma ShiftInjective(b: WhBox, c: WhBox, size: (nat, nat), d: NeighbourMap)
    requires IsArrow(d) && Shift(b, size, d).Some? && Shift(b, size, d) == Shift(c, size, d)
    ensures b == c
  {
  }

  /** A set of boxes as a multiset: the union of disjoint sets adds up. */
  lemma MultisetOfUnion(a: set<WhBox>, b: set<WhBox>)
    requires a !! b
    ensures multiset(a + b) == multiset(a) + multiset(b)
  {
    assert forall x :: multiset(a + b)[x] == multiset(a)[x] + multiset(b)[x];
  }

  /** Shifting one more box adds exactly its shifted copy, which is new. */
  lemma ShiftAllAdd(done: set<WhBox>, c: WhBox, size: (nat, nat), d: NeighbourMap)
    requires IsArrow(d) && c !in done && Shift(c, size, d).Some?
    ensures ShiftAll(done + {c}, size, d) == ShiftAll(done, size, d) + {Shift(c, size, d).value}
    ensures multiset(ShiftAll(done + {c}, size, d)) == multiset(ShiftAll(done, size, d)) + multiset{Shift(c, size, d).value}
  {
    var nb := Shift(c, size, d).value;
    forall b | b in done && Shift(b, size, d).Some?
      ensures Shift(b, size, d).value != nb
    {
      if Shift(b, size, d).value == nb {
        ShiftInjective(b, c, size, d);
      }
    }
    MultisetOfUnion(ShiftAll(done, size, d), {nb});
  }

  /** Erasing one more box clears its two cells and nothing else. */
  lemma EraseStep(m: Cells, done: set<WhBox>, b: WhBox)
    requires b == BoxAt(b.left) && b.left in m && b.right in m
    ensures Erased(m, done + {b}) == Erased(m, done)[b.left := '.'][b.right := '.']
  {
    var e := Erased(m, done + {b});
    var e' := Erased(m, done)[b.left := '.'][b.right := '.'];
    forall p | p in m
      ensures e[p] == e'[p]
    {
      assert Covered(done + {b}, p) <==> Covered(done, p) || p == b.left || p == b.right;
    }
  }

  /** Drawing one more box writes its two cells one step further and nothing
      else, provided no box drawn so far starts on its right cell. */
  lemma DrawStep(e: Cells, done: set<WhBox>, c: WhBox, size: (nat, nat), d: NeighbourMap)
    requires IsArrow(d) && c == BoxAt(c.left) && BoxAt(c.right) !in done && Shift(c, size, d).Some?
    requires Shift(c, size, d).value.left in e && Shift(c, size, d).value.right in e
    ensures Painted(e, done + {c}, d) ==
      Painted(e, done, d)[Shift(c, size, d).value.left := '['][Shift(c, size, d).value.right := ']']
  {
    var nb := Shift(c, size, d).value;
    forall p | p in e
      ensures PaintedCell(e, done + {c}, d, p) == Painted(e, done, d)[nb.left := '['][nb.right := ']'][p]
    {
      DrawCell(e, done, c, size, d, p);
    }
  }

  /** One more box painted: which cells of `DrawStep` change. */
  lemma DrawCell(e: Cells, done: set<WhBox>, c: WhBox, size: (nat, nat), d: NeighbourMap, p: Pos)
    requires IsArrow(d) && c == BoxAt(c.left) && BoxAt(c.right) !in done && Shift(c, size, d).Some? && p in e
    ensures PaintsLeft(done + {c}, d, p) <==> PaintsLeft(done, d, p) || p == Shift(c, size, d).value.left
    ensures PaintsRight(done + {c}, d, p) <==> PaintsRight(done, d, p) || p == Shift(c, size, d).value.right
    ensures p == Shift(c, size, d).value.right ==> !PaintsLeft(done + {c}, d, p)
  {
  }

  /** Mid-way through `move_boxes` a box not yet moved is still listed. */
  lemma StillListed(all: seq<WhBox>, boxes: set<WhBox>, done: set<WhBox>, b: WhBox, size: (nat, nat), d: NeighbourMap)
    requires IsArrow(d) && multiset(all) + multiset(done) == multiset(boxes) + multiset(ShiftAll(done, size, d))
    requires b in boxes && b !in done
    ensures b in all
  {
    assert multiset(boxes)[b] == 1 && multiset(done)[b] == 0;
    assert (multiset(all) + multiset(done))[b] == multiset(all)[b];
    assert multiset(all)[b] >= 1;
  }

  /** Replacing a listed box that was not moved yet by its shifted copy. */
  lemma ListedStep(all: seq<WhBox>, i: nat, boxes: set<WhBox>, done: set<WhBox>, nb: WhBox, size: (nat, nat), d: NeighbourMap)
    requires IsArrow(d) && multiset(all) + multiset(done) == multiset(boxes) + multiset(ShiftAll(done, size, d))
    requires i < |all| && all[i] !in done && Shift(all[i], size, d) == Some(nb)
    ensures multiset(all[i := nb]) + multiset(done + {all[i]}) == multiset(boxes) + multiset(ShiftAll(done + {all[i]}, size, d))
  {
    ShiftAllAdd(done, all[i], size, d);
    MultisetOfUnion(done, {all[i]});
    var x := all[i];
    var rest := multiset(all[..i]) + multiset(all[i + 1..]);
    assert multiset(all) == rest + multiset{x} by {
      assert all == all[..i] + [x] + all[i + 1..];
    }
    assert multiset(all[i := nb]) == rest + multiset{nb} by {
      assert all[i := nb] == all[..i] + [nb] + all[i + 1..];
    }
    SwapOne(rest, multiset(done), multiset(boxes), multiset(ShiftAll(done, size, d)), x, nb);
  }

  /** Swapping one counted element for another on both sides of a balance. */
  lemma SwapOne<T>(rest: multiset<T>, done: multiset<T>, boxes: multiset<T>, shifted: multiset<T>, x: T, nb: T)
    requires rest + multiset{x} + done == boxes + shifted
    ensures (rest + multiset{nb}) + (done + multiset{x}) == boxes + (shifted + multiset{nb})
  {
    forall y
      ensures ((rest + multiset{nb}) + (done + multiset{x}))[y] == (boxes + (shifted + multiset{nb}))[y]
    {
      assert (rest + multiset{x} + done)[y] == (boxes + shifted)[y];
    }
  }

  /** No moved box lands on a box that stays. */
  lemma MovedDisjoint(m: Cells, boxes: set<WhBox>, size: (nat, nat), d: NeighbourMap, toMove: set<WhBox>)
    requires IsArrow(d) && Consistent(m, boxes, size) && toMove <= boxes && AllSupported(m, size, boxes, d, toMove, toMove)
    ensures (boxes - toMove) !! ShiftAll(toMove, size, d)
  {
    forall c | c in toMove && Shift(c, size, d).Some?
      ensures Shift(c, size, d).value !in boxes - toMove
    {
      var b := Shift(c, size, d).value;
      assert Supported(m, size, d, toMove, c) && Drawn(m, size, c);
      assert CellSupported(m, size, d, toMove, c.left);
      if b in boxes {
        assert Drawn(m, size, b);
      }
    }
  }

  /** The moved list of boxes, counted: the moved boxes swapped for their shifted copies. */
  lemma MovedMultiset(m: Cells, boxes: set<WhBox>, size: (nat, nat), d: NeighbourMap, toMove: set<WhBox>)
    requires IsArrow(d) && Consistent(m, boxes, size) && toMove <= boxes && AllSupported(m, size, boxes, d, toMove, toMove)
    ensures multiset(MovedBoxes(boxes, toMove, size, d)) + multiset(toMove) == multiset(boxes) + multiset(ShiftAll(toMove, size, d))
  {
    MovedDisjoint(m, boxes, size, d, toMove);
    MultisetOfUnion(boxes - toMove, ShiftAll(toMove, size, d));
    MultisetOfUnion(boxes - toMove, toMove);
    assert (boxes - toMove) + toMove == boxes;
  }

  // ---------------------------------------------------------------- the methods

  /** `all_boxes.iter().find(|p| p.is_located_here(pos))`. */
  method FindBox(all: seq<WhBox>, pos: Pos) returns (r: Option<WhBox>)
    ensures r.Some? ==> r.value in all && IsLocatedHere(r.value, pos)
    ensures r.None? ==> forall b :: b in all ==> !IsLocatedHere(b, pos)
  {
    for i := 0 to |all|
      invariant forall j :: 0 <= j < i ==> !IsLocatedHere(all[j], pos)
    {
      if IsLocatedHere(all[i], pos) {
        return Some(all[i]);
      }
    }
    return None;
  }

  /** `all_boxes.iter_mut().find(|p| *p == old_box)`, as the index of the entry found. */
  method FindIndex(all: seq<WhBox>, b: WhBox) returns (r: Option<nat>)
    ensures r.Some? ==> r.value < |all| && all[r.value] == b
    ensures r.None? ==> b !in all
  {
    for i := 0 to |all|
      invariant forall j :: 0 <= j < i ==> all[j] != b
    {
      if all[i] == b {
        return Some(i);
      }
    }
    return None;
  }

  /** `collect_boxes` on the grid itself: the box on `pos` is looked up in
      `all_boxes`; a box not collected before is added and the cell ahead of
      each of its two cells examined, recursing into the boxes found there. */
  method CollectBoxes(g: Grid<char>, all: seq<WhBox>, ghost boxes: set<WhBox>, toMove: set<WhBox>, pos: Pos, d: NeighbourMap)
    returns (r: Option<(bool, set<WhBox>)>)
    requires g.Valid() && g.Fits() && IsArrow(d) && Consistent(Snapshot(g.content), boxes, g.Size())
    requires forall b :: b in boxes <==> b in all
    requires InArea(pos, g.width, g.height) && (Snapshot(g.content)[pos] == '[' || Snapshot(g.content)[pos] == ']')
    ensures r == Collect(Snapshot(g.content), g.Size(), boxes, d, toMove, pos)
    decreases |boxes - toMove|, 0
  {
    ghost var m := Snapshot(g.content);
    ghost var size := g.Size();
    BoxOfListed(m, boxes, size, pos);
    var found := FindBox(all, pos);
    assert found.Some?;
    var b := found.value;
    BoxOfUnique(m, boxes, size, b, pos);
    if b in toMove {
      return Some((true, toMove));
    }
    assert Drawn(m, size, b);
    var t := toMove + {b};
    var cells := [b.left, b.right];
    ghost var t1 := t;
    for k := 0 to 2
      invariant toMove + {b} <= t
      invariant k == 0 ==> t == toMove + {b}
      invariant k >= 1 ==> CollectCell(m, size, boxes, d, toMove + {b}, b.left) == Some((true, t1))
      invariant k == 1 ==> t == t1
      invariant k == 2 ==> CollectCell(m, size, boxes, d, t1, b.right) == Some((true, t))
    {
      FewerLeft(boxes, toMove, b, t);
      var r' := CollectAhead(g, all, boxes, t, cells[k], d);
      if r'.None? || !r'.value.0 {
        return r';
      }
      t := r'.value.1;
      if k == 0 {
        t1 := t;
      }
    }
    return Some((true, t));
  }

  /** The body of `collect_boxes`'s loop for the box cell `c`: the cell
      ahead stops the push (a wall), lets it pass (free) or leads to the box
      there. */
  method CollectAhead(g: Grid<char>, all: seq<WhBox>, ghost boxes: set<WhBox>, toMove: set<WhBox>, c: Pos, d: NeighbourMap)
    returns (r: Option<(bool, set<WhBox>)>)
    requires g.Valid() && g.Fits() && IsArrow(d) && Consistent(Snapshot(g.content), boxes, g.Size())
    requires forall b :: b in boxes <==> b in all
    requires InArea(c, g.width, g.height)
    ensures r == CollectCell(Snapshot(g.content), g.Size(), boxes, d, toMove, c)
    decreases |boxes - toMove|, 1
  {
    var np := MoveTo(c, g.Size(), d);
    if np.None? {
      return None;
    }
    var ahead := CellAt(g, np.value);
    if ahead == '#' {
      r := Some((false, toMove));
    } else if ahead == '.' {
      r := Some((true, toMove));
    } else if ahead == '[' || ahead == ']' {
      r := CollectBoxes(g, all, boxes, toMove, np.value, d);
    } else {
      r := None;
    }
  }

  /** Every box of `bs` is two adjacent cells inside the grid. */
  ghost predicate Placed(bs: set<WhBox>, size: (nat, nat)) {
    forall b :: b in bs ==> b == BoxAt(b.left) && InArea(b.right, size.0, size.1)
  }

  /** What `move_boxes` relies on: every collected box is placed, can move,
      and no collected box starts on the right cell of another. */
  ghost predicate Separate(toMove: set<WhBox>, size: (nat, nat), d: NeighbourMap)
    requires IsArrow(d)
  {
    Placed(toMove, size) &&
    forall b :: b in toMove ==> Shift(b, size, d).Some? && BoxAt(b.right) !in toMove
  }

  /** The boxes `collect_boxes` gathers for a push that can go ahead are separate. */
  lemma SupportedSeparate(m: Cells, boxes: set<WhBox>, size: (nat, nat), d: NeighbourMap, toMove: set<WhBox>)
    requires IsArrow(d) && Consistent(m, boxes, size) && toMove <= boxes && AllSupported(m, size, boxes, d, toMove, toMove)
    ensures Separate(toMove, size, d)
  {
    forall b | b in toMove
      ensures b == BoxAt(b.left) && InArea(b.right, size.0, size.1) && Shift(b, size, d).Some? && BoxAt(b.right) !in toMove
    {
      assert Supported(m, size, d, toMove, b) && Drawn(m, size, b);
      assert BoxAt(b.right) in boxes ==> Drawn(m, size, BoxAt(b.right));
    }
  }

  /** The first loop of `move_boxes`: both cells of every collected box set to '.'. */
  method EraseBoxes(g: Grid<char>, toMove: set<WhBox>)
    requires g.Valid() && g.Fits() && Placed(toMove, g.Size())
    modifies g.content
    ensures Snapshot(g.content) == Erased(old(Snapshot(g.content)), toMove)
  {
    ghost var m := Snapshot(g.content);
    var rest := toMove;
    while rest != {}
      invariant rest <= toMove
      invariant Snapshot(g.content) == Erased(m, toMove - rest)
      decreases |rest|
    {
      var b :| b in rest;
      SetAt(g, b.left, '.');
      SetAt(g, b.right, '.');
      EraseStep(m, toMove - rest, b);
      Sets.TakeOne(toMove, rest, b);
      rest := rest - {b};
    }
    assert toMove - rest == toMove;
  }

  /** The state of the second loop of `move_boxes` with `rest` still to
      draw: the grid `snap` has the others drawn over `e`, and `all` has
      their entries replaced by the shifted copies. */
  ghost predicate DrawState(e: Cells, snap: Cells, all: seq<WhBox>, boxes: set<WhBox>, toMove: set<WhBox>,
                            rest: set<WhBox>, size: (nat, nat), d: NeighbourMap)
  {
    IsArrow(d) && Separate(toMove, size, d) && toMove <= boxes && rest <= toMove && Covers(e, size.0, size.1) &&
    snap == Painted(e, toMove - rest, d) &&
    multiset(all) + multiset(toMove - rest) == multiset(boxes) + multiset(ShiftAll(toMove - rest, size, d))
  }

  /** A box still to draw is listed, placed and can move. */
  lemma DrawReady(e: Cells, snap: Cells, all: seq<WhBox>, boxes: set<WhBox>, toMove: set<WhBox>, rest: set<WhBox>,
                  b: WhBox, size: (nat, nat), d: NeighbourMap)
    requires DrawState(e, snap, all, boxes, toMove, rest, size, d) && b in rest
    ensures b in all && Placed({b}, size) && Shift(b, size, d).Some?
  {
    StillListed(all, boxes, toMove - rest, b, size, d);
  }

  /** The second loop of `move_boxes` keeps its state over one iteration. */
  lemma DrawLoopStep(e: Cells, snap: Cells, before: seq<WhBox>, i: nat, after: seq<WhBox>, boxes: set<WhBox>,
                     toMove: set<WhBox>, rest: set<WhBox>, b: WhBox, size: (nat, nat), d: NeighbourMap)
    requires DrawState(e, snap, before, boxes, toMove, rest, size, d) && b in rest
    requires Shift(b, size, d).Some? && i < |before| && before[i] == b && after == before[i := Shift(b, size, d).value]
    ensures var nb := Shift(b, size, d).value;
      DrawState(e, snap[nb.left := '['][nb.right := ']'], after, boxes, toMove, rest - {b}, size, d)
    ensures |rest - {b}| < |rest|
  {
    var done := toMove - rest;
    ListedStep(before, i, boxes, done, Shift(b, size, d).value, size, d);
    DrawStep(e, done, b, size, d);
    Sets.TakeOne(toMove, rest, b);
  }

  /** One iteration of the second loop of `move_boxes`: the entry `i` of
      `all_boxes` holding `oldBox` takes its shifted copy, which is drawn. */
  method DrawOne(g: Grid<char>, oldBox: WhBox, d: NeighbourMap, all: seq<WhBox>,
                 ghost e: Cells, ghost boxes: set<WhBox>, ghost toMove: set<WhBox>, ghost rest: set<WhBox>)
    returns (ghost i: nat, all': seq<WhBox>)
    requires g.Valid() && g.Fits() && oldBox in rest && DrawState(e, Snapshot(g.content), all, boxes, toMove, rest, g.Size(), d)
    modifies g.content
    ensures Shift(oldBox, g.Size(), d).Some? && i < |all| && all[i] == oldBox && all' == all[i := Shift(oldBox, g.Size(), d).value]
    ensures var nb := Shift(oldBox, g.Size(), d).value;
      Snapshot(g.content) == old(Snapshot(g.content))[nb.left := '['][nb.right := ']']
    ensures DrawState(e, Snapshot(g.content), all', boxes, toMove, rest - {oldBox}, g.Size(), d)
  {
    ghost var snap := Snapshot(g.content);
    DrawReady(e, snap, all, boxes, toMove, rest, oldBox, g.Size(), d);
    var found := FindIndex(all, oldBox);
    i := found.value;
    var newBox := WhBox(MoveTo(oldBox.left, g.Size(), d).value, MoveTo(oldBox.right, g.Size(), d).value);
    all' := all[found.value := newBox];
    SetAt(g, newBox.left, '[');
    SetAt(g, newBox.right, ']');
    DrawLoopStep(e, snap, all, i, all', boxes, toMove, rest, oldBox, g.Size(), d);
  }

  /** The second loop of `move_boxes`: each collected box is found in
      `all_boxes`, replaced there by its copy one cell further, and drawn. */
  method DrawBoxes(g: Grid<char>, toMove: set<WhBox>, d: NeighbourMap, all: seq<WhBox>, ghost boxes: set<WhBox>)
    returns (all': seq<WhBox>)
    requires g.Valid() && g.Fits() && IsArrow(d) && Separate(toMove, g.Size(), d)
    requires toMove <= boxes && multiset(all) == multiset(boxes)
    modifies g.content
    ensures Snapshot(g.content) == Painted(old(Snapshot(g.content)), toMove, d)
    ensures multiset(all') + multiset(toMove) == multiset(boxes) + multiset(ShiftAll(toMove, g.Size(), d))
  {
    ghost var e := Snapshot(g.content);
    ghost var size := g.Size();
    all' := all;
    var rest := toMove;
    assert toMove - rest == {} && ShiftAll({}, size, d) == {};
    assert Painted(e, {}, d) == e;
    while rest != {}
      invariant DrawState(e, Snapshot(g.content), all', boxes, toMove, rest, size, d)
      decreases |rest|
    {
      var oldBox :| oldBox in rest;
      ghost var i;
      i, all' := DrawOne(g, oldBox, d, all', e, boxes, toMove, rest);
      rest := rest - {oldBox};
    }
    assert toMove - rest == toMove;
  }

  /** Equal counts after adding the same multiset to both sides. */
  lemma MultisetCancel(a: multiset<WhBox>, b: multiset<WhBox>, t: multiset<WhBox>)
    requires a + t == b + t
    ensures a == b
  {
    assert forall x :: a[x] == (a + t)[x] - t[x];
  }

  /** A set counted as a multiset, listed: the same members. */
  lemma ListedMembers(all: seq<WhBox>, boxes: set<WhBox>)
    requires multiset(all) == multiset(boxes)
    ensures forall b :: b in boxes <==> b in all
  {
    forall b
      ensures b in boxes <==> b in all
    {
      assert b in multiset(all) <==> b in multiset(boxes);
    }
  }

  /** `move_boxes`: erase every collected box, then draw each one cell
      further and update its entry in `all_boxes`. */
  method MoveBoxes(g: Grid<char>, toMove: set<WhBox>, d: NeighbourMap, all: seq<WhBox>, ghost boxes: set<WhBox>)
    returns (all': seq<WhBox>)
    requires g.Valid() && g.Fits() && IsArrow(d) && Consistent(Snapshot(g.content), boxes, g.Size())
    requires toMove <= boxes && AllSupported(Snapshot(g.content), g.Size(), boxes, d, toMove, toMove)
    requires multiset(all) == multiset(boxes)
    modifies g.content
    ensures Snapshot(g.content) == MovedGrid(old(Snapshot(g.content)), toMove, d)
    ensures multiset(all') == multiset(MovedBoxes(boxes, toMove, g.Size(), d))
  {
    ghost var m := Snapshot(g.content);
    SupportedSeparate(m, boxes, g.Size(), d, toMove);
    EraseBoxes(g, toMove);
    all' := DrawBoxes(g, toMove, d, all, boxes);
    MovedMultiset(m, boxes, g.Size(), d, toMove);
    MultisetCancel(multiset(all'), multiset(MovedBoxes(boxes, toMove, g.Size(), d)), multiset(toMove));
  }

  /** One command of `calculate_p2` on the grid itself; `ok` is false where
      the source panics. */
  method StepCommand(g: Grid<char>, all: seq<WhBox>, ghost boxes: set<WhBox>, rpos: Pos, d: NeighbourMap)
    returns (ok: bool, all': seq<WhBox>, ghost boxes': set<WhBox>, rpos': Pos)
    requires g.Valid() && g.Fits() && IsArrow(d) && Consistent(Snapshot(g.content), boxes, g.Size())
    requires multiset(all) == multiset(boxes)
    modifies g.content
    ensures ok <==> StepP2(old(Snapshot(g.content)), boxes, g.Size(), rpos, d).Some?
    ensures ok ==> StepP2(old(Snapshot(g.content)), boxes, g.Size(), rpos, d) == Some((Snapshot(g.content), boxes', rpos'))
    ensures ok ==> multiset(all') == multiset(boxes')
  {
    var np := MoveTo(rpos, g.Size(), d);
    if np.None? {
      return false, all, boxes, rpos;
    }
    var c := CellAt(g, np.value);
    if c == '[' || c == ']' {
      ListedMembers(all, boxes);
      var collected := CollectBoxes(g, all, boxes, {}, np.value, d);
      if collected.None? {
        return false, all, boxes, rpos;
      }
      if collected.value.0 {
        var toMove := collected.value.1;
        assert toMove - {} == toMove;
        all' := MoveBoxes(g, toMove, d, all, boxes);
        return true, all', MovedBoxes(boxes, toMove, g.Size(), d), np.value;
      }
      return true, all, boxes, rpos;
    } else if c == '.' {
      return true, all, boxes, np.value;
    } else if c == '#' {
      return true, all, boxes, rpos;
    }
    return false, all, boxes, rpos;
  }

  /** A command that panics stops the run for good. */
  lemma {:induction false} RunP2Stopped(m: Cells, boxes: set<WhBox>, size: (nat, nat), rpos: Pos, cmds: string, i: nat)
    requires Consistent(m, boxes, size) && i <= |cmds| && RunP2(m, boxes, size, rpos, cmds[..i]).None?
    ensures RunP2(m, boxes, size, rpos, cmds).None?
    decreases |cmds| - i
  {
    if i < |cmds| {
      assert cmds[..i + 1][..i] == cmds[..i];
      RunP2Stopped(m, boxes, size, rpos, cmds, i + 1);
    } else {
      assert cmds[..i] == cmds;
    }
  }

  /** The command loop of `calculate_p2`; `ok` is false where a command panics. */
  method RunCommandsP2(grid: Grid<char>, all: seq<WhBox>, ghost boxes: set<WhBox>, start: Pos, commands: string) returns (ok: bool)
    requires grid.Valid() && grid.Fits() && Consistent(Snapshot(grid.content), boxes, grid.Size())
    requires multiset(all) == multiset(boxes)
    modifies grid.content
    ensures ok <==> RunP2(old(Snapshot(grid.content)), boxes, grid.Size(), start, commands).Some?
    ensures ok ==> RunP2(old(Snapshot(grid.content)), boxes, grid.Size(), start, commands).value.0 == Snapshot(grid.content)
  {
    ghost var m1 := Snapshot(grid.content);
    ghost var size := grid.Size();
    var rpos := start;
    var current := all;
    ghost var listed := boxes;
    for i := 0 to |commands|
      invariant RunP2(m1, boxes, size, start, commands[..i]) == Some((Snapshot(grid.content), listed, rpos))
      invariant multiset(current) == multiset(listed)
    {
      assert commands[..i + 1][..i] == commands[..i];
      var dir := CommandToDirection(commands[i]);
      if dir.None? {
        RunP2Stopped(m1, boxes, size, start, commands, i + 1);
        return false;
      }
      var stepped;
      stepped, current, listed, rpos := StepCommand(grid, current, listed, rpos, dir.value);
      if !stepped {
        RunP2Stopped(m1, boxes, size, start, commands, i + 1);
        return false;
      }
    }
    assert commands[..|commands|] == commands;
    ok := true;
  }

  // ---------------------------------------------------------------- widening, imperatively

  /** The left cell the position `q` becomes on the doubled grid. */
  function Doubled(q: Pos): Pos {
    (2 * q.0, q.1)
  }

  /** The position of the original grid a cell of the doubled grid comes from. */
  function Half(p: Pos): Pos {
    (p.0 / 2, p.1)
  }

  /** `all_boxes` as the widening loop pushes it: one box per 'O', in enumeration order. */
  function WideList(items: seq<(char, Pos)>): seq<WhBox> {
    if items == [] then []
    else
      var (c, q) := items[|items| - 1];
      WideList(items[..|items| - 1]) + (if c == 'O' then [BoxAt(Doubled(q))] else [])
  }

  /** The boxes widened from the 'O's on the positions `ps`. */
  ghost function WideFrom(m: Cells, ps: seq<Pos>): set<WhBox>
    requires forall p :: p in ps ==> p in m
  {
    set q | q in ps && m[q] == 'O' :: BoxAt(Doubled(q))
  }

  /** Over distinct positions the pushed list holds every widened box exactly once. */
  lemma {:induction false} WideListFrom(m: Cells, ps: seq<Pos>)
    requires (forall p :: p in ps ==> p in m) && DistinctPositions(ps)
    ensures multiset(WideList(ItemsAt(m, ps))) == multiset(WideFrom(m, ps))
    decreases |ps|
  {
    if ps == [] {
      assert WideFrom(m, ps) == {};
    } else {
      var init := ps[..|ps| - 1];
      assert ItemsAt(m, ps)[..|ps| - 1] == ItemsAt(m, init);
      WideListFrom(m, init);
      WideFromStep(m, ps);
      if m[ps[|ps| - 1]] == 'O' {
        MultisetOfUnion(WideFrom(m, init), {BoxAt(Doubled(ps[|ps| - 1]))});
      }
    }
  }

  /** The last of distinct positions adds its widened box, if any, as a new one. */
  lemma WideFromStep(m: Cells, ps: seq<Pos>)
    requires (forall p :: p in ps ==> p in m) && DistinctPositions(ps) && ps != []
    ensures var q := ps[|ps| - 1]; var before := WideFrom(m, ps[..|ps| - 1]);
      if m[q] == 'O' then BoxAt(Doubled(q)) !in before && WideFrom(m, ps) == before + {BoxAt(Doubled(q))}
      else WideFrom(m, ps) == before
  {
    var init := ps[..|ps| - 1];
    var q := ps[|ps| - 1];
    assert forall k :: 0 <= k < |init| ==> init[k] != q;
    assert forall p :: p in ps <==> p in init || p == q;
  }

  /** The list `calculate_p2` pushes holds exactly the widened boxes, each once. */
  lemma WideListBoxes(m: Cells, w: nat, h: nat)
    requires Covers(m, w, h) && 1 <= w
    ensures multiset(WideList(Items(m, w, h))) == multiset(WideBoxes(m, w, h))
  {
    var ps := PositionsFrom(0, 0, w, h);
    PositionsInRange(0, 0, w, h);
    PositionsDistinct(0, 0, w, h);
    WideListFrom(m, ps);
    forall q
      ensures q in ps <==> InArea(q, w, h)
    {
      if InArea(q, w, h) {
        InEnumeration(w, h, q);
      }
    }
    assert WideFrom(m, ps) == WideBoxes(m, w, h);
  }

  /** Exactly the two cells widened from `q` come from `q`. */
  lemma HalfCases(p: Pos, q: Pos)
    ensures Half(p) == q <==> p == Doubled(q) || p == BoxAt(Doubled(q)).right
  {
    if Half(p) == q {
      assert p.0 == 2 * (p.0 / 2) + p.0 % 2;
    }
  }

  /** The two cells widened from `q` hold the widened box, wall or floor. */
  lemma WideCellsOf(m: Cells, w: nat, h: nat, q: Pos)
    requires Covers(m, w, h) && InArea(q, w, h)
    ensures WideCell(m, w, h, Doubled(q)) == if m[q] == '#' then '#' else if m[q] == 'O' then '[' else '.'
    ensures WideCell(m, w, h, BoxAt(Doubled(q)).right) == if m[q] == '#' then '#' else if m[q] == 'O' then ']' else '.'
  {
    assert (2 * q.0) / 2 == q.0 && (2 * q.0) % 2 == 0;
    assert (2 * q.0 + 1) / 2 == q.0 && (2 * q.0 + 1) % 2 == 1;
  }

  /** The doubled grid while widening: the cells of the positions in `done`
      are widened, every other cell is still '.'. */
  ghost predicate WidenedSoFar(snap: Cells, m: Cells, w: nat, h: nat, done: set<Pos>)
    requires Covers(m, w, h)
  {
    (forall p :: p in snap <==> InArea(p, MAX_WIDTH, MAX_HEIGHT)) &&
    forall p :: p in snap ==> snap[p] == if Half(p) in done then WideCell(m, w, h, p) else '.'
  }

  /** The snapshot after the loop body has written the two cells of `q`. */
  function Widened(snap: Cells, c: char, q: Pos): Cells {
    var b := BoxAt(Doubled(q));
    if c == '#' then snap[b.left := '#'][b.right := '#']
    else if c == 'O' then snap[b.left := '['][b.right := ']']
    else snap
  }

  /** Widening one more position keeps the loop's picture of the grid. */
  lemma WidenStep(snap: Cells, m: Cells, w: nat, h: nat, done: set<Pos>, q: Pos)
    requires Covers(m, w, h) && 2 * w <= MAX_WIDTH && h <= MAX_HEIGHT
    requires WidenedSoFar(snap, m, w, h, done) && InArea(q, w, h) && q !in done
    ensures WidenedSoFar(Widened(snap, m[q], q), m, w, h, done + {q})
  {
    var b := BoxAt(Doubled(q));
    WideCellsOf(m, w, h, q);
    HalfCases(b.left, q);
    HalfCases(b.right, q);
    forall p | p in snap && Half(p) == q
      ensures p == b.left || p == b.right
    {
      HalfCases(p, q);
    }
  }

  /** Once every position of the area is widened, the grid is the doubled grid. */
  lemma WidenDone(snap: Cells, m: Cells, w: nat, h: nat, done: set<Pos>)
    requires Covers(m, w, h) && WidenedSoFar(snap, m, w, h, done)
    requires forall q :: InArea(q, w, h) ==> q in done
    ensures snap == Wide(m, w, h)
  {
    forall p | p in snap
      ensures snap[p] == WideCell(m, w, h, p)
    {
    }
  }

  /** Where the robot starts on the doubled grid. */
  function DoubledStart(s: Option<Pos>): Option<Pos> {
    if s.Some? then Some(Doubled(s.value)) else None
  }

  /** The body of the widening loop for the item `(c, q)`: a wall or a box
      writes its two cells, anything else writes nothing. */
  method WidenItem(grid: Grid<char>, c: char, q: Pos)
    requires grid.Valid() && 2 * q.0 + 1 < MAX_WIDTH && q.1 < grid.content.Length0
    modifies grid.content
    ensures Snapshot(grid.content) == Widened(old(Snapshot(grid.content)), c, q)
  {
    var b := BoxAt(Doubled(q));
    if c == '#' {
      SetAt(grid, b.left, '#');
      SetAt(grid, b.right, '#');
    } else if c == 'O' {
      SetAt(grid, b.left, '[');
      SetAt(grid, b.right, ']');
    }
  }

  /** What the widening loop knows after `i` items of the enumeration `ps`:
      their cells are written, their boxes pushed, their last robot kept. */
  ghost predicate WidenState(snap: Cells, m: Cells, w: nat, h: nat, items: seq<(char, Pos)>, ps: seq<Pos>,
                             i: nat, done: set<Pos>, all: seq<WhBox>, start: Option<Pos>)
  {
    Covers(m, w, h) && 2 * w <= MAX_WIDTH && h <= MAX_HEIGHT &&
    (forall p :: p in ps ==> InArea(p, w, h)) && DistinctPositions(ps) &&
    items == ItemsAt(m, ps) && i <= |items| &&
    done == (set k | 0 <= k < i :: ps[k]) &&
    WidenedSoFar(snap, m, w, h, done) &&
    all == WideList(items[..i]) &&
    start == DoubledStart(LastAt(items[..i], '@'))
  }

  /** One pass of the widening loop over the item `items[i]`. */
  method WidenOne(grid: Grid<char>, items: seq<(char, Pos)>, i: nat, all: seq<WhBox>, start: Option<Pos>,
                  ghost m: Cells, ghost w: nat, ghost h: nat, ghost ps: seq<Pos>, ghost done: set<Pos>)
    returns (all': seq<WhBox>, start': Option<Pos>, ghost done': set<Pos>)
    requires grid.Valid() && grid.content.Length0 == MAX_HEIGHT && i < |items|
    requires WidenState(Snapshot(grid.content), m, w, h, items, ps, i, done, all, start)
    modifies grid.content
    ensures WidenState(Snapshot(grid.content), m, w, h, items, ps, i + 1, done', all', start')
  {
    var (c, q) := items[i];
    assert items[..i + 1][..i] == items[..i];
    assert forall k :: 0 <= k < i ==> ps[k] != ps[i];
    WidenStep(Snapshot(grid.content), m, w, h, done, q);
    WidenItem(grid, c, q);
    all', start' := all, start;
    if c == 'O' {
      all' := all + [BoxAt(Doubled(q))];
    } else if c == '@' {
      start' := Some(Doubled(q));
    }
    done' := done + {q};
  }

  /** The widening loop of `calculate_p2`: the doubled grid, the pushed boxes
      and the doubled position of the last robot. */
  method WidenGrid(input: Grid<char>) returns (grid: Grid<char>, all: seq<WhBox>, start: Option<Pos>)
    requires input.Valid() && input.Fits() && 1 <= input.width && 2 * input.width <= MAX_WIDTH && input.height <= MAX_HEIGHT
    ensures fresh(grid) && fresh(grid.content) && grid.Valid() && grid.Fits()
    ensures grid.Size() == (2 * input.width, input.height)
    ensures Covers(Snapshot(input.content), input.width, input.height)
    ensures Snapshot(grid.content) == Wide(Snapshot(input.content), input.width, input.height)
    ensures all == WideList(Items(Snapshot(input.content), input.width, input.height))
    ensures start == DoubledStart(LastAt(Items(Snapshot(input.content), input.width, input.height), '@'))
  {
    ghost var m := Snapshot(input.content);
    var w, h := input.width, input.height;
    SnapshotCovers(input);
    grid := new Grid.New('.', w * 2, h);
    all := [];
    start := None;
    var items := EnumerateAll(input);
    EnumeratedItems(input, items);
    ghost var ps := PositionsFrom(0, 0, w, h);
    PositionsInRange(0, 0, w, h);
    PositionsDistinct(0, 0, w, h);
    ghost var done: set<Pos> := {};
    assert items[..0] == [];
    for i := 0 to |items|
      invariant fresh(grid) && fresh(grid.content) && grid.Valid() && grid.content.Length0 == MAX_HEIGHT
      invariant grid.Size() == (2 * w, h)
      invariant WidenState(Snapshot(grid.content), m, w, h, items, ps, i, done, all, start)
    {
      all, start, done := WidenOne(grid, items, i, all, start, m, w, h, ps, done);
    }
    assert items[..|items|] == items;
    forall q | InArea(q, w, h)
      ensures q in done
    {
      InEnumeration(w, h, q);
      var k :| 0 <= k < |ps| && ps[k] == q;
    }
    WidenDone(Snapshot(grid.content), m, w, h, done);
  }

  /** `calculate_p2`: widen, run the commands on the doubled grid, sum the GPS
      coordinates of the boxes' left halves. */
  method CalculateP2(input: Grid<char>, commands: string) returns (r: Option<nat>)
    requires input.Valid() && input.Fits() && 1 <= input.width && 2 * input.width <= MAX_WIDTH && input.height <= MAX_HEIGHT
    ensures r == PartTwo(Snapshot(input.content), input.width, input.height, commands)
  {
    ghost var m := Snapshot(input.content);
    var grid, all, start := WidenGrid(input);
    if start.None? {
      return None;
    }
    WideConsistent(m, input.width, input.height);
    WideListBoxes(m, input.width, input.height);
    var ok := RunCommandsP2(grid, all, WideBoxes(m, input.width, input.height), start.value, commands);
    if !ok {
      return None;
    }
    var sum := GridGps(grid, '[');
    r := Some(sum);
  }
}
