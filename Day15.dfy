/** Day 15 (day15/src/main.rs): a robot walks a warehouse and pushes boxes.
    Part 1 boxes are one cell ('O'); the robot shoves the whole row of boxes
    in front of it when there is a free cell before the next wall. Part 2
    doubles the map horizontally, boxes become two cells ('[' ']') and a push
    can spread to every box resting against the moving ones. Both parts sum
    `100 * y + x` over the boxes left at the end. */
module Day15 {
  import opened Wrappers
  import opened Neighbours
  import opened Grid
  import Board

  type Pos = (nat, nat)

  /** A snapshot of a `Grid<char>`, keyed by `(col, row)`. */
  type Cells = map<Pos, char>

  /** The snapshot holds every cell the used area and its enumeration touch. */
  ghost predicate Covers(m: Cells, w: nat, h: nat) {
    w <= MAX_WIDTH && forall p {:trigger p in m} :: InArea(p, MAX_WIDTH, h) ==> p in m
  }

  // ---------------------------------------------------------------- commands

  /** The four one-cell shapes a command can select. */
  predicate IsArrow(d: NeighbourMap) {
    d.Top? || d.Right? || d.Bottom? || d.Left?
  }

  /** `command_to_direction`: the four arrows; any other character panics (`None`). */
  function CommandToDirection(c: char): (r: Option<NeighbourMap>)
    ensures r.Some? <==> c in "^>v<"
    ensures r.Some? ==> IsArrow(r.value)
  {
    match c
    case '^' => Some(Top)
    case '>' => Some(Right)
    case 'v' => Some(Bottom)
    case '<' => Some(Left)
    case _ => None
  }

  /** The arrow that selects a direction. */
  function ArrowOf(d: NeighbourMap): char
    requires IsArrow(d)
  {
    match d
    case Top => '^'
    case Right => '>'
    case Bottom => 'v'
    case Left => '<'
  }

  /** Commands and directions are in one-to-one correspondence. */
  lemma CommandRoundTrip(c: char, d: NeighbourMap)
    ensures CommandToDirection(c).Some? ==> ArrowOf(CommandToDirection(c).value) == c
    ensures IsArrow(d) ==> CommandToDirection(ArrowOf(d)) == Some(d)
  {
  }

  // ---------------------------------------------------------------- moving

  /** The cell `dist` steps from `pos` in direction `d`, if inside `size`
      (what the source reads off `Neighbours2D::new_with_distance`; see
      `AheadIsNeighbourhood`). */
  function Ahead(pos: Pos, size: (nat, nat), dist: nat, d: NeighbourMap): (r: Option<Pos>)
    requires IsArrow(d)
    ensures r.Some? ==> InArea(r.value, size.0, size.1) && dist <= pos.0 + pos.1 + size.0 + size.1
  {
    match d
    case Top => if pos.0 < size.0 && dist <= pos.1 && pos.1 - dist < size.1 then Some((pos.0, pos.1 - dist)) else None
    case Bottom => if pos.0 < size.0 && pos.1 + dist < size.1 then Some((pos.0, pos.1 + dist)) else None
    case Left => if dist <= pos.0 && pos.0 - dist < size.0 && pos.1 < size.1 then Some((pos.0 - dist, pos.1)) else None
    case Right => if pos.0 + dist < size.0 && pos.1 < size.1 then Some((pos.0 + dist, pos.1)) else None
  }

  /** `Neighbours2D::new_with_distance(pos, size, dist, d).filter_map(|f| f).next()`
      yields exactly `Ahead`: the one offset of the shape, scaled by `dist`, when it lands inside. */
  lemma AheadIsNeighbourhood(pos: Pos, size: (nat, nat), dist: nat, d: NeighbourMap)
    requires IsArrow(d)
    ensures var cells := ValidOnly(Neighbourhood(pos, size, dist, d));
      Ahead(pos, size, dist, d) == if |cells| > 0 then Some(cells[0]) else None
  {
    var ns := Neighbourhood(pos, size, dist, d);
    assert ns == [ns[0]];
    assert ValidOnly(ns[1..]) == [];
    NeighbourAtIsOffset(pos.0, pos.1, size.0, size.1, dist, MapIndices(d)[0]);
  }

  // ---------------------------------------------------------------- part 1

  /** A cell a ray may contain: inside the grid and not a wall. */
  ghost predicate Open(m: Cells, size: (nat, nat), p: Pos) {
    InArea(p, size.0, size.1) && p in m && m[p] != '#'
  }

  /** The `points` loop of `calculate_p1` from distance `dist` on, with
      `acc` collected so far: the cells in direction `d` are appended up to
      (not including) the first wall or the edge. */
  function RayFrom(m: Cells, size: (nat, nat), pos: Pos, d: NeighbourMap, dist: nat, acc: seq<Pos>): (r: seq<Pos>)
    requires IsArrow(d) && Covers(m, size.0, size.1)
    ensures acc <= r
    ensures (forall p :: p in acc ==> Open(m, size, p)) ==> forall p :: p in r ==> Open(m, size, p)
    decreases pos.0 + pos.1 + size.0 + size.1 + 1 - dist
  {
    match Ahead(pos, size, dist, d)
    case None => acc
    case Some(p) =>
      if m[p] == '#' then acc
      else
        var r := RayFrom(m, size, pos, d, dist + 1, acc + [p]);
        assert acc <= acc + [p];
        r
  }

  /** The `points` of `calculate_p1`: every open cell ahead of the robot up to the first wall or the edge. */
  function Ray(m: Cells, size: (nat, nat), pos: Pos, d: NeighbourMap): (r: seq<Pos>)
    requires IsArrow(d) && Covers(m, size.0, size.1)
    ensures forall p :: p in r ==> Open(m, size, p)
  {
    RayFrom(m, size, pos, d, 1, [])
  }

  /** `points.iter().position(|s| grid[*s] == '.')`. */
  function FirstFree(m: Cells, pts: seq<Pos>): (r: Option<nat>)
    requires forall p :: p in pts ==> p in m
    ensures r.Some? ==> r.value < |pts| && m[pts[r.value]] == '.' && forall j :: 0 <= j < r.value ==> m[pts[j]] != '.'
    ensures r.None? ==> forall j :: 0 <= j < |pts| ==> m[pts[j]] != '.'
  {
    if pts == [] then None
    else if m[pts[0]] == '.' then Some(0)
    else match FirstFree(m, pts[1..])
      case None => None
      case Some(k) => Some(k + 1)
  }

  /** One command of part 1: the box written into the first free cell of the
      ray, the robot one step ahead on a cleared cell; with no free cell, or a
      wall right ahead, nothing happens. */
  function PushP1(m: Cells, size: (nat, nat), rpos: Pos, d: NeighbourMap): (Cells, Pos)
    requires IsArrow(d) && Covers(m, size.0, size.1)
  {
    var pts := Ray(m, size, rpos, d);
    if pts == [] then (m, rpos)
    else match FirstFree(m, pts)
      case None => (m, rpos)
      case Some(k) => (m[pts[k] := 'O'][pts[0] := '.'], pts[0])
  }

  lemma PushP1Covers(m: Cells, size: (nat, nat), rpos: Pos, d: NeighbourMap)
    requires IsArrow(d) && Covers(m, size.0, size.1)
    ensures Covers(PushP1(m, size, rpos, d).0, size.0, size.1)
  {
  }

  /** Every used cell of a part 1 warehouse is a wall, free or a box (the
      robot's own cell is kept free). */
  ghost predicate Warehouse(m: Cells, size: (nat, nat)) {
    forall p :: InArea(p, size.0, size.1) && p in m ==> m[p] == '#' || m[p] == '.' || m[p] == 'O'
  }

  /** The cells holding a box. */
  function Boxes(m: Cells, size: (nat, nat)): (bs: set<Pos>)
    ensures forall p :: p in bs <==> InArea(p, size.0, size.1) && p in m && m[p] == 'O'
  {
    set p | p in Area(size.0, size.1) && p in m && m[p] == 'O'
  }

  /** The same cells are walls before and after. */
  ghost predicate SameWalls(m: Cells, m': Cells) {
    forall p :: p in m ==> p in m' && (m[p] == '#' <==> m'[p] == '#')
  }

  /** The ray starts right ahead of the robot. */
  lemma RayStartsAhead(m: Cells, size: (nat, nat), pos: Pos, d: NeighbourMap)
    requires IsArrow(d) && Covers(m, size.0, size.1)
    ensures var pts := Ray(m, size, pos, d);
      pts != [] ==> Ahead(pos, size, 1, d) == Some(pts[0])
  {
    match Ahead(pos, size, 1, d)
    case None =>
    case Some(p) =>
      if m[p] != '#' {
        assert [p] <= RayFrom(m, size, pos, d, 2, [p]);
      }
  }

  /** Moving the box on `a` to the free cell `b` keeps a warehouse and its
      number of boxes. */
  lemma MoveOneBox(m: Cells, size: (nat, nat), a: Pos, b: Pos)
    requires Warehouse(m, size) && a in m && b in m && m[a] == 'O' && m[b] == '.'
    requires InArea(a, size.0, size.1) && InArea(b, size.0, size.1)
    ensures Warehouse(m[b := 'O'][a := '.'], size)
    ensures |Boxes(m[b := 'O'][a := '.'], size)| == |Boxes(m, size)|
  {
    var bs := Boxes(m, size);
    assert Boxes(m[b := 'O'][a := '.'], size) == bs - {a} + {b};
    assert bs == (bs - {a}) + {a};
  }

  /** The push as a case split: unchanged, or the robot steps onto the free
      first cell, or the first cell's box goes to the first free cell `pts[k]`. */
  lemma PushP1Cases(m: Cells, size: (nat, nat), rpos: Pos, d: NeighbourMap)
    requires IsArrow(d) && Covers(m, size.0, size.1) && Warehouse(m, size)
    ensures var pts := Ray(m, size, rpos, d);
      var r := PushP1(m, size, rpos, d);
      if pts == [] || FirstFree(m, pts).None? then r == (m, rpos)
      else if m[pts[0]] == '.' then r == (m, pts[0])
      else var k := FirstFree(m, pts).value;
        0 < k && m[pts[0]] == 'O' && m[pts[k]] == '.' && r == (m[pts[k] := 'O'][pts[0] := '.'], pts[0])
  {
    var pts := Ray(m, size, rpos, d);
    if pts != [] && FirstFree(m, pts).Some? && m[pts[0]] == '.' {
      assert m[pts[0] := 'O'][pts[0] := '.'] == m;
    }
  }

  /** One command of part 1 never writes or removes a wall, and keeps a
      warehouse with its number of boxes. */
  lemma PushP1Keeps(m: Cells, size: (nat, nat), rpos: Pos, d: NeighbourMap)
    requires IsArrow(d) && Covers(m, size.0, size.1) && Warehouse(m, size)
    ensures var m' := PushP1(m, size, rpos, d).0;
      SameWalls(m, m') && Warehouse(m', size) && |Boxes(m', size)| == |Boxes(m, size)|
  {
    PushP1Cases(m, size, rpos, d);
    var pts := Ray(m, size, rpos, d);
    if pts != [] && FirstFree(m, pts).Some? && m[pts[0]] != '.' {
      MoveOneBox(m, size, pts[0], pts[FirstFree(m, pts).value]);
    }
  }

  /** The robot either stays, and then nothing changes, or takes one step in
      direction `d` onto a cell that was free or a box and is free afterwards;
      when it was free, nothing else changes either. */
  lemma PushP1Robot(m: Cells, size: (nat, nat), rpos: Pos, d: NeighbourMap)
    requires IsArrow(d) && Covers(m, size.0, size.1) && Warehouse(m, size)
    ensures var (m', rpos') := PushP1(m, size, rpos, d);
      (rpos' == rpos || m[rpos'] == '.' ==> m' == m) &&
      (rpos' != rpos ==> Ahead(rpos, size, 1, d) == Some(rpos') && (m[rpos'] == '.' || m[rpos'] == 'O') && m'[rpos'] == '.')
  {
    PushP1Cases(m, size, rpos, d);
    RayStartsAhead(m, size, rpos, d);
  }

  /** The commands `cmds` run one after the other from `(m, rpos)`; a
      character that is not an arrow panics (`None`). */
  function RunP1(m: Cells, size: (nat, nat), rpos: Pos, cmds: string): (r: Option<(Cells, Pos)>)
    requires Covers(m, size.0, size.1)
    ensures r.Some? ==> Covers(r.value.0, size.0, size.1)
    decreases |cmds|
  {
    if cmds == [] then Some((m, rpos))
    else match RunP1(m, size, rpos, cmds[..|cmds| - 1])
      case None => None
      case Some((m', rpos')) =>
        match CommandToDirection(cmds[|cmds| - 1])
        case None => None
        case Some(d) =>
          PushP1Covers(m', size, rpos', d);
          Some(PushP1(m', size, rpos', d))
  }

  /** A whole run keeps the walls and, in a warehouse, the number of boxes. */
  lemma {:induction false} RunP1Keeps(m: Cells, size: (nat, nat), rpos: Pos, cmds: string)
    requires Covers(m, size.0, size.1) && Warehouse(m, size) && RunP1(m, size, rpos, cmds).Some?
    ensures var m' := RunP1(m, size, rpos, cmds).value.0;
      SameWalls(m, m') && Warehouse(m', size) && |Boxes(m', size)| == |Boxes(m, size)|
    decreases |cmds|
  {
    if cmds != [] {
      var init := cmds[..|cmds| - 1];
      RunP1Keeps(m, size, rpos, init);
      var (m1, r1) := RunP1(m, size, rpos, init).value;
      PushP1Keeps(m1, size, r1, CommandToDirection(cmds[|cmds| - 1]).value);
    }
  }

  /** The position of the first item showing `c`, in enumeration order. */
  function FirstAt(items: seq<(char, Pos)>, c: char): (r: Option<Pos>)
    ensures r.Some? <==> exists k :: 0 <= k < |items| && items[k].0 == c
    ensures r.Some? ==> exists k :: 0 <= k < |items| && items[k] == (c, r.value) &&
                                    forall j :: 0 <= j < k ==> items[j].0 != c
  {
    if items == [] then None
    else if items[0].0 == c then Some(items[0].1)
    else
      var r := FirstAt(items[1..], c);
      assert forall k :: 1 <= k < |items| ==> items[k] == items[1..][k - 1];
      r
  }

  /** The GPS coordinate of a position: `100 * y + x`. */
  function Gps(p: Pos): nat {
    100 * p.1 + p.0
  }

  /** `enumerate().filter(|(o, _)| **o == c).map(|(_, (x, y))| y * 100 + x).sum()`. */
  function GpsOf(items: seq<(char, Pos)>, c: char): nat {
    if items == [] then 0
    else GpsOf(items[..|items| - 1], c) + (if items[|items| - 1].0 == c then Gps(items[|items| - 1].1) else 0)
  }

  /** The cells an enumeration of a `w` by `h` grid visits, read off `m`. */
  function Items(m: Cells, w: nat, h: nat): (items: seq<(char, Pos)>)
    requires Covers(m, w, h)
  {
    var ps := PositionsFrom(0, 0, w, h);
    PositionsInRange(0, 0, w, h);
    ItemsAt(m, ps)
  }

  /** Writing `c` on `p`, which an enumeration with distinct positions visits
      once, changes the sum by the GPS coordinate of `p` as far as `p` gains
      or loses a box. */
  lemma {:induction false} GpsOfUpdate(m: Cells, ps: seq<Pos>, p: Pos, c: char)
    requires (forall q :: q in ps ==> q in m) && DistinctPositions(ps)
    ensures GpsOf(ItemsAt(m[p := c], ps), 'O') + (if p in ps && m[p] == 'O' then Gps(p) else 0) ==
            GpsOf(ItemsAt(m, ps), 'O') + (if p in ps && c == 'O' then Gps(p) else 0)
    decreases |ps|
  {
    if ps != [] {
      var init := ps[..|ps| - 1];
      var last := ps[|ps| - 1];
      assert ItemsAt(m, ps)[..|init|] == ItemsAt(m, init);
      assert ItemsAt(m[p := c], ps)[..|init|] == ItemsAt(m[p := c], init);
      assert forall q :: q in ps <==> q in init || q == last;
      if last == p {
        assert p !in init;
      }
      GpsOfUpdate(m, init, p, c);
    }
  }

  /** The enumeration visits every cell of the used area. */
  lemma InEnumeration(w: nat, h: nat, p: Pos)
    requires InArea(p, w, h)
    ensures p in PositionsFrom(0, 0, w, h)
  {
    Board.PositionsAreEnumeration(w, h);
    Board.PositionsCoverGrid(w, h, p);
  }

  /** Moving the box on `a` to the free cell `b` trades GPS coordinate `a` for `b` in the sum. */
  lemma GpsOfMoveBox(m: Cells, w: nat, h: nat, a: Pos, b: Pos)
    requires Covers(m, w, h) && InArea(a, w, h) && InArea(b, w, h) && m[a] == 'O' && m[b] == '.'
    ensures Covers(m[b := 'O'][a := '.'], w, h)
    ensures GpsOf(Items(m[b := 'O'][a := '.'], w, h), 'O') + Gps(a) == GpsOf(Items(m, w, h), 'O') + Gps(b)
  {
    var ps := PositionsFrom(0, 0, w, h);
    PositionsInRange(0, 0, w, h);
    PositionsDistinct(0, 0, w, h);
    InEnumeration(w, h, a);
    InEnumeration(w, h, b);
    GpsOfUpdate(m, ps, b, 'O');
    GpsOfUpdate(m[b := 'O'], ps, a, '.');
  }

  /** In a warehouse, when the robot pushes a row of boxes, the part 1 sum
      loses the GPS coordinate of the cell right ahead and gains that of the
      first free cell; otherwise it stays the same. */
  lemma PushP1Gps(m: Cells, size: (nat, nat), rpos: Pos, d: NeighbourMap)
    requires IsArrow(d) && Covers(m, size.0, size.1) && Warehouse(m, size)
    ensures var pts := Ray(m, size, rpos, d);
      var (m', rpos') := PushP1(m, size, rpos, d);
      var before := GpsOf(Items(m, size.0, size.1), 'O');
      var after := GpsOf(Items(m', size.0, size.1), 'O');
      if rpos' != rpos && m[rpos'] == 'O' then
        FirstFree(m, pts).Some? && after + Gps(rpos') == before + Gps(pts[FirstFree(m, pts).value])
      else after == before
  {
    PushP1Cases(m, size, rpos, d);
    var pts := Ray(m, size, rpos, d);
    if pts != [] && FirstFree(m, pts).Some? && m[pts[0]] == 'O' {
      var k := FirstFree(m, pts).value;
      assert Open(m, size, pts[0]) && Open(m, size, pts[k]);
      GpsOfMoveBox(m, size.0, size.1, pts[0], pts[k]);
    }
  }

  /** What `calculate_p1` returns on a grid whose snapshot is `m`: the start is
      the first '@', which is cleared; `None` when there is no '@' or a
      command is not an arrow. */
  function PartOne(m: Cells, w: nat, h: nat, commands: string): Option<nat>
    requires Covers(m, w, h)
  {
    match FirstAt(Items(m, w, h), '@')
    case None => None
    case Some(start) =>
      match RunP1(m[start := '.'], (w, h), start, commands)
      case None => None
      case Some((m', _)) => Some(GpsOf(Items(m', w, h), 'O'))
  }

  /** The first loop of `calculate_p1`'s command step: the cells ahead of the
      robot, distance by distance, until the edge or a wall. */
  method CollectRay(g: Grid<char>, rpos: Pos, d: NeighbourMap) returns (points: seq<Pos>)
    requires g.Valid() && g.Fits() && IsArrow(d) && Covers(Snapshot(g.content), g.width, g.height)
    ensures points == Ray(Snapshot(g.content), (g.width, g.height), rpos, d)
  {
    ghost var m := Snapshot(g.content);
    var size := g.Size();
    points := [];
    var dist := 1;
    while true
      invariant dist >= 1 && Ray(m, size, rpos, d) == RayFrom(m, size, rpos, d, dist, points)
      decreases rpos.0 + rpos.1 + size.0 + size.1 + 1 - dist
    {
      var np := Ahead(rpos, size, dist, d);
      if np.None? || CellAt(g, np.value) == '#' {
        break;
      }
      points := points + [np.value];
      dist := dist + 1;
    }
  }

  /** `points.iter().position(|s| grid[*s] == '.')` on the grid itself. */
  method FindFree(g: Grid<char>, points: seq<Pos>) returns (k: Option<nat>)
    requires forall p :: p in points ==> p.1 < g.content.Length0 && p.0 < g.content.Length1
    ensures forall p :: p in points ==> p in Snapshot(g.content)
    ensures k == FirstFree(Snapshot(g.content), points)
  {
    ghost var m := Snapshot(g.content);
    var i := 0;
    while i < |points|
      invariant i <= |points| && forall j :: 0 <= j < i ==> m[points[j]] != '.'
    {
      if CellAt(g, points[i]) == '.' {
        return Some(i);
      }
      i := i + 1;
    }
    return None;
  }

  /** The body of `calculate_p1`'s command loop: collect the ray, find its
      first free cell, then write the box and clear the robot's new cell. */
  method PushBoxes(g: Grid<char>, rpos: Pos, d: NeighbourMap) returns (rpos': Pos)
    requires g.Valid() && g.Fits() && IsArrow(d) && Covers(Snapshot(g.content), g.width, g.height)
    modifies g.content
    ensures (Snapshot(g.content), rpos') == PushP1(old(Snapshot(g.content)), (g.width, g.height), rpos, d)
  {
    var points := CollectRay(g, rpos, d);
    if points == [] {
      return rpos;
    }
    var firstEmpty := FindFree(g, points);
    if firstEmpty.None? {
      return rpos;
    }
    SetAt(g, points[firstEmpty.value], 'O');
    rpos' := points[0];
    SetAt(g, rpos', '.');
  }

  /** A grid's snapshot covers its used area. */
  lemma SnapshotCovers(g: Grid<char>)
    requires g.Valid() && g.Fits()
    ensures Covers(Snapshot(g.content), g.width, g.height)
  {
  }

  /** A command that is not an arrow stops the run for good. */
  lemma {:induction false} RunP1Stopped(m: Cells, size: (nat, nat), rpos: Pos, cmds: string, i: nat)
    requires Covers(m, size.0, size.1) && i <= |cmds| && RunP1(m, size, rpos, cmds[..i]).None?
    ensures RunP1(m, size, rpos, cmds).None?
    decreases |cmds| - i
  {
    if i < |cmds| {
      assert cmds[..i + 1][..i] == cmds[..i];
      RunP1Stopped(m, size, rpos, cmds, i + 1);
    } else {
      assert cmds[..i] == cmds;
    }
  }

  /** The first loop of `calculate_p1`: the first '@' of the enumeration. */
  method FindStart(items: seq<(char, Pos)>) returns (start: Option<Pos>)
    ensures start == FirstAt(items, '@')
  {
    start := None;
    var i := 0;
    while i < |items|
      invariant i <= |items| && FirstAt(items, '@') == FirstAt(items[i..], '@')
    {
      assert items[i..][1..] == items[i + 1..];
      if items[i].0 == '@' {
        start := Some(items[i].1);
        break;
      }
      i := i + 1;
    }
  }

  /** The final sum of `calculate_p1` (and `calculate_p2`): `100 * y + x` over the items showing `c`. */
  method SumGps(items: seq<(char, Pos)>, c: char) returns (sum: nat)
    ensures sum == GpsOf(items, c)
  {
    sum := 0;
    for i := 0 to |items|
      invariant sum == GpsOf(items[..i], c)
    {
      assert items[..i + 1][..i] == items[..i];
      if items[i].0 == c {
        sum := sum + items[i].1.1 * 100 + items[i].1.0;
      }
    }
    assert items[..|items|] == items;
  }

  /** The start of `calculate_p1`: a clone of the grid with the first '@'
      (if any) cleared. */
  method ClearedStart(input: Grid<char>) returns (grid: Grid<char>, start: Option<Pos>)
    requires input.Valid() && input.Fits()
    ensures fresh(grid) && fresh(grid.content) && grid.Valid() && grid.Fits()
    ensures grid.width == input.width && grid.height == input.height
    ensures Covers(Snapshot(input.content), input.width, input.height)
    ensures start == FirstAt(Items(Snapshot(input.content), input.width, input.height), '@')
    ensures start.Some? ==> Snapshot(grid.content) == Snapshot(input.content)[start.value := '.']
  {
    ghost var m0 := Snapshot(input.content);
    grid := input.Map(c => c);
    assert Snapshot(grid.content) == m0;
    SnapshotCovers(grid);
    var items := EnumerateAll(grid);
    EnumeratedItems(grid, items);
    start := FindStart(items);
    if start.Some? {
      PositionsInRange(0, 0, grid.width, grid.height);
      SetAt(grid, start.value, '.');
    }
  }

  /** The command loop of `calculate_p1`; `ok` is false when a command is not an arrow. */
  method RunCommands(grid: Grid<char>, start: Pos, commands: string) returns (ok: bool, rpos: Pos)
    requires grid.Valid() && grid.Fits() && Covers(Snapshot(grid.content), grid.width, grid.height)
    modifies grid.content
    ensures ok <==> RunP1(old(Snapshot(grid.content)), (grid.width, grid.height), start, commands).Some?
    ensures ok ==> RunP1(old(Snapshot(grid.content)), (grid.width, grid.height), start, commands) == Some((Snapshot(grid.content), rpos))
  {
    ghost var m1 := Snapshot(grid.content);
    ghost var size := (grid.width, grid.height);
    rpos := start;
    for i := 0 to |commands|
      invariant RunP1(m1, size, start, commands[..i]) == Some((Snapshot(grid.content), rpos))
    {
      assert commands[..i + 1][..i] == commands[..i];
      var dir := CommandToDirection(commands[i]);
      if dir.None? {
        RunP1Stopped(m1, size, start, commands, i + 1);
        return false, rpos;
      }
      rpos := PushBoxes(grid, rpos, dir.value);
    }
    assert commands[..|commands|] == commands;
    ok := true;
  }

  /** The closing sum of both parts on a grid: `100 * y + x` over the cells showing `c`. */
  method GridGps(grid: Grid<char>, c: char) returns (sum: nat)
    requires grid.Valid() && grid.Fits()
    ensures Covers(Snapshot(grid.content), grid.width, grid.height)
    ensures sum == GpsOf(Items(Snapshot(grid.content), grid.width, grid.height), c)
  {
    SnapshotCovers(grid);
    var items := EnumerateAll(grid);
    EnumeratedItems(grid, items);
    sum := SumGps(items, c);
  }

  /** `calculate_p1` on a clone of the grid: find and clear the start, run
      every command, then sum the GPS coordinates of the boxes. */
  method CalculateP1(input: Grid<char>, commands: string) returns (r: Option<nat>)
    requires input.Valid() && input.Fits()
    ensures r == PartOne(Snapshot(input.content), input.width, input.height, commands)
  {
    var grid, start := ClearedStart(input);
    if start.None? {
      return None;
    }
    var ok, _ := RunCommands(grid, start.value, commands);
    if !ok {
      return None;
    }
    var sum := GridGps(grid, 'O');
    r := Some(sum);
  }
}
