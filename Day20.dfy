/** Day 20 (day20/src/main.rs): the race track. Part 1 labels every cell
    reachable from 'S' with its distance and the cell it was reached from,
    with a best-first search over a heap ordered on the distance, then
    collects the cheats: pairs of labelled cells two apart in a straight
    line whose middle cell is not labelled, where the far cell is further
    along the track. */
module Day20 {
  import opened Wrappers
  import opened Grid
  import opened Neighbours
  import opened Heap
  import Point

  type Pos = (nat, nat)

  /** `TrackCell { came_from, distance }`. */
  datatype TrackCell = TrackCell(cameFrom: Option<Pos>, distance: nat)

  /** `Cheat { start, end, gain }`. */
  datatype Cheat = Cheat(start: Pos, end: Pos, gain: nat)

  /** The track grid seen as its snapshot: `None` where nothing is known. */
  type Track = map<Pos, Option<TrackCell>>

  /** `BfsState { pos, distance }`, held in the heap as `(distance, pos)`. */
  type BfsState = (nat, Pos)

  predicate Labelled(t: Track, p: Pos) {
    p in t && t[p].Some?
  }

  /** The distance a labelled cell carries. */
  function Dist(t: Track, p: Pos): nat
    requires Labelled(t, p)
  {
    t[p].value.distance
  }

  /** The input grids the solution reads: rows of `MAX_WIDTH` cells, with
      the used area no taller than the track grid built beside it. */
  ghost predicate Usable(grid: Grid<char>)
    reads grid
  {
    grid.Valid() && grid.Fits() && grid.height <= MAX_HEIGHT
  }

  // ------------------------------------------------------------ the start

  /** The position of the first item holding `v`. */
  function FirstAt(items: seq<(char, Pos)>, v: char): (r: Option<Pos>)
    ensures r.Some? <==> exists k :: 0 <= k < |items| && items[k].0 == v
    ensures r.Some? ==> exists k :: 0 <= k < |items| && items[k] == (v, r.value) && forall j :: 0 <= j < k ==> items[j].0 != v
  {
    if items == [] then None
    else if items[0].0 == v then
      assert items[0] == (v, items[0].1);
      Some(items[0].1)
    else
      var r := FirstAt(items[1..], v);
      if r.Some? then
        var k :| 0 <= k < |items[1..]| && items[1..][k] == (v, r.value) && forall j :: 0 <= j < k ==> items[1..][j].0 != v;
        assert items[k + 1] == (v, r.value);
        assert forall j :: 0 <= j < k + 1 ==> items[j].0 != v by {
          forall j | 0 <= j < k + 1 ensures items[j].0 != v {
            if j > 0 { assert items[j] == items[1..][j - 1]; }
          }
        }
        r
      else
        assert forall k :: 0 <= k < |items| ==> items[k].0 != v by {
          forall k | 0 <= k < |items| ensures items[k].0 != v {
            if k > 0 { assert items[k] == items[1..][k - 1]; }
          }
        }
        r
  }

  /** The `for (cell, point) in grid.enumerate()` loop that breaks at the
      first 'S'. */
  method FindStart(items: seq<(char, Pos)>) returns (start: Option<Pos>)
    ensures start == FirstAt(items, 'S')
  {
    start := None;
    var i := 0;
    while i < |items|
      invariant 0 <= i <= |items|
      invariant FirstAt(items, 'S') == FirstAt(items[i..], 'S')
    {
      if items[i].0 == 'S' {
        assert items[i..] == [items[i]] + items[i + 1..];
        start := Some(items[i].1);
        return;
      }
      assert items[i..][1..] == items[i + 1..];
      i := i + 1;
    }
  }

  // ------------------------------------------------------- the labelling

  /** What the labelling keeps true of the track `t` over the tiles of a
      grid of `size`: the start carries distance 0 and no parent; every
      labelled cell is a tile that is not '#'; every labelled cell but the
      start came from a labelled orthogonal neighbour with a smaller
      distance. */
  ghost predicate TrackOk(tiles: map<Pos, char>, size: (nat, nat), t: Track, start: Pos) {
    Labelled(t, start) && t[start].value == TrackCell(None, 0) &&
    (forall p: Pos :: Labelled(t, p) ==> p in tiles && tiles[p] != '#') &&
    (forall p: Pos :: Labelled(t, p) && t[p].value.cameFrom.None? ==> p == start) &&
    (forall p: Pos :: Labelled(t, p) && t[p].value.cameFrom.Some? ==>
      var q := t[p].value.cameFrom.value;
      Labelled(t, q) && Dist(t, q) < Dist(t, p) && IsOrthogonalNeighbour(q, size, p))
  }

  /** Every heap entry is a labelled cell whose label is no worse than the
      entry's distance. */
  predicate QueueOk(t: Track, queue: seq<BfsState>) {
    forall e :: e in queue ==> Labelled(t, e.1) && Dist(t, e.1) <= e.0
  }

  /** The `if grid[n] != '#'` block for one neighbour `n` of the popped
      state `s`: an unlabelled cell, or one whose distance is more than
      one past `s`, is labelled as reached from `s` and pushed. */
  function RelaxOne(tiles: map<Pos, char>, s: BfsState, n: Pos, t: Track, queue: seq<BfsState>): (Track, seq<BfsState>)
    requires n in tiles
  {
    if tiles[n] == '#' then (t, queue)
    else if Labelled(t, n) && Dist(t, n) <= s.0 + 1 then (t, queue)
    else (t[n := Some(TrackCell(Some(s.1), s.0 + 1))], queue + [(s.0 + 1, n)])
  }

  /** Every cell of `ns` inside the grid is a tile. */
  predicate AllTiles(tiles: map<Pos, char>, ns: seq<Option<Pos>>) {
    forall k :: 0 <= k < |ns| && ns[k].Some? ==> ns[k].value in tiles
  }

  /** The `for neighbour in neighbours` loop: every neighbour inside the
      grid relaxed in turn. */
  function RelaxAll(tiles: map<Pos, char>, s: BfsState, ns: seq<Option<Pos>>, t: Track, queue: seq<BfsState>): (Track, seq<BfsState>)
    requires AllTiles(tiles, ns)
    decreases |ns|
  {
    if ns == [] then (t, queue)
    else
      var (t', queue') := if ns[0].Some? then RelaxOne(tiles, s, ns[0].value, t, queue) else (t, queue);
      RelaxAll(tiles, s, ns[1..], t', queue')
  }

  /** Relaxing one orthogonal neighbour of a popped state keeps the track's
      and the heap's invariants, and only ever lowers distances. */
  lemma RelaxOneKeeps(tiles: map<Pos, char>, size: (nat, nat), start: Pos, s: BfsState, n: Pos, t: Track, queue: seq<BfsState>)
    requires TrackOk(tiles, size, t, start) && QueueOk(t, queue)
    requires Labelled(t, s.1) && Dist(t, s.1) <= s.0
    requires IsOrthogonalNeighbour(s.1, size, n) && n in tiles
    ensures var (t', queue') := RelaxOne(tiles, s, n, t, queue);
      TrackOk(tiles, size, t', start) && QueueOk(t', queue') && Labelled(t', s.1) && Dist(t', s.1) <= s.0 &&
      Relabelled(t, t')
  {
    var (t', queue') := RelaxOne(tiles, s, n, t, queue);
    if t' != t {
      assert t' == t[n := Some(TrackCell(Some(s.1), s.0 + 1))];
      assert n != start;
      assert n != s.1;
      forall p: Pos | Labelled(t', p) && t'[p].value.cameFrom.Some?
        ensures var q := t'[p].value.cameFrom.value;
          Labelled(t', q) && Dist(t', q) < Dist(t', p) && IsOrthogonalNeighbour(q, size, p)
      {
        if p != n {
          assert t'[p] == t[p];
        }
      }
    }
  }

  /** `t'` labels what `t` labels, with distances no larger. */
  ghost predicate Relabelled(t: Track, t': Track) {
    forall p: Pos :: Labelled(t, p) ==> Labelled(t', p) && Dist(t', p) <= Dist(t, p)
  }

  /** Relaxing every neighbour keeps the invariants. */
  lemma {:induction false} RelaxAllKeeps(tiles: map<Pos, char>, size: (nat, nat), start: Pos, s: BfsState, ns: seq<Option<Pos>>, t: Track, queue: seq<BfsState>)
    requires TrackOk(tiles, size, t, start) && QueueOk(t, queue)
    requires Labelled(t, s.1) && Dist(t, s.1) <= s.0
    requires AllTiles(tiles, ns) && forall k :: 0 <= k < |ns| && ns[k].Some? ==> IsOrthogonalNeighbour(s.1, size, ns[k].value)
    ensures var (t', queue') := RelaxAll(tiles, s, ns, t, queue);
      TrackOk(tiles, size, t', start) && QueueOk(t', queue')
    decreases |ns|
  {
    if ns != [] {
      var (t', queue') := if ns[0].Some? then RelaxOne(tiles, s, ns[0].value, t, queue) else (t, queue);
      if ns[0].Some? {
        RelaxOneKeeps(tiles, size, start, s, ns[0].value, t, queue);
      }
      assert forall k :: 0 <= k < |ns[1..]| ==> ns[1..][k] == ns[k + 1];
      RelaxAllKeeps(tiles, size, start, s, ns[1..], t', queue');
    }
  }

  /** A track grid as `Grid::new(None, ..)` builds it: `MAX_HEIGHT` rows of
      `MAX_WIDTH` cells. */
  ghost predicate TrackShape(track: Grid<Option<TrackCell>>)
    reads track
  {
    track.Valid() && track.content.Length0 == MAX_HEIGHT
  }

  /** Every cell of a grid of `size` is a tile and a cell of the track. */
  ghost predicate Covers(tiles: map<Pos, char>, size: (nat, nat)) {
    size.0 <= MAX_WIDTH && size.1 <= MAX_HEIGHT && forall p :: InArea(p, size.0, size.1) ==> p in tiles
  }

  /** The neighbours of the popped state relaxed on the track grid in place;
      the track changes as `RelaxAll` says and the new states are pushed. */
  method Relax(grid: Grid<char>, ghost tiles: map<Pos, char>, track: Grid<Option<TrackCell>>, s: BfsState, queue: seq<BfsState>)
    returns (queue': seq<BfsState>)
    requires Usable(grid) && TrackShape(track) && tiles == Snapshot(grid.content) && Covers(tiles, grid.Size())
    modifies track.content
    ensures AllTiles(tiles, PlusCells(s.1, grid.Size()))
    ensures (Snapshot(track.content), queue') == RelaxAll(tiles, s, PlusCells(s.1, grid.Size()), old(Snapshot(track.content)), queue)
  {
    var ns := PlusCells(s.1, grid.Size());
    queue' := queue;
    ghost var t0 := Snapshot(track.content);
    for i := 0 to 4
      invariant tiles == Snapshot(grid.content)
      invariant RelaxAll(tiles, s, ns, t0, queue) == RelaxAll(tiles, s, ns[i..], Snapshot(track.content), queue')
    {
      assert ns[i..][1..] == ns[i + 1..];
      if ns[i].Some? {
        var n := ns[i].value;
        queue' := RelaxCell(grid, tiles, track, s, n, queue');
      }
    }
  }

  /** One neighbour relaxed on the track grid in place, as `RelaxOne` says. */
  method RelaxCell(grid: Grid<char>, ghost tiles: map<Pos, char>, track: Grid<Option<TrackCell>>, s: BfsState, n: Pos, queue: seq<BfsState>)
    returns (queue': seq<BfsState>)
    requires Usable(grid) && TrackShape(track) && tiles == Snapshot(grid.content)
    requires InArea(n, grid.width, grid.height)
    modifies track.content
    ensures n in tiles
    ensures (Snapshot(track.content), queue') == RelaxOne(tiles, s, n, old(Snapshot(track.content)), queue)
  {
    queue' := queue;
    if CellAt(grid, n) != '#' {
      var reached := CellAt(track, n);
      if reached.Some? {
        if reached.value.distance > s.0 + 1 {
          SetAt(track, n, Some(TrackCell(Some(s.1), s.0 + 1)));
          queue' := queue' + [(s.0 + 1, n)];
        }
      } else {
        SetAt(track, n, Some(TrackCell(Some(s.1), s.0 + 1)));
        queue' := queue' + [(s.0 + 1, n)];
      }
    }
  }

  /** The `while let Some(state) = queue.pop()` loop of `calculate_p1`, at
      most `fuel` pops: stop at an 'E' cell, otherwise relax the popped
      state's neighbours. The track keeps `TrackOk` throughout, and the end
      point, when found, is a labelled 'E' cell. */
  method LabelTrack(grid: Grid<char>, ghost tiles: map<Pos, char>, track: Grid<Option<TrackCell>>, start: Pos, fuel: nat)
    returns (endPoint: Option<Pos>, done: bool)
    requires Usable(grid) && TrackShape(track) && tiles == Snapshot(grid.content) && Covers(tiles, grid.Size())
    requires TrackOk(tiles, grid.Size(), Snapshot(track.content), start)
    modifies track.content
    ensures TrackOk(tiles, grid.Size(), Snapshot(track.content), start)
    ensures endPoint.Some? ==> done && Labelled(Snapshot(track.content), endPoint.value) && tiles[endPoint.value] == 'E'
  {
    var queue: seq<BfsState> := [(0, start)];
    endPoint := None;
    done := false;
    var steps := 0;
    while steps < fuel && queue != []
      invariant tiles == Snapshot(grid.content)
      invariant TrackOk(tiles, grid.Size(), Snapshot(track.content), start) && QueueOk(Snapshot(track.content), queue)
      decreases fuel - steps
    {
      var (state, rest) := Pop(queue);
      ghost var t := Snapshot(track.content);
      assert Labelled(t, state.1) && Dist(t, state.1) <= state.0;
      if CellAt(grid, state.1) == 'E' {
        endPoint := Some(state.1);
        done := true;
        return;
      }
      var ns := PlusCells(state.1, grid.Size());
      RelaxAllKeeps(tiles, grid.Size(), start, state, ns, t, rest);
      queue := Relax(grid, tiles, track, state, rest);
      steps := steps + 1;
    }
    done := queue == [];
  }

  // ----------------------------------------------------------- the cheats

  /** `pos.middle(&n.into())`. */
  function Mid(p: Pos, n: Pos): Pos {
    Point.ToTuple(Point.Middle(Point.FromTuple(p), Point.FromTuple(n)))
  }

  /** The cheat test of the source: both cells labelled, the far one further
      along, and the middle one not labelled. */
  predicate IsCheat(t: Track, p: Pos, n: Pos) {
    Labelled(t, p) && Labelled(t, n) && Dist(t, n) > Dist(t, p) && !Labelled(t, Mid(p, n))
  }

  /** The cheat from `p` to `n`. */
  function CheatOf(t: Track, p: Pos, n: Pos): Cheat
    requires IsCheat(t, p, n)
  {
    Cheat(p, n, Dist(t, n) - Dist(t, p))
  }

  /** The cheats from `p` to the cells of `ns`. */
  ghost function CheatsIn(t: Track, p: Pos, ns: seq<Option<Pos>>): set<Cheat> {
    set n | n in ValidOnly(ns) && IsCheat(t, p, n) :: CheatOf(t, p, n)
  }

  /** The cheats from every cell of `ps` to the cells two steps away in a
      straight line inside a grid of `size`. */
  ghost function CheatsAmong(t: Track, ps: seq<Pos>, size: (nat, nat)): set<Cheat> {
    set p, n | p in ps && n in ValidOnly(Neighbourhood(p, size, 2, Plus)) && IsCheat(t, p, n) :: CheatOf(t, p, n)
  }

  /** One more neighbour checked adds its cheat, if it is one. */
  lemma CheatsInStep(t: Track, p: Pos, ns: seq<Option<Pos>>, j: nat)
    requires j < |ns|
    ensures CheatsIn(t, p, ns[..j + 1]) ==
      CheatsIn(t, p, ns[..j]) + (if ns[j].Some? && IsCheat(t, p, ns[j].value) then {CheatOf(t, p, ns[j].value)} else {})
  {
    assert ns[..j + 1] == ns[..j] + [ns[j]];
    assert forall n :: n in ValidOnly(ns[..j + 1]) <==> n in ValidOnly(ns[..j]) || Some(n) == ns[j];
  }

  /** One more cell enumerated adds the cheats from it. */
  lemma CheatsAmongStep(t: Track, ps: seq<Pos>, size: (nat, nat), i: nat)
    requires i < |ps|
    ensures CheatsAmong(t, ps[..i + 1], size) == CheatsAmong(t, ps[..i], size) + CheatsIn(t, ps[i], Neighbourhood(ps[i], size, 2, Plus))
  {
    assert ps[..i + 1] == ps[..i] + [ps[i]];
    assert forall p :: p in ps[..i + 1] <==> p in ps[..i] || p == ps[i];
  }

  /** The middle of two cells two apart in a straight line lies between them. */
  lemma MidBetween(p: Pos, n: Pos)
    requires (n.0 == p.0 && (n.1 == p.1 + 2 || n.1 + 2 == p.1)) || (n.1 == p.1 && (n.0 == p.0 + 2 || n.0 + 2 == p.0))
    ensures var m := Mid(p, n);
      (m.0 == p.0 && (m.1 == p.1 + 1 || m.1 + 1 == p.1)) || (m.1 == p.1 && (m.0 == p.0 + 1 || m.0 + 1 == p.0))
    ensures var m := Mid(p, n);
      (m.0 == n.0 && (m.1 == n.1 + 1 || m.1 + 1 == n.1)) || (m.1 == n.1 && (m.0 == n.0 + 1 || m.0 + 1 == n.0))
  {
  }

  /** The `for (c, pos) in track.enumerate()` loop with its inner loop over
      the cells two steps away: the set collected is `CheatsAmong` over
      every enumerated position. */
  method CollectCheats(track: Grid<Option<TrackCell>>) returns (cheats: set<Cheat>)
    requires TrackShape(track) && track.Fits()
    ensures cheats == CheatsAmong(Snapshot(track.content), PositionsFrom(0, 0, track.width, track.height), track.Size())
  {
    var items := EnumerateAll(track);
    EnumeratedItems(track, items);
    ghost var t := Snapshot(track.content);
    ghost var ps := PositionsFrom(0, 0, track.width, track.height);
    var size := track.Size();
    cheats := {};
    for i := 0 to |items|
      invariant cheats == CheatsAmong(t, ps[..i], size)
    {
      var c, pos := items[i].0, items[i].1;
      var ns := Neighbourhood(pos, size, 2, Plus);
      CheatsAmongStep(t, ps, size, i);
      if c.Some? {
        var found := CheatsFrom(track, pos, c.value);
        cheats := cheats + found;
      } else {
        assert CheatsIn(t, pos, ns) == {};
      }
    }
    assert ps[..|items|] == ps;
  }

  /** The inner loop over the cells two steps from the labelled cell `pos`,
      collecting the cheats from it. */
  method CheatsFrom(track: Grid<Option<TrackCell>>, pos: Pos, cell: TrackCell) returns (found: set<Cheat>)
    requires TrackShape(track) && track.Fits() && pos in Snapshot(track.content) && Snapshot(track.content)[pos] == Some(cell)
    ensures found == CheatsIn(Snapshot(track.content), pos, Neighbourhood(pos, track.Size(), 2, Plus))
  {
    ghost var t := Snapshot(track.content);
    var ns := Neighbourhood(pos, track.Size(), 2, Plus);
    found := {};
    for j := 0 to |ns|
      invariant found == CheatsIn(t, pos, ns[..j])
    {
      CheatsInStep(t, pos, ns, j);
      if ns[j].Some? {
        var n := ns[j].value;
        PlusTwoApart(pos, track.Size(), n);
        MidBetween(pos, n);
        var reached := CellAt(track, n);
        var middle := CellAt(track, Mid(pos, n));
        if reached.Some? && reached.value.distance > cell.distance && middle.None? {
          assert IsCheat(t, pos, n) && CheatOf(t, pos, n) == Cheat(pos, n, reached.value.distance - cell.distance);
          found := found + {Cheat(pos, n, reached.value.distance - cell.distance)};
        } else {
          assert !IsCheat(t, pos, n);
        }
      }
    }
    assert ns[..|ns|] == ns;
  }

  /** Every cheat collected starts and ends on labelled cells two steps
      apart in a straight line, jumps a cell that is not labelled, and
      gains the (positive) difference of their distances. */
  lemma CheatsSound(t: Track, ps: seq<Pos>, size: (nat, nat), c: Cheat)
    requires c in CheatsAmong(t, ps, size)
    ensures c.start in ps && Labelled(t, c.start) && Labelled(t, c.end)
    ensures c.end.0 < size.0 && c.end.1 < size.1
    ensures (c.end.0 == c.start.0 && (c.end.1 == c.start.1 + 2 || c.end.1 + 2 == c.start.1)) ||
            (c.end.1 == c.start.1 && (c.end.0 == c.start.0 + 2 || c.end.0 + 2 == c.start.0))
    ensures !Labelled(t, Mid(c.start, c.end))
    ensures c.gain > 0 && Dist(t, c.end) == Dist(t, c.start) + c.gain
  {
    var p, n :| p in ps && n in ValidOnly(Neighbourhood(p, size, 2, Plus)) && IsCheat(t, p, n) && c == CheatOf(t, p, n);
    PlusTwoApart(p, size, n);
  }

  /** How part 1 ends: the number of distinct cheats, the "Start not found"
      error, or out of fuel in the labelling. */
  datatype Outcome = Count(cheats: nat) | StartNotFound | OutOfFuel

  /** A new track with only the start labelled, distance 0, meets `TrackOk`. */
  lemma InitialTrack(tiles: map<Pos, char>, size: (nat, nat), t0: Track, t: Track, start: Pos)
    requires forall p :: p in t0 ==> t0[p].None?
    requires start in tiles && tiles[start] == 'S' && t == t0[start := Some(TrackCell(None, 0))]
    ensures TrackOk(tiles, size, t, start)
  {
    assert forall p: Pos :: Labelled(t, p) ==> p == start;
  }

  /** The tiles of a usable grid cover its used area. */
  lemma CoversGrid(grid: Grid<char>, tiles: map<Pos, char>)
    requires Usable(grid) && tiles == Snapshot(grid.content)
    ensures Covers(tiles, grid.Size())
  {
  }

  /** What `grid.enumerate()` yields: every used cell with its position,
      in row-major order. */
  ghost function Enumeration(grid: Grid<char>): (items: seq<(char, Pos)>)
    requires Usable(grid)
    reads grid, grid.content
  {
    PositionsInRange(0, 0, grid.width, grid.height);
    ItemsAt(Snapshot(grid.content), PositionsFrom(0, 0, grid.width, grid.height))
  }

  /** `calculate_p1`: find the first 'S' in row-major order, label the track
      from it, and count the distinct cheats. `t` is the labelled track and
      `start` the start cell. */
  method CalculateP1(grid: Grid<char>, fuel: nat) returns (r: Outcome, ghost t: Track, ghost start: Pos)
    requires Usable(grid)
    ensures r.StartNotFound? <==> FirstAt(Enumeration(grid), 'S').None?
    ensures r.Count? ==> FirstAt(Enumeration(grid), 'S') == Some(start)
    ensures r.Count? ==> TrackOk(Snapshot(grid.content), grid.Size(), t, start)
    ensures r.Count? ==> r.cheats == |CheatsAmong(t, PositionsFrom(0, 0, grid.width, grid.height), grid.Size())|
  {
    var track := new Grid<Option<TrackCell>>.New(None, grid.width, grid.height);
    ghost var tiles := Snapshot(grid.content);
    ghost var ps := PositionsFrom(0, 0, grid.width, grid.height);
    var items := EnumerateAll(grid);
    EnumeratedItems(grid, items);
    var found := FindStart(items);
    t := Snapshot(track.content);
    start := (0, 0);
    assert items == Enumeration(grid);
    if found.None? {
      return StartNotFound, t, start;
    }
    var begin := found.value;
    start := begin;
    ghost var k :| 0 <= k < |items| && items[k] == ('S', begin) && forall j :: 0 <= j < k ==> items[j].0 != 'S';
    assert begin == ps[k] && tiles[begin] == 'S';
    assert forall p :: p in Snapshot(track.content) ==> Snapshot(track.content)[p].None?;
    r, t := Solve(grid, tiles, track, begin, fuel);
  }

  /** The rest of `calculate_p1` once the start is known: label the fresh
      track from it and count the distinct cheats. */
  method Solve(grid: Grid<char>, ghost tiles: map<Pos, char>, track: Grid<Option<TrackCell>>, begin: Pos, fuel: nat)
    returns (r: Outcome, ghost t: Track)
    requires Usable(grid) && tiles == Snapshot(grid.content)
    requires TrackShape(track) && track.width == grid.width && track.height == grid.height
    requires forall p :: p in Snapshot(track.content) ==> Snapshot(track.content)[p].None?
    requires begin in tiles && tiles[begin] == 'S' && begin in Snapshot(track.content)
    modifies track.content
    ensures !r.StartNotFound?
    ensures r.Count? ==> TrackOk(tiles, grid.Size(), t, begin)
    ensures r.Count? ==> r.cheats == |CheatsAmong(t, PositionsFrom(0, 0, grid.width, grid.height), grid.Size())|
  {
    ghost var t0 := Snapshot(track.content);
    SetAt(track, begin, Some(TrackCell(None, 0)));
    t := Snapshot(track.content);
    InitialTrack(tiles, grid.Size(), t0, t, begin);
    CoversGrid(grid, tiles);
    var endPoint, done := LabelTrack(grid, tiles, track, begin, fuel);
    t := Snapshot(track.content);
    if !done {
      return OutOfFuel, t;
    }
    var cheats := CollectCheats(track);
    r := Count(|cheats|);
  }
}
