/** Day 8 (day08/src/main.rs): antennas of one frequency create antinodes
    along the lines through each pair of them; count the distinct antinode
    cells inside the map. */
module Day08 {
  import opened Wrappers
  import opened Point
  import opened NumExt
  import opened Sets
  import Grid

  /** `calc_ant`: `t` moved by `(dx, dy)` when both coordinates stay on the map. */
  function CalcAnt(t: Point, dx: int, dy: int, width: nat, height: nat): (r: Option<Point>)
    ensures r.Some? <==> 0 <= t.x + dx < width && 0 <= t.y + dy < height
    ensures r.Some? ==> r.value == Point(t.x + dx, t.y + dy)
  {
    match ClampedAddSigned(t.x, dx, width)
    case None => None
    case Some(antx) =>
      match ClampedAddSigned(t.y, dy, height)
      case None => None
      case Some(anty) => Some(FromTuple((antx, anty)))
  }

  /** The frequency groups `parse_input` hands over, with the map size. */
  type Groups = seq<(char, seq<Point>)>

  predicate PointsInBounds(groups: Groups, width: nat, height: nat) {
    forall g, i :: 0 <= g < |groups| && 0 <= i < |groups[g].1| ==>
      groups[g].1[i].x < width && groups[g].1[i].y < height
  }

  /** No cell appears twice in the list. */
  predicate DistinctPoints(ps: seq<Point>) {
    forall i, j :: 0 <= i < j < |ps| ==> ps[i] != ps[j]
  }

  /** No cell appears twice in a group: each comes from a different map cell. */
  predicate DistinctInGroups(groups: Groups) {
    forall g :: 0 <= g < |groups| ==> DistinctPoints(groups[g].1)
  }

  /** An antenna: its frequency and its cell. */
  type Location = (char, Point)

  /** The loop of `parse_input` over the enumerated cells: every cell that is not `'.'`, in order. */
  function Antennas(items: seq<(char, (nat, nat))>): (r: seq<Location>)
    ensures |r| <= |items|
    decreases |items|
  {
    if items == [] then []
    else
      var (cell, pos) := items[|items| - 1];
      Antennas(items[..|items| - 1]) + if cell != '.' then [(cell, FromTuple(pos))] else []
  }

  /** The cells of frequency `c`, in the order they were found. */
  function KeyPoints(locs: seq<Location>, c: char): seq<Point>
    decreases |locs|
  {
    if locs == [] then []
    else
      var (k, p) := locs[|locs| - 1];
      KeyPoints(locs[..|locs| - 1], c) + if k == c then [p] else []
  }

  /** The cells of the group with key `c`, or none when there is no such group. */
  function Lookup(groups: Groups, c: char): seq<Point>
    decreases |groups|
  {
    if groups == [] then []
    else if groups[0].0 == c then groups[0].1
    else Lookup(groups[1..], c)
  }

  /** Groups in ascending key order, as `sorted_by_key` followed by `chunk_by` leaves them. */
  predicate KeysIncreasing(groups: Groups) {
    forall i, j :: 0 <= i < j < |groups| ==> groups[i].0 < groups[j].0
  }

  /** `chunk_by` never yields an empty chunk. */
  predicate NonEmptyGroups(groups: Groups) {
    forall i :: 0 <= i < |groups| ==> groups[i].1 != []
  }

  /** One antenna added to the sorted groups: appended to the group of its
      frequency, or a new group at its place in key order. */
  function AddLocation(groups: Groups, l: Location): Groups
    decreases |groups|
  {
    if groups == [] then [(l.0, [l.1])]
    else if groups[0].0 == l.0 then [(l.0, groups[0].1 + [l.1])] + groups[1..]
    else if l.0 < groups[0].0 then [(l.0, [l.1])] + groups
    else [groups[0]] + AddLocation(groups[1..], l)
  }

  /** The grouping of `parse_input`: the antennas stably sorted by frequency
      and cut into runs of equal frequency, built here one antenna at a time. */
  function GroupLocations(locs: seq<Location>): Groups
    decreases |locs|
  {
    if locs == [] then [] else AddLocation(GroupLocations(locs[..|locs| - 1]), locs[|locs| - 1])
  }

  /** Adding an antenna keeps the keys ascending and no group empty. */
  lemma {:induction false} AddLocationSorted(groups: Groups, l: Location)
    requires KeysIncreasing(groups) && NonEmptyGroups(groups)
    ensures KeysIncreasing(AddLocation(groups, l)) && NonEmptyGroups(AddLocation(groups, l))
    decreases |groups|
  {
    if groups == [] {
      ConsSorted((l.0, [l.1]), []);
    } else {
      var rest := groups[1..];
      TailSorted(groups);
      if groups[0].0 == l.0 {
        ConsSorted((l.0, groups[0].1 + [l.1]), rest);
      } else if l.0 < groups[0].0 {
        ConsSorted((l.0, [l.1]), groups);
      } else {
        AddLocationSorted(rest, l);
        AddLocationAbove(rest, l, groups[0].0);
        ConsSorted(groups[0], AddLocation(rest, l));
      }
    }
  }

  /** A group in front of groups with larger keys keeps the keys ascending. */
  lemma ConsSorted(head: (char, seq<Point>), rest: Groups)
    requires KeysIncreasing(rest) && NonEmptyGroups(rest) && head.1 != []
    requires forall i :: 0 <= i < |rest| ==> rest[i].0 > head.0
    ensures KeysIncreasing([head] + rest) && NonEmptyGroups([head] + rest)
  {
    var r := [head] + rest;
    forall i, j | 0 <= i < j < |r| ensures r[i].0 < r[j].0 {
      assert r[j] == rest[j - 1];
      if i > 0 {
        assert r[i] == rest[i - 1];
      }
    }
  }

  /** The groups after the first have keys above the first one's. */
  lemma TailSorted(groups: Groups)
    requires KeysIncreasing(groups) && NonEmptyGroups(groups) && groups != []
    ensures KeysIncreasing(groups[1..]) && NonEmptyGroups(groups[1..])
    ensures forall i :: 0 <= i < |groups[1..]| ==> groups[1..][i].0 > groups[0].0
  {
  }

  /** Keys above `x` stay above `x` when the added key is above it too. */
  lemma {:induction false} AddLocationAbove(groups: Groups, l: Location, x: char)
    requires forall i :: 0 <= i < |groups| ==> groups[i].0 > x
    requires l.0 > x
    ensures forall i :: 0 <= i < |AddLocation(groups, l)| ==> AddLocation(groups, l)[i].0 > x
    decreases |groups|
  {
    if groups != [] && l.0 > groups[0].0 {
      AddLocationAbove(groups[1..], l, x);
      assert AddLocation(groups, l) == [groups[0]] + AddLocation(groups[1..], l);
    }
  }

  /** Adding an antenna adds exactly its cell, at the end, to the group of its frequency. */
  lemma {:induction false} AddLocationLookup(groups: Groups, l: Location, c: char)
    requires KeysIncreasing(groups)
    ensures Lookup(AddLocation(groups, l), c) == Lookup(groups, c) + if c == l.0 then [l.1] else []
    decreases |groups|
  {
    if groups != [] && groups[0].0 != l.0 {
      LookupMissing(groups, l.0);
      if l.0 > groups[0].0 {
        AddLocationLookup(groups[1..], l, c);
      }
    }
  }

  /** A key no group has, and a key below all of them, look up nothing. */
  lemma {:induction false} LookupMissing(groups: Groups, c: char)
    requires KeysIncreasing(groups)
    ensures groups != [] && c < groups[0].0 ==> Lookup(groups, c) == []
    ensures (forall i :: 0 <= i < |groups| ==> groups[i].0 != c) ==> Lookup(groups, c) == []
    decreases |groups|
  {
    if groups != [] && groups[0].0 != c {
      LookupMissing(groups[1..], c);
    }
  }

  /** In key order, looking up a group's key finds that group. */
  lemma {:induction false} LookupAt(groups: Groups, i: nat)
    requires KeysIncreasing(groups) && i < |groups|
    ensures Lookup(groups, groups[i].0) == groups[i].1
    decreases i
  {
    if i > 0 {
      LookupAt(groups[1..], i - 1);
    }
  }

  /** The grouping keeps the keys ascending and no group empty, and the group
      of each frequency holds that frequency's cells in the order they were found. */
  lemma {:induction false} GroupLocationsLookup(locs: seq<Location>, c: char)
    ensures KeysIncreasing(GroupLocations(locs)) && NonEmptyGroups(GroupLocations(locs))
    ensures Lookup(GroupLocations(locs), c) == KeyPoints(locs, c)
    decreases |locs|
  {
    if locs != [] {
      var init, l := locs[..|locs| - 1], locs[|locs| - 1];
      GroupLocationsLookup(init, c);
      AddLocationSorted(GroupLocations(init), l);
      AddLocationLookup(GroupLocations(init), l, c);
    }
  }

  predicate HasFrequency(locs: seq<Location>, c: char) {
    exists k :: 0 <= k < |locs| && locs[k].0 == c
  }

  predicate HasGroup(groups: Groups, c: char) {
    exists i :: 0 <= i < |groups| && groups[i].0 == c
  }

  /** A frequency has cells exactly when some antenna has that frequency. */
  lemma {:induction false} KeyPointsFound(locs: seq<Location>, c: char)
    ensures KeyPoints(locs, c) != [] <==> HasFrequency(locs, c)
    decreases |locs|
  {
    if locs != [] {
      var init := locs[..|locs| - 1];
      KeyPointsFound(init, c);
      if exists k :: 0 <= k < |init| && init[k].0 == c {
        var k :| 0 <= k < |init| && init[k].0 == c;
        assert locs[k] == init[k];
      }
      if exists k :: 0 <= k < |locs| && locs[k].0 == c {
        var k :| 0 <= k < |locs| && locs[k].0 == c;
        if k < |init| {
          assert locs[k] == init[k];
        }
      }
    }
  }

  /** What `parse_input` groups: the keys ascend, every group is the
      non-empty list of its frequency's cells in the order they were found,
      and the keys are exactly the frequencies present. */
  lemma GroupLocationsSpec(locs: seq<Location>)
    ensures KeysIncreasing(GroupLocations(locs)) && NonEmptyGroups(GroupLocations(locs))
    ensures forall i :: 0 <= i < |GroupLocations(locs)| ==>
      GroupLocations(locs)[i].1 == KeyPoints(locs, GroupLocations(locs)[i].0)
    ensures forall c :: HasFrequency(locs, c) <==> HasGroup(GroupLocations(locs), c)
  {
    var groups := GroupLocations(locs);
    GroupLocationsLookup(locs, 'a');
    forall i | 0 <= i < |groups| ensures groups[i].1 == KeyPoints(locs, groups[i].0) {
      GroupLocationsLookup(locs, groups[i].0);
      LookupAt(groups, i);
    }
    forall c ensures HasFrequency(locs, c) <==> HasGroup(groups, c) {
      GroupLocationsLookup(locs, c);
      KeyPointsFound(locs, c);
      LookupMissing(groups, c);
      if exists i :: 0 <= i < |groups| && groups[i].0 == c {
        var i :| 0 <= i < |groups| && groups[i].0 == c;
        LookupAt(groups, i);
      }
    }
  }

  /** `parse_input`: the non-`'.'` cells of the map, grouped by frequency,
      with the map size. */
  method ParseInput(g: Grid.Grid<char>) returns (groups: Groups, size: (nat, nat), ghost items: seq<(char, (nat, nat))>)
    requires g.Valid() && g.Fits()
    ensures Grid.Enumerated(g, items)
    ensures groups == GroupLocations(Antennas(items)) && size == (g.width, g.height)
    ensures g.width >= 1 ==> EnumeratedPositions(items, g.width, g.height)
  {
    var cells := Grid.EnumerateAll(g);
    items := cells;
    var locations: seq<Location> := [];
    for k := 0 to |cells|
      invariant locations == Antennas(cells[..k])
    {
      assert cells[..k + 1][..k] == cells[..k];
      var (cell, pos) := cells[k];
      if cell != '.' {
        locations := locations + [(cell, FromTuple(pos))];
      }
    }
    assert cells[..|cells|] == cells;
    groups := GroupLocations(locations);
    size := g.Size();
  }

  /** Every antenna comes from an enumerated cell that is not `'.'`. */
  lemma {:induction false} AntennasMember(items: seq<(char, (nat, nat))>, l: Location)
    requires l in Antennas(items)
    ensures l.0 != '.' && (l.0, (l.1.x, l.1.y)) in items
    decreases |items|
  {
    var init := items[..|items| - 1];
    assert items == init + [items[|items| - 1]];
    if l in Antennas(init) {
      AntennasMember(init, l);
    } else {
      var (cell, pos) := items[|items| - 1];
      assert l == (cell, FromTuple(pos));
    }
  }

  predicate PositionsDistinct(items: seq<(char, (nat, nat))>) {
    forall i, j :: 0 <= i < j < |items| ==> items[i].1 != items[j].1
  }

  predicate LocationsDistinct(locs: seq<Location>) {
    forall i, j :: 0 <= i < j < |locs| ==> locs[i].1 != locs[j].1
  }

  /** Antennas of different cells sit at different points. */
  lemma {:induction false} AntennasDistinct(items: seq<(char, (nat, nat))>)
    requires PositionsDistinct(items)
    ensures LocationsDistinct(Antennas(items))
    decreases |items|
  {
    if items != [] {
      var init := items[..|items| - 1];
      var (cell, pos) := items[|items| - 1];
      var before := Antennas(init);
      AntennasDistinct(init);
      if cell != '.' {
        var locs := Antennas(items);
        assert locs == before + [(cell, FromTuple(pos))];
        forall i | 0 <= i < |before| ensures before[i].1 != FromTuple(pos) {
          AntennasMember(init, before[i]);
          var k :| 0 <= k < |init| && init[k] == (before[i].0, (before[i].1.x, before[i].1.y));
          assert items[k] == init[k];
        }
      }
    }
  }

  /** The cells of a frequency are antennas of that frequency. */
  lemma {:induction false} KeyPointsMember(locs: seq<Location>, c: char, p: Point)
    requires p in KeyPoints(locs, c)
    ensures (c, p) in locs
    decreases |locs|
  {
    var init := locs[..|locs| - 1];
    assert locs == init + [locs[|locs| - 1]];
    if p in KeyPoints(init, c) {
      KeyPointsMember(init, c, p);
    } else {
      assert locs[|locs| - 1] == (c, p);
    }
  }

  /** No point is listed twice for one frequency when the antennas sit at different points. */
  lemma {:induction false} KeyPointsDistinct(locs: seq<Location>, c: char)
    requires LocationsDistinct(locs)
    ensures DistinctPoints(KeyPoints(locs, c))
    decreases |locs|
  {
    if locs != [] {
      var init := locs[..|locs| - 1];
      var ps := KeyPoints(init, c);
      KeyPointsDistinct(init, c);
      if locs[|locs| - 1].0 == c {
        forall i | 0 <= i < |ps| ensures ps[i] != locs[|locs| - 1].1 {
          KeyPointsMember(init, c, ps[i]);
          var k :| 0 <= k < |init| && init[k] == (c, ps[i]);
          assert locs[k] == init[k];
        }
      }
    }
  }

  /** The enumerated positions of a map at least one column wide: all on the map, each once. */
  predicate EnumeratedPositions(items: seq<(char, (nat, nat))>, width: nat, height: nat) {
    width >= 1 && |items| == |Grid.PositionsFrom(0, 0, width, height)| &&
    forall k :: 0 <= k < |items| ==> items[k].1 == Grid.PositionsFrom(0, 0, width, height)[k]
  }

  /** On a map at least one column wide, the parsed groups hold cells of the map. */
  lemma ParsedInBounds(items: seq<(char, (nat, nat))>, width: nat, height: nat)
    requires EnumeratedPositions(items, width, height)
    ensures PointsInBounds(GroupLocations(Antennas(items)), width, height)
  {
    var all := Grid.PositionsFrom(0, 0, width, height);
    var locs := Antennas(items);
    var groups := GroupLocations(locs);
    Grid.PositionsInRange(0, 0, width, height);
    GroupLocationsSpec(locs);
    forall g, i | 0 <= g < |groups| && 0 <= i < |groups[g].1|
      ensures groups[g].1[i].x < width && groups[g].1[i].y < height
    {
      var p := groups[g].1[i];
      KeyPointsMember(locs, groups[g].0, p);
      AntennasMember(items, (groups[g].0, p));
      var k :| 0 <= k < |items| && items[k] == (groups[g].0, (p.x, p.y));
      assert all[k] in all;
    }
  }

  /** The parsed groups list each cell once: what part 2's loops rely on to end. */
  lemma ParsedDistinct(items: seq<(char, (nat, nat))>, width: nat, height: nat)
    requires EnumeratedPositions(items, width, height)
    ensures DistinctInGroups(GroupLocations(Antennas(items)))
  {
    var all := Grid.PositionsFrom(0, 0, width, height);
    var locs := Antennas(items);
    var groups := GroupLocations(locs);
    Grid.PositionsDistinct(0, 0, width, height);
    assert PositionsDistinct(items) by {
      forall i, j | 0 <= i < j < |items| ensures items[i].1 != items[j].1 {
        assert items[i].1 == all[i] && items[j].1 == all[j];
      }
    }
    AntennasDistinct(items);
    GroupLocationsSpec(locs);
    forall g | 0 <= g < |groups| ensures DistinctPoints(groups[g].1) {
      KeyPointsDistinct(locs, groups[g].0);
    }
  }

  /** What part 1 inserts for the pair `(a, b)`: `a - (b - a)` and `b + (b - a)`, when on the map. */
  function PairSet1(a: Point, b: Point, width: nat, height: nat): set<Point> {
    var dx: int := b.x - a.x;
    var dy: int := b.y - a.y;
    OptSet(CalcAnt(a, -dx, -dy, width, height)) + OptSet(CalcAnt(b, dx, dy, width, height))
  }

  /** `d` added up `k` times. */
  function Scaled(d: int, k: nat): int
    decreases k
  {
    if k == 0 then 0 else Scaled(d, k - 1) + d
  }

  lemma {:induction false} ScaledIsProduct(d: int, k: nat)
    ensures Scaled(d, k) == d * k
    decreases k
  {
    if k > 0 {
      ScaledIsProduct(d, k - 1);
      assert d * k == d * (k - 1) + d;
    }
  }

  /** Multiples of a step grow in the step's direction, at least one unit per multiple. */
  lemma {:induction false} ScaledMonotone(d: int, k: nat, n: nat)
    requires k <= n
    ensures d >= 0 ==> Scaled(d, k) <= Scaled(d, n)
    ensures d <= 0 ==> Scaled(d, k) >= Scaled(d, n)
    ensures d >= 1 ==> Scaled(d, n) >= n
    ensures d <= -1 ==> Scaled(d, n) <= -(n as int)
    decreases n
  {
    if n > 0 {
      if k < n {
        ScaledMonotone(d, k, n - 1);
      } else {
        ScaledMonotone(d, k - 1, n - 1);
      }
    }
  }

  /** The cell `multiplier` steps of `(dx, dy)` away from `a`. */
  function RayPoint(a: Point, dx: int, dy: int, width: nat, height: nat, multiplier: nat): Option<Point> {
    CalcAnt(a, Scaled(dx, multiplier), Scaled(dy, multiplier), width, height)
  }

  /** The cells at multipliers `m`, `m + 1`, ... up to the first one off the
      map, searched no further than multiplier `width + height`. */
  function RayFrom(a: Point, dx: int, dy: int, width: nat, height: nat, m: nat): set<Point>
    decreases width + height + 1 - m
  {
    if m > width + height then {}
    else match RayPoint(a, dx, dy, width, height, m)
      case None => {}
      case Some(p) => {p} + RayFrom(a, dx, dy, width, height, m + 1)
  }

  /** What one `while let` loop of part 2 inserts: the cells at multipliers
      0, 1, 2, ... up to the first one off the map. */
  function Ray(a: Point, dx: int, dy: int, width: nat, height: nat): set<Point> {
    RayFrom(a, dx, dy, width, height, 0)
  }

  /** What part 2 inserts for the pair `(a, b)`: the ray from `a` away from
      `b` and the ray from `b` away from `a`. */
  function PairSet2(a: Point, b: Point, width: nat, height: nat): set<Point> {
    var dx: int := b.x - a.x;
    var dy: int := b.y - a.y;
    Ray(a, -dx, -dy, width, height) + Ray(b, dx, dy, width, height)
  }

  datatype Part = Part1 | Part2

  function PairSet(part: Part, a: Point, b: Point, width: nat, height: nat): set<Point> {
    match part
    case Part1 => PairSet1(a, b, width, height)
    case Part2 => PairSet2(a, b, width, height)
  }

  function Pairs(part: Part, width: nat, height: nat): (Point, Point) -> set<Point> {
    (a: Point, b: Point) => PairSet(part, a, b, width, height)
  }

  /** The pairs `(loc[i], loc[j])` for `j > i`, in `tuple_combinations` order. */
  function PairF(loc: seq<Point>, i: nat, pairSet: (Point, Point) -> set<Point>): nat -> set<Point> {
    (j: nat) => if i < |loc| && j < |loc| then pairSet(loc[i], loc[j]) else {}
  }

  function RowF(loc: seq<Point>, pairSet: (Point, Point) -> set<Point>): nat -> set<Point> {
    (i: nat) => UnionRange(i + 1, |loc|, PairF(loc, i, pairSet))
  }

  function GroupSet(loc: seq<Point>, pairSet: (Point, Point) -> set<Point>): set<Point> {
    UnionRange(0, |loc|, RowF(loc, pairSet))
  }

  function GroupF(groups: Groups, pairSet: (Point, Point) -> set<Point>): nat -> set<Point> {
    (g: nat) => if g < |groups| then GroupSet(groups[g].1, pairSet) else {}
  }

  /** Everything the nested loops insert into `antinodes`. */
  function Antinodes(groups: Groups, pairSet: (Point, Point) -> set<Point>): set<Point> {
    UnionRange(0, |groups|, GroupF(groups, pairSet))
  }

  /** The body of part 1's innermost loop: both antinodes of the pair `(a, b)` that are on the map. */
  method AddPair1(a: Point, b: Point, width: nat, height: nat, antinodes: set<Point>) returns (r: set<Point>)
    ensures r == antinodes + PairSet1(a, b, width, height)
  {
    r := antinodes;
    var diffx: int := b.x - a.x;
    var diffy: int := b.y - a.y;
    var anta := CalcAnt(a, -diffx, -diffy, width, height);
    if anta.Some? {
      r := r + {anta.value};
    }
    var antb := CalcAnt(b, diffx, diffy, width, height);
    if antb.Some? {
      r := r + {antb.value};
    }
  }

  /** Coordinate `c0 + d * k` stays in `[0, bound)` for every `k` between two multipliers where it does. */
  lemma Between(c0: int, d: int, k: nat, n: nat, bound: nat)
    requires 0 <= c0 < bound && 0 <= c0 + Scaled(d, n) < bound && k <= n
    ensures 0 <= c0 + Scaled(d, k) < bound
  {
    ScaledMonotone(d, 0, k);
    ScaledMonotone(d, k, n);
  }

  /** Coordinate `c0 + d * k` stays off `[0, bound)` for every multiplier past one where it is. */
  lemma Beyond(c0: int, d: int, m: nat, k: nat, bound: nat)
    requires 0 <= c0 < bound && !(0 <= c0 + Scaled(d, m) < bound) && m <= k
    ensures !(0 <= c0 + Scaled(d, k) < bound)
  {
    ScaledMonotone(d, 0, m);
    ScaledMonotone(d, m, k);
  }

  /** Once a multiplier is off the map, so is every later one. */
  lemma RayStops(a: Point, dx: int, dy: int, width: nat, height: nat, m: nat, k: nat)
    requires a.x < width && a.y < height && m <= k && RayPoint(a, dx, dy, width, height, m).None?
    ensures RayPoint(a, dx, dy, width, height, k).None?
  {
    if !(0 <= a.x + Scaled(dx, m) < width) {
      Beyond(a.x, dx, m, k, width);
    } else {
      Beyond(a.y, dy, m, k, height);
    }
  }

  /** A nonzero step is on the map only for multipliers below `width + height`. */
  lemma NearIfOnMap(a: Point, dx: int, dy: int, width: nat, height: nat, k: nat)
    requires (dx, dy) != (0, 0) && a.x < width && a.y < height
    ensures RayPoint(a, dx, dy, width, height, k).Some? ==> k < width + height
  {
    ScaledMonotone(dx, k, k);
    ScaledMonotone(dy, k, k);
  }

  /** The cell at a multiplier is on the map exactly when it lies inside the map. */
  lemma RayPointIn(a: Point, dx: int, dy: int, width: nat, height: nat, k: nat, p: Point)
    ensures RayPoint(a, dx, dy, width, height, k) == Some(p) <==>
      p.x < width && p.y < height && p.x == a.x + Scaled(dx, k) && p.y == a.y + Scaled(dy, k)
  {
  }

  /** The ray from multiplier `m` holds the on-map cells at multipliers `m` to `width + height`. */
  lemma {:induction false} RayFromMember(a: Point, dx: int, dy: int, width: nat, height: nat, m: nat, p: Point)
    requires a.x < width && a.y < height
    ensures p in RayFrom(a, dx, dy, width, height, m) <==>
      exists k: nat :: m <= k <= width + height && RayPoint(a, dx, dy, width, height, k) == Some(p)
    decreases width + height + 1 - m
  {
    if m <= width + height {
      RayFromMember(a, dx, dy, width, height, m + 1, p);
      if RayPoint(a, dx, dy, width, height, m).None? {
        forall k: nat | m <= k <= width + height ensures RayPoint(a, dx, dy, width, height, k).None? {
          RayStops(a, dx, dy, width, height, m, k);
        }
      }
    }
  }

  /** A cell `k` steps along `(dx, dy)` from `a`. */
  ghost predicate OnRay(a: Point, dx: int, dy: int, p: Point) {
    exists k: nat :: p.x == a.x + dx * k && p.y == a.y + dy * k
  }

  /** The cells of a ray are the cells of the map on the half-line from `a` along `(dx, dy)`. */
  lemma RayMember(a: Point, dx: int, dy: int, width: nat, height: nat, p: Point)
    requires a.x < width && a.y < height
    ensures p in Ray(a, dx, dy, width, height) <==> p.x < width && p.y < height && OnRay(a, dx, dy, p)
  {
    if p in Ray(a, dx, dy, width, height) {
      RayCellOnLine(a, dx, dy, width, height, p);
    }
    if p.x < width && p.y < height && OnRay(a, dx, dy, p) {
      var k: nat :| p.x == a.x + dx * k && p.y == a.y + dy * k;
      LineCellOnRay(a, dx, dy, width, height, p, k);
    }
  }

  lemma RayCellOnLine(a: Point, dx: int, dy: int, width: nat, height: nat, p: Point)
    requires a.x < width && a.y < height && p in Ray(a, dx, dy, width, height)
    ensures p.x < width && p.y < height && OnRay(a, dx, dy, p)
  {
    RayFromMember(a, dx, dy, width, height, 0, p);
    var k: nat :| k <= width + height && RayPoint(a, dx, dy, width, height, k) == Some(p);
    RayPointIn(a, dx, dy, width, height, k, p);
    ScaledIsProduct(dx, k);
    ScaledIsProduct(dy, k);
  }

  lemma LineCellOnRay(a: Point, dx: int, dy: int, width: nat, height: nat, p: Point, k: nat)
    requires a.x < width && a.y < height && p.x < width && p.y < height
    requires p.x == a.x + dx * k && p.y == a.y + dy * k
    ensures p in Ray(a, dx, dy, width, height)
  {
    ScaledIsProduct(dx, k);
    ScaledIsProduct(dy, k);
    RayPointIn(a, dx, dy, width, height, k, p);
    RayFromMember(a, dx, dy, width, height, 0, p);
    if (dx, dy) == (0, 0) {
      RayPointIn(a, dx, dy, width, height, 0, p);
      assert RayPoint(a, dx, dy, width, height, 0) == Some(p);
    } else {
      NearIfOnMap(a, dx, dy, width, height, k);
    }
  }

  /** The part 1 cells of a pair are among its part 2 cells: they sit at multiplier 1 of each ray. */
  lemma PairSet1InPairSet2(a: Point, b: Point, width: nat, height: nat)
    requires a.x < width && a.y < height && b.x < width && b.y < height
    ensures PairSet1(a, b, width, height) <= PairSet2(a, b, width, height)
  {
    var dx: int := b.x - a.x;
    var dy: int := b.y - a.y;
    var anta := CalcAnt(a, -dx, -dy, width, height);
    if anta.Some? {
      RayMember(a, -dx, -dy, width, height, anta.value);
      assert anta.value.x == a.x + (-dx) * 1;
    }
    var antb := CalcAnt(b, dx, dy, width, height);
    if antb.Some? {
      RayMember(b, dx, dy, width, height, antb.value);
      assert antb.value.x == b.x + dx * 1;
    }
  }

  /** Both antennas of a pair are part 2 antinodes: multiplier 0 of each ray. */
  lemma PairEndsInPairSet2(a: Point, b: Point, width: nat, height: nat)
    requires a.x < width && a.y < height && b.x < width && b.y < height
    ensures a in PairSet2(a, b, width, height) && b in PairSet2(a, b, width, height)
  {
    var dx: int := b.x - a.x;
    var dy: int := b.y - a.y;
    RayMember(a, -dx, -dy, width, height, a);
    assert a.x == a.x + (-dx) * 0;
    RayMember(b, dx, dy, width, height, b);
    assert b.x == b.x + dx * 0;
  }

  /** The pair `(loc[i], loc[j])`, `i < j`, contributes `p`. */
  ghost predicate InPair(loc: seq<Point>, pairSet: (Point, Point) -> set<Point>, p: Point, i: nat, j: nat) {
    i < j < |loc| && p in pairSet(loc[i], loc[j])
  }

  /** A cell comes from a group exactly when one of its pairs contributes it. */
  lemma GroupSetMember(loc: seq<Point>, pairSet: (Point, Point) -> set<Point>, p: Point)
    ensures p in GroupSet(loc, pairSet) <==> exists i: nat, j: nat :: InPair(loc, pairSet, p, i, j)
  {
    UnionRangeMember(0, |loc|, RowF(loc, pairSet), p);
    if p in GroupSet(loc, pairSet) {
      var i :| 0 <= i < |loc| && p in RowF(loc, pairSet)(i);
      UnionRangeMember(i + 1, |loc|, PairF(loc, i, pairSet), p);
      var j :| i + 1 <= j < |loc| && p in PairF(loc, i, pairSet)(j);
      assert InPair(loc, pairSet, p, i, j);
    }
    if exists i: nat, j: nat :: InPair(loc, pairSet, p, i, j) {
      var i: nat, j: nat :| InPair(loc, pairSet, p, i, j);
      UnionRangeHas(i + 1, |loc|, PairF(loc, i, pairSet), j, p);
      UnionRangeHas(0, |loc|, RowF(loc, pairSet), i, p);
    }
  }

  /** The pair `(groups[g].1[i], groups[g].1[j])` contributes `p`. */
  ghost predicate FromPair(groups: Groups, pairSet: (Point, Point) -> set<Point>, p: Point, g: nat, i: nat, j: nat) {
    g < |groups| && InPair(groups[g].1, pairSet, p, i, j)
  }

  /** A cell is inserted exactly when some pair of one group contributes it. */
  lemma AntinodesMember(groups: Groups, pairSet: (Point, Point) -> set<Point>, p: Point)
    ensures p in Antinodes(groups, pairSet) <==> exists g: nat, i: nat, j: nat :: FromPair(groups, pairSet, p, g, i, j)
  {
    UnionRangeMember(0, |groups|, GroupF(groups, pairSet), p);
    if p in Antinodes(groups, pairSet) {
      var g :| 0 <= g < |groups| && p in GroupF(groups, pairSet)(g);
      GroupSetMember(groups[g].1, pairSet, p);
      var i: nat, j: nat :| InPair(groups[g].1, pairSet, p, i, j);
      assert FromPair(groups, pairSet, p, g, i, j);
    }
    if exists g: nat, i: nat, j: nat :: FromPair(groups, pairSet, p, g, i, j) {
      var g: nat, i: nat, j: nat :| FromPair(groups, pairSet, p, g, i, j);
      GroupSetMember(groups[g].1, pairSet, p);
      UnionRangeHas(0, |groups|, GroupF(groups, pairSet), g, p);
    }
  }

  /** Every part 1 antinode is a part 2 antinode. */
  lemma Part1InPart2(groups: Groups, width: nat, height: nat)
    requires PointsInBounds(groups, width, height)
    ensures Antinodes(groups, Pairs(Part1, width, height)) <= Antinodes(groups, Pairs(Part2, width, height))
  {
    forall p | p in Antinodes(groups, Pairs(Part1, width, height))
      ensures p in Antinodes(groups, Pairs(Part2, width, height))
    {
      AntinodesMember(groups, Pairs(Part1, width, height), p);
      var g: nat, i: nat, j: nat :| FromPair(groups, Pairs(Part1, width, height), p, g, i, j);
      var loc := groups[g].1;
      PairSet1InPairSet2(loc[i], loc[j], width, height);
      assert FromPair(groups, Pairs(Part2, width, height), p, g, i, j);
      AntinodesMember(groups, Pairs(Part2, width, height), p);
    }
  }

  /** In part 2 every antenna that shares its frequency with another one is an antinode. */
  lemma AntennasAreAntinodes2(groups: Groups, width: nat, height: nat, g: nat, i: nat)
    requires PointsInBounds(groups, width, height)
    requires g < |groups| && i < |groups[g].1| && |groups[g].1| >= 2
    ensures groups[g].1[i] in Antinodes(groups, Pairs(Part2, width, height))
  {
    var loc := groups[g].1;
    var p := loc[i];
    if i + 1 < |loc| {
      PairEndsInPairSet2(loc[i], loc[i + 1], width, height);
      assert FromPair(groups, Pairs(Part2, width, height), p, g, i, i + 1);
    } else {
      PairEndsInPairSet2(loc[i - 1], loc[i], width, height);
      assert FromPair(groups, Pairs(Part2, width, height), p, g, i - 1, i);
    }
    AntinodesMember(groups, Pairs(Part2, width, height), p);
  }

  /** One `while let` loop of part 2: insert cells at multipliers 0, 1, 2, ...
      until the first one off the map. */
  method AddRay(a: Point, dx: int, dy: int, width: nat, height: nat, antinodes: set<Point>) returns (r: set<Point>)
    requires (dx, dy) != (0, 0) && a.x < width && a.y < height
    ensures r == antinodes + Ray(a, dx, dy, width, height)
  {
    r := antinodes;
    var multiplier: nat := 0;
    var ant := CalcAnt(a, dx * multiplier, dy * multiplier, width, height);
    ScaledIsProduct(dx, multiplier);
    ScaledIsProduct(dy, multiplier);
    while ant.Some?
      invariant ant == RayPoint(a, dx, dy, width, height, multiplier)
      invariant r + RayFrom(a, dx, dy, width, height, multiplier) == antinodes + Ray(a, dx, dy, width, height)
      decreases width + height - multiplier
    {
      NearIfOnMap(a, dx, dy, width, height, multiplier);
      r := r + {ant.value};
      multiplier := multiplier + 1;
      ant := CalcAnt(a, dx * multiplier, dy * multiplier, width, height);
      ScaledIsProduct(dx, multiplier);
      ScaledIsProduct(dy, multiplier);
    }
  }

  /** The body of part 2's innermost loop: both rays of the pair `(a, b)`. */
  method AddPair2(a: Point, b: Point, width: nat, height: nat, antinodes: set<Point>) returns (r: set<Point>)
    requires a != b && a.x < width && a.y < height && b.x < width && b.y < height
    ensures r == antinodes + PairSet2(a, b, width, height)
  {
    var diffx: int := b.x - a.x;
    var diffy: int := b.y - a.y;
    ghost var rayA, rayB := Ray(a, -diffx, -diffy, width, height), Ray(b, diffx, diffy, width, height);
    assert PairSet2(a, b, width, height) == rayA + rayB;
    r := AddRay(a, -diffx, -diffy, width, height, antinodes);
    assert r == antinodes + rayA;
    r := AddRay(b, diffx, diffy, width, height, r);
    assert r == antinodes + rayA + rayB;
  }

  /** The body of the innermost loop for either part. */
  method AddPair(part: Part, a: Point, b: Point, width: nat, height: nat, antinodes: set<Point>) returns (r: set<Point>)
    requires part == Part2 ==> a != b && a.x < width && a.y < height && b.x < width && b.y < height
    ensures r == antinodes + PairSet(part, a, b, width, height)
  {
    if part == Part1 {
      r := AddPair1(a, b, width, height, antinodes);
    } else {
      r := AddPair2(a, b, width, height, antinodes);
    }
  }

  /** The loop over the partners `loc[j]`, `j > i`, of `loc[i]`. */
  method AddRow(part: Part, loc: seq<Point>, i: nat, width: nat, height: nat, antinodes: set<Point>)
    returns (r: set<Point>)
    requires i < |loc|
    requires part == Part2 ==> forall k :: 0 <= k < |loc| ==> loc[k].x < width && loc[k].y < height
    requires part == Part2 ==> forall k :: i < k < |loc| ==> loc[i] != loc[k]
    ensures r == antinodes + RowF(loc, Pairs(part, width, height))(i)
  {
    ghost var f := Pairs(part, width, height);
    r := antinodes;
    for j := i + 1 to |loc|
      invariant r == antinodes + UnionRange(i + 1, j, PairF(loc, i, f))
    {
      r := AddPairAt(part, loc, i, j, width, height, antinodes, r);
    }
  }

  /** One pass of the loop over the partners of `loc[i]`: the pair `(loc[i], loc[j])`. */
  method AddPairAt(part: Part, loc: seq<Point>, i: nat, j: nat, width: nat, height: nat, antinodes: set<Point>,
                   acc: set<Point>) returns (r: set<Point>)
    requires i < j < |loc|
    requires part == Part2 ==> loc[i] != loc[j] && loc[i].x < width && loc[i].y < height && loc[j].x < width && loc[j].y < height
    requires acc == antinodes + UnionRange(i + 1, j, PairF(loc, i, Pairs(part, width, height)))
    ensures r == antinodes + UnionRange(i + 1, j + 1, PairF(loc, i, Pairs(part, width, height)))
  {
    r := AddPair(part, loc[i], loc[j], width, height, acc);
    UnionRangeStep(i + 1, j, PairF(loc, i, Pairs(part, width, height)), antinodes, acc, PairSet(part, loc[i], loc[j], width, height), r);
  }

  /** The loop over the pairs of one frequency group. */
  method AddGroup(part: Part, loc: seq<Point>, width: nat, height: nat, antinodes: set<Point>)
    returns (r: set<Point>)
    requires part == Part2 ==> forall k :: 0 <= k < |loc| ==> loc[k].x < width && loc[k].y < height
    requires part == Part2 ==> DistinctPoints(loc)
    ensures r == antinodes + GroupSet(loc, Pairs(part, width, height))
  {
    ghost var f := Pairs(part, width, height);
    r := antinodes;
    for i := 0 to |loc|
      invariant r == antinodes + UnionRange(0, i, RowF(loc, f))
    {
      ghost var prev := r;
      r := AddRow(part, loc, i, width, height, r);
      UnionRangeSnoc(0, i, RowF(loc, f), prev, antinodes);
    }
  }

  /** The loop over the frequency groups, shared by `calculate_p1` and `calculate_p2`. */
  method CollectAntinodes(part: Part, groups: Groups, width: nat, height: nat) returns (antinodes: set<Point>)
    requires part == Part2 ==> PointsInBounds(groups, width, height) && DistinctInGroups(groups)
    ensures antinodes == Antinodes(groups, Pairs(part, width, height))
  {
    ghost var f := Pairs(part, width, height);
    antinodes := {};
    for g := 0 to |groups|
      invariant antinodes == UnionRange(0, g, GroupF(groups, f))
    {
      ghost var prev := antinodes;
      antinodes := AddGroup(part, groups[g].1, width, height, antinodes);
      UnionRangeSnoc(0, g, GroupF(groups, f), prev, {});
    }
  }

  /** `calculate_p1`: the number of distinct cells inserted for all pairs. */
  method CalculateP1(groups: Groups, width: nat, height: nat) returns (r: nat)
    ensures r == |Antinodes(groups, Pairs(Part1, width, height))|
  {
    var antinodes := CollectAntinodes(Part1, groups, width, height);
    r := |antinodes|;
  }

  /** `calculate_p2`: the number of distinct cells on all the rays. The loops
      end because two antennas of a group are different cells. */
  method CalculateP2(groups: Groups, width: nat, height: nat) returns (r: nat)
    requires PointsInBounds(groups, width, height) && DistinctInGroups(groups)
    ensures r == |Antinodes(groups, Pairs(Part2, width, height))|
  {
    var antinodes := CollectAntinodes(Part2, groups, width, height);
    r := |antinodes|;
  }
}
