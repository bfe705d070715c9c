/** Day 10 (day10/src/main.rs): hiking trails climb from a '0' cell to a '9'
    cell one height at a time through orthogonal neighbours. Part 1 counts
    the distinct peaks each trailhead reaches; part 2 counts the trails. */
module Day10 {
  import opened Wrappers
  import opened NumExt
  import opened Seqs
  import opened Board

  /** The next height character. */
  function Next(step: char): (n: char)
    requires '0' <= step < '9'
    ensures '0' < n <= '9' && n as int == step as int + 1
  {
    (step as int + 1) as char
  }

  /** A cell one step to the right, left, below or above, when inside the grid. */
  function MoveX(b: Board, pos: (nat, nat), dx: int): (r: Option<(nat, nat)>)
    ensures r.Some? <==> 0 <= pos.0 + dx < Width(b)
    ensures r.Some? ==> r.value == (pos.0 + dx, pos.1)
  {
    match ClampedAddSigned(pos.0, dx, Width(b))
    case None => None
    case Some(x) => Some((x, pos.1))
  }

  function MoveY(b: Board, pos: (nat, nat), dy: int): (r: Option<(nat, nat)>)
    ensures r.Some? <==> 0 <= pos.1 + dy < Height(b)
    ensures r.Some? ==> r.value == (pos.0, pos.1 + dy)
  {
    match ClampedAddSigned(pos.1, dy, Height(b))
    case None => None
    case Some(y) => Some((pos.0, y))
  }

  /** Every position a row-aligned, in-bounds neighbour lookup can give stays in the grid. */
  predicate InGridOpt(b: Board, p: Option<(nat, nat)>) {
    p.Some? ==> InGrid(b, p.value)
  }

  lemma MovesInGrid(b: Board, pos: (nat, nat))
    requires InGrid(b, pos)
    ensures InGridOpt(b, MoveX(b, pos, 1)) && InGridOpt(b, MoveX(b, pos, -1))
    ensures InGridOpt(b, MoveY(b, pos, 1)) && InGridOpt(b, MoveY(b, pos, -1))
  {
  }

  /** The '9' cells `walk_path` records from `pos` when it expects height `step` there. */
  function Peaks(b: Board, pos: (nat, nat), step: char): set<(nat, nat)>
    requires Rect(b) && InGrid(b, pos) && '0' <= step <= '9'
    decreases '9' as int - step as int, 0
  {
    if At(b, pos) != step then {}
    else if step == '9' then {pos}
    else
      MovesInGrid(b, pos);
      PeaksAt(b, MoveX(b, pos, 1), Next(step)) + PeaksAt(b, MoveX(b, pos, -1), Next(step))
      + PeaksAt(b, MoveY(b, pos, 1), Next(step)) + PeaksAt(b, MoveY(b, pos, -1), Next(step))
  }

  function PeaksAt(b: Board, p: Option<(nat, nat)>, step: char): set<(nat, nat)>
    requires Rect(b) && InGridOpt(b, p) && '0' <= step <= '9'
    decreases '9' as int - step as int, 1
  {
    if p.None? then {} else Peaks(b, p.value, step)
  }

  /** The number of trails `walk_path` counts from `pos` when it expects height `step` there. */
  function Paths(b: Board, pos: (nat, nat), step: char): nat
    requires Rect(b) && InGrid(b, pos) && '0' <= step <= '9'
    decreases '9' as int - step as int, 0
  {
    if At(b, pos) != step then 0
    else if step == '9' then 1
    else
      MovesInGrid(b, pos);
      PathsAt(b, MoveX(b, pos, 1), Next(step)) + PathsAt(b, MoveX(b, pos, -1), Next(step))
      + PathsAt(b, MoveY(b, pos, 1), Next(step)) + PathsAt(b, MoveY(b, pos, -1), Next(step))
  }

  function PathsAt(b: Board, p: Option<(nat, nat)>, step: char): nat
    requires Rect(b) && InGridOpt(b, p) && '0' <= step <= '9'
    decreases '9' as int - step as int, 1
  {
    if p.None? then 0 else Paths(b, p.value, step)
  }

  /** `walk_path`: the trail count from `pos`, adding every reached peak to `reached`.
      The recursion is at most ten calls deep: the height rises by one per call. */
  method WalkPath(b: Board, pos: (nat, nat), step: char, reached: set<(nat, nat)>)
    returns (score: nat, reachedOut: set<(nat, nat)>)
    requires Rect(b) && InGrid(b, pos) && '0' <= step <= '9'
    ensures score == Paths(b, pos, step) && score == |Trails(b, pos, step)|
    ensures reachedOut == reached + Peaks(b, pos, step)
    decreases '9' as int - step as int, 0
  {
    if At(b, pos) != step {
      score, reachedOut := 0, reached;
    } else if step == '9' {
      score, reachedOut := 1, reached + {pos};
    } else {
      var nextStep := Next(step);
      MovesInGrid(b, pos);
      var s1, s2, s3, s4: nat;
      s1, reachedOut := WalkNeighbour(b, MoveX(b, pos, 1), nextStep, reached);
      s2, reachedOut := WalkNeighbour(b, MoveX(b, pos, -1), nextStep, reachedOut);
      s3, reachedOut := WalkNeighbour(b, MoveY(b, pos, 1), nextStep, reachedOut);
      s4, reachedOut := WalkNeighbour(b, MoveY(b, pos, -1), nextStep, reachedOut);
      score := s1 + s2 + s3 + s4;
      PeaksStep(b, pos, step);
      UnionRegroup(reached, PeaksAt(b, MoveX(b, pos, 1), nextStep), PeaksAt(b, MoveX(b, pos, -1), nextStep),
        PeaksAt(b, MoveY(b, pos, 1), nextStep), PeaksAt(b, MoveY(b, pos, -1), nextStep));
    }
    PathsCountTrails(b, pos, step);
  }

  /** The peaks below the top are those of the four neighbour lookups. */
  lemma PeaksStep(b: Board, pos: (nat, nat), step: char)
    requires Rect(b) && InGrid(b, pos) && '0' <= step < '9' && At(b, pos) == step
    ensures Peaks(b, pos, step) == PeaksAt(b, MoveX(b, pos, 1), Next(step)) + PeaksAt(b, MoveX(b, pos, -1), Next(step))
        + PeaksAt(b, MoveY(b, pos, 1), Next(step)) + PeaksAt(b, MoveY(b, pos, -1), Next(step))
  {
  }

  lemma UnionRegroup<T>(r: set<T>, a: set<T>, c: set<T>, d: set<T>, e: set<T>)
    ensures r + a + c + d + e == r + (a + c + d + e)
  {
  }

  /** One `if let Some(..)` arm of `walk_path`: walk on from a neighbour that exists. */
  method WalkNeighbour(b: Board, n: Option<(nat, nat)>, step: char, reached: set<(nat, nat)>)
    returns (score: nat, reachedOut: set<(nat, nat)>)
    requires Rect(b) && InGridOpt(b, n) && '0' <= step <= '9'
    ensures score == PathsAt(b, n, step)
    ensures reachedOut == reached + PeaksAt(b, n, step)
    decreases '9' as int - step as int, 1
  {
    if n.Some? {
      score, reachedOut := WalkPath(b, n.value, step, reached);
    } else {
      score, reachedOut := 0, reached;
    }
  }

  // ---------------------------------------------------------------- trails

  /** Orthogonally adjacent cells. */
  predicate Adjacent(p: (nat, nat), q: (nat, nat)) {
    (p.1 == q.1 && (p.0 + 1 == q.0 || q.0 + 1 == p.0))
    || (p.0 == q.0 && (p.1 + 1 == q.1 || q.1 + 1 == p.1))
  }

  /** A hiking trail that starts at height `step`: consecutive cells adjacent,
      each one higher than the last, ending on a '9'. */
  ghost predicate IsTrail(b: Board, t: seq<(nat, nat)>, step: char)
    requires Rect(b) && '0' <= step <= '9'
    decreases |t|
  {
    |t| >= 1 && InGrid(b, t[0]) && At(b, t[0]) == step
    && if step == '9' then |t| == 1
       else |t| >= 2 && Adjacent(t[0], t[1]) && IsTrail(b, t[1..], Next(step))
  }

  /** The neighbour lookups give exactly the adjacent cells inside the grid. */
  lemma AdjacentIsMove(b: Board, pos: (nat, nat), q: (nat, nat))
    requires InGrid(b, pos) && InGrid(b, q)
    ensures Adjacent(pos, q) <==>
      MoveX(b, pos, 1) == Some(q) || MoveX(b, pos, -1) == Some(q)
      || MoveY(b, pos, 1) == Some(q) || MoveY(b, pos, -1) == Some(q)
  {
  }

  /** Every recorded peak ends a trail from `pos`. */
  lemma {:induction false} PeakHasTrail(b: Board, pos: (nat, nat), step: char, p: (nat, nat))
    requires Rect(b) && InGrid(b, pos) && '0' <= step <= '9'
    requires p in Peaks(b, pos, step)
    ensures exists t :: IsTrail(b, t, step) && t[0] == pos && t[|t| - 1] == p
    decreases '9' as int - step as int
  {
    if step == '9' {
      assert IsTrail(b, [pos], step);
    } else {
      var q := PeakNeighbour(b, pos, step, p);
      PeakHasTrail(b, q, Next(step), p);
      var t :| IsTrail(b, t, Next(step)) && t[0] == q && t[|t| - 1] == p;
      ConsTrail(b, pos, t, step);
    }
  }

  /** A peak recorded below the top was recorded from an adjacent cell one higher. */
  lemma PeakNeighbour(b: Board, pos: (nat, nat), step: char, p: (nat, nat)) returns (q: (nat, nat))
    requires Rect(b) && InGrid(b, pos) && '0' <= step < '9'
    requires p in Peaks(b, pos, step)
    ensures At(b, pos) == step && InGrid(b, q) && Adjacent(pos, q) && p in Peaks(b, q, Next(step))
  {
    MovesInGrid(b, pos);
    var s := Next(step);
    var ns := [MoveX(b, pos, 1), MoveX(b, pos, -1), MoveY(b, pos, 1), MoveY(b, pos, -1)];
    assert p in PeaksAt(b, ns[0], s) + PeaksAt(b, ns[1], s) + PeaksAt(b, ns[2], s) + PeaksAt(b, ns[3], s);
    var n := if p in PeaksAt(b, ns[0], s) then ns[0]
      else if p in PeaksAt(b, ns[1], s) then ns[1]
      else if p in PeaksAt(b, ns[2], s) then ns[2]
      else ns[3];
    q := n.value;
  }

  /** A cell of height `step` in front of a trail from its neighbour starts a trail. */
  lemma ConsTrail(b: Board, pos: (nat, nat), t: seq<(nat, nat)>, step: char)
    requires Rect(b) && '0' <= step < '9' && InGrid(b, pos) && At(b, pos) == step
    requires IsTrail(b, t, Next(step)) && Adjacent(pos, t[0])
    ensures IsTrail(b, [pos] + t, step) && ([pos] + t)[0] == pos && ([pos] + t)[|[pos] + t| - 1] == t[|t| - 1]
  {
    assert ([pos] + t)[1..] == t;
  }

  /** The last cell of every trail from `pos` is recorded. */
  lemma {:induction false} TrailEndIsPeak(b: Board, t: seq<(nat, nat)>, step: char)
    requires Rect(b) && '0' <= step <= '9' && IsTrail(b, t, step)
    ensures t[|t| - 1] in Peaks(b, t[0], step)
    decreases |t|
  {
    if step != '9' {
      TrailEndIsPeak(b, t[1..], Next(step));
      AdjacentIsMove(b, t[0], t[1]);
      MovesInGrid(b, t[0]);
    }
  }

  /** `reached` after a walk from `pos`: exactly the ends of the trails from `pos`. */
  lemma PeaksAreTrailEnds(b: Board, pos: (nat, nat), step: char, p: (nat, nat))
    requires Rect(b) && InGrid(b, pos) && '0' <= step <= '9'
    ensures p in Peaks(b, pos, step) <==> exists t :: IsTrail(b, t, step) && t[0] == pos && t[|t| - 1] == p
  {
    if p in Peaks(b, pos, step) {
      PeakHasTrail(b, pos, step, p);
    }
    if exists t :: IsTrail(b, t, step) && t[0] == pos && t[|t| - 1] == p {
      var t :| IsTrail(b, t, step) && t[0] == pos && t[|t| - 1] == p;
      TrailEndIsPeak(b, t, step);
    }
  }

  /** Every trail reaches a distinct peak at most once per trail, so the
      peaks are never more than the trails. */
  lemma {:induction false} PeaksAtMostPaths(b: Board, pos: (nat, nat), step: char)
    requires Rect(b) && InGrid(b, pos) && '0' <= step <= '9'
    ensures |Peaks(b, pos, step)| <= Paths(b, pos, step)
    decreases '9' as int - step as int
  {
    if At(b, pos) == step && step != '9' {
      MovesInGrid(b, pos);
      var s := Next(step);
      var ns := [MoveX(b, pos, 1), MoveX(b, pos, -1), MoveY(b, pos, 1), MoveY(b, pos, -1)];
      forall i | 0 <= i < 4
        ensures |PeaksAt(b, ns[i], s)| <= PathsAt(b, ns[i], s)
      {
        if ns[i].Some? {
          PeaksAtMostPaths(b, ns[i].value, s);
        }
      }
      UnionCard(PeaksAt(b, ns[0], s), PeaksAt(b, ns[1], s));
      UnionCard(PeaksAt(b, ns[0], s) + PeaksAt(b, ns[1], s), PeaksAt(b, ns[2], s));
      UnionCard(PeaksAt(b, ns[0], s) + PeaksAt(b, ns[1], s) + PeaksAt(b, ns[2], s), PeaksAt(b, ns[3], s));
    }
  }

  lemma UnionCard<T>(a: set<T>, c: set<T>)
    ensures |a + c| <= |a| + |c|
  {
    if c != {} {
      var x :| x in c;
      UnionCard(a, c - {x});
      assert a + c == (a + (c - {x})) + {x};
    }
  }

  // ---------------------------------------------------------------- distinct trails

  /** Every list of `s` with `x` in front. */
  ghost function Extend<T>(x: T, s: set<seq<T>>): set<seq<T>> {
    set t | t in s :: [x] + t
  }

  /** The hiking trails from `pos` when it is expected at height `step`, each
      listed cell by cell: the same four neighbour lookups as `walk_path`. */
  ghost function Trails(b: Board, pos: (nat, nat), step: char): set<seq<(nat, nat)>>
    requires Rect(b) && InGrid(b, pos) && '0' <= step <= '9'
    decreases '9' as int - step as int, 0
  {
    if At(b, pos) != step then {}
    else if step == '9' then {[pos]}
    else
      MovesInGrid(b, pos);
      Extend(pos, TrailsAt(b, MoveX(b, pos, 1), Next(step))) + Extend(pos, TrailsAt(b, MoveX(b, pos, -1), Next(step)))
      + Extend(pos, TrailsAt(b, MoveY(b, pos, 1), Next(step))) + Extend(pos, TrailsAt(b, MoveY(b, pos, -1), Next(step)))
  }

  ghost function TrailsAt(b: Board, p: Option<(nat, nat)>, step: char): set<seq<(nat, nat)>>
    requires Rect(b) && InGridOpt(b, p) && '0' <= step <= '9'
    decreases '9' as int - step as int, 1
  {
    if p.None? then {} else Trails(b, p.value, step)
  }

  /** Below the top, the trails are those continuing through the four neighbour lookups. */
  lemma TrailsStep(b: Board, pos: (nat, nat), step: char)
    requires Rect(b) && InGrid(b, pos) && '0' <= step < '9' && At(b, pos) == step
    ensures Trails(b, pos, step) == Extend(pos, TrailsAt(b, MoveX(b, pos, 1), Next(step)))
      + Extend(pos, TrailsAt(b, MoveX(b, pos, -1), Next(step)))
      + Extend(pos, TrailsAt(b, MoveY(b, pos, 1), Next(step)))
      + Extend(pos, TrailsAt(b, MoveY(b, pos, -1), Next(step)))
  {
  }

  /** `Trails` holds exactly the hiking trails that start at `pos`. */
  lemma {:induction false} TrailsAreHikingTrails(b: Board, pos: (nat, nat), step: char, t: seq<(nat, nat)>)
    requires Rect(b) && InGrid(b, pos) && '0' <= step <= '9'
    ensures t in Trails(b, pos, step) <==> IsTrail(b, t, step) && t[0] == pos
    decreases '9' as int - step as int, 1
  {
    if At(b, pos) == step && step != '9' {
      if t in Trails(b, pos, step) {
        TrailsSound(b, pos, step, t);
      }
      if IsTrail(b, t, step) && t[0] == pos {
        TrailsComplete(b, pos, step, t);
      }
    } else if At(b, pos) == step && IsTrail(b, t, step) && t[0] == pos {
      assert t == [pos];
    }
  }

  /** Below the top, a collected trail is a hiking trail. */
  lemma TrailsSound(b: Board, pos: (nat, nat), step: char, t: seq<(nat, nat)>)
    requires Rect(b) && InGrid(b, pos) && '0' <= step < '9' && At(b, pos) == step
    requires t in Trails(b, pos, step)
    ensures IsTrail(b, t, step) && t[0] == pos
    decreases '9' as int - step as int, 0
  {
    MovesInGrid(b, pos);
    var s := Next(step);
    var n0, n1, n2, n3 := MoveX(b, pos, 1), MoveX(b, pos, -1), MoveY(b, pos, 1), MoveY(b, pos, -1);
    TrailsStep(b, pos, step);
    var n := if t in Extend(pos, TrailsAt(b, n0, s)) then n0
      else if t in Extend(pos, TrailsAt(b, n1, s)) then n1
      else if t in Extend(pos, TrailsAt(b, n2, s)) then n2
      else n3;
    assert t in Extend(pos, TrailsAt(b, n, s));
    var u :| u in TrailsAt(b, n, s) && t == [pos] + u;
    TrailsAreHikingTrails(b, n.value, s, u);
    AdjacentIsMove(b, pos, u[0]);
    ConsTrail(b, pos, u, step);
  }

  /** Below the top, every hiking trail from `pos` is collected. */
  lemma TrailsComplete(b: Board, pos: (nat, nat), step: char, t: seq<(nat, nat)>)
    requires Rect(b) && InGrid(b, pos) && '0' <= step < '9' && At(b, pos) == step
    requires IsTrail(b, t, step) && t[0] == pos
    ensures t in Trails(b, pos, step)
    decreases '9' as int - step as int, 0
  {
    MovesInGrid(b, pos);
    var s := Next(step);
    var n0, n1, n2, n3 := MoveX(b, pos, 1), MoveX(b, pos, -1), MoveY(b, pos, 1), MoveY(b, pos, -1);
    var u := t[1..];
    assert t == [pos] + u && IsTrail(b, u, s) && InGrid(b, u[0]) && Adjacent(pos, u[0]);
    AdjacentIsMove(b, pos, u[0]);
    var n := if n0 == Some(u[0]) then n0 else if n1 == Some(u[0]) then n1 else if n2 == Some(u[0]) then n2 else n3;
    assert n == Some(u[0]);
    TrailsAreHikingTrails(b, u[0], s, u);
    assert t in Extend(pos, TrailsAt(b, n, s));
    TrailsStep(b, pos, step);
  }

  /** Putting one cell in front keeps the number of lists. */
  lemma ExtendCard<T>(x: T, s: set<seq<T>>)
    ensures |Extend(x, s)| == |s|
  {
    if s != {} {
      var u :| u in s;
      ExtendCard(x, s - {u});
      assert Extend(x, s) == Extend(x, s - {u}) + {[x] + u};
      assert ([x] + u)[1..] == u;
      assert forall v :: v in Extend(x, s - {u}) ==> v[1..] != u;
    }
  }

  /** Trails through different neighbours differ in their second cell. */
  lemma ExtendDisjoint(b: Board, pos: (nat, nat), p: Option<(nat, nat)>, q: Option<(nat, nat)>, step: char)
    requires Rect(b) && InGridOpt(b, p) && InGridOpt(b, q) && '0' <= step <= '9'
    requires p.Some? && q.Some? ==> p.value != q.value
    ensures Extend(pos, TrailsAt(b, p, step)) !! Extend(pos, TrailsAt(b, q, step))
  {
    forall t | t in Extend(pos, TrailsAt(b, p, step)) && t in Extend(pos, TrailsAt(b, q, step))
      ensures false
    {
      var u :| u in TrailsAt(b, p, step) && t == [pos] + u;
      var v :| v in TrailsAt(b, q, step) && t == [pos] + v;
      assert u == t[1..] == v;
      TrailsAreHikingTrails(b, p.value, step, u);
      TrailsAreHikingTrails(b, q.value, step, v);
    }
  }

  lemma DisjointUnionCard<T>(a: set<T>, c: set<T>)
    requires a !! c
    ensures |a + c| == |a| + |c|
  {
    assert a * c == {};
  }

  /** `walk_path`'s score counts the distinct hiking trails from `pos`. */
  lemma {:induction false} PathsCountTrails(b: Board, pos: (nat, nat), step: char)
    requires Rect(b) && InGrid(b, pos) && '0' <= step <= '9'
    ensures |Trails(b, pos, step)| == Paths(b, pos, step)
    decreases '9' as int - step as int, 0
  {
    if At(b, pos) == step && step != '9' {
      MovesInGrid(b, pos);
      var s := Next(step);
      var n0, n1, n2, n3 := MoveX(b, pos, 1), MoveX(b, pos, -1), MoveY(b, pos, 1), MoveY(b, pos, -1);
      var e0, e1, e2, e3 := Extend(pos, TrailsAt(b, n0, s)), Extend(pos, TrailsAt(b, n1, s)),
        Extend(pos, TrailsAt(b, n2, s)), Extend(pos, TrailsAt(b, n3, s));
      CountAt(b, pos, n0, s);
      CountAt(b, pos, n1, s);
      CountAt(b, pos, n2, s);
      CountAt(b, pos, n3, s);
      ExtendDisjoint(b, pos, n0, n1, s);
      ExtendDisjoint(b, pos, n0, n2, s);
      ExtendDisjoint(b, pos, n0, n3, s);
      ExtendDisjoint(b, pos, n1, n2, s);
      ExtendDisjoint(b, pos, n1, n3, s);
      ExtendDisjoint(b, pos, n2, n3, s);
      DisjointUnionCard(e0, e1);
      DisjointUnionCard(e0 + e1, e2);
      DisjointUnionCard(e0 + e1 + e2, e3);
      TrailsStep(b, pos, step);
    }
  }

  /** The trails through one neighbour lookup number as many as its score. */
  lemma CountAt(b: Board, pos: (nat, nat), n: Option<(nat, nat)>, step: char)
    requires Rect(b) && InGridOpt(b, n) && '0' < step <= '9'
    ensures |Extend(pos, TrailsAt(b, n, step))| == PathsAt(b, n, step)
    decreases '9' as int - step as int, 1
  {
    ExtendCard(pos, TrailsAt(b, n, step));
    if n.Some? {
      PathsCountTrails(b, n.value, step);
    }
  }

  // ---------------------------------------------------------------- input

  /** The '0' cells of row `y` with column below `x`, left to right. */
  function StartsInRow(b: Board, y: nat, x: nat): seq<(nat, nat)>
    requires Rect(b) && y < Height(b) && x <= Width(b)
  {
    if x == 0 then []
    else StartsInRow(b, y, x - 1) + (if b[y][x - 1] == '0' then [(x - 1, y)] else [])
  }

  /** The '0' cells of the rows above `y`, in reading order. */
  function StartsAbove(b: Board, y: nat): seq<(nat, nat)>
    requires Rect(b) && y <= Height(b)
  {
    if y == 0 then [] else StartsAbove(b, y - 1) + StartsInRow(b, y - 1, Width(b))
  }

  /** The trailheads. */
  function Starts(b: Board): seq<(nat, nat)>
    requires Rect(b)
  {
    StartsAbove(b, Height(b))
  }

  lemma {:induction false} StartsInRowMember(b: Board, y: nat, x: nat, p: (nat, nat))
    requires Rect(b) && y < Height(b) && x <= Width(b)
    ensures p in StartsInRow(b, y, x) <==> p.1 == y && p.0 < x && At(b, p) == '0'
  {
    if x > 0 {
      StartsInRowMember(b, y, x - 1, p);
    }
  }

  lemma StartsAboveStep(b: Board, y: nat, p: (nat, nat))
    requires Rect(b) && 1 <= y <= Height(b)
    ensures p in StartsAbove(b, y) <==> p in StartsAbove(b, y - 1) || p in StartsInRow(b, y - 1, Width(b))
  {
    var above, row := StartsAbove(b, y - 1), StartsInRow(b, y - 1, Width(b));
    assert StartsAbove(b, y) == above + row;
  }

  lemma {:induction false} StartsAboveMember(b: Board, y: nat, p: (nat, nat))
    requires Rect(b) && y <= Height(b)
    ensures p in StartsAbove(b, y) <==> p.1 < y && p.0 < Width(b) && At(b, p) == '0'
  {
    if y > 0 {
      StartsAboveStep(b, y, p);
      assert p in StartsAbove(b, y - 1) <==> p.1 < y - 1 && p.0 < Width(b) && At(b, p) == '0' by {
        StartsAboveMember(b, y - 1, p);
      }
      assert p in StartsInRow(b, y - 1, Width(b)) <==> p.1 == y - 1 && p.0 < Width(b) && At(b, p) == '0' by {
        StartsInRowMember(b, y - 1, Width(b), p);
      }
    }
  }

  /** The trailheads are exactly the '0' cells. */
  lemma StartsAreZeros(b: Board, p: (nat, nat))
    requires Rect(b)
    ensures p in Starts(b) <==> InGrid(b, p) && At(b, p) == '0'
  {
    StartsAboveMember(b, Height(b), p);
  }

  predicate AllInGrid(b: Board, ps: seq<(nat, nat)>) {
    forall i :: 0 <= i < |ps| ==> InGrid(b, ps[i])
  }

  lemma StartsInGrid(b: Board)
    requires Rect(b)
    ensures AllInGrid(b, Starts(b))
  {
    forall i | 0 <= i < |Starts(b)|
      ensures InGrid(b, Starts(b)[i])
    {
      StartsAreZeros(b, Starts(b)[i]);
    }
  }

  /** `parse_input`: the trailheads in reading order and the grid size; `None`
      for an empty grid, whose first row the source unwraps. */
  method ParseInput(b: Board) returns (r: Option<(seq<(nat, nat)>, (nat, nat))>)
    requires Rect(b)
    ensures r.Some? <==> |b| >= 1
    ensures r.Some? ==> r.value.0 == Starts(b) && r.value.1 == (Width(b), Height(b))
  {
    if |b| == 0 {
      return None;
    }
    var starts: seq<(nat, nat)> := [];
    for y := 0 to |b|
      invariant starts == StartsAbove(b, y)
    {
      ghost var above := starts;
      for x := 0 to |b[y]|
        invariant starts == above + StartsInRow(b, y, x)
      {
        if b[y][x] == '0' {
          starts := starts + [(x, y)];
        }
      }
    }
    r := Some((starts, (|b[0]|, |b|)));
  }

  // ---------------------------------------------------------------- parts

  function PeakCount(b: Board): ((nat, nat)) -> int
    requires Rect(b)
  {
    p => if InGrid(b, p) then |Peaks(b, p, '0')| else 0
  }

  function PathCount(b: Board): ((nat, nat)) -> int
    requires Rect(b)
  {
    p => if InGrid(b, p) then Paths(b, p, '0') else 0
  }

  /** The number of hiking trails from each in-grid cell. */
  ghost function TrailCount(b: Board): ((nat, nat)) -> int
    requires Rect(b)
  {
    p => if InGrid(b, p) then |Trails(b, p, '0')| else 0
  }

  /** `calculate_p1`: a fresh `reached` set per trailhead, summing their sizes. */
  method CalculateP1(b: Board, starts: seq<(nat, nat)>) returns (total: nat)
    requires Rect(b) && AllInGrid(b, starts)
    ensures total == SumOf(starts, PeakCount(b))
  {
    total := 0;
    for i := 0 to |starts|
      invariant total == SumOf(starts[..i], PeakCount(b))
    {
      var _, reached := WalkPath(b, starts[i], '0', {});
      assert starts[..i + 1][..i] == starts[..i];
      total := total + |reached|;
    }
    assert starts[..|starts|] == starts;
  }

  /** `calculate_p2`: the trail counts summed; the shared `reached` set plays no part. */
  method CalculateP2(b: Board, starts: seq<(nat, nat)>) returns (total: nat)
    requires Rect(b) && AllInGrid(b, starts)
    ensures total == SumOf(starts, PathCount(b)) && total == SumOf(starts, TrailCount(b))
  {
    total := 0;
    var reached: set<(nat, nat)> := {};
    for i := 0 to |starts|
      invariant total == SumOf(starts[..i], PathCount(b))
    {
      var score;
      score, reached := WalkPath(b, starts[i], '0', reached);
      assert starts[..i + 1][..i] == starts[..i];
      total := total + score;
    }
    assert starts[..|starts|] == starts;
    forall i | 0 <= i < |starts|
      ensures PathCount(b)(starts[i]) == TrailCount(b)(starts[i])
    {
      PathsCountTrails(b, starts[i], '0');
    }
    SumOfMonotone(starts, PathCount(b), TrailCount(b));
    SumOfMonotone(starts, TrailCount(b), PathCount(b));
  }

  /** Part 2 is never below part 1. */
  lemma PartTwoAtLeastPartOne(b: Board, starts: seq<(nat, nat)>)
    requires Rect(b)
    ensures SumOf(starts, PeakCount(b)) <= SumOf(starts, PathCount(b))
  {
    forall i | 0 <= i < |starts|
      ensures PeakCount(b)(starts[i]) <= PathCount(b)(starts[i])
    {
      if InGrid(b, starts[i]) {
        PeaksAtMostPaths(b, starts[i], '0');
      }
    }
    SumOfMonotone(starts, PeakCount(b), PathCount(b));
  }

  /** A trailhead whose neighbours are all unclimbable reaches nothing. */
  lemma LoneZeroFixture()
    ensures Peaks(["0"], (0, 0), '0') == {} && Paths(["0"], (0, 0), '0') == 0
  {
  }

  /** An '8' next to a '9' is one trail to one peak. */
  lemma LastStepFixture()
    ensures Paths(["89"], (0, 0), '8') == 1
    ensures Peaks(["89"], (0, 0), '8') == {(1, 0)}
  {
  }
}
