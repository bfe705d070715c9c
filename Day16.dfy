/** Day 16 (day16/src/main.rs): the reindeer maze. A reindeer starts facing
    right; a step forward costs 1, a quarter turn together with the step
    after it 1001. Part 1 finds the least score to an 'E' cell with a
    best-first search over a heap ordered on the score; part 2 keeps popping
    states up to that score to find every cell on a best path. */
module Day16 {
  import opened Wrappers
  import opened Grid
  import opened Direction
  import opened Point
  import opened Heap

  /** Where the reindeer is and which way it faces. */
  type Pose = (Point, Direction)

  /** `BfsState { pos, dir, score }`, held in the heap as `(score, (pos, dir))`. */
  type BfsState = (nat, Pose)

  /** `grid[p]` for a point inside the used area. */
  function Cell(grid: Grid<char>, p: Point): char
    requires grid.Fits() && InBounds(p, grid.Size())
    reads grid, grid.content
  {
    grid.content[p.y, p.x]
  }

  /** `pos.advance(dir, grid.size())` onto a cell that is not '#'. */
  function Open(grid: Grid<char>, pos: Point, dir: Direction): (r: Option<Point>)
    requires grid.Fits() && InBounds(pos, grid.Size())
    reads grid, grid.content
    ensures r.Some? ==> InBounds(r.value, grid.Size()) && Cell(grid, r.value) != '#'
    ensures r.Some? ==> Some(r.value) == Advance(pos, dir, grid.Size())
  {
    match Advance(pos, dir, grid.Size())
    case None => None
    case Some(next) =>
      AdvanceStaysInBounds(pos, dir, grid.Size(), 1);
      if Cell(grid, next) != '#' then Some(next) else None
  }

  // ---------------------------------------------------------------- part 1

  /** One `if let Some(..) = state.pos.advance(..)` block of part 1: the
      state one step on in direction `dir` at `score`, unless the cell is
      '#', outside, or visited. */
  function Candidate(grid: Grid<char>, pos: Point, dir: Direction, score: nat, visited: set<Point>): (r: seq<BfsState>)
    requires grid.Fits() && InBounds(pos, grid.Size())
    reads grid, grid.content
    ensures |r| <= 1
    ensures r != [] <==> Open(grid, pos, dir).Some? && Open(grid, pos, dir).value !in visited
    ensures r != [] ==> r[0] == (score, (Open(grid, pos, dir).value, dir))
  {
    match Open(grid, pos, dir)
    case None => []
    case Some(next) => if next !in visited then [(score, (next, dir))] else []
  }

  /** What part 1 pushes after popping `s`: forward at score + 1, then a
      left and a right turn with a step at score + 1001. */
  function Moves(grid: Grid<char>, s: BfsState, visited: set<Point>): (r: seq<BfsState>)
    requires grid.Fits() && InBounds(s.1.0, grid.Size())
    reads grid, grid.content
  {
    var score, pos, dir := s.0, s.1.0, s.1.1;
    Candidate(grid, pos, dir, score + 1, visited)
      + Candidate(grid, pos, Turn(dir, AntiClockwise), score + 1001, visited)
      + Candidate(grid, pos, Turn(dir, Clockwise), score + 1001, visited)
  }

  /** `e` is a state the search may push after popping `s`: on an open
      cell one step from `s`, either straight on at one more point or
      turned a quarter at 1001 more. */
  predicate Follows(grid: Grid<char>, s: BfsState, e: BfsState)
    requires grid.Fits()
    reads grid, grid.content
  {
    InBounds(e.1.0, grid.Size()) && Cell(grid, e.1.0) != '#' &&
    Some(e.1.0) == Advance(s.1.0, e.1.1, grid.Size()) &&
    ((e.0 == s.0 + 1 && e.1.1 == s.1.1) ||
     (e.0 == s.0 + 1001 && (e.1.1 == Turn(s.1.1, AntiClockwise) || e.1.1 == Turn(s.1.1, Clockwise))))
  }

  /** Every state part 1 pushes follows the popped one and is on a cell
      not yet visited. */
  lemma MovesSound(grid: Grid<char>, s: BfsState, visited: set<Point>)
    requires grid.Fits() && InBounds(s.1.0, grid.Size())
    ensures forall e :: e in Moves(grid, s, visited) ==> Follows(grid, s, e) && e.1.0 !in visited
  {
    var score, pos, dir := s.0, s.1.0, s.1.1;
    var forward := Candidate(grid, pos, dir, score + 1, visited);
    var left := Candidate(grid, pos, Turn(dir, AntiClockwise), score + 1001, visited);
    var right := Candidate(grid, pos, Turn(dir, Clockwise), score + 1001, visited);
    assert Moves(grid, s, visited) == forward + left + right;
    forall e | e in Moves(grid, s, visited)
      ensures Follows(grid, s, e) && e.1.0 !in visited
    {
      assert e in forward || e in left || e in right;
    }
  }

  /** Part 1 pushes every open neighbour not yet visited: straight on at
      one more point, and after a quarter turn either way at 1001 more. */
  lemma MovesComplete(grid: Grid<char>, s: BfsState, visited: set<Point>, d: Direction)
    requires grid.Fits() && InBounds(s.1.0, grid.Size())
    requires d == s.1.1 || d == Turn(s.1.1, AntiClockwise) || d == Turn(s.1.1, Clockwise)
    requires Open(grid, s.1.0, d).Some? && Open(grid, s.1.0, d).value !in visited
    ensures (if d == s.1.1 then s.0 + 1 else s.0 + 1001, (Open(grid, s.1.0, d).value, d)) in Moves(grid, s, visited)
  {
    var score, pos, dir := s.0, s.1.0, s.1.1;
    var forward := Candidate(grid, pos, dir, score + 1, visited);
    var left := Candidate(grid, pos, Turn(dir, AntiClockwise), score + 1001, visited);
    var right := Candidate(grid, pos, Turn(dir, Clockwise), score + 1001, visited);
    assert Moves(grid, s, visited) == forward + left + right;
  }

  /** Scores never go down along `states`. */
  predicate Nondecreasing(states: seq<BfsState>) {
    forall i, j :: 0 <= i < j < |states| ==> states[i].0 <= states[j].0
  }

  /** What the search keeps true of its heap: every entry is inside the grid
      and scores at least as much as the last state popped. */
  predicate QueueOk(grid: Grid<char>, queue: seq<BfsState>, popped: seq<BfsState>)
    reads grid
  {
    forall e :: e in queue ==>
      InBounds(e.1.0, grid.Size()) && (popped != [] ==> e.0 >= popped[|popped| - 1].0)
  }

  /** Every state of `states` is inside the grid. */
  predicate OnGrid(grid: Grid<char>, states: seq<BfsState>)
    reads grid
  {
    forall k :: 0 <= k < |states| ==> InBounds(states[k].1.0, grid.Size())
  }

  /** Taking out a least entry keeps the heap's bounds and the popped
      states in order and inside the grid. */
  lemma PopKeeps(grid: Grid<char>, queue: seq<BfsState>, rest: seq<BfsState>, state: BfsState, popped: seq<BfsState>)
    requires QueueOk(grid, queue, popped) && Nondecreasing(popped) && OnGrid(grid, popped)
    requires state in queue && (forall e :: e in queue ==> state.0 <= e.0) && (forall e :: e in rest ==> e in queue)
    ensures QueueOk(grid, rest, popped + [state]) && Nondecreasing(popped + [state]) && OnGrid(grid, popped + [state])
    ensures InBounds(state.1.0, grid.Size())
    ensures forall k :: 0 <= k < |popped| ==> popped[k].0 <= state.0
    ensures popped != [] ==> (popped + [state])[0] == popped[0]
  {
    assert forall k :: 0 <= k < |popped| ==> (popped + [state])[k] == popped[k];
  }

  /** None of `states` is on an 'E' cell. */
  predicate NoEnd(grid: Grid<char>, states: seq<BfsState>)
    requires grid.Fits() && OnGrid(grid, states)
    reads grid, grid.content
  {
    forall k :: 0 <= k < |states| ==> Cell(grid, states[k].1.0) != 'E'
  }

  /** Popping a state not on an 'E' cell keeps `NoEnd`. */
  lemma NoEndKeeps(grid: Grid<char>, popped: seq<BfsState>, state: BfsState)
    requires grid.Fits() && OnGrid(grid, popped) && NoEnd(grid, popped)
    requires InBounds(state.1.0, grid.Size()) && Cell(grid, state.1.0) != 'E'
    ensures OnGrid(grid, popped + [state]) && NoEnd(grid, popped + [state])
  {
    assert forall k :: 0 <= k < |popped| ==> (popped + [state])[k] == popped[k];
  }

  /** Pushing the moves of the last popped state keeps the heap's bounds:
      they all score more than it. */
  lemma PushKeeps(grid: Grid<char>, rest: seq<BfsState>, popped: seq<BfsState>, state: BfsState, added: seq<BfsState>)
    requires grid.Fits() && QueueOk(grid, rest, popped) && popped != [] && popped[|popped| - 1] == state
    requires forall e :: e in added ==> Follows(grid, state, e)
    ensures QueueOk(grid, rest + added, popped)
  {
  }

  // ---------------------------------------------------------------- runs of moves

  /** The state both searches start from: the start cell, facing right, at score 0. */
  function Start(start: Point): BfsState {
    (0, (start, Right))
  }

  /** `path` is a run of moves from the start: each state follows the one
      before it, so each score is the sum of the moves' costs so far. */
  ghost predicate Chain(grid: Grid<char>, start: Point, path: seq<BfsState>)
    requires grid.Fits()
    reads grid, grid.content
  {
    path != [] && path[0] == Start(start) &&
    forall i :: 0 < i < |path| ==> Follows(grid, path[i - 1], path[i])
  }

  /** Some run of moves from the start ends in `s`. */
  ghost predicate Reached(grid: Grid<char>, start: Point, s: BfsState)
    requires grid.Fits()
    reads grid, grid.content
  {
    exists path :: Chain(grid, start, path) && path[|path| - 1] == s
  }

  /** Every state of `states` is reached. */
  ghost predicate AllReached(grid: Grid<char>, start: Point, states: seq<BfsState>)
    requires grid.Fits()
    reads grid, grid.content
  {
    forall e :: e in states ==> Reached(grid, start, e)
  }

  /** `p` is an 'E' cell of the map. */
  predicate OnEnd(grid: Grid<char>, p: Point)
    requires grid.Fits()
    reads grid, grid.content
  {
    InBounds(p, grid.Size()) && Cell(grid, p) == 'E'
  }

  /** The start state is reached by the run of no moves. */
  lemma ReachedStart(grid: Grid<char>, start: Point)
    requires grid.Fits()
    ensures Reached(grid, start, Start(start))
  {
    assert Chain(grid, start, [Start(start)]);
  }

  /** A state that follows a reached one is reached: the run one move longer. */
  lemma ReachedFollows(grid: Grid<char>, start: Point, s: BfsState, e: BfsState)
    requires grid.Fits() && Reached(grid, start, s) && Follows(grid, s, e)
    ensures Reached(grid, start, e)
  {
    var path :| Chain(grid, start, path) && path[|path| - 1] == s;
    var longer := path + [e];
    assert forall i :: 0 <= i < |path| ==> longer[i] == path[i];
    assert Chain(grid, start, longer);
  }

  /** Queuing states that follow a reached queued one keeps every queued state reached. */
  lemma PushReached(grid: Grid<char>, start: Point, queue: seq<BfsState>, rest: seq<BfsState>,
                    state: BfsState, added: seq<BfsState>)
    requires grid.Fits() && AllReached(grid, start, queue) && state in queue
    requires forall e :: e in rest ==> e in queue
    requires forall e :: e in added ==> Follows(grid, state, e)
    ensures AllReached(grid, start, rest + added)
  {
    forall e | e in rest + added
      ensures Reached(grid, start, e)
    {
      if e in added {
        ReachedFollows(grid, start, state, e);
      }
    }
  }

  /** A recorded 'E' state is a reached one on an 'E' cell with the best score. */
  lemma FoundReached(grid: Grid<char>, start: Point, states: seq<BfsState>, best: Option<nat>, endPos: Option<Point>)
    requires grid.Fits() && OnGrid(grid, states) && Found(grid, states, best, endPos)
    requires AllReached(grid, start, states)
    ensures best.Some? ==> exists s :: Reached(grid, start, s) && OnEnd(grid, s.1.0) && s.0 == best.value
  {
    if best.Some? {
      var k :| 0 <= k < |states| && Cell(grid, states[k].1.0) == 'E';
      assert states[k] in states;
      assert OnEnd(grid, states[k].1.0);
    }
  }

  /** The direction behind `d`: two quarter turns. */
  function Behind(d: Direction): Direction {
    Turn(Turn(d, Clockwise), Clockwise)
  }

  /** Every direction is straight on, a quarter turn either way, or behind. */
  lemma FourWays(dir: Direction, d: Direction)
    ensures d == dir || d == Turn(dir, AntiClockwise) || d == Turn(dir, Clockwise) || d == Behind(dir)
  {
  }

  /** The cells of a map of the given size. */
  function Cells(size: (nat, nat)): (s: set<Point>)
    ensures forall p :: p in s <==> InBounds(p, size)
  {
    var s := set x: nat, y: nat | x < size.0 && y < size.1 :: Point(x, y);
    assert forall p :: InBounds(p, size) ==> p in s by {
      forall p | InBounds(p, size)
        ensures p in s
      {
        assert Point(p.x, p.y) in s;
      }
    }
    s
  }

  // ---------------------------------------------------------------- part 1 closure

  /** The cells of the queued states. */
  ghost function CellsOf(queue: seq<BfsState>): set<Point> {
    set e | e in queue :: e.1.0
  }

  /** How many queued states stand on a visited cell. */
  ghost function StaleCells(queue: seq<BfsState>, visited: set<Point>): nat {
    if queue == [] then 0 else (if queue[0].1.0 in visited then 1 else 0) + StaleCells(queue[1..], visited)
  }

  lemma StaleCellsAppend(a: seq<BfsState>, b: seq<BfsState>, visited: set<Point>)
    ensures StaleCells(a + b, visited) == StaleCells(a, visited) + StaleCells(b, visited)
  {
    if a == [] {
      assert a + b == b;
    } else {
      assert (a + b)[0] == a[0] && (a + b)[1..] == a[1..] + b;
      StaleCellsAppend(a[1..], b, visited);
    }
  }

  /** States on cells not yet visited count nothing. */
  lemma StaleCellsNone(queue: seq<BfsState>, visited: set<Point>)
    requires forall e :: e in queue ==> e.1.0 !in visited
    ensures StaleCells(queue, visited) == 0
  {
    if queue != [] {
      assert forall e :: e in queue[1..] ==> e in queue;
      StaleCellsNone(queue[1..], visited);
    }
  }

  /** Taking out entry `i` lowers the count by one exactly when its cell is
      visited, and every other entry's cell stays queued. */
  lemma RemoveCells(queue: seq<BfsState>, i: nat, visited: set<Point>)
    requires i < |queue|
    ensures StaleCells(queue, visited) ==
      StaleCells(queue[..i] + queue[i + 1..], visited) + (if queue[i].1.0 in visited then 1 else 0)
    ensures CellsOf(queue) <= CellsOf(queue[..i] + queue[i + 1..]) + {queue[i].1.0}
  {
    var rest := queue[..i] + queue[i + 1..];
    assert queue == queue[..i] + ([queue[i]] + queue[i + 1..]);
    StaleCellsAppend(queue[..i], [queue[i]] + queue[i + 1..], visited);
    StaleCellsAppend(queue[..i], queue[i + 1..], visited);
    assert ([queue[i]] + queue[i + 1..])[1..] == queue[i + 1..];
    forall c | c in CellsOf(queue)
      ensures c in CellsOf(rest) + {queue[i].1.0}
    {
      var e :| e in queue && e.1.0 == c;
      var k :| 0 <= k < |queue| && queue[k] == e;
      if k < i {
        assert rest[k] == e;
      } else if k > i {
        assert rest[k - 1] == e;
      }
    }
  }

  /** The visited cells are on the map and none is an 'E' cell. */
  ghost predicate VisitedOk(grid: Grid<char>, visited: set<Point>)
    requires grid.Fits()
    reads grid, grid.content
  {
    forall v :: v in visited ==> InBounds(v, grid.Size()) && Cell(grid, v) != 'E'
  }

  /** Every open neighbour of a visited cell is visited or queued, except
      for the move from the start to its left: the start state faces right,
      and a move never goes back the way its state came. */
  ghost predicate Closed(grid: Grid<char>, start: Point, visited: set<Point>, queue: seq<BfsState>)
    requires grid.Fits()
    reads grid, grid.content
  {
    forall v, d :: v in visited && InBounds(v, grid.Size()) && Open(grid, v, d).Some? && !(v == start && d == Left) ==>
      Open(grid, v, d).value in visited || Open(grid, v, d).value in CellsOf(queue)
  }

  /** Behind every queued state is a visited cell: the one its move came from. */
  ghost predicate CameFrom(grid: Grid<char>, queue: seq<BfsState>, visited: set<Point>)
    reads grid
  {
    forall e :: e in queue ==>
      Advance(e.1.0, Behind(e.1.1), grid.Size()).Some? && Advance(e.1.0, Behind(e.1.1), grid.Size()).value in visited
  }

  /** Visiting the popped state's cell and queuing its moves keeps every
      open neighbour of a visited cell visited or queued. The cell behind the
      popped state was visited already, unless it is the start state. */
  lemma ClosedStep(grid: Grid<char>, start: Point, visited: set<Point>, queue: seq<BfsState>,
                   rest: seq<BfsState>, state: BfsState)
    requires grid.Fits() && InBounds(state.1.0, grid.Size())
    requires Closed(grid, start, visited, queue)
    requires CellsOf(queue) <= CellsOf(rest) + {state.1.0}
    requires state != Start(start) ==>
      Advance(state.1.0, Behind(state.1.1), grid.Size()).Some? &&
      Advance(state.1.0, Behind(state.1.1), grid.Size()).value in visited
    ensures Closed(grid, start, visited + {state.1.0}, rest + Moves(grid, state, visited + {state.1.0}))
  {
    var seen := visited + {state.1.0};
    var moves := Moves(grid, state, seen);
    var queue' := rest + moves;
    forall v, d | v in seen && InBounds(v, grid.Size()) && Open(grid, v, d).Some? && !(v == start && d == Left)
      ensures Open(grid, v, d).value in seen || Open(grid, v, d).value in CellsOf(queue')
    {
      var n := Open(grid, v, d).value;
      if n !in seen {
        if v in visited {
          assert n in CellsOf(rest);
          var e :| e in rest && e.1.0 == n;
          assert e in queue';
        } else {
          FourWays(state.1.1, d);
          if d != Behind(state.1.1) {
            MovesComplete(grid, state, seen, d);
            var e := (if d == state.1.1 then state.0 + 1 else state.0 + 1001, (n, d));
            assert e in queue';
          }
        }
      }
    }
  }

  /** The moves queued from a state have that state's cell behind them. */
  lemma CameFromStep(grid: Grid<char>, rest: seq<BfsState>, visited: set<Point>, state: BfsState)
    requires grid.Fits() && InBounds(state.1.0, grid.Size())
    requires CameFrom(grid, rest, visited)
    ensures CameFrom(grid, rest + Moves(grid, state, visited + {state.1.0}), visited + {state.1.0})
  {
    var seen := visited + {state.1.0};
    var moves := Moves(grid, state, seen);
    MovesSound(grid, state, seen);
    forall e | e in rest + moves
      ensures Advance(e.1.0, Behind(e.1.1), grid.Size()).Some? && Advance(e.1.0, Behind(e.1.1), grid.Size()).value in seen
    {
      if e in moves {
        AdvanceThenBack(state.1.0, e.1.1, grid.Size(), 1);
      }
    }
  }

  /** Once nothing is queued, every run of moves from the start that never
      leaves the start to its left stays on visited cells. */
  lemma {:induction false} ChainVisited(grid: Grid<char>, start: Point, visited: set<Point>, path: seq<BfsState>, i: nat)
    requires grid.Fits() && Closed(grid, start, visited, []) && VisitedOk(grid, visited) && start in visited
    requires Chain(grid, start, path) && !LeavesStartLeft(start, path) && i < |path|
    ensures path[i].1.0 in visited
  {
    if i > 0 {
      ChainVisited(grid, start, visited, path, i - 1);
      var v, d := path[i - 1].1.0, path[i].1.1;
      assert Follows(grid, path[i - 1], path[i]);
      assert Open(grid, v, d) == Some(path[i].1.0);
      assert !(v == start && d == Left);
    }
  }

  /** Some move of `path` leaves the start cell to its left, the side the
      reindeer has behind it at the start. */
  ghost predicate LeavesStartLeft(start: Point, path: seq<BfsState>) {
    exists i :: 0 < i < |path| && path[i - 1].1.0 == start && path[i].1.1 == Left
  }

  // ---------------------------------------------------------------- part 1 search

  /** How part 1 ends: the score of an 'E' state, or an empty heap (the
      "Failed to find best score" error). */
  datatype Outcome = Best(score: nat) | NotFound

  /** What the part 1 loop keeps true of its heap and the popped states:
      the heap's bounds, the popped states in order and off 'E' cells, the
      start state first, and every queued state reached. */
  ghost predicate Heap1(grid: Grid<char>, start: Point, queue: seq<BfsState>, popped: seq<BfsState>)
    requires grid.Fits()
    reads grid, grid.content
  {
    QueueOk(grid, queue, popped) && Nondecreasing(popped) && OnGrid(grid, popped) && NoEnd(grid, popped) &&
    (popped == [] ==> queue == [Start(start)]) && (popped != [] ==> popped[0] == Start(start)) &&
    AllReached(grid, start, queue)
  }

  /** What the part 1 loop keeps true of its visited cells: off 'E' cells,
      each queued state one move on from a visited cell, and every open
      neighbour of a visited cell visited or queued. */
  ghost predicate Frontier1(grid: Grid<char>, start: Point, queue: seq<BfsState>, visited: set<Point>, popped: seq<BfsState>)
    requires grid.Fits()
    reads grid, grid.content
  {
    (popped == [] ==> visited == {}) &&
    (popped != [] ==> start in visited && CameFrom(grid, queue, visited)) &&
    VisitedOk(grid, visited) && Closed(grid, start, visited, queue)
  }

  /** The part 1 loop invariant: `Heap1` and `Frontier1` together. */
  ghost predicate Search1(grid: Grid<char>, start: Point, queue: seq<BfsState>, visited: set<Point>, popped: seq<BfsState>)
    requires grid.Fits()
    reads grid, grid.content
  {
    QueueOk(grid, queue, popped) && Nondecreasing(popped) && OnGrid(grid, popped) && NoEnd(grid, popped) &&
    (popped == [] ==> queue == [Start(start)] && visited == {}) &&
    (popped != [] ==> popped[0] == Start(start) && start in visited && CameFrom(grid, queue, visited)) &&
    AllReached(grid, start, queue) && VisitedOk(grid, visited) && Closed(grid, start, visited, queue)
  }

  /** Popping `queue[i]`, a least state not on an 'E' cell, and pushing its
      moves keeps `Heap1`. */
  lemma Heap1Step(grid: Grid<char>, start: Point, queue: seq<BfsState>, visited: set<Point>, popped: seq<BfsState>, i: nat)
    requires grid.Fits() && Heap1(grid, start, queue, popped) && i < |queue|
    requires forall e :: e in queue ==> queue[i].0 <= e.0
    requires InBounds(queue[i].1.0, grid.Size()) && Cell(grid, queue[i].1.0) != 'E'
    ensures Heap1(grid, start, queue[..i] + queue[i + 1..] + Moves(grid, queue[i], visited + {queue[i].1.0}), popped + [queue[i]])
  {
    var state, rest := queue[i], queue[..i] + queue[i + 1..];
    var moves := Moves(grid, state, visited + {state.1.0});
    assert state in queue;
    assert forall e :: e in rest ==> e in queue;
    PopKeeps(grid, queue, rest, state, popped);
    NoEndKeeps(grid, popped, state);
    MovesSound(grid, state, visited + {state.1.0});
    PushReached(grid, start, queue, rest, state, moves);
    PushKeeps(grid, rest, popped + [state], state, moves);
  }

  /** Visiting the cell of the popped state `queue[i]`, not an 'E' cell, and
      pushing its moves keeps `Frontier1`. */
  lemma Frontier1Step(grid: Grid<char>, start: Point, queue: seq<BfsState>, visited: set<Point>, popped: seq<BfsState>, i: nat)
    requires grid.Fits() && Frontier1(grid, start, queue, visited, popped) && i < |queue|
    requires popped == [] ==> queue == [Start(start)]
    requires InBounds(queue[i].1.0, grid.Size()) && Cell(grid, queue[i].1.0) != 'E'
    ensures Frontier1(grid, start, queue[..i] + queue[i + 1..] + Moves(grid, queue[i], visited + {queue[i].1.0}),
                      visited + {queue[i].1.0}, popped + [queue[i]])
  {
    var state, rest := queue[i], queue[..i] + queue[i + 1..];
    assert state in queue;
    RemoveCells(queue, i, visited);
    ClosedStep(grid, start, visited, queue, rest, state);
    if popped == [] {
      assert rest == [];
      assert CameFrom(grid, rest + Moves(grid, state, visited + {state.1.0}), visited + {state.1.0}) by {
        CameFromStep(grid, rest, visited, state);
      }
    } else {
      assert forall e :: e in rest ==> e in queue;
      CameFromStep(grid, rest, visited, state);
    }
  }

  /** Popping `queue[i]` and pushing its moves either visits a new cell or
      leaves fewer queued states on visited cells. */
  lemma Measure1Step(grid: Grid<char>, queue: seq<BfsState>, visited: set<Point>, i: nat)
    requires grid.Fits() && i < |queue| && InBounds(queue[i].1.0, grid.Size())
    ensures var visited' := visited + {queue[i].1.0};
      var queue' := queue[..i] + queue[i + 1..] + Moves(grid, queue[i], visited');
      |Cells(grid.Size()) - visited'| < |Cells(grid.Size()) - visited| ||
      (|Cells(grid.Size()) - visited'| == |Cells(grid.Size()) - visited| &&
       StaleCells(queue', visited') < StaleCells(queue, visited))
  {
    var state, rest := queue[i], queue[..i] + queue[i + 1..];
    var visited' := visited + {state.1.0};
    var moves := Moves(grid, state, visited');
    RemoveCells(queue, i, visited);
    MovesSound(grid, state, visited');
    StaleCellsNone(moves, visited');
    StaleCellsAppend(rest, moves, visited');
    if state.1.0 !in visited {
      Shrinks(Cells(grid.Size()), visited, state.1.0);
    } else {
      assert visited' == visited;
    }
  }

  /** One pass of the part 1 loop that pops `queue[i]`, a least state not on
      an 'E' cell, keeps `Search1`, and either visits a new cell or leaves
      fewer queued states on visited cells. */
  lemma Step1(grid: Grid<char>, start: Point, queue: seq<BfsState>, visited: set<Point>, popped: seq<BfsState>, i: nat,
              queue': seq<BfsState>, visited': set<Point>, popped': seq<BfsState>)
    requires grid.Fits() && Search1(grid, start, queue, visited, popped) && i < |queue|
    requires forall e :: e in queue ==> queue[i].0 <= e.0
    requires InBounds(queue[i].1.0, grid.Size()) && Cell(grid, queue[i].1.0) != 'E'
    requires visited' == visited + {queue[i].1.0} && popped' == popped + [queue[i]]
    requires queue' == queue[..i] + queue[i + 1..] + Moves(grid, queue[i], visited')
    ensures Search1(grid, start, queue', visited', popped')
    ensures |Cells(grid.Size()) - visited'| < |Cells(grid.Size()) - visited| ||
      (|Cells(grid.Size()) - visited'| == |Cells(grid.Size()) - visited| &&
       StaleCells(queue', visited') < StaleCells(queue, visited))
  {
    Heap1Step(grid, start, queue, visited, popped, i);
    Frontier1Step(grid, start, queue, visited, popped, i);
    Measure1Step(grid, queue, visited, i);
  }

  /** The part 1 loop starts with the start state queued and nothing visited. */
  lemma Search1Start(grid: Grid<char>, start: Point)
    requires grid.Fits() && InBounds(start, grid.Size())
    ensures Search1(grid, start, [Start(start)], {}, [])
  {
    ReachedStart(grid, start);
  }

  /** A least state popped is on the map and reached, and scores at least
      as much as every state popped before it. */
  lemma Search1Pop(grid: Grid<char>, start: Point, queue: seq<BfsState>, visited: set<Point>, popped: seq<BfsState>, i: nat)
    requires grid.Fits() && Search1(grid, start, queue, visited, popped) && i < |queue|
    requires forall e :: e in queue ==> queue[i].0 <= e.0
    ensures InBounds(queue[i].1.0, grid.Size())
    ensures Nondecreasing(popped) && OnGrid(grid, popped) && NoEnd(grid, popped)
    ensures popped != [] ==> popped[0] == Start(start)
    ensures forall k :: 0 <= k < |popped| ==> popped[k].0 <= queue[i].0
    ensures Cell(grid, queue[i].1.0) == 'E' ==>
      exists s :: Reached(grid, start, s) && OnEnd(grid, s.1.0) && s.0 == queue[i].0
  {
    assert queue[i] in queue;
    assert Reached(grid, start, queue[i]);
  }

  /** When the heap is empty, no run of moves from the start that never
      leaves the start to its left reaches an 'E' cell. */
  lemma Search1Empty(grid: Grid<char>, start: Point, visited: set<Point>, popped: seq<BfsState>)
    requires grid.Fits() && Search1(grid, start, [], visited, popped)
    ensures Nondecreasing(popped) && OnGrid(grid, popped) && NoEnd(grid, popped)
    ensures popped != [] ==> popped[0] == Start(start)
    ensures forall path: seq<BfsState> :: Chain(grid, start, path) && !LeavesStartLeft(start, path) ==>
      !OnEnd(grid, path[|path| - 1].1.0)
  {
    forall path: seq<BfsState> | Chain(grid, start, path) && !LeavesStartLeft(start, path)
      ensures !OnEnd(grid, path[|path| - 1].1.0)
    {
      ChainVisited(grid, start, visited, path, |path| - 1);
    }
  }

  /** `calculate_p1`: pop a least-score state, mark its cell visited, stop
      at an 'E' cell, push its moves. A best score is that of a run of moves
      from the start to an 'E' cell, and no state popped before scores more.
      An empty heap means no 'E' cell can be reached without moving from the
      start to its left: cells, not cells with directions, are marked
      visited, so the start cell is never entered again, and the move to
      its left is never queued. `popped` lists the states that came off the
      heap before the answer, in order. */
  method CalculateP1(grid: Grid<char>, start: Point) returns (r: Outcome, ghost popped: seq<BfsState>)
    requires grid.Fits() && InBounds(start, grid.Size())
    ensures Nondecreasing(popped) && OnGrid(grid, popped) && NoEnd(grid, popped)
    ensures popped != [] ==> popped[0] == Start(start)
    ensures r.Best? ==> exists s :: Reached(grid, start, s) && OnEnd(grid, s.1.0) && s.0 == r.score
    ensures r.Best? ==> forall k :: 0 <= k < |popped| ==> popped[k].0 <= r.score
    ensures r.NotFound? ==>
      forall path: seq<BfsState> :: Chain(grid, start, path) && !LeavesStartLeft(start, path) ==> !OnEnd(grid, path[|path| - 1].1.0)
  {
    var queue: seq<BfsState> := [Start(start)];
    var visited: set<Point> := {};
    popped := [];
    Search1Start(grid, start);
    while queue != []
      invariant Search1(grid, start, queue, visited, popped)
      decreases |Cells(grid.Size()) - visited|, StaleCells(queue, visited)
    {
      var (state, rest) := Pop(queue);
      ghost var i: nat :| Greatest(queue, i) && queue[i] == state && rest == queue[..i] + queue[i + 1..];
      GreatestIsLeast(queue, i);
      Search1Pop(grid, start, queue, visited, popped, i);
      if Cell(grid, state.1.0) == 'E' {
        return Best(state.0), popped;
      }
      var visited' := visited + {state.1.0};
      var queue' := rest + Moves(grid, state, visited');
      Step1(grid, start, queue, visited, popped, i, queue', visited', popped + [state]);
      queue, visited, popped := queue', visited', popped + [state];
    }
    Search1Empty(grid, start, visited, popped);
    return NotFound, popped;
  }

  // ---------------------------------------------------------------- part 2

  /** One `if let Some(..) = state.pos.advance(..)` block of part 2, where a
      state is skipped when its cell and direction were visited together. */
  function Candidate2(grid: Grid<char>, pos: Point, dir: Direction, score: nat, visited: set<Pose>): (r: seq<BfsState>)
    requires grid.Fits() && InBounds(pos, grid.Size())
    reads grid, grid.content
    ensures |r| <= 1
    ensures r != [] <==> Open(grid, pos, dir).Some? && (Open(grid, pos, dir).value, dir) !in visited
    ensures r != [] ==> r[0] == (score, (Open(grid, pos, dir).value, dir))
  {
    match Open(grid, pos, dir)
    case None => []
    case Some(next) => if (next, dir) !in visited then [(score, (next, dir))] else []
  }

  /** What part 2 pushes after popping `s`. */
  function Moves2(grid: Grid<char>, s: BfsState, visited: set<Pose>): (r: seq<BfsState>)
    requires grid.Fits() && InBounds(s.1.0, grid.Size())
    reads grid, grid.content
  {
    var score, pos, dir := s.0, s.1.0, s.1.1;
    Candidate2(grid, pos, dir, score + 1, visited)
      + Candidate2(grid, pos, Turn(dir, AntiClockwise), score + 1001, visited)
      + Candidate2(grid, pos, Turn(dir, Clockwise), score + 1001, visited)
  }

  /** Every state part 2 pushes follows the popped one, and its cell and
      direction were not yet visited together. */
  lemma Moves2Sound(grid: Grid<char>, s: BfsState, visited: set<Pose>)
    requires grid.Fits() && InBounds(s.1.0, grid.Size())
    ensures forall e :: e in Moves2(grid, s, visited) ==> Follows(grid, s, e) && e.1 !in visited
  {
    var score, pos, dir := s.0, s.1.0, s.1.1;
    var forward := Candidate2(grid, pos, dir, score + 1, visited);
    var left := Candidate2(grid, pos, Turn(dir, AntiClockwise), score + 1001, visited);
    var right := Candidate2(grid, pos, Turn(dir, Clockwise), score + 1001, visited);
    assert Moves2(grid, s, visited) == forward + left + right;
    forall e | e in Moves2(grid, s, visited)
      ensures Follows(grid, s, e) && e.1 !in visited
    {
      assert e in forward || e in left || e in right;
    }
  }

  /** Part 2 pushes every open neighbour whose cell and direction were not
      yet visited together. */
  lemma Moves2Complete(grid: Grid<char>, s: BfsState, visited: set<Pose>, d: Direction)
    requires grid.Fits() && InBounds(s.1.0, grid.Size())
    requires d == s.1.1 || d == Turn(s.1.1, AntiClockwise) || d == Turn(s.1.1, Clockwise)
    requires Open(grid, s.1.0, d).Some? && (Open(grid, s.1.0, d).value, d) !in visited
    ensures (if d == s.1.1 then s.0 + 1 else s.0 + 1001, (Open(grid, s.1.0, d).value, d)) in Moves2(grid, s, visited)
  {
    var score, pos, dir := s.0, s.1.0, s.1.1;
    var forward := Candidate2(grid, pos, dir, score + 1, visited);
    var left := Candidate2(grid, pos, Turn(dir, AntiClockwise), score + 1001, visited);
    var right := Candidate2(grid, pos, Turn(dir, Clockwise), score + 1001, visited);
    assert Moves2(grid, s, visited) == forward + left + right;
  }

  /** What the part 2 loop has found: `best` is the score of every 'E'
      state popped so far, `endPos` the cell of the last one, and no state
      popped scores more than `best`. */
  predicate Found(grid: Grid<char>, states: seq<BfsState>, best: Option<nat>, endPos: Option<Point>)
    requires grid.Fits() && OnGrid(grid, states)
    reads grid, grid.content
  {
    (best.Some? <==> endPos.Some?) &&
    (best.Some? <==> exists k :: 0 <= k < |states| && Cell(grid, states[k].1.0) == 'E') &&
    (forall k :: 0 <= k < |states| && Cell(grid, states[k].1.0) == 'E' ==> best == Some(states[k].0)) &&
    (endPos.Some? ==> InBounds(endPos.value, grid.Size()) && Cell(grid, endPos.value) == 'E') &&
    (best.Some? ==> forall k :: 0 <= k < |states| ==> states[k].0 <= best.value)
  }

  /** `d2` is `d` or a quarter turn from it: the directions part 2 moves on in. */
  predicate Onward(d: Direction, d2: Direction) {
    d2 == d || d2 == Turn(d, AntiClockwise) || d2 == Turn(d, Clockwise)
  }

  /** Every visited cell and direction off an 'E' cell has each open onward
      cell, with the direction moved in, visited or queued. */
  ghost predicate Closed2(grid: Grid<char>, visited: set<Pose>, queue: seq<BfsState>)
    requires grid.Fits()
    reads grid, grid.content
  {
    forall x, d :: (x in visited && InBounds(x.0, grid.Size()) && Cell(grid, x.0) != 'E' && Onward(x.1, d) &&
      Open(grid, x.0, d).Some?) ==>
      (Open(grid, x.0, d).value, d) in visited || (Open(grid, x.0, d).value, d) in States(queue)
  }

  /** The visited poses are on the map; while no best score is known none
      is on an 'E' cell. */
  ghost predicate Visited2Ok(grid: Grid<char>, visited: set<Pose>, best: Option<nat>)
    requires grid.Fits()
    reads grid, grid.content
  {
    forall x :: x in visited ==> InBounds(x.0, grid.Size()) && (best.None? ==> Cell(grid, x.0) != 'E')
  }

  /** Every cell of the map with every direction. */
  function Poses(size: (nat, nat)): (s: set<Pose>)
    ensures forall x :: x in s <==> InBounds(x.0, size)
  {
    var s := set p, d | p in Cells(size) && d in {Up, Right, Down, Left} :: (p, d);
    assert forall x: Pose :: InBounds(x.0, size) ==> x in s by {
      forall x: Pose | InBounds(x.0, size)
        ensures x in s
      {
        var (p, d) := x;
        assert p in Cells(size);
        assert d in {Up, Right, Down, Left} by {
          assert d == Up || d == Right || d == Down || d == Left;
        }
        assert (p, d) in s;
      }
    }
    s
  }

  /** Visiting the popped pose, and queuing its moves unless it is on an
      'E' cell, keeps every open onward pose of a visited one visited or queued. */
  lemma Closed2Step(grid: Grid<char>, visited: set<Pose>, queue: seq<BfsState>, rest: seq<BfsState>,
                    state: BfsState, added: seq<BfsState>)
    requires grid.Fits() && InBounds(state.1.0, grid.Size())
    requires Closed2(grid, visited, queue)
    requires States(queue) <= States(rest) + {state.1}
    requires Cell(grid, state.1.0) != 'E' ==> added == Moves2(grid, state, visited + {state.1})
    ensures Closed2(grid, visited + {state.1}, rest + added)
  {
    var seen := visited + {state.1};
    var queue' := rest + added;
    forall x, d | x in seen && InBounds(x.0, grid.Size()) && Cell(grid, x.0) != 'E' && Onward(x.1, d) &&
      Open(grid, x.0, d).Some?
      ensures (Open(grid, x.0, d).value, d) in seen || (Open(grid, x.0, d).value, d) in States(queue')
    {
      var y := (Open(grid, x.0, d).value, d);
      if y !in seen {
        if x in visited {
          assert y in States(rest);
          var e :| e in rest && e.1 == y;
          assert e in queue';
        } else {
          Moves2Complete(grid, state, seen, d);
          var e := (if d == state.1.1 then state.0 + 1 else state.0 + 1001, y);
          assert e in queue';
        }
      }
    }
  }

  /** Once nothing is queued and no 'E' cell was visited, every run of
      moves from the start stays on visited poses. */
  lemma {:induction false} ChainVisited2(grid: Grid<char>, start: Point, visited: set<Pose>, path: seq<BfsState>, i: nat)
    requires grid.Fits() && Closed2(grid, visited, []) && Visited2Ok(grid, visited, None) && (start, Right) in visited
    requires Chain(grid, start, path) && i < |path|
    ensures path[i].1 in visited
  {
    if i > 0 {
      ChainVisited2(grid, start, visited, path, i - 1);
      var x, d := path[i - 1].1, path[i].1.1;
      assert Follows(grid, path[i - 1], path[i]);
      assert Onward(x.1, d);
      assert Open(grid, x.0, d) == Some(path[i].1.0);
    }
  }

  /** What the part 2 loop keeps true: the heap's bounds, the recorded
      states in order with the best score and end cell in step, every queued
      and recorded state reached, and the visited poses closed under open
      onward moves up to the queue. */
  ghost predicate Search2(grid: Grid<char>, start: Point, queue: seq<BfsState>, visited: set<Pose>,
                          states: seq<BfsState>, best: Option<nat>, endPos: Option<Point>)
    requires grid.Fits()
    reads grid, grid.content
  {
    QueueOk(grid, queue, states) && Nondecreasing(states) && OnGrid(grid, states) &&
    Found(grid, states, best, endPos) &&
    (states == [] ==> queue == [Start(start)] && visited == {}) &&
    (states != [] ==> states[0] == Start(start) && (start, Right) in visited) &&
    AllReached(grid, start, queue) && AllReached(grid, start, states) &&
    Visited2Ok(grid, visited, best) && Closed2(grid, visited, queue)
  }

  /** The part 2 loop starts with the start state queued and nothing visited. */
  lemma Search2Start(grid: Grid<char>, start: Point)
    requires grid.Fits() && InBounds(start, grid.Size())
    ensures Search2(grid, start, [Start(start)], {}, [], None, None)
  {
    ReachedStart(grid, start);
  }

  /** The heap after recording and expanding a popped state of part 2. */
  function Queue2(grid: Grid<char>, state: BfsState, rest: seq<BfsState>, visited: set<Pose>): seq<BfsState>
    requires grid.Fits() && InBounds(state.1.0, grid.Size())
    reads grid, grid.content
  {
    if Cell(grid, state.1.0) == 'E' then rest else rest + Moves2(grid, state, visited)
  }

  /** What the part 2 loop keeps true of its heap and the recorded states:
      the heap's bounds, the recorded states in order with the best score
      and end cell in step, the start state first, and every queued and
      recorded state reached. */
  ghost predicate Heap2(grid: Grid<char>, start: Point, queue: seq<BfsState>, states: seq<BfsState>,
                        best: Option<nat>, endPos: Option<Point>)
    requires grid.Fits()
    reads grid, grid.content
  {
    QueueOk(grid, queue, states) && Nondecreasing(states) && OnGrid(grid, states) &&
    Found(grid, states, best, endPos) &&
    (states == [] ==> queue == [Start(start)]) && (states != [] ==> states[0] == Start(start)) &&
    AllReached(grid, start, queue) && AllReached(grid, start, states)
  }

  /** What the part 2 loop keeps true of its visited poses: on the map,
      off 'E' cells until a best score is known, and closed under open
      onward moves up to the queue. */
  ghost predicate Frontier2(grid: Grid<char>, start: Point, queue: seq<BfsState>, visited: set<Pose>,
                            states: seq<BfsState>, best: Option<nat>)
    requires grid.Fits()
    reads grid, grid.content
  {
    (states == [] ==> visited == {}) && (states != [] ==> (start, Right) in visited) &&
    Visited2Ok(grid, visited, best) && Closed2(grid, visited, queue)
  }

  /** Recording `queue[i]`, a least state scoring no more than the best,
      and queuing its moves unless it is on an 'E' cell keeps `Heap2`. */
  lemma Heap2Step(grid: Grid<char>, start: Point, queue: seq<BfsState>, states: seq<BfsState>,
                  best: Option<nat>, endPos: Option<Point>, i: nat,
                  queue': seq<BfsState>, visited': set<Pose>, best': Option<nat>, endPos': Option<Point>)
    requires grid.Fits() && Heap2(grid, start, queue, states, best, endPos) && i < |queue|
    requires forall e :: e in queue ==> queue[i].0 <= e.0
    requires best.Some? ==> queue[i].0 <= best.value
    requires InBounds(queue[i].1.0, grid.Size())
    requires queue' == Queue2(grid, queue[i], queue[..i] + queue[i + 1..], visited')
    requires best' == (if Cell(grid, queue[i].1.0) == 'E' then Some(queue[i].0) else best)
    requires endPos' == (if Cell(grid, queue[i].1.0) == 'E' then Some(queue[i].1.0) else endPos)
    ensures Heap2(grid, start, queue', states + [queue[i]], best', endPos')
  {
    var state, rest := queue[i], queue[..i] + queue[i + 1..];
    var added := if Cell(grid, state.1.0) == 'E' then [] else Moves2(grid, state, visited');
    assert queue' == rest + added;
    assert state in queue;
    assert forall e :: e in rest ==> e in queue;
    PopKeeps(grid, queue, rest, state, states);
    FoundStep(grid, states, best, endPos, state);
    Moves2Sound(grid, state, visited');
    PushReached(grid, start, queue, rest, state, added);
    assert AllReached(grid, start, states + [state]);
    PushKeeps(grid, rest, states + [state], state, added);
  }

  /** Visiting the pose of `queue[i]`, and queuing its moves unless it is on
      an 'E' cell, keeps `Frontier2`. */
  lemma Frontier2Step(grid: Grid<char>, start: Point, queue: seq<BfsState>, visited: set<Pose>,
                      states: seq<BfsState>, best: Option<nat>, i: nat,
                      queue': seq<BfsState>, visited': set<Pose>, best': Option<nat>)
    requires grid.Fits() && Frontier2(grid, start, queue, visited, states, best) && i < |queue|
    requires states == [] ==> queue == [Start(start)]
    requires InBounds(queue[i].1.0, grid.Size())
    requires visited' == visited + {queue[i].1}
    requires queue' == Queue2(grid, queue[i], queue[..i] + queue[i + 1..], visited')
    requires best' == (if Cell(grid, queue[i].1.0) == 'E' then Some(queue[i].0) else best)
    ensures Frontier2(grid, start, queue', visited', states + [queue[i]], best')
  {
    var state, rest := queue[i], queue[..i] + queue[i + 1..];
    var added := if Cell(grid, state.1.0) == 'E' then [] else Moves2(grid, state, visited');
    assert queue' == rest + added;
    RemoveCounts(queue, i, visited);
    Closed2Step(grid, visited, queue, rest, state, added);
  }

  /** Recording `queue[i]` either visits a new pose or leaves fewer queued
      states on visited poses. */
  lemma Measure2Step(grid: Grid<char>, queue: seq<BfsState>, visited: set<Pose>, i: nat,
                     queue': seq<BfsState>, visited': set<Pose>)
    requires grid.Fits() && i < |queue| && InBounds(queue[i].1.0, grid.Size())
    requires visited' == visited + {queue[i].1}
    requires queue' == Queue2(grid, queue[i], queue[..i] + queue[i + 1..], visited')
    ensures |Poses(grid.Size()) - visited'| < |Poses(grid.Size()) - visited| ||
      (|Poses(grid.Size()) - visited'| == |Poses(grid.Size()) - visited| && Stale(queue', visited') < Stale(queue, visited))
  {
    var state, rest := queue[i], queue[..i] + queue[i + 1..];
    var added := if Cell(grid, state.1.0) == 'E' then [] else Moves2(grid, state, visited');
    assert queue' == rest + added;
    RemoveCounts(queue, i, visited);
    Moves2Sound(grid, state, visited');
    StaleNone(added, visited');
    StaleAppend(rest, added, visited');
    if state.1 !in visited {
      Shrinks(Poses(grid.Size()), visited, state.1);
    } else {
      assert visited' == visited;
    }
  }

  /** One pass of the part 2 loop that records `queue[i]`, a least state
      scoring no more than the best, keeps `Search2`, and either visits a
      new pose or leaves fewer queued states on visited poses. */
  lemma Step2(grid: Grid<char>, start: Point, queue: seq<BfsState>, visited: set<Pose>,
              states: seq<BfsState>, best: Option<nat>, endPos: Option<Point>, i: nat,
              queue': seq<BfsState>, visited': set<Pose>, states': seq<BfsState>, best': Option<nat>, endPos': Option<Point>)
    requires grid.Fits() && Search2(grid, start, queue, visited, states, best, endPos) && i < |queue|
    requires forall e :: e in queue ==> queue[i].0 <= e.0
    requires best.Some? ==> queue[i].0 <= best.value
    requires InBounds(queue[i].1.0, grid.Size())
    requires visited' == visited + {queue[i].1} && states' == states + [queue[i]]
    requires queue' == Queue2(grid, queue[i], queue[..i] + queue[i + 1..], visited')
    requires best' == (if Cell(grid, queue[i].1.0) == 'E' then Some(queue[i].0) else best)
    requires endPos' == (if Cell(grid, queue[i].1.0) == 'E' then Some(queue[i].1.0) else endPos)
    ensures Search2(grid, start, queue', visited', states', best', endPos')
    ensures |Poses(grid.Size()) - visited'| < |Poses(grid.Size()) - visited| ||
      (|Poses(grid.Size()) - visited'| == |Poses(grid.Size()) - visited| && Stale(queue', visited') < Stale(queue, visited))
  {
    Heap2Step(grid, start, queue, states, best, endPos, i, queue', visited', best', endPos');
    Frontier2Step(grid, start, queue, visited, states, best, i, queue', visited', best');
    Measure2Step(grid, queue, visited, i, queue', visited');
  }

  /** When the part 2 loop ends, every recorded state is reached, a best
      score is that of a reached 'E' state, and without one no 'E' cell
      can be reached. */
  lemma Search2End(grid: Grid<char>, start: Point, queue: seq<BfsState>, visited: set<Pose>,
                   states: seq<BfsState>, best: Option<nat>, endPos: Option<Point>)
    requires grid.Fits() && InBounds(start, grid.Size())
    requires Search2(grid, start, queue, visited, states, best, endPos)
    requires best.None? ==> queue == []
    ensures states != [] && states[0] == Start(start)
    ensures best.Some? ==> exists s :: Reached(grid, start, s) && OnEnd(grid, s.1.0) && s.0 == best.value
    ensures best.None? ==> forall s :: Reached(grid, start, s) ==> !OnEnd(grid, s.1.0)
  {
    FoundReached(grid, start, states, best, endPos);
    if best.None? {
      forall s | Reached(grid, start, s)
        ensures !OnEnd(grid, s.1.0)
      {
        var path :| Chain(grid, start, path) && path[|path| - 1] == s;
        ChainVisited2(grid, start, visited, path, |path| - 1);
      }
    }
  }

  /** The search loop of `calculate_p2` (lines 118-180): pop a least-score
      state; stop once it scores more than the best found; otherwise record
      it and mark its pose visited; an 'E' state sets the best score and the
      end cell and is not expanded; any other state pushes its moves.
      Every recorded state is reached by a run of moves from the start, the
      first being the start; without a best score no 'E' cell can be reached
      at all, since cells are marked visited together with their direction. */
  method SearchP2(grid: Grid<char>, start: Point) returns (visitedStates: seq<BfsState>, best: Option<nat>, endPos: Option<Point>)
    requires grid.Fits() && InBounds(start, grid.Size())
    ensures visitedStates != [] && visitedStates[0] == Start(start)
    ensures Nondecreasing(visitedStates) && OnGrid(grid, visitedStates)
    ensures Found(grid, visitedStates, best, endPos)
    ensures AllReached(grid, start, visitedStates)
    ensures best.Some? ==> exists s :: Reached(grid, start, s) && OnEnd(grid, s.1.0) && s.0 == best.value
    ensures best.None? ==> forall s :: Reached(grid, start, s) ==> !OnEnd(grid, s.1.0)
  {
    var queue: seq<BfsState> := [Start(start)];
    var visited: set<Pose> := {};
    visitedStates := [];
    best := None;
    endPos := None;
    Search2Start(grid, start);
    while queue != []
      invariant Search2(grid, start, queue, visited, visitedStates, best, endPos)
      decreases |Poses(grid.Size()) - visited|, Stale(queue, visited)
    {
      var (state, rest) := Pop(queue);
      if best.Some? && state.0 > best.value {
        break;
      }
      ghost var i: nat :| Greatest(queue, i) && queue[i] == state && rest == queue[..i] + queue[i + 1..];
      GreatestIsLeast(queue, i);
      assert state in queue;
      var visited' := visited + {state.1};
      var best', endPos', queue';
      if Cell(grid, state.1.0) == 'E' {
        best', endPos', queue' := Some(state.0), Some(state.1.0), rest;
      } else {
        best', endPos', queue' := best, endPos, rest + Moves2(grid, state, visited');
      }
      Step2(grid, start, queue, visited, visitedStates, best, endPos, i, queue', visited', visitedStates + [state], best', endPos');
      queue, visited, visitedStates, best, endPos := queue', visited', visitedStates + [state], best', endPos';
    }
    Search2End(grid, start, queue, visited, visitedStates, best, endPos);
  }

  /** Recording a popped state that scores no more than the best (and no
      less than any earlier state) keeps `Found`, with the best and end
      cell updated when it is an 'E' state. */
  lemma FoundStep(grid: Grid<char>, states: seq<BfsState>, best: Option<nat>, endPos: Option<Point>, state: BfsState)
    requires grid.Fits() && OnGrid(grid, states)
    requires InBounds(state.1.0, grid.Size())
    requires Found(grid, states, best, endPos)
    requires best.Some? ==> state.0 <= best.value
    requires forall k :: 0 <= k < |states| ==> states[k].0 <= state.0
    ensures OnGrid(grid, states + [state])
    ensures var s := states + [state];
      var e := Cell(grid, state.1.0) == 'E';
      Found(grid, s, if e then Some(state.0) else best, if e then Some(state.1.0) else endPos)
  {
    var s := states + [state];
    assert s[|states|] == state;
    assert OnGrid(grid, s);
    assert forall k :: 0 <= k < |states| ==> s[k] == states[k];
  }
}
