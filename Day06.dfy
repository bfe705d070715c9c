/** Day 6 (day06/src/main.rs): a guard walks the map, turning clockwise in
    front of every '#', until it steps off the edge; part 2 counts the cells
    where one extra obstacle traps the guard in a loop. */
module Day06 {
  import opened Wrappers
  import opened Direction
  import opened Point
  import opened Board

  /** `GuardState`: where the guard stands and which way it faces. */
  datatype GuardState = GuardState(pos: Point, dir: Direction)

  function Size(b: Board): (nat, nat) {
    (Width(b), Height(b))
  }

  /** `GuardState::new`: the guard starts facing up. */
  function NewGuard(pos: Point): (g: GuardState)
    ensures g.pos == pos && g.dir == Up
  {
    GuardState(pos, Up)
  }

  /** `GuardState::turn`: a clockwise quarter turn on the spot. */
  function TurnGuard(g: GuardState): (t: GuardState)
    ensures t.pos == g.pos && t.dir != g.dir
    ensures Index(t.dir) == (Index(g.dir) + 1) % 4
  {
    TurnIsCyclicStep(g.dir, Clockwise);
    GuardState(g.pos, Turn(g.dir, Clockwise))
  }

  /** `GuardState::step`: one cell forward, `None` when that leaves the bounds. */
  function StepGuard(g: GuardState, bounds: (nat, nat)): (r: Option<GuardState>)
    ensures r.Some? <==> Advance(g.pos, g.dir, bounds).Some?
    ensures r.Some? ==> r.value.dir == g.dir && r.value.pos != g.pos
    ensures r.Some? && InBounds(g.pos, bounds) ==> InBounds(r.value.pos, bounds)
  {
    match Advance(g.pos, g.dir, bounds)
    case None => None
    case Some(p) =>
      if InBounds(g.pos, bounds) then
        AdvanceStaysInBounds(g.pos, g.dir, bounds, 1);
        Some(GuardState(p, g.dir))
      else
        Some(GuardState(p, g.dir))
  }

  /** `GuardState::as_index`: the cell of the `(width, height, 4)` visited array. */
  function AsIndex(g: GuardState): (nat, nat, nat) {
    (g.pos.x, g.pos.y, Index(g.dir))
  }

  /** The index of a guard inside the bounds lies inside the visited array,
      and different guard states have different indices. */
  lemma AsIndexInArray(g: GuardState, h: GuardState, bounds: (nat, nat))
    ensures InBounds(g.pos, bounds) ==> AsIndex(g) in AllIndices(bounds.0, bounds.1)
    ensures AsIndex(g) == AsIndex(h) ==> g == h
  {
  }

  /** Every cell of a `w` by `h` by 4 array. */
  function AllIndices(w: nat, h: nat): set<(nat, nat, nat)> {
    set x: nat, y: nat, d: nat | x < w && y < h && d < 4 :: (x, y, d)
  }

  /** `k` clockwise quarter turns. */
  function Turns(d: Direction, k: nat): Direction {
    if k == 0 then d else Turn(Turns(d, k - 1), Clockwise)
  }

  /** A cell the guard cannot enter: a '#' of the map or the extra obstacle. */
  predicate Blocked(b: Board, ob: Option<Point>, p: Point) {
    CharAt(b, (p.x, p.y)) == Some('#') || ob == Some(p)
  }

  /** One pass of the walking loop: step forward unless the next cell is
      blocked, in which case turn; `None` once the step leaves the map. */
  function Move(b: Board, ob: Option<Point>, g: GuardState): Option<GuardState> {
    match StepGuard(g, Size(b))
    case None => None
    case Some(n) => if Blocked(b, ob, n.pos) then Some(TurnGuard(g)) else Some(n)
  }

  /** The loop pass as a value, so that facts about iterating it are proved once. */
  function Mover(b: Board, ob: Option<Point>): GuardState -> Option<GuardState> {
    g => Move(b, ob, g)
  }

  /** The state after `n` applications of `f`, or `None` once one of them fails. */
  function Iterate<S>(f: S -> Option<S>, s: S, n: nat): Option<S>
    decreases n
  {
    if n == 0 then Some(s)
    else
      match Iterate(f, s, n - 1)
      case None => None
      case Some(h) => f(h)
  }

  /** The guard after `n` passes of the loop. */
  function Walk(b: Board, ob: Option<Point>, g: GuardState, n: nat): Option<GuardState> {
    Iterate(Mover(b, ob), g, n)
  }

  /** The pass the loops perform, spelled out on a rectangular map. */
  lemma MoveCases(b: Board, ob: Option<Point>, g: GuardState)
    requires Rect(b) && InBounds(g.pos, Size(b)) && StepGuard(g, Size(b)).Some?
    ensures var p := StepGuard(g, Size(b)).value.pos;
      InBounds(p, Size(b)) &&
      (Blocked(b, ob, p) <==> At(b, (p.x, p.y)) == '#' || ob == Some(p)) &&
      Move(b, ob, g) == if At(b, (p.x, p.y)) == '#' || ob == Some(p) then Some(TurnGuard(g)) else StepGuard(g, Size(b))
  {
  }

  lemma WalkNext(b: Board, ob: Option<Point>, g: GuardState, n: nat, h: GuardState)
    requires Walk(b, ob, g, n) == Some(h)
    ensures Walk(b, ob, g, n + 1) == Move(b, ob, h)
  {
  }

  /** The walk leaves the map after finitely many passes. */
  ghost predicate Leaves(b: Board, ob: Option<Point>, g: GuardState) {
    exists n: nat :: Walk(b, ob, g, n) == None
  }

  /** Once an iteration has failed it stays failed. */
  lemma {:induction false} IterateNoneAbsorbing<S>(f: S -> Option<S>, s: S, i: nat, j: nat)
    ensures i <= j && Iterate(f, s, i) == None ==> Iterate(f, s, j) == None
    decreases j
  {
    if i < j {
      IterateNoneAbsorbing(f, s, i, j - 1);
    }
  }

  /** Iteration is deterministic: equal states stay equal step after step. */
  lemma {:induction false} IterateShift<S>(f: S -> Option<S>, s: S, i: nat, j: nat, m: nat)
    requires Iterate(f, s, i) == Iterate(f, s, j)
    ensures Iterate(f, s, i + m) == Iterate(f, s, j + m)
    decreases m
  {
    if m > 0 {
      IterateShift(f, s, i, j, m - 1);
      assert i + m - 1 == i + (m - 1) && j + m - 1 == j + (m - 1);
    }
  }

  /** An iteration that comes back to an earlier state never fails. */
  lemma {:induction false} IterateRepeat<S>(f: S -> Option<S>, s: S, i: nat, j: nat, n: nat)
    requires i < j && Iterate(f, s, j).Some? && Iterate(f, s, i) == Iterate(f, s, j)
    ensures Iterate(f, s, n).Some?
    decreases n
  {
    if n <= j {
      IterateNoneAbsorbing(f, s, n, j);
    } else {
      var m := n - j;
      IterateShift(f, s, i, j, m);
      IterateRepeat(f, s, i, j, i + m);
    }
  }

  /** Once the guard has left the map it stays gone. */
  lemma WalkNoneAbsorbing(b: Board, ob: Option<Point>, g: GuardState, i: nat, j: nat)
    ensures i <= j && Walk(b, ob, g, i) == None ==> Walk(b, ob, g, j) == None
  {
    IterateNoneAbsorbing(Mover(b, ob), g, i, j);
  }

  /** A guard inside the map stays inside it. */
  lemma {:induction false} WalkStaysInBounds(b: Board, ob: Option<Point>, g: GuardState, n: nat)
    requires InBounds(g.pos, Size(b))
    ensures Walk(b, ob, g, n).Some? ==> InBounds(Walk(b, ob, g, n).value.pos, Size(b))
    decreases n
  {
    if n > 0 {
      WalkStaysInBounds(b, ob, g, n - 1);
      if Walk(b, ob, g, n - 1).Some? {
        WalkNext(b, ob, g, n - 1, Walk(b, ob, g, n - 1).value);
      }
    }
  }

  /** The guard never stands on a blocked cell unless it started on one. */
  lemma {:induction false} WalkAvoidsBlocked(b: Board, ob: Option<Point>, g: GuardState, n: nat)
    requires !Blocked(b, ob, g.pos)
    ensures Walk(b, ob, g, n).Some? ==> !Blocked(b, ob, Walk(b, ob, g, n).value.pos)
    decreases n
  {
    if n > 0 {
      WalkAvoidsBlocked(b, ob, g, n - 1);
      if Walk(b, ob, g, n - 1).Some? {
        WalkNext(b, ob, g, n - 1, Walk(b, ob, g, n - 1).value);
      }
    }
  }

  /** A guard that comes back to a state it was in before walks forever. */
  lemma RepeatNeverLeaves(b: Board, ob: Option<Point>, g: GuardState, i: nat, j: nat)
    requires i < j && Walk(b, ob, g, j).Some? && Walk(b, ob, g, i) == Walk(b, ob, g, j)
    ensures !Leaves(b, ob, g)
  {
    forall n: nat ensures Walk(b, ob, g, n).Some? {
      IterateRepeat(Mover(b, ob), g, i, j, n);
    }
  }

  /** The cells stood on during the first `n` passes. */
  function Visited(b: Board, ob: Option<Point>, g: GuardState, n: nat): set<Point> {
    set i: nat | i <= n && Walk(b, ob, g, i).Some? :: Walk(b, ob, g, i).value.pos
  }

  /** Passes after the guard has left add no cells. */
  lemma VisitedStable(b: Board, ob: Option<Point>, g: GuardState, n: nat, m: nat)
    requires Walk(b, ob, g, n) == None && Walk(b, ob, g, m) == None
    ensures Visited(b, ob, g, n) == Visited(b, ob, g, m)
  {
    forall p | p in Visited(b, ob, g, n) ensures p in Visited(b, ob, g, m) {
      var i: nat :| i <= n && Walk(b, ob, g, i).Some? && Walk(b, ob, g, i).value.pos == p;
      WalkNoneAbsorbing(b, ob, g, m, i);
    }
    forall p | p in Visited(b, ob, g, m) ensures p in Visited(b, ob, g, n) {
      var i: nat :| i <= m && Walk(b, ob, g, i).Some? && Walk(b, ob, g, i).value.pos == p;
      WalkNoneAbsorbing(b, ob, g, n, i);
    }
  }

  lemma VisitedSnoc(b: Board, ob: Option<Point>, g: GuardState, n: nat)
    ensures Walk(b, ob, g, n + 1).Some? ==>
      Visited(b, ob, g, n + 1) == Visited(b, ob, g, n) + {Walk(b, ob, g, n + 1).value.pos}
    ensures Walk(b, ob, g, n + 1).None? ==> Visited(b, ob, g, n + 1) == Visited(b, ob, g, n)
  {
    if Walk(b, ob, g, n + 1).Some? {
      assert Walk(b, ob, g, n + 1).value.pos in Visited(b, ob, g, n + 1);
    }
  }

  /** The cells of the whole unobstructed walk from `pos`. */
  ghost function Trail(b: Board, pos: Point): set<Point>
    requires Leaves(b, None, NewGuard(pos))
  {
    var n: nat :| Walk(b, None, NewGuard(pos), n) == None;
    Visited(b, None, NewGuard(pos), n)
  }

  /** Position `k` of the enumeration holds the first '^'. */
  predicate FirstGuardAt(b: Board, k: nat) {
    var ps := Positions(Width(b), Height(b));
    k < |ps| && CharAt(b, ps[k]) == Some('^') && forall j :: 0 <= j < k ==> CharAt(b, ps[j]) != Some('^')
  }

  /** `parse_input`: the first '^' in enumeration order is the guard. */
  method FindGuard(b: Board) returns (r: Option<Point>)
    ensures r.None? ==> forall p :: p in Positions(Width(b), Height(b)) ==> CharAt(b, p) != Some('^')
    ensures r.Some? ==> CharAt(b, (r.value.x, r.value.y)) == Some('^')
    ensures r.Some? ==> exists k: nat :: FirstGuardAt(b, k) && Positions(Width(b), Height(b))[k] == (r.value.x, r.value.y)
  {
    var ps := Positions(Width(b), Height(b));
    for k := 0 to |ps|
      invariant forall j :: 0 <= j < k ==> CharAt(b, ps[j]) != Some('^')
    {
      if CharAt(b, ps[k]) == Some('^') {
        return Some(Point(ps[k].0, ps[k].1));
      }
    }
    return None;
  }

  /** `walk_unobstructed`: every cell the guard stands on until it leaves the
      map. A guard trapped in a loop never leaves, and then the source never
      returns; the precondition excludes that case. */
  method WalkUnobstructed(b: Board, pos: Point) returns (visited: set<Point>)
    requires Rect(b) && InBounds(pos, Size(b))
    requires Leaves(b, None, NewGuard(pos))
    ensures visited == Trail(b, pos)
  {
    var start := NewGuard(pos);
    ghost var n: nat :| Walk(b, None, start, n) == None;
    var guard := start;
    visited := {pos};
    ghost var k: nat := 0;
    assert Walk(b, None, start, 0) == Some(start);
    assert Visited(b, None, start, 0) == {pos};
    var next := StepGuard(guard, Size(b));
    while next.Some?
      invariant Walk(b, None, start, k) == Some(guard) && InBounds(guard.pos, Size(b))
      invariant next == StepGuard(guard, Size(b))
      invariant visited == Visited(b, None, start, k)
      invariant k < n
      decreases n - k
    {
      guard, visited := UnobstructedStep(b, start, n, k, guard, visited);
      k := k + 1;
      next := StepGuard(guard, Size(b));
    }
    assert Walk(b, None, start, k + 1) == None;
    VisitedSnoc(b, None, start, k);
    ghost var m: nat :| Walk(b, None, start, m) == None && Trail(b, pos) == Visited(b, None, start, m);
    VisitedStable(b, None, start, k + 1, m);
  }

  /** One iteration of `walk_unobstructed`: turn at a '#', else step, and
      mark the guard's cell. */
  method UnobstructedStep(b: Board, ghost start: GuardState, ghost n: nat, ghost k: nat, guard: GuardState, visited: set<Point>)
    returns (guard': GuardState, visited': set<Point>)
    requires Rect(b) && k < n && Walk(b, None, start, n) == None
    requires Walk(b, None, start, k) == Some(guard) && InBounds(guard.pos, Size(b))
    requires StepGuard(guard, Size(b)).Some? && visited == Visited(b, None, start, k)
    ensures Walk(b, None, start, k + 1) == Some(guard') && InBounds(guard'.pos, Size(b))
    ensures visited' == Visited(b, None, start, k + 1) && k + 1 < n
  {
    var next := StepGuard(guard, Size(b));
    var p := next.value.pos;
    WalkNext(b, None, start, k, guard);
    MoveCases(b, None, guard);
    if At(b, (p.x, p.y)) == '#' {
      guard' := TurnGuard(guard);
    } else {
      guard' := next.value;
    }
    assert Walk(b, None, start, k + 1) == Some(guard');
    VisitedSnoc(b, None, start, k);
    visited' := visited + {guard'.pos};
    WalkNoneAbsorbing(b, None, start, n, k + 1);
  }

  /** The trail starts at the guard's cell, stays on the map and never
      crosses a '#'. */
  lemma TrailFacts(b: Board, pos: Point)
    requires Rect(b) && InBounds(pos, Size(b)) && !Blocked(b, None, pos)
    requires Leaves(b, None, NewGuard(pos))
    ensures pos in Trail(b, pos)
    ensures forall p :: p in Trail(b, pos) ==> InBounds(p, Size(b)) && At(b, (p.x, p.y)) != '#'
  {
    var start := NewGuard(pos);
    var n: nat :| Walk(b, None, start, n) == None && Trail(b, pos) == Visited(b, None, start, n);
    assert Walk(b, None, start, 0) == Some(start);
    forall p | p in Trail(b, pos) ensures InBounds(p, Size(b)) && At(b, (p.x, p.y)) != '#' {
      assert p in Visited(b, None, start, n);
      var i: nat :| i <= n && Walk(b, None, start, i).Some? && Walk(b, None, start, i).value.pos == p;
      WalkStaysInBounds(b, None, start, i);
      WalkAvoidsBlocked(b, None, start, i);
    }
  }

  /** `calculate_p1`: the number of distinct cells on the trail. */
  method CalculateP1(b: Board, pos: Point) returns (r: nat)
    requires Rect(b) && InBounds(pos, Size(b))
    requires Leaves(b, None, NewGuard(pos))
    ensures r == |Trail(b, pos)|
  {
    var visited := WalkUnobstructed(b, pos);
    r := |visited|;
  }

  /** A guard state may move on without turning, or leaves the map. */
  predicate Open(b: Board, ob: Option<Point>, g: GuardState) {
    match StepGuard(g, Size(b))
    case None => true
    case Some(n) => !Blocked(b, ob, n.pos)
  }

  /** Some direction out of the start cell is not blocked. */
  predicate NotBoxed(b: Board, ob: Option<Point>, pos: Point) {
    exists k: nat :: k < 4 && Open(b, ob, GuardState(pos, Turns(Up, k)))
  }

  /** The cell behind a guard that arrived walking in direction `d` is free. */
  predicate BehindFree(b: Board, ob: Option<Point>, p: Point, d: Direction) {
    var q := Advance(p, Turns(d, 2), Size(b));
    q.Some? && !Blocked(b, ob, q.value)
  }

  /** Every marked index was the guard's state at the recorded pass, no later than `k`. */
  ghost predicate MarksWalk(b: Board, ob: Option<Point>, start: GuardState, marked: map<(nat, nat, nat), nat>, k: nat) {
    forall i :: i in marked ==> (marked[i] <= k && Walk(b, ob, start, marked[i]).Some? &&
      AsIndex(Walk(b, ob, start, marked[i]).value) == i)
  }

  lemma MarksWalkExtend(b: Board, ob: Option<Point>, start: GuardState, marked: map<(nat, nat, nat), nat>, k: nat, g: GuardState)
    requires MarksWalk(b, ob, start, marked, k) && Walk(b, ob, start, k + 1) == Some(g)
    ensures MarksWalk(b, ob, start, marked[AsIndex(g) := k + 1], k + 1)
    ensures MarksWalk(b, ob, start, marked, k + 1)
  {
  }

  /** The visited array records exactly the marked indices, each of them
      the index of the guard's state at the recorded pass (no later than `k`);
      every index not set is still in `unmarked`. */
  ghost predicate Sound(b: Board, ob: Option<Point>, start: GuardState, visited: array3<bool>,
                        marked: map<(nat, nat, nat), nat>, unmarked: set<(nat, nat, nat)>, k: nat)
    reads visited
  {
    visited.Length0 == Width(b) && visited.Length1 == Height(b) && visited.Length2 == 4 &&
    marked.Keys !! unmarked &&
    (forall x, y, d :: 0 <= x < visited.Length0 && 0 <= y < visited.Length1 && 0 <= d < visited.Length2 ==>
      (visited[x, y, d] ==> (x, y, d) in marked) && (!visited[x, y, d] ==> (x, y, d) in unmarked)) &&
    MarksWalk(b, ob, start, marked, k)
  }

  /** Marks the guard's state at pass `k` in the visited array. */
  method Mark(b: Board, ob: Option<Point>, start: GuardState, visited: array3<bool>, g: GuardState,
              ghost marked: map<(nat, nat, nat), nat>, ghost unmarked: set<(nat, nat, nat)>, ghost k: nat)
    requires Sound(b, ob, start, visited, marked, unmarked, k)
    requires InBounds(g.pos, Size(b)) && Walk(b, ob, start, k) == Some(g)
    requires k == 0 || AsIndex(g) !in marked
    requires k == 0 ==> marked == map[]
    modifies visited
    ensures AsIndex(g) in unmarked
    ensures Sound(b, ob, start, visited, marked[AsIndex(g) := k], unmarked - {AsIndex(g)}, k)
  {
    var idx := AsIndex(g);
    visited[idx.0, idx.1, idx.2] := true;
    if k > 0 {
      MarksWalkExtend(b, ob, start, marked, k - 1, g);
    }
  }

  /** Looks the guard's new state up in the visited array and marks it when
      it is new; a state seen before means the walk repeats. */
  method LookupAndMark(b: Board, ob: Option<Point>, start: GuardState, visited: array3<bool>, g: GuardState,
                       ghost marked: map<(nat, nat, nat), nat>, ghost unmarked: set<(nat, nat, nat)>, ghost k: nat)
    returns (seen: bool)
    requires Sound(b, ob, start, visited, marked, unmarked, k)
    requires InBounds(g.pos, Size(b)) && Walk(b, ob, start, k + 1) == Some(g)
    modifies visited
    ensures seen ==> !Leaves(b, ob, start)
    ensures !seen ==> (AsIndex(g) in unmarked &&
      Sound(b, ob, start, visited, marked[AsIndex(g) := k + 1], unmarked - {AsIndex(g)}, k + 1))
  {
    var idx := AsIndex(g);
    AsIndexInArray(g, g, Size(b));
    if visited[idx.0, idx.1, idx.2] {
      FoundRepeat(b, ob, start, marked, k, g);
      return true;
    }
    MarksWalkExtend(b, ob, start, marked, k, g);
    Mark(b, ob, start, visited, g, marked, unmarked, k + 1);
    return false;
  }

  /** A marked state coming back means the walk repeats, so it never leaves. */
  lemma FoundRepeat(b: Board, ob: Option<Point>, start: GuardState, marked: map<(nat, nat, nat), nat>, k: nat, g: GuardState)
    requires MarksWalk(b, ob, start, marked, k) && Walk(b, ob, start, k + 1) == Some(g) && AsIndex(g) in marked
    ensures !Leaves(b, ob, start)
  {
    var t := marked[AsIndex(g)];
    AsIndexInArray(g, Walk(b, ob, start, t).value, (0, 0));
    RepeatNeverLeaves(b, ob, start, t, k + 1);
  }

  /** Why the loop as written cannot turn forever: before the first forward
      step the guard has turned at most up to a direction that is open, and
      after a forward step the cell it came from, two turns away, is free. */
  ghost predicate SpinBound(b: Board, ob: Option<Point>, pos: Point, g: GuardState,
                            back: Option<Direction>, turns: nat, kopen: nat) {
    (back.None? ==> (g == GuardState(pos, Turns(Up, turns)) && turns <= kopen && kopen < 4 &&
      Open(b, ob, GuardState(pos, Turns(Up, kopen))))) &&
    (back.Some? ==> turns <= 2 && g.dir == Turns(back.value, turns) && BehindFree(b, ob, g.pos, back.value))
  }

  lemma SpinTurn(b: Board, ob: Option<Point>, pos: Point, g: GuardState, back: Option<Direction>, turns: nat, kopen: nat)
    requires SpinBound(b, ob, pos, g, back, turns, kopen)
    requires StepGuard(g, Size(b)).Some? && Blocked(b, ob, StepGuard(g, Size(b)).value.pos)
    ensures turns < 3 && SpinBound(b, ob, pos, TurnGuard(g), back, turns + 1, kopen)
  {
  }

  lemma SpinForward(b: Board, ob: Option<Point>, pos: Point, g: GuardState, kopen: nat)
    requires InBounds(g.pos, Size(b)) && !Blocked(b, ob, g.pos) && StepGuard(g, Size(b)).Some?
    ensures SpinBound(b, ob, pos, StepGuard(g, Size(b)).value, Some(g.dir), 0, kopen)
  {
    AdvanceThenBack(g.pos, g.dir, Size(b), 1);
  }

  /** The invariant of the loop as written, after `k` steps at `guard`. */
  ghost predicate DetectInv(b: Board, ob: Option<Point>, pos: Point, visited: array3<bool>,
                            marked: map<(nat, nat, nat), nat>, unmarked: set<(nat, nat, nat)>, k: nat,
                            guard: GuardState, back: Option<Direction>, turns: nat, kopen: nat)
    reads visited
  {
    Walk(b, ob, NewGuard(pos), k) == Some(guard) && InBounds(guard.pos, Size(b)) &&
    !Blocked(b, ob, guard.pos) &&
    Sound(b, ob, NewGuard(pos), visited, marked, unmarked, k) &&
    SpinBound(b, ob, pos, guard, back, turns, kopen)
  }

  /** A blocked step turns the guard in place; nothing is marked. */
  lemma DetectTurn(b: Board, ob: Option<Point>, pos: Point, visited: array3<bool>,
                   marked: map<(nat, nat, nat), nat>, unmarked: set<(nat, nat, nat)>, k: nat,
                   guard: GuardState, back: Option<Direction>, turns: nat, kopen: nat)
    requires DetectInv(b, ob, pos, visited, marked, unmarked, k, guard, back, turns, kopen)
    requires StepGuard(guard, Size(b)).Some? && Blocked(b, ob, StepGuard(guard, Size(b)).value.pos)
    ensures turns < 3
    ensures DetectInv(b, ob, pos, visited, marked, unmarked, k + 1, TurnGuard(guard), back, turns + 1, kopen)
  {
    WalkNext(b, ob, NewGuard(pos), k, guard);
    SpinTurn(b, ob, pos, guard, back, turns, kopen);
    MarksWalkExtend(b, ob, NewGuard(pos), marked, k, TurnGuard(guard));
  }

  /** A free step moves the guard, and the new state is looked up and marked. */
  method DetectForward(b: Board, ob: Option<Point>, pos: Point, visited: array3<bool>,
                       ghost marked: map<(nat, nat, nat), nat>, ghost unmarked: set<(nat, nat, nat)>, ghost k: nat,
                       guard: GuardState, ghost back: Option<Direction>, ghost turns: nat, ghost kopen: nat)
    returns (seen: bool)
    requires DetectInv(b, ob, pos, visited, marked, unmarked, k, guard, back, turns, kopen)
    requires StepGuard(guard, Size(b)).Some? && !Blocked(b, ob, StepGuard(guard, Size(b)).value.pos)
    modifies visited
    ensures seen ==> !Leaves(b, ob, NewGuard(pos))
    ensures !seen ==> (var g := StepGuard(guard, Size(b)).value;
      AsIndex(g) in unmarked &&
      DetectInv(b, ob, pos, visited, marked[AsIndex(g) := k + 1], unmarked - {AsIndex(g)}, k + 1,
                g, Some(guard.dir), 0, kopen))
  {
    var g := StepGuard(guard, Size(b)).value;
    WalkNext(b, ob, NewGuard(pos), k, guard);
    SpinForward(b, ob, pos, guard, kopen);
    seen := LookupAndMark(b, ob, NewGuard(pos), visited, g, marked, unmarked, k);
  }

  /** `walk_detect_loop` as written: only states reached by a forward step
      are marked and looked up. It returns 1 exactly when the guard, with `ob`
      as an extra obstacle, never leaves the map, and 0 when it does. It
      returns at all only when the guard is not boxed in at the start: a
      guard that can only turn never marks anything and the loop spins. */
  method WalkDetectLoop(b: Board, pos: Point, ob: Point) returns (r: nat)
    requires Rect(b) && InBounds(pos, Size(b))
    requires !Blocked(b, Some(ob), pos)
    requires NotBoxed(b, Some(ob), pos)
    ensures r <= 1
    ensures r == 1 <==> !Leaves(b, Some(ob), NewGuard(pos))
  {
    var obs := Some(ob);
    var start := NewGuard(pos);
    var visited := new bool[Width(b), Height(b), 4]((x, y, d) => false);
    ghost var unmarked := AllIndices(Width(b), Height(b));
    ghost var marked: map<(nat, nat, nat), nat> := map[];
    ghost var k: nat := 0;
    var guard := start;
    assert Sound(b, obs, start, visited, marked, unmarked, 0);
    Mark(b, obs, start, visited, guard, marked, unmarked, 0);
    marked, unmarked := marked[AsIndex(guard) := 0], unmarked - {AsIndex(guard)};
    ghost var back: Option<Direction> := None;
    ghost var turns: nat := 0;
    ghost var kopen: nat :| kopen < 4 && Open(b, obs, GuardState(pos, Turns(Up, kopen)));
    var next := StepGuard(guard, Size(b));
    while next.Some?
      invariant DetectInv(b, obs, pos, visited, marked, unmarked, k, guard, back, turns, kopen)
      invariant next == StepGuard(guard, Size(b))
      decreases |unmarked|, 3 - turns
    {
      if Blocked(b, obs, next.value.pos) {
        DetectTurn(b, obs, pos, visited, marked, unmarked, k, guard, back, turns, kopen);
        guard := TurnGuard(guard);
        turns := turns + 1;
      } else {
        var seen := DetectForward(b, obs, pos, visited, marked, unmarked, k, guard, back, turns, kopen);
        if seen {
          return 1;
        }
        back := Some(guard.dir);
        turns := 0;
        guard := next.value;
        marked, unmarked := marked[AsIndex(guard) := k + 1], unmarked - {AsIndex(guard)};
      }
      k := k + 1;
      next := StepGuard(guard, Size(b));
    }
    WalkNext(b, obs, start, k, guard);
    return 0;
  }

  /** `walk_detect_loop` with every state marked, turns included: the
      lookup that was evidently meant, which also catches a guard turning on
      the spot forever. Each pass marks a fresh cell of the visited array or
      returns, so it returns after at most `width * height * 4` passes. */
  method WalkDetectLoopFixed(b: Board, pos: Point, ob: Point) returns (r: nat)
    requires Rect(b) && InBounds(pos, Size(b))
    ensures r <= 1
    ensures r == 1 <==> !Leaves(b, Some(ob), NewGuard(pos))
  {
    var obs := Some(ob);
    var start := NewGuard(pos);
    var visited := new bool[Width(b), Height(b), 4]((x, y, d) => false);
    ghost var unmarked := AllIndices(Width(b), Height(b));
    ghost var marked: map<(nat, nat, nat), nat> := map[];
    ghost var k: nat := 0;
    var guard := start;
    assert Sound(b, obs, start, visited, marked, unmarked, 0);
    Mark(b, obs, start, visited, guard, marked, unmarked, 0);
    marked, unmarked := marked[AsIndex(guard) := 0], unmarked - {AsIndex(guard)};
    var moved := Move(b, obs, guard);
    while moved.Some?
      invariant Walk(b, obs, start, k) == Some(guard) && InBounds(guard.pos, Size(b))
      invariant moved == Move(b, obs, guard)
      invariant Sound(b, obs, start, visited, marked, unmarked, k)
      decreases |unmarked|
    {
      WalkNext(b, obs, start, k, guard);
      WalkStaysInBounds(b, obs, start, k + 1);
      guard := moved.value;
      var seen := LookupAndMark(b, obs, start, visited, guard, marked, unmarked, k);
      if seen {
        return 1;
      }
      marked, unmarked := marked[AsIndex(guard) := k + 1], unmarked - {AsIndex(guard)};
      k := k + 1;
      moved := Move(b, obs, guard);
    }
    WalkNext(b, obs, start, k, guard);
    return 0;
  }

  /** The obstacle cells that trap the guard. */
  ghost predicate Traps(b: Board, pos: Point, ob: Point) {
    !Leaves(b, Some(ob), NewGuard(pos))
  }

  /** The cells of `s` where an obstacle traps the guard. */
  ghost function Trapping(b: Board, pos: Point, s: set<Point>): set<Point> {
    set ob | ob in s && Traps(b, pos, ob)
  }

  lemma TrappingAdd(b: Board, pos: Point, s: set<Point>, ob: Point)
    requires ob !in s
    ensures |Trapping(b, pos, s + {ob})| == |Trapping(b, pos, s)| + if Traps(b, pos, ob) then 1 else 0
  {
    if Traps(b, pos, ob) {
      assert Trapping(b, pos, s + {ob}) == Trapping(b, pos, s) + {ob};
    } else {
      assert Trapping(b, pos, s + {ob}) == Trapping(b, pos, s);
    }
  }

  /** One candidate obstacle: the running count grows by one when it traps the guard. */
  method AddIfTrapped(b: Board, pos: Point, ob: Point, ghost done: set<Point>, total: nat) returns (total': nat)
    requires Rect(b) && InBounds(pos, Size(b))
    requires ob !in done && total == |Trapping(b, pos, done)|
    ensures total' == |Trapping(b, pos, done + {ob})|
  {
    var r := WalkDetectLoopFixed(b, pos, ob);
    TrappingAdd(b, pos, done, ob);
    total' := total + r;
  }

  /** The parallel count of `calculate_p2`, done one candidate at a time. */
  method CountTrapping(b: Board, pos: Point, candidates: set<Point>) returns (total: nat)
    requires Rect(b) && InBounds(pos, Size(b))
    ensures total == |Trapping(b, pos, candidates)|
  {
    var rest := candidates;
    ghost var done: set<Point> := {};
    total := 0;
    while rest != {}
      invariant rest + done == candidates && rest !! done
      invariant total == |Trapping(b, pos, done)|
      decreases |rest|
    {
      var ob :| ob in rest;
      total := AddIfTrapped(b, pos, ob, done, total);
      rest := rest - {ob};
      done := done + {ob};
    }
    assert done == candidates;
  }

  /** `calculate_p2`: the number of cells on the unobstructed trail, the start
      excluded, where an obstacle traps the guard. */
  method CalculateP2(b: Board, pos: Point) returns (total: nat)
    requires Rect(b) && InBounds(pos, Size(b))
    requires Leaves(b, None, NewGuard(pos))
    ensures total == |Trapping(b, pos, Trail(b, pos) - {pos})|
  {
    var basePath := WalkUnobstructed(b, pos);
    total := CountTrapping(b, pos, basePath - {pos});
  }

  /** The map of the finding: the guard's only way out of its cell is down,
      and the obstacle is put exactly there. */
  const BOXED: Board := [".#.", "#^#", "..."]

  /** On `BOXED` the unobstructed guard steps down once and leaves, so the
      cell below the start is the one obstacle part 2 tries; with it the
      guard is boxed in and only ever turns on the spot: the loop as written
      neither marks a repeated state nor leaves, while the guard never leaves
      the map. */
  lemma BoxedStartSpins(n: nat)
    ensures Leaves(BOXED, None, NewGuard(Point(1, 1)))
    ensures Point(1, 2) in Trail(BOXED, Point(1, 1)) - {Point(1, 1)}
    ensures !NotBoxed(BOXED, Some(Point(1, 2)), Point(1, 1))
    ensures Walk(BOXED, Some(Point(1, 2)), NewGuard(Point(1, 1)), n).Some?
    ensures Walk(BOXED, Some(Point(1, 2)), NewGuard(Point(1, 1)), n).value.pos == Point(1, 1)
    ensures Traps(BOXED, Point(1, 1), Point(1, 2))
  {
    var pos := Point(1, 1);
    var start := NewGuard(pos);
    assert Rect(BOXED);
    var right := GuardState(pos, Right);
    var down := GuardState(pos, Down);
    var below := GuardState(Point(1, 2), Down);
    assert Walk(BOXED, None, start, 0) == Some(start);
    WalkNext(BOXED, None, start, 0, start);
    assert Walk(BOXED, None, start, 1) == Some(right);
    WalkNext(BOXED, None, start, 1, right);
    assert Walk(BOXED, None, start, 2) == Some(down);
    WalkNext(BOXED, None, start, 2, down);
    assert Walk(BOXED, None, start, 3) == Some(below);
    WalkNext(BOXED, None, start, 3, below);
    assert Walk(BOXED, None, start, 4) == None;
    var m: nat :| Walk(BOXED, None, start, m) == None && Trail(BOXED, pos) == Visited(BOXED, None, start, m);
    VisitedStable(BOXED, None, start, 4, m);
    SpinsOnTheSpot(n);
    assert Walk(BOXED, Some(Point(1, 2)), start, 4) == Some(start);
    RepeatNeverLeaves(BOXED, Some(Point(1, 2)), start, 0, 4);
  }

  lemma {:induction false} SpinsOnTheSpot(n: nat)
    ensures Walk(BOXED, Some(Point(1, 2)), NewGuard(Point(1, 1)), n).Some?
    ensures Walk(BOXED, Some(Point(1, 2)), NewGuard(Point(1, 1)), n).value.pos == Point(1, 1)
    decreases n
  {
    if n > 0 {
      SpinsOnTheSpot(n - 1);
      var g := Walk(BOXED, Some(Point(1, 2)), NewGuard(Point(1, 1)), n - 1).value;
      assert Rect(BOXED);
      assert Move(BOXED, Some(Point(1, 2)), g) == Some(TurnGuard(g));
    }
  }
}
