/** Day 18 (day18/src/main.rs): falling bytes. The first bytes of the input
    block cells of a `(width + 1)` by `(height + 1)` memory grid; part 1 finds
    the number of steps from the top-left corner to the bottom-right one with
    a best-first search over a heap ordered on the score. */
module Day18 {
  import opened Wrappers
  import opened Grid
  import opened Neighbours
  import opened Heap
  import Parse

  type Pos = (nat, nat)

  /** `BfsState { pos, score }`, held in the heap as `(score, pos)`. */
  type BfsState = (nat, Pos)

  /** One line `x,y` of `parse_input`: the first two comma-separated pieces
      as `usize`; a missing piece or one that does not parse panics, and
      further pieces are ignored. */
  function ParseLine(line: string): (r: Option<Pos>)
    ensures r.Some? <==> (|Parse.SplitOn(line, ',')| >= 2
      && Parse.ParseUnsigned(Parse.SplitOn(line, ',')[0], Parse.USIZE_MAX).Some?
      && Parse.ParseUnsigned(Parse.SplitOn(line, ',')[1], Parse.USIZE_MAX).Some?)
    ensures r.Some? ==> r.value.0 <= Parse.USIZE_MAX && r.value.1 <= Parse.USIZE_MAX
  {
    var pieces := Parse.SplitOn(line, ',');
    if |pieces| < 2 then None
    else
      match (Parse.ParseUnsigned(pieces[0], Parse.USIZE_MAX), Parse.ParseUnsigned(pieces[1], Parse.USIZE_MAX))
      case (Some(x), Some(y)) => Some((x, y))
      case _ => None
  }

  /** A point written as `x,y` reads back as that point. */
  lemma ParseLineRoundTrip(p: Pos)
    requires p.0 <= Parse.USIZE_MAX && p.1 <= Parse.USIZE_MAX
    ensures ParseLine(Parse.DecimalString(p.0) + "," + Parse.DecimalString(p.1)) == Some(p)
  {
    Parse.NoSeparatorInDecimal(p.0, ',');
    Parse.NoSeparatorInDecimal(p.1, ',');
    Parse.SplitTwo(Parse.DecimalString(p.0), Parse.DecimalString(p.1), ',');
    Parse.ParseUnsignedRoundTrip(p.0, Parse.USIZE_MAX);
    Parse.ParseUnsignedRoundTrip(p.1, Parse.USIZE_MAX);
  }

  /** `parse_input`: one point per line; `None` where a line panics. */
  function ParseInput(lines: seq<string>): (r: Option<seq<Pos>>)
    ensures r.Some? <==> forall k :: 0 <= k < |lines| ==> ParseLine(lines[k]).Some?
    ensures r.Some? ==> |r.value| == |lines| && forall k :: 0 <= k < |lines| ==> Some(r.value[k]) == ParseLine(lines[k])
  {
    if lines == [] then Some([])
    else
      match ParseLine(lines[0])
      case None => None
      case Some(p) =>
        match ParseInput(lines[1..])
        case None => None
        case Some(rest) => Some([p] + rest)
  }

  /** The bytes that fall: `input.into_iter().take(nbytes)`. */
  function Fallen(input: seq<Pos>, nbytes: nat): (r: seq<Pos>)
    ensures |r| == if nbytes < |input| then nbytes else |input|
    ensures forall k :: 0 <= k < |r| ==> r[k] == input[k]
  {
    if nbytes < |input| then input[..nbytes] else input
  }

  /** A position inside the stored rows and columns, so that indexing it
      does not panic. */
  predicate Stored(p: Pos) {
    p.0 < MAX_WIDTH && p.1 < MAX_HEIGHT
  }

  /** A grid of the stored size (every `Grid::new` is). */
  predicate Full(grid: Grid<char>)
    reads grid
  {
    grid.content.Length0 == MAX_HEIGHT && grid.content.Length1 == MAX_WIDTH
  }

  /** The cell at `p` holds a '#'. */
  predicate Blocked(grid: Grid<char>, p: Pos)
    requires Full(grid) && Stored(p)
    reads grid, grid.content
  {
    grid.content[p.1, p.0] == '#'
  }

  /** `grid[*p] = '#'` for every fallen byte, on a grid of '.': a byte
      outside the stored cells panics; otherwise exactly the fallen bytes'
      cells become '#' and every other cell stays '.'. */
  method DropBytes(grid: Grid<char>, fallen: seq<Pos>) returns (ok: bool)
    requires Full(grid)
    requires forall row, col :: 0 <= row < MAX_HEIGHT && 0 <= col < MAX_WIDTH ==> grid.content[row, col] == '.'
    modifies grid.content
    ensures ok <==> forall k :: 0 <= k < |fallen| ==> Stored(fallen[k])
    ensures ok ==> forall row, col :: 0 <= row < MAX_HEIGHT && 0 <= col < MAX_WIDTH ==>
      grid.content[row, col] == if (col, row) in fallen then '#' else '.'
  {
    for k := 0 to |fallen|
      invariant forall j :: 0 <= j < k ==> Stored(fallen[j])
      invariant forall row, col :: 0 <= row < MAX_HEIGHT && 0 <= col < MAX_WIDTH ==>
        grid.content[row, col] == if (col, row) in fallen[..k] then '#' else '.'
    {
      var p := fallen[k];
      if !Stored(p) {
        return false;
      }
      grid.content[p.1, p.0] := '#';
      assert fallen[..k + 1] == fallen[..k] + [p];
    }
    assert fallen[..|fallen|] == fallen;
    return true;
  }

  /** A successor the inner loop accepts: not visited, not '#', and not
      queued before with the same score. */
  predicate Admissible(grid: Grid<char>, e: BfsState, visited: set<Pos>, dedup: set<BfsState>)
    requires Full(grid) && Stored(e.1)
    reads grid, grid.content
  {
    e.1 !in visited && !Blocked(grid, e.1) && e !in dedup
  }

  /** The neighbours are stored cells. */
  predicate AllStored(ns: seq<Option<Pos>>) {
    forall k :: 0 <= k < |ns| && ns[k].Some? ==> Stored(ns[k].value)
  }

  /** The `Plus` neighbours of a cell of an area inside the stored cells are stored cells. */
  lemma PlusStored(pos: Pos, width: nat, height: nat)
    requires width < MAX_WIDTH && height < MAX_HEIGHT
    ensures AllStored(PlusCells(pos, (width + 1, height + 1)))
  {
  }

  /** The `for n in neigh` loop from the heap `queue` and the set `dedup`:
      every admissible neighbour is pushed with score `score` and recorded. */
  function PushFrom(grid: Grid<char>, ns: seq<Option<Pos>>, score: nat, visited: set<Pos>,
                    queue: seq<BfsState>, dedup: set<BfsState>): (r: (seq<BfsState>, set<BfsState>))
    requires Full(grid) && AllStored(ns)
    reads grid, grid.content
    ensures |r.0| >= |queue| && r.0[..|queue|] == queue
    ensures forall k :: |queue| <= k < |r.0| ==>
      r.0[k].0 == score && Some(r.0[k].1) in ns && Admissible(grid, r.0[k], visited, dedup)
    ensures forall e :: e in r.1 <==> e in dedup || e in r.0[|queue|..]
    ensures forall k :: 0 <= k < |ns| && ns[k].Some? && Admissible(grid, (score, ns[k].value), visited, dedup) ==>
      (score, ns[k].value) in r.0[|queue|..]
    decreases |ns|
  {
    if ns == [] then (queue, dedup)
    else if ns[0].Some? && Admissible(grid, (score, ns[0].value), visited, dedup) then
      var e := (score, ns[0].value);
      var r := PushFrom(grid, ns[1..], score, visited, queue + [e], dedup + {e});
      assert r.0[|queue|..] == [e] + r.0[|queue| + 1..];
      assert forall k :: 1 <= k < |ns| ==> ns[k] == ns[1..][k - 1];
      r
    else
      var r := PushFrom(grid, ns[1..], score, visited, queue, dedup);
      assert forall k :: 1 <= k < |ns| ==> ns[k] == ns[1..][k - 1];
      r
  }

  /** The inner `for n in neigh` loop of `calculate_p1`. */
  method Expand(grid: Grid<char>, ns: seq<Option<Pos>>, score: nat, visited: set<Pos>,
                queue: seq<BfsState>, dedup: set<BfsState>) returns (queue': seq<BfsState>, dedup': set<BfsState>)
    requires Full(grid) && AllStored(ns)
    ensures (queue', dedup') == PushFrom(grid, ns, score, visited, queue, dedup)
  {
    queue', dedup' := queue, dedup;
    for i := 0 to |ns|
      invariant PushFrom(grid, ns, score, visited, queue, dedup) == PushFrom(grid, ns[i..], score, visited, queue', dedup')
    {
      assert ns[i..][1..] == ns[i + 1..];
      if ns[i].Some? && Admissible(grid, (score, ns[i].value), visited, dedup') {
        var e := (score, ns[i].value);
        queue' := queue' + [e];
        dedup' := dedup' + {e};
      }
    }
  }

  /** Scores popped so far never go down. */
  predicate Nondecreasing(s: seq<nat>) {
    forall i, j :: 0 <= i < j < |s| ==> s[i] <= s[j]
  }

  /** How the search ends: at the exit with its score, or with an empty heap,
      where `best_score.unwrap()` panics. */
  datatype Outcome = Reached(score: nat) | Unreachable

  /** The stored cells that hold a '#'. */
  ghost function Walls(grid: Grid<char>): (s: set<Pos>)
    requires Full(grid)
    reads grid, grid.content
    ensures forall p :: p in s <==> Stored(p) && Blocked(grid, p)
  {
    set p | p in Area(MAX_WIDTH, MAX_HEIGHT) && Blocked(grid, p)
  }

  /** The cells of the fallen bytes. */
  function Corrupted(fallen: seq<Pos>): (s: set<Pos>)
    ensures forall p :: p in s <==> exists k :: 0 <= k < |fallen| && fallen[k] == p
  {
    set p | p in fallen
  }

  /** A walk through the `(width + 1)` by `(height + 1)` memory area from the
      top-left corner: each step goes to an orthogonally adjacent cell of the
      area that no byte has corrupted. The corner itself is not checked, as
      the search starts there without looking. */
  predicate Walk(width: nat, height: nat, bytes: set<Pos>, path: seq<Pos>) {
    |path| >= 1 && path[0] == (0, 0) &&
    forall k :: 0 < k < |path| ==>
      IsOrthogonalNeighbour(path[k - 1], (width + 1, height + 1), path[k]) && path[k] !in bytes
  }

  /** Some walk of `e.0` steps ends on the cell of `e`. */
  ghost predicate Walked(width: nat, height: nat, bytes: set<Pos>, e: BfsState) {
    exists path :: Walk(width, height, bytes, path) && |path| == e.0 + 1 && path[|path| - 1] == e.1
  }

  /** A walk extended by a step to an open adjacent cell is a walk. */
  lemma WalkExtend(width: nat, height: nat, bytes: set<Pos>, path: seq<Pos>, p: Pos)
    requires Walk(width, height, bytes, path)
    requires IsOrthogonalNeighbour(path[|path| - 1], (width + 1, height + 1), p) && p !in bytes
    ensures Walk(width, height, bytes, path + [p])
  {
    var path' := path + [p];
    forall k | 0 < k < |path'|
      ensures IsOrthogonalNeighbour(path'[k - 1], (width + 1, height + 1), path'[k]) && path'[k] !in bytes
    {
      if k < |path| {
        assert path'[k - 1] == path[k - 1] && path'[k] == path[k];
      }
    }
  }

  /** What the search loop keeps true of its heap: every entry is inside
      the area, scores at least the steps from the corner to its cell, and
      scores at least the last score popped. */
  predicate QueueOk(queue: seq<BfsState>, w: nat, h: nat, popped: seq<nat>) {
    forall e :: e in queue ==>
      InArea(e.1, w, h) && e.0 >= e.1.0 + e.1.1 && (popped != [] ==> e.0 >= popped[|popped| - 1])
  }

  /** Taking out a least entry keeps the heap's bounds and extends the
      popped scores in order. */
  lemma PopKeeps(queue: seq<BfsState>, rest: seq<BfsState>, state: BfsState, w: nat, h: nat, popped: seq<nat>)
    requires QueueOk(queue, w, h, popped) && Nondecreasing(popped)
    requires state in queue && (forall e :: e in queue ==> state.0 <= e.0) && (forall e :: e in rest ==> e in queue)
    ensures QueueOk(rest, w, h, popped + [state.0]) && Nondecreasing(popped + [state.0])
    ensures InArea(state.1, w, h) && state.0 >= state.1.0 + state.1.1
  {
  }

  /** Pushing neighbours of the popped state with its score plus one keeps
      the heap's bounds: a neighbour is one step further from the corner at most. */
  lemma PushKeeps(rest: seq<BfsState>, queue: seq<BfsState>, state: BfsState, w: nat, h: nat, popped: seq<nat>)
    requires QueueOk(rest, w, h, popped) && popped != [] && popped[|popped| - 1] == state.0
    requires state.0 >= state.1.0 + state.1.1
    requires |queue| >= |rest| && queue[..|rest|] == rest
    requires forall k :: |rest| <= k < |queue| ==> queue[k].0 == state.0 + 1 && IsOrthogonalNeighbour(state.1, (w, h), queue[k].1)
    ensures QueueOk(queue, w, h, popped)
  {
    forall e | e in queue
      ensures InArea(e.1, w, h) && e.0 >= e.1.0 + e.1.1 && e.0 >= popped[|popped| - 1]
    {
      var k :| 0 <= k < |queue| && queue[k] == e;
      if k < |rest| {
        assert e in rest;
      }
    }
  }

  /** What one run of the neighbour loop did, for the popped `state`: `rest`
      is kept as a prefix; each new entry is an open, unvisited neighbour at
      one more step; the dedup set gains exactly the new entries; and every
      open, unvisited neighbour not already in the dedup set was pushed. */
  ghost predicate Expanded(width: nat, height: nat, bytes: set<Pos>, state: BfsState, visited: set<Pos>,
                           rest: seq<BfsState>, dedup: set<BfsState>, queue': seq<BfsState>, dedup': set<BfsState>)
  {
    |queue'| >= |rest| && queue'[..|rest|] == rest &&
    (forall k :: |rest| <= k < |queue'| ==>
      queue'[k].0 == state.0 + 1 && IsOrthogonalNeighbour(state.1, (width + 1, height + 1), queue'[k].1) &&
      queue'[k].1 !in visited && queue'[k].1 !in bytes) &&
    (forall e :: e in dedup' <==> e in dedup || e in queue'[|rest|..]) &&
    (forall n ::
      (IsOrthogonalNeighbour(state.1, (width + 1, height + 1), n) && n !in visited && n !in bytes && (state.0 + 1, n) !in dedup)
      ==> (state.0 + 1, n) in queue'[|rest|..])
  }

  /** The neighbour loop over the `Plus` cells of the popped state does what
      `Expanded` says, with the grid's walls as the corrupted cells. */
  lemma PushedFrom(grid: Grid<char>, width: nat, height: nat, bytes: set<Pos>, state: BfsState, visited: set<Pos>,
                   rest: seq<BfsState>, dedup: set<BfsState>, queue': seq<BfsState>, dedup': set<BfsState>)
    requires Full(grid) && width < MAX_WIDTH && height < MAX_HEIGHT && bytes == Walls(grid)
    requires (queue', dedup') == PushFrom(grid, PlusCells(state.1, (width + 1, height + 1)), state.0 + 1, visited, rest, dedup)
    ensures Expanded(width, height, bytes, state, visited, rest, dedup, queue', dedup')
  {
    var size := (width + 1, height + 1);
    var ns := PlusCells(state.1, size);
    forall n | IsOrthogonalNeighbour(state.1, size, n) && n !in visited && n !in Walls(grid) && (state.0 + 1, n) !in dedup
      ensures (state.0 + 1, n) in queue'[|rest|..]
    {
      var k :| 0 <= k < |ns| && ns[k] == Some(n);
    }
    forall k | |rest| <= k < |queue'|
      ensures IsOrthogonalNeighbour(state.1, size, queue'[k].1) && queue'[k].1 !in Walls(grid)
    {
      var j :| 0 <= j < |ns| && ns[j] == Some(queue'[k].1);
    }
  }

  /** The loop invariant of the search: the heap's bounds; at first only the
      corner is queued; afterwards the corner is visited; the exit is never
      visited; every queued entry is walked; every dedup entry is visited or
      still queued; and every open neighbour of a visited cell is visited
      or queued. */
  ghost predicate Searching(width: nat, height: nat, bytes: set<Pos>, queue: seq<BfsState>, visited: set<Pos>,
                            dedup: set<BfsState>, popped: seq<nat>)
  {
    QueueOk(queue, width + 1, height + 1, popped) && Nondecreasing(popped) &&
    (popped == [] ==> queue == [(0, (0, 0))] && visited == {}) &&
    (popped != [] ==> (0, 0) in visited) &&
    (width, height) !in visited &&
    (forall e :: e in queue ==> Walked(width, height, bytes, e)) &&
    (forall e :: e in dedup ==> e.1 in visited || e in queue) &&
    (forall v, n {:trigger IsOrthogonalNeighbour(v, (width + 1, height + 1), n)} ::
      v in visited && IsOrthogonalNeighbour(v, (width + 1, height + 1), n) && n !in bytes ==>
      n in visited || n in States(queue))
  }

  /** A least entry popped is inside the area, walked, and scores at least
      as much as every score popped before it. */
  lemma SearchingPop(width: nat, height: nat, bytes: set<Pos>, queue: seq<BfsState>, visited: set<Pos>,
                     dedup: set<BfsState>, popped: seq<nat>, i: nat)
    requires Searching(width, height, bytes, queue, visited, dedup, popped) && i < |queue|
    requires forall e :: e in queue ==> queue[i].0 <= e.0
    ensures InArea(queue[i].1, width + 1, height + 1) && queue[i].0 >= queue[i].1.0 + queue[i].1.1
    ensures Nondecreasing(popped + [queue[i].0])
    ensures exists path :: Walk(width, height, bytes, path) && |path| == queue[i].0 + 1 && path[|path| - 1] == queue[i].1
  {
    assert queue[i] in queue && Walked(width, height, bytes, queue[i]);
    assert forall e :: e in queue[..i] + queue[i + 1..] ==> e in queue;
    PopKeeps(queue, queue[..i] + queue[i + 1..], queue[i], width + 1, height + 1, popped);
  }

  lemma SearchingStart(width: nat, height: nat, bytes: set<Pos>)
    ensures Searching(width, height, bytes, [(0, (0, 0))], {}, {}, [])
  {
    assert Walk(width, height, bytes, [(0, 0)]);
  }

  /** Popping `queue[i]`, a least entry, and pushing its neighbours keeps
      the heap's bounds. */
  lemma HeapStep(width: nat, height: nat, bytes: set<Pos>, queue: seq<BfsState>, visited: set<Pos>,
                 dedup: set<BfsState>, popped: seq<nat>, i: nat, queue': seq<BfsState>, dedup': set<BfsState>)
    requires QueueOk(queue, width + 1, height + 1, popped) && Nondecreasing(popped) && i < |queue|
    requires forall e :: e in queue ==> queue[i].0 <= e.0
    requires Expanded(width, height, bytes, queue[i], visited + {queue[i].1}, queue[..i] + queue[i + 1..], dedup, queue', dedup')
    ensures QueueOk(queue', width + 1, height + 1, popped + [queue[i].0]) && Nondecreasing(popped + [queue[i].0])
  {
    var state, rest := queue[i], queue[..i] + queue[i + 1..];
    assert state in queue;
    assert forall e :: e in rest ==> e in queue;
    PopKeeps(queue, rest, state, width + 1, height + 1, popped);
    PushKeeps(rest, queue', state, width + 1, height + 1, popped + [state.0]);
  }

  /** Popping `queue[i]` and pushing its neighbours keeps every entry walked:
      a neighbour's walk is the popped entry's walk and one more step. */
  lemma WalkedStep(width: nat, height: nat, bytes: set<Pos>, queue: seq<BfsState>, visited: set<Pos>,
                   dedup: set<BfsState>, i: nat, queue': seq<BfsState>, dedup': set<BfsState>)
    requires (forall e :: e in queue ==> Walked(width, height, bytes, e)) && i < |queue|
    requires Expanded(width, height, bytes, queue[i], visited + {queue[i].1}, queue[..i] + queue[i + 1..], dedup, queue', dedup')
    ensures forall e :: e in queue' ==> Walked(width, height, bytes, e)
  {
    var state, rest := queue[i], queue[..i] + queue[i + 1..];
    assert state in queue && Walked(width, height, bytes, state);
    var path :| Walk(width, height, bytes, path) && |path| == state.0 + 1 && path[|path| - 1] == state.1;
    forall e | e in queue'
      ensures Walked(width, height, bytes, e)
    {
      var k :| 0 <= k < |queue'| && queue'[k] == e;
      if k < |rest| {
        assert e == rest[k];
        assert e in queue;
      } else {
        WalkExtend(width, height, bytes, path, e.1);
        assert (path + [e.1])[|path|] == e.1;
      }
    }
  }

  /** Every entry of the heap but the one popped stays queued once the
      remaining entries are kept as a prefix. */
  lemma Kept(queue: seq<BfsState>, i: nat, queue': seq<BfsState>)
    requires i < |queue| && |queue'| >= |queue| - 1 && queue'[..|queue| - 1] == queue[..i] + queue[i + 1..]
    ensures forall e :: e in queue ==> e == queue[i] || e in queue'
  {
    var rest := queue[..i] + queue[i + 1..];
    forall e | e in queue && e != queue[i]
      ensures e in queue'
    {
      var j :| 0 <= j < |queue| && queue[j] == e;
      var r := if j < i then j else j - 1;
      assert rest[r] == e && queue'[r] == rest[r];
    }
  }

  /** Visiting the cell of `queue[i]`, not the exit, and pushing its
      neighbours keeps every dedup entry accounted for and every open
      neighbour of a visited cell visited or queued. */
  lemma FrontierStep(width: nat, height: nat, bytes: set<Pos>, queue: seq<BfsState>, visited: set<Pos>,
                     dedup: set<BfsState>, popped: seq<nat>, i: nat, queue': seq<BfsState>, dedup': set<BfsState>)
    requires Searching(width, height, bytes, queue, visited, dedup, popped) && i < |queue|
    requires queue[i].1 != (width, height)
    requires Expanded(width, height, bytes, queue[i], visited + {queue[i].1}, queue[..i] + queue[i + 1..], dedup, queue', dedup')
    ensures (0, 0) in visited + {queue[i].1} && (width, height) !in visited + {queue[i].1}
    ensures forall e :: e in dedup' ==> e.1 in visited + {queue[i].1} || e in queue'
    ensures forall v, n :: v in visited + {queue[i].1} && IsOrthogonalNeighbour(v, (width + 1, height + 1), n) && n !in bytes ==>
      n in visited + {queue[i].1} || n in States(queue')
  {
    var state, rest := queue[i], queue[..i] + queue[i + 1..];
    var visited' := visited + {state.1};
    Kept(queue, i, queue');
    forall e | e in dedup'
      ensures e.1 in visited' || e in queue'
    {
      if e !in dedup {
        var k :| |rest| <= k < |queue'| && queue'[k] == e;
      }
    }
    forall v, n | v in visited' && IsOrthogonalNeighbour(v, (width + 1, height + 1), n) && n !in bytes && n !in visited'
      ensures n in States(queue')
    {
      var e: BfsState;
      if v in visited {
        assert n in States(queue);
        e :| e in queue && e.1 == n;
      } else {
        e := (state.0 + 1, n);
        if e !in dedup {
          var k :| |rest| <= k < |queue'| && queue'[k] == e;
        }
      }
      assert e in queue' && e.1 in States(queue');
    }
  }

  /** Popping `queue[i]` and pushing its unvisited neighbours either visits
      a new cell or leaves fewer queued entries on visited cells. */
  lemma MeasureStep(width: nat, height: nat, bytes: set<Pos>, queue: seq<BfsState>, visited: set<Pos>,
                    dedup: set<BfsState>, i: nat, queue': seq<BfsState>, dedup': set<BfsState>)
    requires i < |queue| && InArea(queue[i].1, width + 1, height + 1)
    requires Expanded(width, height, bytes, queue[i], visited + {queue[i].1}, queue[..i] + queue[i + 1..], dedup, queue', dedup')
    ensures var visited' := visited + {queue[i].1};
      |Area(width + 1, height + 1) - visited'| < |Area(width + 1, height + 1) - visited| ||
      (|Area(width + 1, height + 1) - visited'| == |Area(width + 1, height + 1) - visited| &&
       Stale(queue', visited') < Stale(queue, visited))
  {
    var state, rest := queue[i], queue[..i] + queue[i + 1..];
    var visited' := visited + {state.1};
    var pushed := queue'[|rest|..];
    assert queue' == rest + pushed;
    assert forall e :: e in pushed ==> e.1 !in visited' by {
      forall e | e in pushed
        ensures e.1 !in visited'
      {
        var k :| 0 <= k < |pushed| && pushed[k] == e;
        assert queue'[|rest| + k] == e;
      }
    }
    StaleNone(pushed, visited');
    StaleAppend(rest, pushed, visited');
    RemoveCounts(queue, i, visited);
    if state.1 !in visited {
      Shrinks(Area(width + 1, height + 1), visited, state.1);
    } else {
      assert visited' == visited;
    }
  }

  /** One pass of the search loop that pops `state`, a least entry not on
      the exit, keeps `Searching` and either visits a new cell or leaves
      fewer queued entries on visited cells. */
  lemma SearchStep(grid: Grid<char>, width: nat, height: nat, bytes: set<Pos>, queue: seq<BfsState>, visited: set<Pos>,
                   dedup: set<BfsState>, popped: seq<nat>, state: BfsState, rest: seq<BfsState>,
                   queue': seq<BfsState>, visited': set<Pos>, dedup': set<BfsState>, popped': seq<nat>)
    requires Full(grid) && width < MAX_WIDTH && height < MAX_HEIGHT && bytes == Walls(grid)
    requires Searching(width, height, bytes, queue, visited, dedup, popped) && queue != [] && (state, rest) == Pop(queue)
    requires state.1 != (width, height) && visited' == visited + {state.1} && popped' == popped + [state.0]
    requires (queue', dedup') == PushFrom(grid, PlusCells(state.1, (width + 1, height + 1)), state.0 + 1, visited', rest, dedup)
    ensures Searching(width, height, bytes, queue', visited', dedup', popped')
    ensures |Area(width + 1, height + 1) - visited'| < |Area(width + 1, height + 1) - visited| ||
      (|Area(width + 1, height + 1) - visited'| == |Area(width + 1, height + 1) - visited| &&
       Stale(queue', visited') < Stale(queue, visited))
  {
    var i: nat :| Greatest(queue, i) && queue[i] == state && rest == queue[..i] + queue[i + 1..];
    GreatestIsLeast(queue, i);
    PushedFrom(grid, width, height, bytes, state, visited', rest, dedup, queue', dedup');
    HeapStep(width, height, bytes, queue, visited, dedup, popped, i, queue', dedup');
    WalkedStep(width, height, bytes, queue, visited, dedup, i, queue', dedup');
    FrontierStep(width, height, bytes, queue, visited, dedup, popped, i, queue', dedup');
    assert queue[i] in queue;
    MeasureStep(width, height, bytes, queue, visited, dedup, i, queue', dedup');
  }

  /** A popped entry on the exit scores at least the exit's distance from
      the corner, as much as every score popped before it, and is walked. */
  lemma SearchingFound(width: nat, height: nat, bytes: set<Pos>, queue: seq<BfsState>, visited: set<Pos>,
                       dedup: set<BfsState>, popped: seq<nat>, state: BfsState, rest: seq<BfsState>)
    requires Searching(width, height, bytes, queue, visited, dedup, popped) && queue != [] && (state, rest) == Pop(queue)
    requires state.1 == (width, height)
    ensures state.0 >= width + height && Nondecreasing(popped + [state.0])
    ensures exists path :: Walk(width, height, bytes, path) && |path| == state.0 + 1 && path[|path| - 1] == (width, height)
  {
    var i: nat :| Greatest(queue, i) && queue[i] == state && rest == queue[..i] + queue[i + 1..];
    GreatestIsLeast(queue, i);
    SearchingPop(width, height, bytes, queue, visited, dedup, popped, i);
  }

  /** Every cell of a walk is visited once the visited cells are closed
      under open neighbours and hold the corner. */
  lemma {:induction false} WalkVisited(width: nat, height: nat, bytes: set<Pos>, visited: set<Pos>, path: seq<Pos>, k: nat)
    requires (0, 0) in visited
    requires forall v, n :: v in visited && IsOrthogonalNeighbour(v, (width + 1, height + 1), n) && n !in bytes ==> n in visited
    requires Walk(width, height, bytes, path) && k < |path|
    ensures path[k] in visited
  {
    if k > 0 {
      WalkVisited(width, height, bytes, visited, path, k - 1);
    }
  }

  /** When the heap runs empty, no walk reaches the exit. */
  lemma SearchingEmpty(width: nat, height: nat, bytes: set<Pos>, visited: set<Pos>, dedup: set<BfsState>, popped: seq<nat>)
    requires Searching(width, height, bytes, [], visited, dedup, popped)
    ensures forall path :: Walk(width, height, bytes, path) ==> path[|path| - 1] != (width, height)
  {
    var empty: seq<BfsState> := [];
    assert States(empty) == {};
    forall path | Walk(width, height, bytes, path)
      ensures path[|path| - 1] != (width, height)
    {
      WalkVisited(width, height, bytes, visited, path, |path| - 1);
    }
  }

  /** The search loop of `calculate_p1` (lines 48-87): pop a state of least
      score, mark its cell visited, stop at `(width, height)`, and push the
      admissible neighbours with score + 1 (`PushFrom`, which `Expand`'s
      loop computes). A score found is the length of
      a walk from the corner to the exit through cells without a '#'; an
      empty heap means no such walk exists. `popped` records the scores in
      the order they came off the heap. */
  method Search(grid: Grid<char>, width: nat, height: nat) returns (r: Outcome, ghost popped: seq<nat>)
    requires Full(grid) && width < MAX_WIDTH && height < MAX_HEIGHT
    ensures Nondecreasing(popped)
    ensures r.Reached? ==> r.score >= width + height
    ensures r.Reached? ==> popped != [] && popped[|popped| - 1] == r.score
    ensures r.Reached? ==>
      exists path :: Walk(width, height, Walls(grid), path) && |path| == r.score + 1 && path[|path| - 1] == (width, height)
    ensures r.Unreachable? ==>
      forall path :: Walk(width, height, Walls(grid), path) ==> path[|path| - 1] != (width, height)
  {
    ghost var bytes := Walls(grid);
    var queue: seq<BfsState> := [(0, (0, 0))];
    var dedup: set<BfsState> := {};
    var visited: set<Pos> := {};
    popped := [];
    SearchingStart(width, height, bytes);
    while queue != []
      invariant bytes == Walls(grid)
      invariant Searching(width, height, bytes, queue, visited, dedup, popped)
      decreases |Area(width + 1, height + 1) - visited|, Stale(queue, visited)
    {
      var (state, rest) := Pop(queue);
      var visited' := visited + {state.1};
      if state.1 == (width, height) {
        SearchingFound(width, height, bytes, queue, visited, dedup, popped, state, rest);
        return Reached(state.0), popped + [state.0];
      }
      var ns := PlusCells(state.1, (width + 1, height + 1));
      PlusStored(state.1, width, height);
      var (queue', dedup') := PushFrom(grid, ns, state.0 + 1, visited', rest, dedup);
      SearchStep(grid, width, height, bytes, queue, visited, dedup, popped, state, rest, queue', visited', dedup', popped + [state.0]);
      queue, visited, dedup, popped := queue', visited', dedup', popped + [state.0];
    }
    SearchingEmpty(width, height, bytes, visited, dedup, popped);
    return Unreachable, popped;
  }

  /** `calculate_p1`: a `(width + 1)` by `(height + 1)` grid of '.', the
      first `nbytes` bytes dropped, then the search. A byte outside the
      stored cells panics (`None`). */
  method CalculateP1(input: seq<Pos>, width: nat, height: nat, nbytes: nat) returns (r: Option<Outcome>)
    requires width < MAX_WIDTH && height < MAX_HEIGHT
    ensures r.None? <==> exists k :: 0 <= k < |Fallen(input, nbytes)| && !Stored(Fallen(input, nbytes)[k])
    ensures r.Some? && r.value.Reached? ==> r.value.score >= width + height
    ensures r.Some? && r.value.Reached? ==>
      exists path :: Walk(width, height, Corrupted(Fallen(input, nbytes)), path) &&
        |path| == r.value.score + 1 && path[|path| - 1] == (width, height)
    ensures r.Some? && r.value.Unreachable? ==>
      forall path :: Walk(width, height, Corrupted(Fallen(input, nbytes)), path) ==> path[|path| - 1] != (width, height)
  {
    var grid := new Grid.New('.', width + 1, height + 1);
    var fallen := Fallen(input, nbytes);
    var ok := DropBytes(grid, fallen);
    if !ok {
      return None;
    }
    assert Walls(grid) == Corrupted(fallen) by {
      forall p
        ensures p in Walls(grid) <==> p in Corrupted(fallen)
      {
        if p in fallen {
          var k :| 0 <= k < |fallen| && fallen[k] == p;
        }
      }
    }
    var outcome, popped := Search(grid, width, height);
    return Some(outcome);
  }
}
