/** A fixed-capacity two-dimensional grid (aoc_tools/src/grid.rs). */
module Grid {
  import opened Wrappers

  const MAX_WIDTH: nat := 256
  const MAX_HEIGHT: nat := 256

  /** `Grid<T>`: rows of `MAX_WIDTH` cells, of which the first `width` columns
      and `height` rows are in use. `content[row, col]` is the cell `(col, row)`. */
  class Grid<T(0)> {
    var content: array2<T>
    var width: nat
    var height: nat

    ghost predicate Valid()
      reads this
    {
      content.Length1 == MAX_WIDTH
    }

    /** The used area lies inside the stored rows and columns (otherwise
        indexing the used area panics). */
    predicate Fits()
      reads this
    {
      width <= content.Length1 && height <= content.Length0
    }

    /** `Grid::new`: `MAX_HEIGHT` rows filled with `value`. */
    constructor New(value: T, width: nat, height: nat)
      ensures Valid() && fresh(content)
      ensures this.width == width && this.height == height && content.Length0 == MAX_HEIGHT
      ensures forall row, col :: 0 <= row < MAX_HEIGHT && 0 <= col < MAX_WIDTH ==> content[row, col] == value
    {
      content := new T[MAX_HEIGHT, MAX_WIDTH]((row, col) => value);
      this.width := width;
      this.height := height;
    }

    /** `Grid::size`. */
    function Size(): (nat, nat)
      reads this
    {
      (width, height)
    }

    /** `Index<(usize, usize)>`: the cell at column `col` of row `row`. */
    function Get(col: nat, row: nat): T
      requires row < content.Length0 && col < content.Length1
      reads this, content
    {
      content[row, col]
    }

    /** `IndexMut<(usize, usize)>`: overwrite one cell, nothing else. */
    method Set(col: nat, row: nat, value: T)
      requires row < content.Length0 && col < content.Length1
      modifies content
      ensures content[row, col] == value
      ensures forall r, c :: 0 <= r < content.Length0 && 0 <= c < content.Length1 && (r, c) != (row, col) ==>
        content[r, c] == old(content[r, c])
    {
      content[row, col] := value;
    }

    /** `Grid::map`: a new grid of the same size holding `f` of every stored cell. */
    method Map<U(0)>(f: T -> U) returns (g: Grid<U>)
      requires Valid()
      ensures g.Valid() && fresh(g) && fresh(g.content)
      ensures g.width == width && g.height == height && g.content.Length0 == content.Length0
      ensures forall row, col :: 0 <= row < content.Length0 && 0 <= col < MAX_WIDTH ==> g.content[row, col] == f(content[row, col])
    {
      var mapped := new U[content.Length0, MAX_WIDTH];
      var row := 0;
      while row < content.Length0
        invariant 0 <= row <= content.Length0
        invariant forall r, c :: 0 <= r < row && 0 <= c < MAX_WIDTH ==> mapped[r, c] == f(content[r, c])
      {
        var col := 0;
        while col < MAX_WIDTH
          invariant 0 <= col <= MAX_WIDTH
          invariant forall r, c :: 0 <= r < row && 0 <= c < MAX_WIDTH ==> mapped[r, c] == f(content[r, c])
          invariant forall c :: 0 <= c < col ==> mapped[row, c] == f(content[row, c])
        {
          mapped[row, col] := f(content[row, col]);
          col := col + 1;
        }
        row := row + 1;
      }
      g := new Grid.FromParts(mapped, width, height);
    }

    /** Assembles a grid from its parts (the struct literal of the source). */
    constructor FromParts(content: array2<T>, width: nat, height: nat)
      requires content.Length1 == MAX_WIDTH
      ensures Valid() && this.content == content && this.width == width && this.height == height
    {
      this.content := content;
      this.width := width;
      this.height := height;
    }
  }

  /** `(col, row)` lies inside a `w` by `h` area. */
  predicate InArea(p: (nat, nat), w: nat, h: nat) {
    p.0 < w && p.1 < h
  }

  /** Every position of a `w` by `h` area. */
  function Area(w: nat, h: nat): (s: set<(nat, nat)>)
    ensures forall p :: p in s <==> InArea(p, w, h)
  {
    var s := set x: nat, y: nat | x < w && y < h :: (x, y);
    assert forall p :: InArea(p, w, h) ==> p in s by {
      forall p | InArea(p, w, h)
        ensures p in s
      {
        var (x, y) := p;
        assert (x, y) in s;
      }
    }
    s
  }

  /** Every stored cell of a grid's array, used area or not, keyed by `(col, row)`. */
  ghost function Snapshot<T>(c: array2<T>): (m: map<(nat, nat), T>)
    reads c
    ensures forall p :: p in m <==> InArea(p, c.Length1, c.Length0)
  {
    map p | p in Area(c.Length1, c.Length0) :: c[p.1, p.0]
  }

  /** `grid[p]` seen on the snapshot. */
  function CellAt<T(0)>(g: Grid<T>, p: (nat, nat)): (v: T)
    requires p.1 < g.content.Length0 && p.0 < g.content.Length1
    reads g, g.content
    ensures p in Snapshot(g.content) && v == Snapshot(g.content)[p]
  {
    g.Get(p.0, p.1)
  }

  /** `grid[p] = v` seen on the snapshot: that one cell replaced. */
  method SetAt<T(0)>(g: Grid<T>, p: (nat, nat), v: T)
    requires p.1 < g.content.Length0 && p.0 < g.content.Length1
    modifies g.content
    ensures Snapshot(g.content) == old(Snapshot(g.content))[p := v]
  {
    g.Set(p.0, p.1, v);
  }

  /** The items an enumeration visiting `ps` yields from the snapshot `m`. */
  function ItemsAt<T>(m: map<(nat, nat), T>, ps: seq<(nat, nat)>): (items: seq<(T, (nat, nat))>)
    requires forall p :: p in ps ==> p in m
    ensures |items| == |ps| && forall k :: 0 <= k < |ps| ==> items[k] == (m[ps[k]], ps[k])
  {
    seq(|ps|, k requires 0 <= k < |ps| => (m[ps[k]], ps[k]))
  }

  /** What a fresh enumerator of a fitting grid yields is read off its snapshot. */
  lemma EnumeratedItems<T(0)>(g: Grid<T>, items: seq<(T, (nat, nat))>)
    requires g.Valid() && g.Fits() && Enumerated(g, items)
    ensures forall p :: p in PositionsFrom(0, 0, g.width, g.height) ==> p in Snapshot(g.content)
    ensures items == ItemsAt(Snapshot(g.content), PositionsFrom(0, 0, g.width, g.height))
  {
    PositionsInRange(0, 0, g.width, g.height);
  }

  /** Whether `Grid::try_from_lines` accepts `lines`: no line is longer than
      `MAX_WIDTH` and every line is as long as the first. */
  predicate LinesAccepted(lines: seq<string>) {
    forall r :: 0 <= r < |lines| ==> |lines[r]| <= MAX_WIDTH && |lines[r]| == |lines[0]|
  }

  /** `Grid::try_from_lines`: one stored row per line, padded with `'\0'`;
      `None` stands for the panics on an over-long or ragged line. */
  method TryFromLines(lines: seq<string>) returns (r: Option<Grid<char>>)
    ensures r.Some? <==> LinesAccepted(lines)
    ensures r.Some? ==> fresh(r.value) && fresh(r.value.content) && r.value.Valid()
    ensures r.Some? ==> r.value.height == |lines| && r.value.content.Length0 == |lines|
    ensures r.Some? ==> r.value.width == if |lines| == 0 then 0 else |lines[0]|
    ensures r.Some? ==> forall row, col :: 0 <= row < |lines| && 0 <= col < MAX_WIDTH ==>
      r.value.content[row, col] == if col < |lines[row]| then lines[row][col] else '\0'
  {
    var content := new char[|lines|, MAX_WIDTH]((row, col) => '\0');
    var width := 0;
    var row := 0;
    while row < |lines|
      invariant 0 <= row <= |lines|
      invariant LinesAccepted(lines[..row])
      invariant width == if row == 0 then 0 else |lines[0]|
      invariant forall r, c :: 0 <= r < |lines| && 0 <= c < MAX_WIDTH ==>
        content[r, c] == if r < row && c < |lines[r]| then lines[r][c] else '\0'
    {
      var line := lines[row];
      var colIdx := 0;
      while colIdx < |line|
        invariant 0 <= colIdx <= |line| && colIdx <= MAX_WIDTH
        invariant forall r, c :: 0 <= r < |lines| && 0 <= c < MAX_WIDTH ==>
          content[r, c] == if (r < row && c < |lines[r]|) || (r == row && c < colIdx) then lines[r][c] else '\0'
      {
        if colIdx == MAX_WIDTH {
          // the fixed-size row buffer overflows
          return None;
        }
        content[row, colIdx] := line[colIdx];
        colIdx := colIdx + 1;
      }
      if row == 0 {
        width := colIdx;
      } else if width != colIdx {
        // assert_eq! on the line width
        return None;
      }
      row := row + 1;
    }
    var g := new Grid.FromParts(content, width, |lines|);
    r := Some(g);
  }

  /** A cursor column the enumerator can hold: inside the width, or 0 for a zero-width grid. */
  predicate CursorOk(col: nat, width: nat) {
    col < width || (width == 0 && col == 0)
  }

  /** The cell the enumerator visits after `(col, row)`: the next column, or
      the start of the next row once `width` is reached. */
  function StepPosition(col: nat, row: nat, width: nat): (nat, nat) {
    if col + 1 >= width then (0, row + 1) else (col + 1, row)
  }

  /** Every position `GridEnumerator` visits from `(col, row)` on. */
  function PositionsFrom(col: nat, row: nat, width: nat, height: nat): seq<(nat, nat)>
    decreases height - row, if col < width then width - col else 0
  {
    if row >= height then []
    else
      var (c, r) := StepPosition(col, row, width);
      [(col, row)] + PositionsFrom(c, r, width, height)
  }

  lemma ModStep(x: nat, w: nat)
    requires w > 0
    ensures (x + w) % w == x % w && (x + w) / w == x / w + 1
  {
    var q, r := x / w, x % w;
    assert x + w == (q + 1) * w + r;
    DivModUnique(x + w, w, q + 1, r);
  }

  lemma DivModUnique(a: int, w: int, q: int, r: int)
    requires w > 0 && 0 <= r < w && a == q * w + r
    ensures a / w == q && a % w == r
  {
    var q', r' := a / w, a % w;
    assert q' * w + r' == q * w + r;
    if q' < q {
      MulLe(q' + 1, q, w);
    } else if q' > q {
      MulLe(q + 1, q', w);
    }
  }

  lemma MulLe(a: int, b: int, w: nat)
    requires a <= b
    ensures a * w <= b * w
  {
    var d: nat := b - a;
    assert b * w - a * w == d * w;
  }

  /** The cell `k` places after `(col, row)` in row-major order. */
  function CellAfter(col: nat, row: nat, width: nat, k: nat): (nat, nat)
    requires width > 0
  {
    ((col + k) % width, row + (col + k) / width)
  }

  /** How many positions are left from `(col, row)` on. */
  predicate CountFrom(col: nat, row: nat, width: nat, height: nat) {
    row < height ==> |PositionsFrom(col, row, width, height)| == (height - row) * width - col
  }

  /** The positions from `(col, row)` on are the cells after it, in row-major order. */
  predicate CellsFrom(col: nat, row: nat, width: nat, height: nat)
    requires width > 0
  {
    var ps := PositionsFrom(col, row, width, height);
    forall k :: 0 <= k < |ps| ==> ps[k] == CellAfter(col, row, width, k)
  }

  /** From column `col < width` of row `row` the enumerator visits the rest of
      the grid in row-major order: the k-th position is the cell at linear index `col + k`. */
  lemma {:induction false} PositionsAreRowMajor(col: nat, row: nat, width: nat, height: nat)
    requires col < width && row <= height
    ensures CountFrom(col, row, width, height) && CellsFrom(col, row, width, height)
    decreases height - row, width - col
  {
    if row < height {
      var (c, r) := StepPosition(col, row, width);
      if r < height || c > 0 {
        PositionsAreRowMajor(c, r, width, height);
      }
      CountStep(col, row, width, height);
      CellsStep(col, row, width, height);
    }
  }

  /** One cell before a row-major run is still a row-major run. */
  lemma CellsStep(col: nat, row: nat, width: nat, height: nat)
    requires col < width && row < height
    requires var (c, r) := StepPosition(col, row, width);
      (r < height || c > 0) ==> CellsFrom(c, r, width, height)
    ensures CellsFrom(col, row, width, height)
  {
    var ps := PositionsFrom(col, row, width, height);
    var (c, r) := StepPosition(col, row, width);
    var rest := PositionsFrom(c, r, width, height);
    assert ps == [(col, row)] + rest;
    forall k | 0 <= k < |ps|
      ensures ps[k] == CellAfter(col, row, width, k)
    {
      if k > 0 {
        assert ps[k] == rest[k - 1];
        ShiftedCell(col, row, width, k - 1);
      }
    }
  }

  /** One position more than what is left after the successor of `(col, row)`. */
  lemma CountStep(col: nat, row: nat, width: nat, height: nat)
    requires col < width && row < height
    requires var (c, r) := StepPosition(col, row, width);
      (r < height || c > 0) ==> CountFrom(c, r, width, height)
    ensures CountFrom(col, row, width, height)
  {
    var (c, r) := StepPosition(col, row, width);
    assert PositionsFrom(col, row, width, height) == [(col, row)] + PositionsFrom(c, r, width, height);
    if r < height {
      LengthStep(col, row, width, height);
    }
  }

  lemma LengthStep(col: nat, row: nat, width: nat, height: nat)
    requires col < width && row < height
    requires StepPosition(col, row, width).1 < height
    ensures var (c, r) := StepPosition(col, row, width);
      1 + ((height - r) * width - c) == (height - row) * width - col
  {
    if col + 1 >= width {
      assert (height - row) * width == (height - (row + 1)) * width + width;
    }
  }

  /** The cell `k` steps after the successor of `(col, row)` is the cell `k + 1` steps after `(col, row)`. */
  lemma ShiftedCell(col: nat, row: nat, width: nat, k: nat)
    requires col < width
    ensures var (c, r) := StepPosition(col, row, width);
      CellAfter(c, r, width, k) == CellAfter(col, row, width, k + 1)
  {
    if col + 1 >= width {
      ModStep(k, width);
    }
  }

  /** Enumerating a `width × height` grid with `width >= 1` visits every cell
      exactly once, row by row. */
  lemma EnumerationIsRowMajor(width: nat, height: nat)
    requires width >= 1
    ensures |PositionsFrom(0, 0, width, height)| == width * height
    ensures forall k :: 0 <= k < width * height ==> PositionsFrom(0, 0, width, height)[k] == (k % width, k / width)
  {
    PositionsAreRowMajor(0, 0, width, height);
    if height == 0 {
      assert PositionsFrom(0, 0, width, height) == [];
    }
  }

  /** A zero-width grid still yields column 0 of every row. */
  lemma ZeroWidthEnumeration(height: nat)
    ensures PositionsFrom(0, 0, 0, height) == seq(height, r => (0, r))
  {
    ZeroWidthFrom(0, height);
  }

  lemma {:induction false} ZeroWidthFrom(row: nat, height: nat)
    requires row <= height
    ensures PositionsFrom(0, row, 0, height) == seq(height - row, r => (0, row + r))
    decreases height - row
  {
    if row < height {
      ZeroWidthFrom(row + 1, height);
    }
  }

  /** `GridEnumerator`: a cursor `(col, row)` over a grid. */
  class GridEnumerator<T(0)> {
    const grid: Grid<T>
    var col: nat
    var row: nat

    /** `Grid::enumerate`. */
    constructor (grid: Grid<T>)
      ensures this.grid == grid && col == 0 && row == 0
    {
      this.grid := grid;
      col, row := 0, 0;
    }

    /** The positions still to be visited. */
    function Remaining(): seq<(nat, nat)>
      reads this, grid
    {
      PositionsFrom(col, row, grid.width, grid.height)
    }

    /** `Iterator::next`: the cell under the cursor with its position, then
        the cursor moves on; `None` once every row is done. */
    method Next() returns (item: Option<(T, (nat, nat))>)
      requires grid.Valid() && grid.Fits() && CursorOk(col, grid.width)
      modifies this
      ensures CursorOk(col, grid.width)
      ensures old(Remaining()) == [] ==> item == None && col == old(col) && row == old(row)
      ensures old(Remaining()) != [] ==> item == Some((grid.content[old(row), old(col)], old(Remaining())[0]))
      ensures old(Remaining()) != [] ==> Remaining() == old(Remaining())[1..]
      ensures item.Some? ==> CellAgrees(grid, item.value)
    {
      if row < grid.height {
        item := Some((grid.content[row, col], (col, row)));
        col := col + 1;
        if col >= grid.width {
          col := 0;
          row := row + 1;
        }
      } else {
        item := None;
      }
    }
  }

  /** Every position the enumerator visits is inside the stored area of a fitting grid. */
  lemma {:induction false} PositionsInRange(col: nat, row: nat, width: nat, height: nat)
    requires CursorOk(col, width)
    ensures forall p :: p in PositionsFrom(col, row, width, height) ==> p.1 < height && (p.0 < width || p.0 == 0)
    decreases height - row, if col < width then width - col else 0
  {
    if row < height {
      var (c, r) := StepPosition(col, row, width);
      PositionsInRange(c, r, width, height);
    }
  }

  /** An enumerated item holds the value stored at its position, inside the used rows. */
  predicate CellAgrees<T(==,0)>(g: Grid<T>, item: (T, (nat, nat)))
    reads g, g.content
  {
    var (value, (col, row)) := item;
    row < g.height && row < g.content.Length0 && col < g.content.Length1 && value == g.content[row, col]
  }

  /** What the collecting loop knows: `items` are the first positions of `all`
      with their values, and `next` is the following one, if any. */
  ghost predicate Collected<T(0)>(g: Grid<T>, all: seq<(nat, nat)>, items: seq<(T, (nat, nat))>,
                                     next: Option<(T, (nat, nat))>, remaining: seq<(nat, nat)>)
    reads g, g.content
  {
    |items| <= |all| &&
    (forall k :: 0 <= k < |items| ==> items[k].1 == all[k]) &&
    (forall k :: 0 <= k < |items| ==> CellAgrees(g, items[k])) &&
    (next.Some? ==> |items| < |all| && next.value.1 == all[|items|] && remaining == all[|items| + 1..] && CellAgrees(g, next.value)) &&
    (next.None? ==> |items| == |all|)
  }

  /** `items` is what a fresh enumerator of `g` yields: every used cell with
      its position, in row-major order. */
  predicate Enumerated<T(==,0)>(g: Grid<T>, items: seq<(T, (nat, nat))>)
    reads g, g.content
  {
    |items| == |PositionsFrom(0, 0, g.width, g.height)| &&
    (forall k :: 0 <= k < |items| ==> items[k].1 == PositionsFrom(0, 0, g.width, g.height)[k]) &&
    (forall k :: 0 <= k < |items| ==> CellAgrees(g, items[k]))
  }

  /** Collecting a fresh enumerator yields every used cell with its position, in row-major order. */
  method EnumerateAll<T(==,0)>(g: Grid<T>) returns (items: seq<(T, (nat, nat))>)
    requires g.Valid() && g.Fits()
    ensures Enumerated(g, items)
  {
    var e := new GridEnumerator(g);
    ghost var all := PositionsFrom(0, 0, g.width, g.height);
    PositionsInRange(0, 0, g.width, g.height);
    items := [];
    var next := e.Next();
    while next.Some?
      invariant fresh(e) && e.grid == g && CursorOk(e.col, g.width)
      invariant Collected(g, all, items, next, e.Remaining())
      decreases |e.Remaining()|, next.Some?
    {
      ghost var before := e.Remaining();
      ghost var prev := items;
      var item := next.value;
      items := items + [item];
      next := e.Next();
      CollectedStep(g, all, prev, item, next, before, e.Remaining());
    }
  }

  /** Row-major order: `(c0, r0)` comes no later than `(c1, r1)`. */
  predicate NotAfter(p: (nat, nat), q: (nat, nat)) {
    p.1 < q.1 || (p.1 == q.1 && p.0 <= q.0)
  }

  /** The enumerator only moves forward. */
  lemma {:induction false} PositionsFromAfter(col: nat, row: nat, width: nat, height: nat)
    ensures forall p :: p in PositionsFrom(col, row, width, height) ==> NotAfter((col, row), p)
    decreases height - row, if col < width then width - col else 0
  {
    if row < height {
      var (c, r) := StepPosition(col, row, width);
      PositionsFromAfter(c, r, width, height);
    }
  }

  predicate DistinctPositions(ps: seq<(nat, nat)>) {
    forall i, j :: 0 <= i < j < |ps| ==> ps[i] != ps[j]
  }

  /** The enumerator never visits a position twice. */
  lemma {:induction false} PositionsDistinct(col: nat, row: nat, width: nat, height: nat)
    ensures DistinctPositions(PositionsFrom(col, row, width, height))
    decreases height - row, if col < width then width - col else 0
  {
    if row < height {
      var (c, r) := StepPosition(col, row, width);
      var ps := PositionsFrom(col, row, width, height);
      var rest := PositionsFrom(c, r, width, height);
      assert ps == [(col, row)] + rest;
      PositionsDistinct(c, r, width, height);
      PositionsFromAfter(c, r, width, height);
      forall i, j | 0 <= i < j < |ps| ensures ps[i] != ps[j] {
        if i > 0 {
          assert ps[i] == rest[i - 1] && ps[j] == rest[j - 1];
        } else {
          assert ps[j] == rest[j - 1] && ps[j] in rest;
          assert NotAfter((c, r), ps[j]);
          assert ps[i] == (col, row);
        }
      }
    }
  }

  /** One more item keeps the loop's knowledge. */
  lemma CollectedStep<T(0)>(g: Grid<T>, all: seq<(nat, nat)>, items: seq<(T, (nat, nat))>, item: (T, (nat, nat)),
                               next: Option<(T, (nat, nat))>, before: seq<(nat, nat)>, after: seq<(nat, nat)>)
    requires Collected(g, all, items, Some(item), before)
    requires before == [] ==> next.None?
    requires before != [] ==> next.Some? && next.value.1 == before[0] && after == before[1..] && CellAgrees(g, next.value)
    ensures Collected(g, all, items + [item], next, after)
  {
  }
}
