/** A character grid as the rows it is read from: the read-only view of a
    `Grid<char>` that the daily solutions only look at. */
module Board {
  import opened Wrappers
  import Grid

  type Board = seq<string>

  function Width(b: Board): nat {
    if |b| == 0 then 0 else |b[0]|
  }

  function Height(b: Board): nat {
    |b|
  }

  /** Every row as wide as the first (what `Grid::try_from_lines` accepts). */
  predicate Rect(b: Board) {
    forall r :: 0 <= r < |b| ==> |b[r]| == Width(b)
  }

  predicate InGrid(b: Board, pos: (nat, nat)) {
    pos.0 < Width(b) && pos.1 < Height(b)
  }

  /** The character at `(col, row)`. */
  function At(b: Board, pos: (nat, nat)): char
    requires Rect(b) && InGrid(b, pos)
  {
    b[pos.1][pos.0]
  }

  /** The character at `(col, row)` when inside the grid. */
  function CharAt(b: Board, pos: (nat, nat)): (r: Option<char>)
    ensures r.Some? <==> Rect(b) && InGrid(b, pos)
    ensures r.Some? ==> r.value == At(b, pos)
  {
    if Rect(b) && InGrid(b, pos) then Some(b[pos.1][pos.0]) else None
  }

  lemma DivBelow(k: nat, w: nat, h: nat)
    requires w > 0 && k < w * h
    ensures k / w < h
  {
    if k / w >= h {
      Grid.MulLe(h, k / w, w);
    }
  }

  /** The positions `enumerate` visits: row by row, `(col, row)`. */
  function Positions(w: nat, h: nat): (ps: seq<(nat, nat)>)
    ensures |ps| == w * h
    ensures forall k :: 0 <= k < |ps| ==> ps[k] == (k % w, k / w) && ps[k].0 < w && ps[k].1 < h
  {
    if w == 0 then []
    else
      seq(w * h, k requires 0 <= k < w * h => (DivBelow(k, w, h); (k % w, k / w)))
  }

  /** For a grid at least one column wide this is the enumerator's order. */
  lemma PositionsAreEnumeration(w: nat, h: nat)
    requires w >= 1
    ensures Positions(w, h) == Grid.PositionsFrom(0, 0, w, h)
  {
    Grid.EnumerationIsRowMajor(w, h);
  }

  /** Every cell of the grid is visited. */
  lemma PositionsCoverGrid(w: nat, h: nat, pos: (nat, nat))
    requires pos.0 < w && pos.1 < h
    ensures pos in Positions(w, h)
  {
    var k := pos.1 * w + pos.0;
    assert k < w * h by {
      Grid.MulLe(pos.1 + 1, h, w);
    }
    Grid.DivModUnique(k, w, pos.1, pos.0);
    assert Positions(w, h)[k] == pos;
  }
}
