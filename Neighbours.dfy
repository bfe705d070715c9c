/** The eight-neighbourhood iterator (aoc_tools/src/neighbours.rs) and the
    direction-filtered neighbourhoods the daily solutions ask for. */
module Neighbours {
  import opened Wrappers
  import opened NumExt

  /** `Neighbours2D::OFFSETS` as `(off_row, off_col)`, row-major around the centre. */
  const OFFSETS: seq<(int, int)> :=
    [(-1, -1), (-1, 0), (-1, 1),
     ( 0, -1),          ( 0, 1),
     ( 1, -1), ( 1, 0), ( 1, 1)]

  /** The k-th item of the iterator: the cell `(col, row)` at the k-th offset
      scaled by `distance`, or `None` when it falls outside `width` × `height`. */
  function NeighbourAt(col: nat, row: nat, width: nat, height: nat, distance: nat, k: nat): (r: Option<(nat, nat)>)
    requires k < |OFFSETS|
  {
    var (offRow, offCol) := OFFSETS[k];
    match CheckedAddSigned(col, offCol * distance)
    case None => None
    case Some(nCol) =>
      match CheckedAddSigned(row, offRow * distance)
      case None => None
      case Some(nRow) => if nCol < width && nRow < height then Some((nCol, nRow)) else None
  }

  /** The k-th item is present exactly when the scaled offset lands inside the
      grid, and then it is that cell. */
  lemma NeighbourAtIsOffset(col: nat, row: nat, width: nat, height: nat, distance: nat, k: nat)
    requires k < |OFFSETS|
    ensures var r := NeighbourAt(col, row, width, height, distance, k);
      var (offRow, offCol) := OFFSETS[k];
      (r.Some? <==> 0 <= col + offCol * distance < width && 0 <= row + offRow * distance < height) &&
      (r.Some? ==> r.value == (col + offCol * distance, row + offRow * distance))
  {
  }

  /** Every item the iterator yields from offset `k` on, in order. */
  function NeighboursFrom(col: nat, row: nat, width: nat, height: nat, distance: nat, k: nat): (items: seq<Option<(nat, nat)>>)
    requires k <= |OFFSETS|
    ensures |items| == |OFFSETS| - k
    ensures forall i :: 0 <= i < |items| ==> items[i] == NeighbourAt(col, row, width, height, distance, k + i)
    decreases |OFFSETS| - k
  {
    if k == |OFFSETS| then []
    else [NeighbourAt(col, row, width, height, distance, k)] + NeighboursFrom(col, row, width, height, distance, k + 1)
  }

  /** The whole sequence a fresh iterator yields. */
  function AllNeighbours(col: nat, row: nat, width: nat, height: nat, distance: nat): seq<Option<(nat, nat)>> {
    NeighboursFrom(col, row, width, height, distance, 0)
  }

  /** `Neighbours2D`: the centre, the bounds, the distance and the position of
      the offsets iterator (`consumed` offsets already returned). */
  class Neighbours2D {
    const col: nat
    const row: nat
    const width: nat
    const height: nat
    const distance: nat
    var consumed: nat

    ghost predicate Valid()
      reads this
    {
      consumed <= |OFFSETS|
    }

    /** `Neighbours2D::new`: distance one. */
    constructor New(col: nat, row: nat, width: nat, height: nat)
      ensures Valid()
      ensures this.col == col && this.row == row && this.width == width && this.height == height
      ensures distance == 1 && consumed == 0
    {
      this.col, this.row, this.width, this.height := col, row, width, height;
      distance := 1;
      consumed := 0;
    }

    /** `Neighbours2D::new_with_distance`. */
    constructor NewWithDistance(col: nat, row: nat, width: nat, height: nat, distance: nat)
      ensures Valid()
      ensures this.col == col && this.row == row && this.width == width && this.height == height
      ensures this.distance == distance && consumed == 0
    {
      this.col, this.row, this.width, this.height := col, row, width, height;
      this.distance := distance;
      consumed := 0;
    }

    /** What the iterator still has to yield. */
    function Remaining(): seq<Option<(nat, nat)>>
      requires Valid()
      reads this
    {
      NeighboursFrom(col, row, width, height, distance, consumed)
    }

    /** `Iterator::next`: the next offset's cell (or `Some(None)` when it is
        outside the grid), and `None` once all eight offsets are used. */
    method Next() returns (item: Option<Option<(nat, nat)>>)
      requires Valid()
      modifies this
      ensures Valid()
      ensures old(consumed) < |OFFSETS| ==>
        item == Some(NeighbourAt(col, row, width, height, distance, old(consumed))) && consumed == old(consumed) + 1
      ensures old(consumed) == |OFFSETS| ==> item == None && consumed == old(consumed)
    {
      if consumed < |OFFSETS| {
        var (offRow, offCol) := OFFSETS[consumed];
        consumed := consumed + 1;
        match CheckedAddSigned(col, offCol * distance)
        case None => item := Some(None);
        case Some(nCol) =>
          match CheckedAddSigned(row, offRow * distance)
          case None => item := Some(None);
          case Some(nRow) =>
            if nCol < width && nRow < height {
              item := Some(Some((nCol, nRow)));
            } else {
              item := Some(None);
            }
      } else {
        item := None;
      }
    }

    /** Draining the iterator yields exactly the remaining items, in order. */
    method Collect() returns (items: seq<Option<(nat, nat)>>)
      requires Valid()
      modifies this
      ensures Valid() && consumed == |OFFSETS|
      ensures items == old(Remaining())
    {
      ghost var start := consumed;
      items := [];
      var next := Next();
      while next.Some?
        invariant Valid() && start <= consumed
        invariant next.Some? ==> consumed > start && next.value == NeighbourAt(col, row, width, height, distance, consumed - 1)
        invariant next.None? ==> consumed == |OFFSETS|
        invariant Drained(col, row, width, height, distance, items, start, if next.Some? then consumed - 1 else consumed)
        decreases |OFFSETS| - consumed, next.Some?
      {
        DrainedStep(col, row, width, height, distance, items, start, consumed - 1, next.value);
        items := items + [next.value];
        next := Next();
      }
      DrainedAll(col, row, width, height, distance, items, start);
    }
  }

  /** `items` are the iterator's items from offset `start` up to offset `upto`. */
  ghost predicate Drained(col: nat, row: nat, width: nat, height: nat, distance: nat,
                          items: seq<Option<(nat, nat)>>, start: nat, upto: nat)
  {
    start <= upto <= |OFFSETS| && |items| == upto - start &&
    forall i :: 0 <= i < |items| ==> items[i] == NeighbourAt(col, row, width, height, distance, start + i)
  }

  lemma DrainedStep(col: nat, row: nat, width: nat, height: nat, distance: nat,
                    items: seq<Option<(nat, nat)>>, start: nat, upto: nat, x: Option<(nat, nat)>)
    requires Drained(col, row, width, height, distance, items, start, upto) && upto < |OFFSETS|
    requires x == NeighbourAt(col, row, width, height, distance, upto)
    ensures Drained(col, row, width, height, distance, items + [x], start, upto + 1)
  {
  }

  lemma DrainedAll(col: nat, row: nat, width: nat, height: nat, distance: nat,
                   items: seq<Option<(nat, nat)>>, start: nat)
    requires Drained(col, row, width, height, distance, items, start, |OFFSETS|)
    ensures items == NeighboursFrom(col, row, width, height, distance, start)
  {
  }

  /** `filter_map(|n| n)`: the neighbours that lie inside the grid. */
  function ValidOnly(items: seq<Option<(nat, nat)>>): (cells: seq<(nat, nat)>)
    ensures forall c :: c in cells <==> Some(c) in items
    ensures |cells| <= |items|
  {
    if items == [] then []
    else (if items[0].Some? then [items[0].value] else []) + ValidOnly(items[1..])
  }

  /** A neighbour that is reported lies inside the grid. */
  lemma NeighboursInBounds(col: nat, row: nat, width: nat, height: nat, distance: nat, cell: (nat, nat))
    requires cell in ValidOnly(AllNeighbours(col, row, width, height, distance))
    ensures cell.0 < width && cell.1 < height
  {
    var items := AllNeighbours(col, row, width, height, distance);
    var i :| 0 <= i < |items| && items[i] == Some(cell);
    NeighbourAtIsOffset(col, row, width, height, distance, i);
  }

  /** A cell strictly inside the grid has all eight neighbours at distance one. */
  lemma InteriorHasEight(col: nat, row: nat, width: nat, height: nat)
    requires 1 <= col && col + 1 < width && 1 <= row && row + 1 < height
    ensures forall i :: 0 <= i < |OFFSETS| ==> AllNeighbours(col, row, width, height, 1)[i].Some?
  {
    forall i | 0 <= i < |OFFSETS| ensures AllNeighbours(col, row, width, height, 1)[i].Some? {
      NeighbourAtIsOffset(col, row, width, height, 1, i);
    }
  }

  /** Fixture: the corner (0, 0) of a 5 × 5 grid has three neighbours. */
  lemma CornerFixture()
    ensures AllNeighbours(0, 0, 5, 5, 1) == [None, None, None, None, Some((1, 0)), None, Some((0, 1)), Some((1, 1))]
  {
    var items := AllNeighbours(0, 0, 5, 5, 1);
    assert items[0] == NeighbourAt(0, 0, 5, 5, 1, 0);
  }

  /** Fixture: the opposite corner (4, 4) of a 5 × 5 grid. */
  lemma FarCornerFixture()
    ensures AllNeighbours(4, 4, 5, 5, 1) == [Some((3, 3)), Some((4, 3)), None, Some((3, 4)), None, None, None, None]
  {
    var items := AllNeighbours(4, 4, 5, 5, 1);
    assert items[0] == NeighbourAt(4, 4, 5, 5, 1, 0);
  }

  /** Fixture: the centre (2, 2) of a 5 × 5 grid, in row-major order. */
  lemma CentreFixture()
    ensures AllNeighbours(2, 2, 5, 5, 1) == [Some((1, 1)), Some((2, 1)), Some((3, 1)), Some((1, 2)), Some((3, 2)), Some((1, 3)), Some((2, 3)), Some((3, 3))]
  {
    var items := AllNeighbours(2, 2, 5, 5, 1);
    assert items[0] == NeighbourAt(2, 2, 5, 5, 1, 0);
  }

  /** The neighbourhood shapes the daily solutions select. */
  datatype NeighbourMap = All | Plus | X | Top | Bottom | Left | Right

  /** The offsets (as indices into `OFFSETS`) a shape keeps, in `OFFSETS` order. */
  function MapIndices(m: NeighbourMap): (ks: seq<nat>)
    ensures forall i :: 0 <= i < |ks| ==> ks[i] < |OFFSETS|
  {
    match m
    case All => [0, 1, 2, 3, 4, 5, 6, 7]
    case Plus => [1, 3, 4, 6]
    case X => [0, 2, 5, 7]
    case Top => [1]
    case Bottom => [6]
    case Left => [3]
    case Right => [4]
  }

  /** The neighbours of `(col, row)` of a shape, outside cells as `None`. */
  function Neighbourhood(pos: (nat, nat), size: (nat, nat), distance: nat, m: NeighbourMap): (items: seq<Option<(nat, nat)>>)
    ensures |items| == |MapIndices(m)|
    ensures forall i :: 0 <= i < |items| ==> items[i] == NeighbourAt(pos.0, pos.1, size.0, size.1, distance, MapIndices(m)[i])
  {
    var ks := MapIndices(m);
    seq(|ks|, i requires 0 <= i < |ks| => NeighbourAt(pos.0, pos.1, size.0, size.1, distance, ks[i]))
  }

  /** The `Plus` shape at distance one holds exactly the orthogonally adjacent cells inside the grid. */
  lemma PlusIsOrthogonal(pos: (nat, nat), size: (nat, nat), cell: (nat, nat))
    ensures cell in ValidOnly(Neighbourhood(pos, size, 1, Plus)) <==> IsOrthogonalNeighbour(pos, size, cell)
  {
    if cell in ValidOnly(Neighbourhood(pos, size, 1, Plus)) {
      PlusOnlyAdjacent(pos, size, cell);
    }
    if IsOrthogonalNeighbour(pos, size, cell) {
      PlusContainsAdjacent(pos, size, cell);
    }
  }

  lemma PlusOnlyAdjacent(pos: (nat, nat), size: (nat, nat), cell: (nat, nat))
    requires Some(cell) in Neighbourhood(pos, size, 1, Plus)
    ensures IsOrthogonalNeighbour(pos, size, cell)
  {
    var items := Neighbourhood(pos, size, 1, Plus);
    var i :| 0 <= i < |items| && items[i] == Some(cell);
    NeighbourAtIsOffset(pos.0, pos.1, size.0, size.1, 1, MapIndices(Plus)[i]);
  }

  /** The `Plus` shape at distance two holds only cells inside the grid two
      steps away in a straight line. */
  lemma PlusTwoApart(pos: (nat, nat), size: (nat, nat), cell: (nat, nat))
    requires Some(cell) in Neighbourhood(pos, size, 2, Plus)
    ensures cell.0 < size.0 && cell.1 < size.1
    ensures (cell.0 == pos.0 && (cell.1 == pos.1 + 2 || cell.1 + 2 == pos.1)) ||
            (cell.1 == pos.1 && (cell.0 == pos.0 + 2 || cell.0 + 2 == pos.0))
  {
    var items := Neighbourhood(pos, size, 2, Plus);
    var i :| 0 <= i < |items| && items[i] == Some(cell);
    NeighbourAtIsOffset(pos.0, pos.1, size.0, size.1, 2, MapIndices(Plus)[i]);
  }

  /** `Neighbours2D::new(pos, size, NeighbourMap::Plus)`: up, left, right,
      down; every cell present is orthogonally adjacent and inside. */
  function PlusCells(pos: (nat, nat), size: (nat, nat)): (r: seq<Option<(nat, nat)>>)
    ensures |r| == 4
    ensures forall i :: 0 <= i < 4 && r[i].Some? ==> IsOrthogonalNeighbour(pos, size, r[i].value)
    ensures forall cell :: IsOrthogonalNeighbour(pos, size, cell) ==> Some(cell) in r
  {
    var r := Neighbourhood(pos, size, 1, Plus);
    forall i | 0 <= i < 4 && r[i].Some?
      ensures IsOrthogonalNeighbour(pos, size, r[i].value)
    {
      PlusOnlyAdjacent(pos, size, r[i].value);
    }
    forall cell | IsOrthogonalNeighbour(pos, size, cell)
      ensures Some(cell) in r
    {
      PlusContainsAdjacent(pos, size, cell);
    }
    r
  }

  predicate IsOrthogonalNeighbour(pos: (nat, nat), size: (nat, nat), cell: (nat, nat)) {
    cell.0 < size.0 && cell.1 < size.1 &&
    ((cell.0 == pos.0 && (cell.1 + 1 == pos.1 || cell.1 == pos.1 + 1)) ||
     (cell.1 == pos.1 && (cell.0 + 1 == pos.0 || cell.0 == pos.0 + 1)))
  }

  lemma PlusContainsAdjacent(pos: (nat, nat), size: (nat, nat), cell: (nat, nat))
    requires IsOrthogonalNeighbour(pos, size, cell)
    ensures Some(cell) in Neighbourhood(pos, size, 1, Plus)
  {
    var items := Neighbourhood(pos, size, 1, Plus);
    forall i | 0 <= i < 4 ensures items[i] == NeighbourAt(pos.0, pos.1, size.0, size.1, 1, MapIndices(Plus)[i]) {
      NeighbourAtIsOffset(pos.0, pos.1, size.0, size.1, 1, MapIndices(Plus)[i]);
    }
    if cell.1 + 1 == pos.1 { assert items[0] == Some(cell); }
    else if cell.0 + 1 == pos.0 { assert items[1] == Some(cell); }
    else if cell.0 == pos.0 + 1 { assert items[2] == Some(cell); }
    else { assert items[3] == Some(cell); }
  }
}
