/** Day 4 (day04/src/main.rs): a word search for "XMAS" in all eight
    directions, and for two "MAS" crossing in an X. */
module Day04 {
  import opened Wrappers
  import opened Seqs
  import opened Neighbours
  import opened Board

  /** `get_char_xy`: the character under a neighbour, `None` for a missing one.
      The coordinates it is given come from the neighbour iterator and lie inside the grid. */
  function GetCharXY(b: Board, coords: Option<(nat, nat)>): (r: Option<char>)
    ensures r.Some? ==> coords.Some? && r == CharAt(b, coords.value)
    ensures coords.Some? && Rect(b) && InGrid(b, coords.value) ==> r.Some?
  {
    match coords
    case None => None
    case Some(pos) => CharAt(b, pos)
  }

  /** `transpose`: rows become columns; it asserts a non-empty input and
      indexes every row up to the first row's length. */
  function Transpose<T>(v: seq<seq<T>>): (r: seq<seq<T>>)
    requires |v| > 0 && forall j :: 0 <= j < |v| ==> |v[j]| >= |v[0]|
    ensures |r| == |v[0]|
    ensures forall i :: 0 <= i < |r| ==> |r[i]| == |v| && forall j :: 0 <= j < |v| ==> r[i][j] == v[j][i]
  {
    seq(|v[0]|, i requires 0 <= i < |v[0]| => seq(|v|, j requires 0 <= j < |v| => v[j][i]))
  }

  /** The characters around `pos` at `distance`, one per offset of the shape. */
  function Lookups(b: Board, pos: (nat, nat), distance: nat, m: NeighbourMap): (r: seq<Option<char>>)
    ensures |r| == |MapIndices(m)|
    ensures forall i :: 0 <= i < |r| ==> r[i] == GetCharXY(b, Neighbourhood(pos, (Width(b), Height(b)), distance, m)[i])
  {
    var items := Neighbourhood(pos, (Width(b), Height(b)), distance, m);
    seq(|items|, i requires 0 <= i < |items| => GetCharXY(b, items[i]))
  }

  const SEARCH: seq<Option<char>> := [Some('M'), Some('A'), Some('S')]

  /** The eight candidate words after an 'X': the characters at distances 1, 2
      and 3, transposed into one word per direction. */
  function WordsAt(b: Board, pos: (nat, nat)): seq<seq<Option<char>>> {
    var v := [Lookups(b, pos, 1, All), Lookups(b, pos, 2, All), Lookups(b, pos, 3, All)];
    assert |v[0]| == |v[1]| == |v[2]| == |MapIndices(All)|;
    Transpose(v)
  }

  function IsSearch(w: seq<Option<char>>): bool {
    w == SEARCH
  }

  /** What one cell adds to `find_words_1`'s total. */
  function XmasAt(b: Board, pos: (nat, nat)): nat {
    if CharAt(b, pos) == Some('X') then CountIf(WordsAt(b, pos), IsSearch) else 0
  }

  function FindWords1Spec(b: Board): int {
    SumOf(Positions(Width(b), Height(b)), p => XmasAt(b, p))
  }

  /** `find_words_1`: every cell in enumeration order, each 'X' adding its matching words. */
  method FindWords1(b: Board) returns (total: int)
    ensures total == FindWords1Spec(b)
  {
    var ps := Positions(Width(b), Height(b));
    total := 0;
    for i := 0 to |ps|
      invariant total == SumOf(ps[..i], p => XmasAt(b, p))
    {
      assert ps[..i + 1][..i] == ps[..i];
      total := total + XmasAt(b, ps[i]);
    }
    assert ps[..|ps|] == ps;
  }

  /** The three characters walking from `pos` in the direction of offset `k`. */
  function Ray(b: Board, pos: (nat, nat), k: nat): seq<Option<char>>
    requires k < |OFFSETS|
  {
    var size := (Width(b), Height(b));
    [GetCharXY(b, NeighbourAt(pos.0, pos.1, size.0, size.1, 1, k)),
     GetCharXY(b, NeighbourAt(pos.0, pos.1, size.0, size.1, 2, k)),
     GetCharXY(b, NeighbourAt(pos.0, pos.1, size.0, size.1, 3, k))]
  }

  /** The eight rays around `pos`, in offset order. */
  function Rays(b: Board, pos: (nat, nat)): (r: seq<seq<Option<char>>>)
    ensures |r| == |OFFSETS| && forall k :: 0 <= k < |OFFSETS| ==> r[k] == Ray(b, pos, k)
  {
    seq(|OFFSETS|, k requires 0 <= k < |OFFSETS| => Ray(b, pos, k))
  }

  /** The transposed lookups are the rays: word `k` reads the cells one, two
      and three steps away along offset `k`. */
  lemma WordsAreRays(b: Board, pos: (nat, nat))
    ensures WordsAt(b, pos) == Rays(b, pos)
  {
    var ws := WordsAt(b, pos);
    forall k | 0 <= k < |OFFSETS| ensures ws[k] == Ray(b, pos, k) {
      assert MapIndices(All)[k] == k;
    }
  }

  /** Each 'X' adds the number of directions in which the next three cells
      read 'M', 'A', 'S'; any other cell adds nothing. */
  lemma XmasAtCountsDirections(b: Board, pos: (nat, nat))
    ensures XmasAt(b, pos) == if CharAt(b, pos) == Some('X') then CountIf(Rays(b, pos), IsSearch) else 0
    ensures XmasAt(b, pos) <= 8
  {
    WordsAreRays(b, pos);
  }

  const SEARCH_X: seq<seq<Option<char>>> := [
    [Some('M'), Some('S'), Some('M'), Some('S')],
    [Some('M'), Some('M'), Some('S'), Some('S')],
    [Some('S'), Some('S'), Some('M'), Some('M')],
    [Some('S'), Some('M'), Some('S'), Some('M')]
  ]

  /** The four diagonal neighbours of `pos`, in the `X` shape's order. */
  function Cross(b: Board, pos: (nat, nat)): seq<Option<char>> {
    Lookups(b, pos, 1, X)
  }

  /** What one cell adds to `find_x_2`'s total. */
  function XMasAt(b: Board, pos: (nat, nat)): nat {
    if CharAt(b, pos) == Some('A') && Cross(b, pos) in SEARCH_X then 1 else 0
  }

  function FindX2Spec(b: Board): int {
    SumOf(Positions(Width(b), Height(b)), p => XMasAt(b, p))
  }

  /** `find_x_2`: every 'A' whose diagonal neighbours form one of the listed patterns counts once. */
  method FindX2(b: Board) returns (total: int)
    ensures total == FindX2Spec(b)
  {
    var ps := Positions(Width(b), Height(b));
    total := 0;
    for i := 0 to |ps|
      invariant total == SumOf(ps[..i], p => XMasAt(b, p))
    {
      assert ps[..i + 1][..i] == ps[..i];
      if CharAt(b, ps[i]) == Some('A') {
        var cross := Cross(b, ps[i]);
        if cross in SEARCH_X {
          total := total + 1;
        }
      }
    }
    assert ps[..|ps|] == ps;
  }

  predicate IsMasPair(x: Option<char>, y: Option<char>) {
    (x == Some('M') && y == Some('S')) || (x == Some('S') && y == Some('M'))
  }

  /** The four patterns are exactly the crosses whose two diagonals (top-left to
      bottom-right and top-right to bottom-left) each spell "MAS" one way or the other. */
  lemma CrossPatterns(b: Board, pos: (nat, nat))
    ensures var c := Cross(b, pos);
      c in SEARCH_X <==> IsMasPair(c[0], c[3]) && IsMasPair(c[1], c[2])
  {
    var c := Cross(b, pos);
    if IsMasPair(c[0], c[3]) && IsMasPair(c[1], c[2]) {
      assert c == [c[0], c[1], c[2], c[3]];
    }
  }

  /** The `X` shape lists the diagonal neighbours top-left, top-right, bottom-left, bottom-right. */
  lemma CrossIsDiagonals(b: Board, pos: (nat, nat))
    ensures var size := (Width(b), Height(b));
      Cross(b, pos) == [
        GetCharXY(b, NeighbourAt(pos.0, pos.1, size.0, size.1, 1, 0)),
        GetCharXY(b, NeighbourAt(pos.0, pos.1, size.0, size.1, 1, 2)),
        GetCharXY(b, NeighbourAt(pos.0, pos.1, size.0, size.1, 1, 5)),
        GetCharXY(b, NeighbourAt(pos.0, pos.1, size.0, size.1, 1, 7))]
    ensures OFFSETS[0] == (-1, -1) && OFFSETS[2] == (-1, 1) && OFFSETS[5] == (1, -1) && OFFSETS[7] == (1, 1)
  {
  }
}
