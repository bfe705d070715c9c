/** Day 12 (day12/src/main.rs): a garden of plots, each growing one plant.
    Orthogonally connected plots of the same plant form a region. Part 1
    prices every region at area times perimeter; part 2 at area times the
    number of straight sides. The solution labels regions with a recursive
    flood fill and marks sides by scanning rows and columns. */
module Day12 {
  import opened Wrappers
  import opened Neighbours
  import opened Grid

  /** `Plot`: the plant, the region id once filled, and the sides counted so far. */
  datatype Plot = Plot(plant: char, id: Option<nat>, sides: nat)

  /** `Totals`: what is summed per region. */
  datatype Totals = Totals(area: nat, perimeter: nat, sides: nat)

  type Pos = (nat, nat)

  /** A snapshot of the stored cells, keyed by `(col, row)`. */
  type Plots = map<Pos, Plot>

  /** The used area lies inside the snapshot. */
  ghost predicate Covers(m: Plots, w: nat, h: nat) {
    forall p :: InArea(p, w, h) ==> p in m
  }

  /** What `parse_input` produces: no cell filled, no side counted. */
  ghost predicate Unfilled(m: Plots) {
    forall p :: p in m ==> m[p].id.None? && m[p].sides == 0
  }

  // ---------------------------------------------------------------- neighbours

  /** The `Plus` neighbourhood at distance one: up, left, right, down; outside cells as `None`. */
  function PlusOf(p: Pos, w: nat, h: nat): (r: seq<Option<Pos>>)
    ensures |r| == 4
    ensures forall i :: 0 <= i < 4 && r[i].Some? ==> InArea(r[i].value, w, h)
  {
    var r := Neighbourhood(p, (w, h), 1, Plus);
    forall i | 0 <= i < 4 && r[i].Some?
      ensures InArea(r[i].value, w, h)
    {
      NeighbourAtIsOffset(p.0, p.1, w, h, 1, MapIndices(Plus)[i]);
    }
    r
  }

  /** A same-plant neighbour has been reached (it carries some id). */
  ghost predicate Reached(m: Plots, w: nat, h: nat, p: Pos, n: Option<Pos>)
    requires Covers(m, w, h) && InArea(p, w, h)
    requires n.Some? ==> InArea(n.value, w, h)
  {
    n.Some? && m[n.value].plant == m[p].plant ==> m[n.value].id.Some?
  }

  /** A same-plant neighbour carries the same id. */
  ghost predicate Joined(m: Plots, w: nat, h: nat, p: Pos, n: Option<Pos>)
    requires Covers(m, w, h) && InArea(p, w, h)
    requires n.Some? ==> InArea(n.value, w, h)
  {
    n.Some? && m[n.value].plant == m[p].plant ==> m[n.value].id == m[p].id
  }

  /** Every same-plant neighbour of `p` has been reached. */
  ghost predicate Done(m: Plots, w: nat, h: nat, p: Pos)
    requires Covers(m, w, h) && InArea(p, w, h)
  {
    var ns := PlusOf(p, w, h);
    forall i :: 0 <= i < 4 ==> Reached(m, w, h, p, ns[i])
  }

  /** Every same-plant neighbour of `p` is in `p`'s region. */
  ghost predicate Closed(m: Plots, w: nat, h: nat, p: Pos)
    requires Covers(m, w, h) && InArea(p, w, h)
  {
    var ns := PlusOf(p, w, h);
    forall i :: 0 <= i < 4 ==> Joined(m, w, h, p, ns[i])
  }

  // ---------------------------------------------------------------- fill invariants

  /** No id above `k` is in use. */
  ghost predicate IdsAtMost(m: Plots, w: nat, h: nat, k: nat)
    requires Covers(m, w, h)
  {
    forall p :: InArea(p, w, h) && m[p].id.Some? ==> m[p].id.value <= k
  }

  /** The regions numbered below `k` are complete. */
  ghost predicate EarlierClosed(m: Plots, w: nat, h: nat, k: nat)
    requires Covers(m, w, h)
  {
    forall p :: InArea(p, w, h) && m[p].id.Some? && m[p].id.value < k ==> Closed(m, w, h, p)
  }

  /** Every plot of region `k` grows `plant`. */
  ghost predicate RegionPlant(m: Plots, w: nat, h: nat, k: nat, plant: char)
    requires Covers(m, w, h)
  {
    forall p :: InArea(p, w, h) && m[p].id == Some(k) ==> m[p].plant == plant
  }

  /** From `m0` to `m1` only unfilled cells of the used area got id `k`; nothing else changed. */
  ghost predicate Grows(m0: Plots, m1: Plots, w: nat, h: nat, k: nat) {
    m0.Keys == m1.Keys &&
    forall p :: p in m0 ==>
      m1[p].plant == m0[p].plant && m1[p].sides == m0[p].sides &&
      (m1[p].id != m0[p].id ==> InArea(p, w, h) && m0[p].id.None? && m1[p].id == Some(k))
  }

  /** Every cell filled between `m0` and `m1` has all its same-plant neighbours reached. */
  ghost predicate NewlyDone(m0: Plots, m1: Plots, w: nat, h: nat)
    requires Covers(m0, w, h) && Covers(m1, w, h)
  {
    forall p :: InArea(p, w, h) && m0[p].id.None? && m1[p].id.Some? ==> Done(m1, w, h, p)
  }

  /** What a fill of region `k` from `xy` keeps true. */
  ghost predicate FillState(m: Plots, w: nat, h: nat, k: nat, plant: char) {
    Covers(m, w, h) && IdsAtMost(m, w, h, k) && EarlierClosed(m, w, h, k) && RegionPlant(m, w, h, k, plant)
  }

  /** The unfilled cells of the used area. */
  ghost function Open(m: Plots, w: nat, h: nat): set<Pos> {
    set p | p in Area(w, h) && p in m && m[p].id.None?
  }

  lemma GrowsTrans(m0: Plots, m1: Plots, m2: Plots, w: nat, h: nat, k: nat)
    requires Grows(m0, m1, w, h, k) && Grows(m1, m2, w, h, k)
    ensures Grows(m0, m2, w, h, k)
  {
  }

  /** Filling one more cell shrinks the open set. */
  lemma OpenShrinks(m0: Plots, m1: Plots, w: nat, h: nat, k: nat, p: Pos)
    requires Grows(m0, m1, w, h, k) && p in m0 && m0[p].id.None? && m1[p].id.Some?
    ensures |Open(m1, w, h)| < |Open(m0, w, h)|
  {
    assert Open(m1, w, h) <= Open(m0, w, h) - {p};
    SubsetCard(Open(m1, w, h), Open(m0, w, h) - {p});
  }

  lemma SubsetCard<T>(a: set<T>, b: set<T>)
    requires a <= b
    ensures |a| <= |b|
  {
    assert b == a + (b - a);
  }

  /** Reaching persists while ids only get added. */
  lemma DonePersists(m0: Plots, m1: Plots, w: nat, h: nat, k: nat, p: Pos)
    requires Covers(m0, w, h) && Grows(m0, m1, w, h, k) && InArea(p, w, h) && Done(m0, w, h, p)
    ensures Covers(m1, w, h) && Done(m1, w, h, p)
  {
    var ns := PlusOf(p, w, h);
    forall i | 0 <= i < 4
      ensures Reached(m1, w, h, p, ns[i])
    {
      assert Reached(m0, w, h, p, ns[i]);
    }
  }

  lemma ClosedPersists(m0: Plots, m1: Plots, w: nat, h: nat, k: nat, p: Pos)
    requires Covers(m0, w, h) && Grows(m0, m1, w, h, k) && InArea(p, w, h) && Closed(m0, w, h, p)
    requires m0[p].id.Some? && m0[p].id.value < k
    ensures Covers(m1, w, h) && Closed(m1, w, h, p)
  {
    var ns := PlusOf(p, w, h);
    forall i | 0 <= i < 4
      ensures Joined(m1, w, h, p, ns[i])
    {
      assert Joined(m0, w, h, p, ns[i]);
    }
  }

  /** Filling cells of region `k` keeps the fill invariant. */
  lemma FillStatePersists(m0: Plots, m1: Plots, w: nat, h: nat, k: nat, plant: char)
    requires FillState(m0, w, h, k, plant) && Grows(m0, m1, w, h, k)
    requires forall p :: InArea(p, w, h) && m0[p].id.None? && m1[p].id.Some? ==> m1[p].plant == plant
    ensures FillState(m1, w, h, k, plant)
  {
    forall p | InArea(p, w, h) && m1[p].id.Some? && m1[p].id.value < k
      ensures Closed(m1, w, h, p)
    {
      ClosedPersists(m0, m1, w, h, k, p);
    }
  }

  lemma NewlyDoneTrans(m0: Plots, m1: Plots, m2: Plots, w: nat, h: nat, k: nat)
    requires Covers(m0, w, h) && Grows(m0, m1, w, h, k) && Grows(m1, m2, w, h, k)
    requires NewlyDone(m0, m1, w, h) && NewlyDone(m1, m2, w, h)
    ensures Covers(m2, w, h) && NewlyDone(m0, m2, w, h)
  {
    forall p | InArea(p, w, h) && m0[p].id.None? && m2[p].id.Some?
      ensures Done(m2, w, h, p)
    {
      if m1[p].id.Some? {
        DonePersists(m1, m2, w, h, k, p);
      }
    }
  }

  /** `fill_neighbours`: every same-plant neighbour that has no id yet gets
      id `k` and is filled from in turn. Afterwards `xy` and every cell this
      call filled have all their same-plant neighbours reached. */
  method FillNeighbours(g: Grid<Plot>, xy: Pos, k: nat)
    requires g.Fits() && InArea(xy, g.width, g.height)
    requires FillState(Snapshot(g.content), g.width, g.height, k, g.content[xy.1, xy.0].plant)
    requires g.content[xy.1, xy.0].id == Some(k)
    modifies g.content
    ensures Grows(old(Snapshot(g.content)), Snapshot(g.content), g.width, g.height, k)
    ensures FillState(Snapshot(g.content), g.width, g.height, k, old(g.content[xy.1, xy.0].plant))
    ensures Done(Snapshot(g.content), g.width, g.height, xy)
    ensures NewlyDone(old(Snapshot(g.content)), Snapshot(g.content), g.width, g.height)
    decreases |Open(Snapshot(g.content), g.width, g.height)|
  {
    ghost var m0 := Snapshot(g.content);
    ghost var w, h := g.width, g.height;
    ghost var plant := m0[xy].plant;
    var neigh := PlusOf(xy, g.width, g.height);
    for i := 0 to |neigh|
      invariant Grows(m0, Snapshot(g.content), w, h, k)
      invariant FillState(Snapshot(g.content), w, h, k, plant)
      invariant NewlyDone(m0, Snapshot(g.content), w, h)
      invariant ReachedUpTo(Snapshot(g.content), w, h, xy, neigh, i)
    {
      ghost var before := Snapshot(g.content);
      if neigh[i].Some? {
        var nxy := neigh[i].value;
        if g.content[nxy.1, nxy.0].plant == g.content[xy.1, xy.0].plant && g.content[nxy.1, nxy.0].id.None? {
          FillStep(g, xy, nxy, k, m0, neigh, i);
          ReachedUpToGrows(before, Snapshot(g.content), w, h, k, xy, neigh, i);
        } else {
          assert before[nxy] == g.content[nxy.1, nxy.0] && before[xy] == g.content[xy.1, xy.0];
          ReachedUpToStep(before, w, h, xy, neigh, i);
        }
      } else {
        ReachedUpToStep(before, w, h, xy, neigh, i);
      }
    }
  }

  /** The first `i` neighbours of `p` have been reached. */
  ghost predicate ReachedUpTo(m: Plots, w: nat, h: nat, p: Pos, ns: seq<Option<Pos>>, i: nat)
    requires Covers(m, w, h) && InArea(p, w, h) && ns == PlusOf(p, w, h) && i <= 4
  {
    forall j :: 0 <= j < i ==> Reached(m, w, h, p, ns[j])
  }

  lemma ReachedUpToStep(m: Plots, w: nat, h: nat, p: Pos, ns: seq<Option<Pos>>, i: nat)
    requires Covers(m, w, h) && InArea(p, w, h) && ns == PlusOf(p, w, h) && i < 4
    requires ReachedUpTo(m, w, h, p, ns, i) && Reached(m, w, h, p, ns[i])
    ensures ReachedUpTo(m, w, h, p, ns, i + 1)
  {
  }

  lemma ReachedUpToGrows(m0: Plots, m1: Plots, w: nat, h: nat, k: nat, p: Pos, ns: seq<Option<Pos>>, i: nat)
    requires Covers(m0, w, h) && InArea(p, w, h) && ns == PlusOf(p, w, h) && i < 4
    requires Grows(m0, m1, w, h, k) && ReachedUpTo(m0, w, h, p, ns, i)
    requires Covers(m1, w, h) && Reached(m1, w, h, p, ns[i])
    ensures ReachedUpTo(m1, w, h, p, ns, i + 1)
  {
    forall j | 0 <= j < i
      ensures Reached(m1, w, h, p, ns[j])
    {
      assert Reached(m0, w, h, p, ns[j]);
    }
  }

  /** One arm of the loop in `fill_neighbours`: label the neighbour and fill from it. */
  method FillStep(g: Grid<Plot>, xy: Pos, nxy: Pos, k: nat, ghost m0: Plots, ghost neigh: seq<Option<Pos>>, ghost i: nat)
    requires g.Fits() && InArea(xy, g.width, g.height) && InArea(nxy, g.width, g.height)
    requires neigh == PlusOf(xy, g.width, g.height) && i < 4 && neigh[i] == Some(nxy)
    requires Covers(m0, g.width, g.height) && Grows(m0, Snapshot(g.content), g.width, g.height, k)
    requires FillState(Snapshot(g.content), g.width, g.height, k, m0[xy].plant)
    requires NewlyDone(m0, Snapshot(g.content), g.width, g.height)
    requires g.content[nxy.1, nxy.0].plant == g.content[xy.1, xy.0].plant && g.content[nxy.1, nxy.0].id.None?
    modifies g.content
    ensures Grows(old(Snapshot(g.content)), Snapshot(g.content), g.width, g.height, k)
    ensures Grows(m0, Snapshot(g.content), g.width, g.height, k)
    ensures FillState(Snapshot(g.content), g.width, g.height, k, m0[xy].plant)
    ensures NewlyDone(m0, Snapshot(g.content), g.width, g.height)
    ensures Reached(Snapshot(g.content), g.width, g.height, xy, neigh[i])
    decreases |Open(m0, g.width, g.height)|, 0
  {
    ghost var w, h := g.width, g.height;
    ghost var before := Snapshot(g.content);
    SetAt(g, nxy, g.content[nxy.1, nxy.0].(id := Some(k)));
    ghost var labelled := Snapshot(g.content);
    assert Grows(before, labelled, w, h, k);
    FillStatePersists(before, labelled, w, h, k, m0[xy].plant);
    OpenShrinks(m0, labelled, w, h, k, nxy);
    FillNeighbours(g, nxy, k);
    ghost var after := Snapshot(g.content);
    GrowsTrans(before, labelled, after, w, h, k);
    GrowsTrans(m0, before, after, w, h, k);
    FillStepDone(m0, before, labelled, after, w, h, k, nxy);
    assert labelled[nxy].id == Some(k) && after[nxy].id == Some(k);
  }

  /** The cells the step filled, `nxy` included, are done. */
  lemma FillStepDone(m0: Plots, before: Plots, labelled: Plots, after: Plots, w: nat, h: nat, k: nat, nxy: Pos)
    requires Covers(m0, w, h) && Grows(m0, before, w, h, k) && NewlyDone(m0, before, w, h)
    requires InArea(nxy, w, h) && before[nxy].id.None? && labelled == before[nxy := before[nxy].(id := Some(k))]
    requires Grows(labelled, after, w, h, k) && NewlyDone(labelled, after, w, h) && Done(after, w, h, nxy)
    ensures NewlyDone(m0, after, w, h)
  {
    assert Grows(before, labelled, w, h, k);
    GrowsTrans(before, labelled, after, w, h, k);
    forall p | InArea(p, w, h) && m0[p].id.None? && after[p].id.Some?
      ensures Done(after, w, h, p)
    {
      if before[p].id.Some? {
        DonePersists(before, after, w, h, k, p);
      }
    }
  }

  // ---------------------------------------------------------------- fill_plots

  /** `(x, y)` comes before the cursor `(cx, cy)` in row-major order. */
  predicate Before(p: Pos, cx: nat, cy: nat) {
    p.1 < cy || (p.1 == cy && p.0 < cx)
  }

  /** Plants and sides stay as in `m0`, and so does every cell outside the used area. */
  ghost predicate Keeps(m0: Plots, m: Plots, w: nat, h: nat) {
    m0.Keys == m.Keys &&
    forall p :: p in m0 ==>
      m[p].plant == m0[p].plant && m[p].sides == m0[p].sides && (!InArea(p, w, h) ==> m[p].id == m0[p].id)
  }

  /** Region ids are handed out in the order their first cell is met. */
  ghost predicate FirstSeen(m: Plots, w: nat, h: nat, seeds: seq<Pos>)
    requires Covers(m, w, h)
  {
    forall j, p :: 0 <= j < |seeds| && InArea(p, w, h) && Before(p, seeds[j].0, seeds[j].1) ==>
      m[p].id.Some? && m[p].id.value < j
  }

  /** The fill after every cell before `(cx, cy)` was visited: `n` regions,
      region `j` started at `seeds[j]`, every filled cell closed and of its
      region's plant, every visited cell filled. */
  ghost predicate Progress(m0: Plots, m: Plots, w: nat, h: nat, n: nat, seeds: seq<Pos>, cx: nat, cy: nat) {
    Covers(m, w, h) && Keeps(m0, m, w, h) && |seeds| == n &&
    (forall p :: InArea(p, w, h) && m[p].id.Some? ==> m[p].id.value < n && Closed(m, w, h, p)) &&
    (forall p :: InArea(p, w, h) && Before(p, cx, cy) ==> m[p].id.Some?) &&
    (forall j :: 0 <= j < n ==> InArea(seeds[j], w, h) && Before(seeds[j], cx, cy) && m[seeds[j]].id == Some(j)) &&
    (forall p :: InArea(p, w, h) && m[p].id.Some? ==> m[p].id.value < |seeds| && m[p].plant == m[seeds[m[p].id.value]].plant) &&
    FirstSeen(m, w, h, seeds)
  }

  lemma ProgressInit(m0: Plots, w: nat, h: nat)
    requires Covers(m0, w, h) && Unfilled(m0)
    ensures Progress(m0, m0, w, h, 0, [], 0, 0)
  {
  }

  /** A visited cell that is already filled changes nothing. */
  lemma ProgressSkip(m0: Plots, m: Plots, w: nat, h: nat, n: nat, seeds: seq<Pos>, x: nat, y: nat)
    requires Progress(m0, m, w, h, n, seeds, x, y) && InArea((x, y), w, h) && m[(x, y)].id.Some?
    ensures Progress(m0, m, w, h, n, seeds, x + 1, y)
  {
    forall j, p | 0 <= j < |seeds| && InArea(p, w, h) && Before(p, seeds[j].0, seeds[j].1)
      ensures m[p].id.Some? && m[p].id.value < j
    {
      assert FirstSeen(m, w, h, seeds);
    }
  }

  /** A finished row moves the cursor to the start of the next one. */
  lemma ProgressNextRow(m0: Plots, m: Plots, w: nat, h: nat, n: nat, seeds: seq<Pos>, y: nat)
    requires Progress(m0, m, w, h, n, seeds, w, y)
    ensures Progress(m0, m, w, h, n, seeds, 0, y + 1)
  {
  }

  /** Labelling the first unfilled cell with the next id sets up `fill_neighbours`. */
  lemma ProgressStart(m0: Plots, m: Plots, ml: Plots, w: nat, h: nat, n: nat, seeds: seq<Pos>, x: nat, y: nat)
    requires Progress(m0, m, w, h, n, seeds, x, y) && InArea((x, y), w, h) && m[(x, y)].id.None?
    requires ml == m[(x, y) := m[(x, y)].(id := Some(n))]
    ensures Grows(m, ml, w, h, n) && Covers(ml, w, h)
    ensures FillState(ml, w, h, n, m[(x, y)].plant)
  {
    assert Grows(m, ml, w, h, n);
    forall p | InArea(p, w, h) && ml[p].id.Some? && ml[p].id.value < n
      ensures Closed(ml, w, h, p)
    {
      ClosedPersists(m, ml, w, h, n, p);
    }
  }

  /** `q` lies in the `Plus` neighbourhood of `p` only if `p` lies in that of `q`; `i` is where. */
  lemma PlusSymmetric(p: Pos, q: Pos, w: nat, h: nat) returns (i: nat)
    requires InArea(p, w, h) && Some(q) in PlusOf(p, w, h)
    ensures i < 4 && PlusOf(q, w, h)[i] == Some(p)
  {
    PlusOnlyAdjacent(p, (w, h), q);
    assert IsOrthogonalNeighbour(q, (w, h), p);
    PlusContainsAdjacent(q, (w, h), p);
    var ns := PlusOf(q, w, h);
    assert Some(p) in ns;
    i :| 0 <= i < 4 && ns[i] == Some(p);
  }

  /** Once every cell of region `n` is done, region `n` is closed as well:
      a same-plant neighbour in an earlier region would have pulled the cell
      into that region. */
  lemma Promote(m: Plots, w: nat, h: nat, n: nat, plant: char, p: Pos)
    requires FillState(m, w, h, n, plant) && InArea(p, w, h) && m[p].id == Some(n) && Done(m, w, h, p)
    ensures Closed(m, w, h, p)
  {
    var ns := PlusOf(p, w, h);
    forall i | 0 <= i < 4
      ensures Joined(m, w, h, p, ns[i])
    {
      assert Reached(m, w, h, p, ns[i]);
      if ns[i].Some? && m[ns[i].value].plant == m[p].plant {
        var q := ns[i].value;
        if m[q].id != Some(n) {
          assert m[q].id.value < n;
          assert Closed(m, w, h, q);
          var j := PlusSymmetric(p, q, w, h);
        }
      }
    }
  }

  /** After filling region `n` from `(x, y)` the fill has advanced past `(x, y)` with one more region. */
  lemma ProgressRegion(m0: Plots, m: Plots, ml: Plots, ma: Plots, w: nat, h: nat, n: nat, seeds: seq<Pos>, x: nat, y: nat)
    requires Progress(m0, m, w, h, n, seeds, x, y) && InArea((x, y), w, h) && m[(x, y)].id.None?
    requires ml == m[(x, y) := m[(x, y)].(id := Some(n))]
    requires Covers(ml, w, h) && Grows(ml, ma, w, h, n) && FillState(ma, w, h, n, ml[(x, y)].plant)
    requires Done(ma, w, h, (x, y)) && NewlyDone(ml, ma, w, h)
    ensures Progress(m0, ma, w, h, n + 1, seeds + [(x, y)], x + 1, y)
  {
    RegionGrows(m0, m, ml, ma, w, h, n, seeds, x, y);
    RegionClosed(m0, m, ml, ma, w, h, n, seeds, x, y);
    RegionPlants(m0, m, ma, w, h, n, seeds, x, y);
    RegionFirstSeen(m0, m, ma, w, h, n, seeds, x, y);
    RegionVisited(m0, m, ma, w, h, n, seeds, x, y);
  }

  lemma RegionGrows(m0: Plots, m: Plots, ml: Plots, ma: Plots, w: nat, h: nat, n: nat, seeds: seq<Pos>, x: nat, y: nat)
    requires Progress(m0, m, w, h, n, seeds, x, y) && InArea((x, y), w, h) && m[(x, y)].id.None?
    requires ml == m[(x, y) := m[(x, y)].(id := Some(n))]
    requires Grows(ml, ma, w, h, n)
    ensures Grows(m, ma, w, h, n) && ma[(x, y)].id == Some(n)
  {
    assert Grows(m, ml, w, h, n);
    GrowsTrans(m, ml, ma, w, h, n);
  }

  lemma RegionClosed(m0: Plots, m: Plots, ml: Plots, ma: Plots, w: nat, h: nat, n: nat, seeds: seq<Pos>, x: nat, y: nat)
    requires Progress(m0, m, w, h, n, seeds, x, y) && InArea((x, y), w, h) && m[(x, y)].id.None?
    requires ml == m[(x, y) := m[(x, y)].(id := Some(n))]
    requires Covers(ml, w, h) && Grows(ml, ma, w, h, n) && FillState(ma, w, h, n, ml[(x, y)].plant)
    requires Done(ma, w, h, (x, y)) && NewlyDone(ml, ma, w, h)
    ensures forall p :: InArea(p, w, h) && ma[p].id.Some? ==> ma[p].id.value < n + 1 && Closed(ma, w, h, p)
  {
    forall p | InArea(p, w, h) && ma[p].id.Some?
      ensures ma[p].id.value < n + 1 && Closed(ma, w, h, p)
    {
      if ma[p].id == Some(n) {
        if p != (x, y) {
          assert ml[p].id.None?;
        }
        Promote(ma, w, h, n, ml[(x, y)].plant, p);
      } else {
        assert IdsAtMost(ma, w, h, n) && EarlierClosed(ma, w, h, n);
      }
    }
  }

  lemma RegionPlants(m0: Plots, m: Plots, ma: Plots, w: nat, h: nat, n: nat, seeds: seq<Pos>, x: nat, y: nat)
    requires Progress(m0, m, w, h, n, seeds, x, y) && InArea((x, y), w, h)
    requires Grows(m, ma, w, h, n) && RegionPlant(ma, w, h, n, m[(x, y)].plant)
    ensures forall p :: InArea(p, w, h) && ma[p].id.Some? ==>
      ma[p].id.value < |seeds + [(x, y)]| && ma[p].plant == ma[(seeds + [(x, y)])[ma[p].id.value]].plant
  {
    var seeds' := seeds + [(x, y)];
    forall p | InArea(p, w, h) && ma[p].id.Some?
      ensures ma[p].id.value < |seeds'| && ma[p].plant == ma[seeds'[ma[p].id.value]].plant
    {
      if ma[p].id != Some(n) {
        assert m[p].id == ma[p].id;
        assert seeds'[ma[p].id.value] == seeds[ma[p].id.value];
      }
    }
  }

  lemma RegionFirstSeen(m0: Plots, m: Plots, ma: Plots, w: nat, h: nat, n: nat, seeds: seq<Pos>, x: nat, y: nat)
    requires Progress(m0, m, w, h, n, seeds, x, y)
    requires Grows(m, ma, w, h, n)
    ensures Covers(ma, w, h) && FirstSeen(ma, w, h, seeds + [(x, y)])
  {
    var seeds' := seeds + [(x, y)];
    forall j, p | 0 <= j < |seeds'| && InArea(p, w, h) && Before(p, seeds'[j].0, seeds'[j].1)
      ensures ma[p].id.Some? && ma[p].id.value < j
    {
      if j < n {
        assert seeds'[j] == seeds[j];
        assert FirstSeen(m, w, h, seeds);
        assert m[p].id.Some? && m[p].id.value < j;
      } else {
        assert m[p].id.Some?;
      }
    }
  }

  lemma RegionVisited(m0: Plots, m: Plots, ma: Plots, w: nat, h: nat, n: nat, seeds: seq<Pos>, x: nat, y: nat)
    requires Progress(m0, m, w, h, n, seeds, x, y) && InArea((x, y), w, h)
    requires Grows(m, ma, w, h, n) && ma[(x, y)].id == Some(n)
    ensures Covers(ma, w, h) && Keeps(m0, ma, w, h)
    ensures forall p :: InArea(p, w, h) && Before(p, x + 1, y) ==> ma[p].id.Some?
    ensures var seeds' := seeds + [(x, y)];
      forall j :: 0 <= j < n + 1 ==> InArea(seeds'[j], w, h) && Before(seeds'[j], x + 1, y) && ma[seeds'[j]].id == Some(j)
  {
    var seeds' := seeds + [(x, y)];
    forall j | 0 <= j < n + 1
      ensures InArea(seeds'[j], w, h) && Before(seeds'[j], x + 1, y) && ma[seeds'[j]].id == Some(j)
    {
      if j < n {
        assert seeds'[j] == seeds[j];
      }
    }
  }

  /** `fill_plots`: every unfilled cell, in row-major order, starts a new
      region that `fill_neighbours` completes. */
  method FillPlots(g: Grid<Plot>) returns (ghost n: nat, ghost seeds: seq<Pos>)
    requires g.Fits() && Unfilled(Snapshot(g.content))
    modifies g.content
    ensures Progress(old(Snapshot(g.content)), Snapshot(g.content), g.width, g.height, n, seeds, 0, g.height)
  {
    ghost var m0 := Snapshot(g.content);
    ProgressInit(m0, g.width, g.height);
    var nextId := 0;
    seeds := [];
    for y := 0 to g.height
      invariant Progress(m0, Snapshot(g.content), g.width, g.height, nextId, seeds, 0, y)
    {
      for x := 0 to g.width
        invariant Progress(m0, Snapshot(g.content), g.width, g.height, nextId, seeds, x, y)
      {
        nextId, seeds := VisitCell(g, x, y, nextId, m0, seeds);
      }
      ProgressNextRow(m0, Snapshot(g.content), g.width, g.height, nextId, seeds, y);
    }
    n := nextId;
  }

  /** The body of the loops in `fill_plots` for the cell `(x, y)`. */
  method VisitCell(g: Grid<Plot>, x: nat, y: nat, nextId: nat, ghost m0: Plots, ghost seeds: seq<Pos>)
    returns (nextId': nat, ghost seeds': seq<Pos>)
    requires g.Fits() && InArea((x, y), g.width, g.height)
    requires Progress(m0, Snapshot(g.content), g.width, g.height, nextId, seeds, x, y)
    modifies g.content
    ensures Progress(m0, Snapshot(g.content), g.width, g.height, nextId', seeds', x + 1, y)
  {
    ghost var w, h := g.width, g.height;
    ghost var m := Snapshot(g.content);
    if g.content[y, x].id.None? {
      SetAt(g, (x, y), g.content[y, x].(id := Some(nextId)));
      ghost var ml := Snapshot(g.content);
      ProgressStart(m0, m, ml, w, h, nextId, seeds, x, y);
      FillNeighbours(g, (x, y), nextId);
      ProgressRegion(m0, m, ml, Snapshot(g.content), w, h, nextId, seeds, x, y);
      seeds' := seeds + [(x, y)];
      nextId' := nextId + 1;
    } else {
      ProgressSkip(m0, m, w, h, nextId, seeds, x, y);
      seeds' := seeds;
      nextId' := nextId;
    }
  }

  // ---------------------------------------------------------------- prices

  /** Which figure a region's area is multiplied by. */
  datatype Pricing = ByPerimeter | BySides

  /** The price of one region's totals. */
  function Cost(t: Totals, pricing: Pricing): nat {
    t.area * (if pricing.ByPerimeter? then t.perimeter else t.sides)
  }

  ghost predicate AllInArea(ps: seq<Pos>, w: nat, h: nat) {
    forall i :: 0 <= i < |ps| ==> InArea(ps[i], w, h)
  }

  /** The side of `p` toward the neighbour slot `nb` needs a fence: the slot
      is outside the garden or holds a cell of another region. */
  ghost predicate Fence(m: Plots, w: nat, h: nat, p: Pos, nb: Option<Pos>)
    requires Covers(m, w, h) && InArea(p, w, h)
    requires nb.Some? ==> InArea(nb.value, w, h)
  {
    nb.None? || m[nb.value].id != m[p].id
  }

  /** Fences on the first `j` sides of `p`, in `Plus` order. */
  ghost function FencesUpTo(m: Plots, w: nat, h: nat, p: Pos, j: nat): (r: nat)
    requires Covers(m, w, h) && InArea(p, w, h) && j <= 4
    ensures r <= j
    decreases j
  {
    if j == 0 then 0
    else FencesUpTo(m, w, h, p, j - 1) + (if Fence(m, w, h, p, PlusOf(p, w, h)[j - 1]) then 1 else 0)
  }

  /** What one cell adds to its region's second figure: its fences, or the sides it carries. */
  ghost function Weight(m: Plots, w: nat, h: nat, p: Pos, pricing: Pricing): nat
    requires Covers(m, w, h) && InArea(p, w, h)
  {
    if pricing.ByPerimeter? then FencesUpTo(m, w, h, p, 4) else m[p].sides
  }

  /** The number of cells of region `k` among `ps`. */
  ghost function AreaOf(m: Plots, w: nat, h: nat, ps: seq<Pos>, k: nat): nat
    requires Covers(m, w, h) && AllInArea(ps, w, h)
    decreases |ps|
  {
    if ps == [] then 0
    else AreaOf(m, w, h, ps[..|ps| - 1], k) + (if m[ps[|ps| - 1]].id == Some(k) then 1 else 0)
  }

  /** The summed weight of the cells of region `k` among `ps`. */
  ghost function WeightOf(m: Plots, w: nat, h: nat, ps: seq<Pos>, k: nat, pricing: Pricing): nat
    requires Covers(m, w, h) && AllInArea(ps, w, h)
    decreases |ps|
  {
    if ps == [] then 0
    else
      var q := ps[|ps| - 1];
      WeightOf(m, w, h, ps[..|ps| - 1], k, pricing) + (if m[q].id == Some(k) then Weight(m, w, h, q, pricing) else 0)
  }

  /** The region's totals over the cells `ps`. */
  ghost function RegionTotals(m: Plots, w: nat, h: nat, ps: seq<Pos>, k: nat, pricing: Pricing): Totals
    requires Covers(m, w, h) && AllInArea(ps, w, h)
  {
    var wt := WeightOf(m, w, h, ps, k, pricing);
    Totals(AreaOf(m, w, h, ps, k), if pricing.ByPerimeter? then wt else 0, if pricing.BySides? then wt else 0)
  }

  /** The price of regions `0 .. b - 1` over the cells `ps`. */
  ghost function PriceBelow(m: Plots, w: nat, h: nat, ps: seq<Pos>, b: nat, pricing: Pricing): nat
    requires Covers(m, w, h) && AllInArea(ps, w, h)
    decreases b
  {
    if b == 0 then 0 else PriceBelow(m, w, h, ps, b - 1, pricing) + Cost(RegionTotals(m, w, h, ps, b - 1, pricing), pricing)
  }

  /** The prices of the keys below `b` of a totals map. */
  function SumBelow(t: map<nat, Totals>, b: nat, pricing: Pricing): nat
    decreases b
  {
    if b == 0 then 0 else SumBelow(t, b - 1, pricing) + (if b - 1 in t then Cost(t[b - 1], pricing) else 0)
  }

  /** Summing the map in any order: taking one key out leaves the rest to sum. */
  lemma {:induction false} SumBelowRemove(t: map<nat, Totals>, b: nat, pricing: Pricing, k: nat)
    requires k in t && k < b
    ensures SumBelow(t, b, pricing) == Cost(t[k], pricing) + SumBelow(t - {k}, b, pricing)
    decreases b
  {
    if k < b - 1 {
      SumBelowRemove(t, b - 1, pricing, k);
    } else {
      SumBelowOutside(t, b - 1, pricing, k);
    }
  }

  lemma {:induction false} SumBelowOutside(t: map<nat, Totals>, b: nat, pricing: Pricing, k: nat)
    requires b <= k
    ensures SumBelow(t - {k}, b, pricing) == SumBelow(t, b, pricing)
    decreases b
  {
    if b > 0 {
      SumBelowOutside(t, b - 1, pricing, k);
    }
  }

  /** The totals map holds, for every region met among `ps`, its totals over `ps`. */
  ghost predicate Tallied(m: Plots, w: nat, h: nat, ps: seq<Pos>, totals: map<nat, Totals>, n: nat, pricing: Pricing)
    requires Covers(m, w, h) && AllInArea(ps, w, h)
  {
    (forall k :: k in totals ==> k < n && totals[k] == RegionTotals(m, w, h, ps, k, pricing)) &&
    (forall k :: k !in totals ==> RegionTotals(m, w, h, ps, k, pricing) == Totals(0, 0, 0))
  }

  /** Counting one more cell into its region's entry (`entry().or_default()`, then the additions). */
  lemma TallyStep(m: Plots, w: nat, h: nat, ps: seq<Pos>, totals: map<nat, Totals>, n: nat, pricing: Pricing, q: Pos, t': Totals)
    requires Covers(m, w, h) && AllInArea(ps, w, h) && InArea(q, w, h)
    requires Tallied(m, w, h, ps, totals, n, pricing) && m[q].id.Some? && m[q].id.value < n
    requires var k := m[q].id.value;
      var t := if k in totals then totals[k] else Totals(0, 0, 0);
      var wt := Weight(m, w, h, q, pricing);
      t'.area == t.area + 1 &&
      t'.perimeter == (if pricing.ByPerimeter? then t.perimeter + wt else t.perimeter) &&
      t'.sides == (if pricing.BySides? then t.sides + wt else t.sides)
    ensures AllInArea(ps + [q], w, h)
    ensures Tallied(m, w, h, ps + [q], totals[m[q].id.value := t'], n, pricing)
  {
    var ps' := ps + [q];
    assert ps'[..|ps'| - 1] == ps;
    var k := m[q].id.value;
    forall k' | k' != k
      ensures RegionTotals(m, w, h, ps', k', pricing) == RegionTotals(m, w, h, ps, k', pricing)
    {
    }
  }

  /** A complete tally sums to the price of the regions. */
  lemma {:induction false} TalliedSum(m: Plots, w: nat, h: nat, ps: seq<Pos>, totals: map<nat, Totals>, n: nat, pricing: Pricing, b: nat)
    requires Covers(m, w, h) && AllInArea(ps, w, h) && Tallied(m, w, h, ps, totals, n, pricing)
    ensures SumBelow(totals, b, pricing) == PriceBelow(m, w, h, ps, b, pricing)
    decreases b
  {
    if b > 0 {
      TalliedSum(m, w, h, ps, totals, n, pricing, b - 1);
      if b - 1 !in totals {
        assert RegionTotals(m, w, h, ps, b - 1, pricing) == Totals(0, 0, 0);
      }
    }
  }

  /** Summing the totals map key by key in whatever order the map yields them. */
  method SumTotals(totals: map<nat, Totals>, ghost n: nat, pricing: Pricing) returns (sum: nat)
    requires forall k :: k in totals ==> k < n
    ensures sum == SumBelow(totals, n, pricing)
  {
    sum := 0;
    var rest: map<nat, Totals> := totals;
    while rest.Keys != {}
      invariant forall k :: k in rest ==> k < n
      invariant sum + SumBelow(rest, n, pricing) == SumBelow(totals, n, pricing)
      decreases |rest|
    {
      var k :| k in rest.Keys;
      SumBelowRemove(rest, n, pricing, k);
      sum := sum + Cost(rest[k], pricing);
      rest := rest - {k};
    }
    assert rest == map[];
    SumBelowEmpty(n, pricing);
  }

  lemma {:induction false} SumBelowEmpty(b: nat, pricing: Pricing)
    ensures SumBelow(map[], b, pricing) == 0
    decreases b
  {
    if b > 0 {
      SumBelowEmpty(b - 1, pricing);
    }
  }

  // ---------------------------------------------------------------- part 1

  /** The enumeration order of the garden: every cell, row by row. */
  function Cells(w: nat, h: nat): seq<Pos> {
    PositionsFrom(0, 0, w, h)
  }

  lemma CellsInArea(w: nat, h: nat)
    requires w >= 1 || h == 0
    ensures AllInArea(Cells(w, h), w, h)
  {
    PositionsInRange(0, 0, w, h);
    forall i | 0 <= i < |Cells(w, h)|
      ensures InArea(Cells(w, h)[i], w, h)
    {
      assert Cells(w, h)[i] in Cells(w, h);
    }
  }

  /** `fill_plots` has run to the end: `m` is the filled garden with `n` regions. */
  ghost predicate Filled(m0: Plots, m: Plots, w: nat, h: nat, n: nat, seeds: seq<Pos>) {
    Progress(m0, m, w, h, n, seeds, 0, h)
  }

  /** The price of all `n` regions of the filled garden `m`. */
  ghost function Price(m: Plots, w: nat, h: nat, n: nat, pricing: Pricing): nat
    requires Covers(m, w, h) && (w >= 1 || h == 0)
  {
    CellsInArea(w, h);
    PriceBelow(m, w, h, Cells(w, h), n, pricing)
  }

  /** The loop over the `Plus` neighbours in `calculate_p1`: the fenced sides of `xy`. */
  method CellFences(plots: Grid<Plot>, xy: Pos, id: nat) returns (fences: nat)
    requires plots.Fits() && InArea(xy, plots.width, plots.height) && plots.content[xy.1, xy.0].id == Some(id)
    ensures fences == FencesUpTo(Snapshot(plots.content), plots.width, plots.height, xy, 4)
  {
    ghost var m := Snapshot(plots.content);
    ghost var w, h := plots.width, plots.height;
    var neigh := PlusOf(xy, plots.width, plots.height);
    fences := 0;
    for j := 0 to 4
      invariant fences == FencesUpTo(m, w, h, xy, j)
    {
      if neigh[j].Some? {
        var nxy := neigh[j].value;
        assert m[nxy] == plots.content[nxy.1, nxy.0] && m[xy] == plots.content[xy.1, xy.0];
        if plots.content[nxy.1, nxy.0].id != Some(id) {
          fences := fences + 1;
        }
      } else {
        fences := fences + 1;
      }
    }
  }

  /** Every cell of the used area belongs to one of the regions `0 .. n - 1`. */
  ghost predicate Labelled(m: Plots, w: nat, h: nat, n: nat) {
    Covers(m, w, h) && forall p :: InArea(p, w, h) ==> m[p].id.Some? && m[p].id.value < n
  }

  /** What the enumeration meets beyond a garden without columns: an unfilled cell. */
  ghost predicate ZeroWidthEdge(m: Plots, w: nat, h: nat) {
    w == 0 && h > 0 ==> (0, 0) in m && m[(0, 0)].id.None?
  }

  lemma FilledLabelled(m0: Plots, m: Plots, w: nat, h: nat, n: nat, seeds: seq<Pos>)
    requires Filled(m0, m, w, h, n, seeds) && Unfilled(m0) && (w == 0 && h > 0 ==> (0, 0) in m0)
    ensures Labelled(m, w, h, n) && ZeroWidthEdge(m, w, h)
  {
  }

  /** The enumeration loop of `calculate_p1` and `calculate_p2`: count every
      cell into its region's totals; an unfilled cell panics ("Not filled"). */
  method TallyPlots(plots: Grid<Plot>, ghost n: nat, pricing: Pricing) returns (totals: Option<map<nat, Totals>>)
    requires plots.Valid() && plots.Fits()
    requires Labelled(Snapshot(plots.content), plots.width, plots.height, n)
    requires ZeroWidthEdge(Snapshot(plots.content), plots.width, plots.height)
    ensures totals.None? <==> plots.width == 0 && plots.height > 0
    ensures totals.Some? ==>
      AllInArea(Cells(plots.width, plots.height), plots.width, plots.height) &&
      Tallied(Snapshot(plots.content), plots.width, plots.height, Cells(plots.width, plots.height), totals.value, n, pricing)
  {
    ghost var w, h := plots.width, plots.height;
    ghost var ps := Cells(w, h);
    var items := EnumerateAll(plots);
    var tally: map<nat, Totals> := map[];
    for i := 0 to |items|
      invariant w == 0 && h > 0 ==> i == 0
      invariant (w >= 1 || h == 0) ==> AllInArea(ps[..i], w, h) && Tallied(Snapshot(plots.content), w, h, ps[..i], tally, n, pricing)
    {
      EnumeratedItem(plots, items, n, i);
      var (plot, xy) := items[i];
      if plot.id.None? {
        return None;
      }
      tally := TallyCell(plots, tally, n, pricing, ps, i, plot, xy);
    }
    if w >= 1 || h == 0 {
      assert ps[..|items|] == ps;
    } else {
      ZeroWidthEnumeration(h);
    }
    totals := Some(tally);
  }

  /** What the enumeration yields at step `i`: the `i`-th cell of the row-major
      order, filled when the garden has columns, the unfilled edge cell otherwise. */
  lemma EnumeratedItem(plots: Grid<Plot>, items: seq<(Plot, Pos)>, n: nat, i: nat)
    requires plots.Valid() && plots.Fits() && Enumerated(plots, items) && i < |items|
    requires Labelled(Snapshot(plots.content), plots.width, plots.height, n)
    requires ZeroWidthEdge(Snapshot(plots.content), plots.width, plots.height)
    ensures items[i].1 == Cells(plots.width, plots.height)[i]
    ensures plots.width >= 1 || plots.height == 0 ==>
      InArea(items[i].1, plots.width, plots.height) && items[i].0 == Snapshot(plots.content)[items[i].1] &&
      items[i].0.id.Some?
    ensures plots.width == 0 && plots.height > 0 && i == 0 ==> items[i].0.id.None?
  {
    var (w, h) := (plots.width, plots.height);
    var m := Snapshot(plots.content);
    var xy := items[i].1;
    assert CellAgrees(plots, items[i]);
    if w >= 1 || h == 0 {
      CellsInArea(w, h);
      assert InArea(Cells(w, h)[i], w, h);
      assert m[xy] == plots.content[xy.1, xy.0];
    } else if i == 0 {
      ZeroWidthEnumeration(h);
      assert xy == (0, 0) && m[(0, 0)] == plots.content[0, 0];
    }
  }

  /** One step of the enumeration loop for a filled cell. */
  method TallyCell(plots: Grid<Plot>, tally: map<nat, Totals>, ghost n: nat, pricing: Pricing,
                   ghost ps: seq<Pos>, ghost i: nat, plot: Plot, xy: Pos) returns (tally': map<nat, Totals>)
    requires plots.Fits() && ps == Cells(plots.width, plots.height) && i < |ps| && xy == ps[i]
    requires Labelled(Snapshot(plots.content), plots.width, plots.height, n)
    requires InArea(xy, plots.width, plots.height) && plot == Snapshot(plots.content)[xy] && plot.id.Some?
    requires AllInArea(ps[..i], plots.width, plots.height)
    requires Tallied(Snapshot(plots.content), plots.width, plots.height, ps[..i], tally, n, pricing)
    ensures AllInArea(ps[..i + 1], plots.width, plots.height)
    ensures Tallied(Snapshot(plots.content), plots.width, plots.height, ps[..i + 1], tally', n, pricing)
  {
    ghost var m := Snapshot(plots.content);
    assert plot == plots.content[xy.1, xy.0];
    var id := plot.id.value;
    var total := if id in tally then tally[id] else Totals(0, 0, 0);
    total := total.(area := total.area + 1);
    if pricing.ByPerimeter? {
      var fences := CellFences(plots, xy, id);
      total := total.(perimeter := total.perimeter + fences);
    } else {
      total := total.(sides := total.sides + plot.sides);
    }
    TallyStep(m, plots.width, plots.height, ps[..i], tally, n, pricing, xy, total);
    assert ps[..i + 1] == ps[..i] + [xy];
    tally' := tally[id := total];
  }

  /** `calculate_p1`: fill a copy of the garden, tally area and fences per
      region, and sum area times perimeter. Enumerating a garden without
      columns meets an unfilled cell and panics ("Not filled"). */
  method CalculateP1(input: Grid<Plot>) returns (r: Option<nat>)
    requires input.Valid() && input.Fits() && Unfilled(Snapshot(input.content))
    ensures r.None? <==> input.width == 0 && input.height > 0
    ensures r.Some? ==> exists m, n, seeds ::
      Filled(Snapshot(input.content), m, input.width, input.height, n, seeds) &&
      r.value == Price(m, input.width, input.height, n, ByPerimeter)
  {
    var plots, n, seeds := FilledCopy(input);
    ghost var m := Snapshot(plots.content);
    var totals := TallyPlots(plots, n, ByPerimeter);
    if totals.None? {
      return None;
    }
    var sum := SumTotals(totals.value, n, ByPerimeter);
    TalliedSum(m, plots.width, plots.height, Cells(plots.width, plots.height), totals.value, n, ByPerimeter, n);
    r := Some(sum);
    assert Filled(Snapshot(input.content), m, input.width, input.height, n, seeds) &&
      r.value == Price(m, input.width, input.height, n, ByPerimeter);
  }

  /** The start of both parts: `fill_plots` on a clone of the input garden. */
  method FilledCopy(input: Grid<Plot>) returns (plots: Grid<Plot>, ghost n: nat, ghost seeds: seq<Pos>)
    requires input.Valid() && input.Fits() && Unfilled(Snapshot(input.content))
    ensures fresh(plots) && fresh(plots.content) && plots.Valid() && plots.Fits()
    ensures plots.width == input.width && plots.height == input.height
    ensures Filled(Snapshot(input.content), Snapshot(plots.content), plots.width, plots.height, n, seeds)
    ensures Labelled(Snapshot(plots.content), plots.width, plots.height, n)
    ensures ZeroWidthEdge(Snapshot(plots.content), plots.width, plots.height)
  {
    ghost var m0 := Snapshot(input.content);
    plots := input.Map(x => x);
    assert Snapshot(plots.content) == m0;
    n, seeds := FillPlots(plots);
    FilledLabelled(m0, Snapshot(plots.content), plots.width, plots.height, n, seeds);
    assert Snapshot(input.content) == m0;
  }

  // ---------------------------------------------------------------- part 2

  /** The four single-cell shapes `calculate_p2` checks. */
  predicate IsSide(d: NeighbourMap) {
    d.Top? || d.Bottom? || d.Left? || d.Right?
  }

  /** The neighbour on side `d` of `p`, if it lies inside the garden. */
  function Beyond(p: Pos, w: nat, h: nat, d: NeighbourMap): (r: Option<Pos>)
    requires IsSide(d)
    ensures InArea(p, w, h) && r.Some? ==> InArea(r.value, w, h) && IsOrthogonalNeighbour(p, (w, h), r.value)
  {
    match d
    case Top => if p.1 >= 1 then Some((p.0, p.1 - 1)) else None
    case Bottom => if p.1 + 1 < h then Some((p.0, p.1 + 1)) else None
    case Left => if p.0 >= 1 then Some((p.0 - 1, p.1)) else None
    case Right => if p.0 + 1 < w then Some((p.0 + 1, p.1)) else None
  }

  /** `Neighbours2D::new(pos, size, chk_side).filter_map(|f| f).next()`.*/
  function Across(p: Pos, w: nat, h: nat, d: NeighbourMap): Option<Pos>
    requires IsSide(d)
  {
    var cells := ValidOnly(Neighbourhood(p, (w, h), 1, d));
    if |cells| > 0 then Some(cells[0]) else None
  }

  /** The first neighbour inside the garden of a one-cell shape is the cell on
      that side, and also the matching slot of the `Plus` shape. */
  lemma AcrossIsBeyond(p: Pos, w: nat, h: nat, d: NeighbourMap)
    requires InArea(p, w, h) && IsSide(d)
    ensures Across(p, w, h, d) == Beyond(p, w, h, d) == PlusOf(p, w, h)[PlusSlot(d)]
  {
    var ns := Neighbourhood(p, (w, h), 1, d);
    assert ns == [ns[0]];
    assert ValidOnly(ns[1..]) == [];
    NeighbourAtIsOffset(p.0, p.1, w, h, 1, MapIndices(d)[0]);
  }

  /** Where side `d` sits in the `Plus` order up, left, right, down. */
  function PlusSlot(d: NeighbourMap): (j: nat)
    requires IsSide(d)
    ensures j < 4
  {
    match d
    case Top => 0
    case Left => 1
    case Right => 2
    case Bottom => 3
  }

  /** Side `d` of `p` lies on the region's border: nothing or another region beyond it. */
  ghost predicate Border(m: Plots, w: nat, h: nat, p: Pos, d: NeighbourMap)
    requires Covers(m, w, h) && InArea(p, w, h) && IsSide(d)
  {
    var a := Beyond(p, w, h, d);
    a.None? || m[a.value].id != m[p].id
  }

  /** The cell visited just before `p` when scanning for side `d`: rows for top
      and bottom sides, columns for left and right ones. */
  function Prev(p: Pos, d: NeighbourMap): Option<Pos> {
    if d.Top? || d.Bottom? then (if p.0 >= 1 then Some((p.0 - 1, p.1)) else None)
    else (if p.1 >= 1 then Some((p.0, p.1 - 1)) else None)
  }

  /** `p` starts a straight side in direction `d`: its side `d` is a border
      and the previous cell of the scan line is not a border cell of the same region. */
  ghost predicate Starts(m: Plots, w: nat, h: nat, p: Pos, d: NeighbourMap)
    requires Covers(m, w, h) && InArea(p, w, h) && IsSide(d)
  {
    Border(m, w, h, p, d) &&
    !(Prev(p, d).Some? && Border(m, w, h, Prev(p, d).value, d) && m[Prev(p, d).value].id == m[p].id)
  }

  function Ind(b: bool): nat {
    if b then 1 else 0
  }

  /** The straight sides `p` starts. */
  ghost function SideStarts(m: Plots, w: nat, h: nat, p: Pos): nat
    requires Covers(m, w, h) && InArea(p, w, h)
  {
    Ind(Starts(m, w, h, p, Top)) + Ind(Starts(m, w, h, p, Bottom)) +
    Ind(Starts(m, w, h, p, Left)) + Ind(Starts(m, w, h, p, Right))
  }

  /** The filled garden with every cell carrying the sides it starts. */
  ghost function Marked(m: Plots, w: nat, h: nat): (r: Plots)
    requires Covers(m, w, h)
    ensures r.Keys == m.Keys && Covers(r, w, h)
    ensures forall p :: p in m && InArea(p, w, h) ==> r[p] == m[p].(sides := m[p].sides + SideStarts(m, w, h, p))
    ensures forall p :: p in m && !InArea(p, w, h) ==> r[p] == m[p]
  {
    map p | p in m :: if InArea(p, w, h) then m[p].(sides := m[p].sides + SideStarts(m, w, h, p)) else m[p]
  }

  /** The plots with `inc` more sides counted at `p`. */
  ghost function AddSides(m: Plots, p: Pos, inc: nat): Plots
    requires p in m
  {
    m[p := m[p].(sides := m[p].sides + inc)]
  }

  lemma AddSidesZero(m: Plots, p: Pos)
    requires p in m
    ensures AddSides(m, p, 0) == m
  {
  }

  /** Whether side `chkSide` of `pos` is a border: the cell across is
      outside the garden or of another region. */
  method IsBorderAt(g: Grid<Plot>, pos: Pos, chkSide: NeighbourMap) returns (isBorder: bool)
    requires g.Fits() && InArea(pos, g.width, g.height) && IsSide(chkSide)
    ensures isBorder == Border(Snapshot(g.content), g.width, g.height, pos, chkSide)
  {
    ghost var m := Snapshot(g.content);
    var neigh := Neighbourhood(pos, g.Size(), 1, chkSide);
    isBorder := true;
    var cells := ValidOnly(neigh);
    AcrossIsBeyond(pos, g.width, g.height, chkSide);
    if |cells| > 0 {
      var nPos := cells[0];
      assert m[nPos] == g.content[nPos.1, nPos.0] && m[pos] == g.content[pos.1, pos.0];
      if g.content[nPos.1, nPos.0].id == g.content[pos.1, pos.0].id {
        isBorder := false;
      }
    }
  }

  /** `mark_plot_side`: when side `chk_side` of `pos` is a border and `pos`
      is not in the region whose side is being followed, a new side starts
      here; leaving the border forgets the region. */
  method MarkPlotSide(g: Grid<Plot>, current: Option<nat>, pos: Pos, chkSide: NeighbourMap) returns (current': Option<nat>)
    requires g.Fits() && InArea(pos, g.width, g.height) && IsSide(chkSide)
    modifies g.content
    ensures var m := old(Snapshot(g.content));
      var border := Border(m, g.width, g.height, pos, chkSide);
      Snapshot(g.content) == AddSides(m, pos, Ind(border && m[pos].id != current)) &&
      current' == (if !border then None else m[pos].id)
  {
    ghost var m := Snapshot(g.content);
    var isBorder := IsBorderAt(g, pos, chkSide);
    current' := current;
    var here := g.content[pos.1, pos.0];
    if isBorder && here.id != current {
      SetAt(g, pos, here.(sides := here.sides + 1));
      current' := here.id;
    } else {
      AddSidesZero(m, pos);
    }
    if !isBorder {
      current' := None;
    }
  }

  /** A point in the scans of `calculate_p2`: `phase` 0 scans rows, 1 columns;
      `line` is the row or column, `sub` 0 or 1 the first or second side
      checked on it, `idx` the cell within the line. */
  datatype Cursor = Cursor(phase: nat, line: nat, sub: nat, idx: nat)

  /** Lexicographic order of cursors. */
  predicate Lt(a: Cursor, b: Cursor) {
    a.phase < b.phase || (a.phase == b.phase &&
      (a.line < b.line || (a.line == b.line &&
        (a.sub < b.sub || (a.sub == b.sub && a.idx < b.idx)))))
  }

  /** When the scans check side `d` of `p`. */
  function Key(p: Pos, d: NeighbourMap): Cursor
    requires IsSide(d)
  {
    match d
    case Top => Cursor(0, p.1, 0, p.0)
    case Bottom => Cursor(0, p.1, 1, p.0)
    case Left => Cursor(1, p.0, 0, p.1)
    case Right => Cursor(1, p.0, 1, p.1)
  }

  /** The sides of `p` the scans have counted before `cur`. */
  ghost function Expected(m: Plots, w: nat, h: nat, p: Pos, cur: Cursor): nat
    requires Covers(m, w, h) && InArea(p, w, h)
  {
    Ind(Lt(Key(p, Top), cur) && Starts(m, w, h, p, Top)) + Ind(Lt(Key(p, Bottom), cur) && Starts(m, w, h, p, Bottom)) +
    Ind(Lt(Key(p, Left), cur) && Starts(m, w, h, p, Left)) + Ind(Lt(Key(p, Right), cur) && Starts(m, w, h, p, Right))
  }

  /** The garden `m` is the filled garden `mf` with the sides counted before `cur`. */
  ghost predicate Scanned(mf: Plots, m: Plots, w: nat, h: nat, cur: Cursor)
    requires Covers(mf, w, h)
  {
    m.Keys == mf.Keys &&
    forall p {:trigger m[p]} :: p in mf ==>
      m[p] == (if InArea(p, w, h) then mf[p].(sides := mf[p].sides + Expected(mf, w, h, p, cur)) else mf[p])
  }

  /** Two cursors with the same cells' sides before them. */
  ghost predicate SameBefore(w: nat, h: nat, a: Cursor, b: Cursor) {
    forall p: Pos, d :: InArea(p, w, h) && IsSide(d) ==> (Lt(Key(p, d), a) <==> Lt(Key(p, d), b))
  }

  lemma ScannedMove(mf: Plots, m: Plots, w: nat, h: nat, a: Cursor, b: Cursor)
    requires Covers(mf, w, h) && Scanned(mf, m, w, h, a) && SameBefore(w, h, a, b)
    ensures Scanned(mf, m, w, h, b)
  {
    forall p | p in mf && InArea(p, w, h)
      ensures Expected(mf, w, h, p, a) == Expected(mf, w, h, p, b)
    {
      assert Lt(Key(p, Top), a) == Lt(Key(p, Top), b);
      assert Lt(Key(p, Bottom), a) == Lt(Key(p, Bottom), b);
      assert Lt(Key(p, Left), a) == Lt(Key(p, Left), b);
      assert Lt(Key(p, Right), a) == Lt(Key(p, Right), b);
    }
  }

  /** The cell a cursor of phase 0 (rows) or 1 (columns) stands on. */
  function CellAt(cur: Cursor): Pos {
    if cur.phase == 0 then (cur.idx, cur.line) else (cur.line, cur.idx)
  }

  /** The side checked at a cursor. */
  function SideAt(cur: Cursor): NeighbourMap {
    if cur.phase == 0 then (if cur.sub == 0 then Top else Bottom) else (if cur.sub == 0 then Left else Right)
  }

  /** `current_id` before the cell at `cur`: the region of the previous cell
      of the line if that cell's side is a border, else none. */
  ghost predicate CurrentOk(mf: Plots, w: nat, h: nat, cur: Cursor, current: Option<nat>)
    requires Covers(mf, w, h)
  {
    if cur.idx == 0 then current.None?
    else
      var q := CellAt(cur.(idx := cur.idx - 1));
      InArea(q, w, h) && current == (if Border(mf, w, h, q, SideAt(cur)) then mf[q].id else None)
  }

  /** Every cell of the used area has been filled. */
  ghost predicate AllFilled(m: Plots, w: nat, h: nat) {
    Covers(m, w, h) && forall p :: InArea(p, w, h) ==> m[p].id.Some?
  }

  /** Counting a side leaves every region id as it was. */
  lemma ScannedIds(mf: Plots, m: Plots, w: nat, h: nat, cur: Cursor, p: Pos, d: NeighbourMap)
    requires Covers(mf, w, h) && Scanned(mf, m, w, h, cur) && InArea(p, w, h) && IsSide(d)
    ensures Covers(m, w, h) && m[p].id == mf[p].id && Border(m, w, h, p, d) == Border(mf, w, h, p, d)
  {
    var a := Beyond(p, w, h, d);
    if a.Some? {
      assert m[a.value].id == mf[a.value].id;
    }
  }

  /** With `current_id` as the scan leaves it, `mark_plot_side` counts a side
      at `cur` exactly when the cell starts one there. */
  lemma StartsAtCursor(mf: Plots, w: nat, h: nat, cur: Cursor, current: Option<nat>)
    requires cur.phase <= 1 && cur.sub <= 1 && InArea(CellAt(cur), w, h) && AllFilled(mf, w, h)
    requires CurrentOk(mf, w, h, cur, current)
    ensures var pos, d := CellAt(cur), SideAt(cur);
      Ind(Border(mf, w, h, pos, d) && mf[pos].id != current) == Ind(Starts(mf, w, h, pos, d))
  {
    var pos, d := CellAt(cur), SideAt(cur);
    if cur.idx > 0 {
      assert Prev(pos, d) == Some(CellAt(cur.(idx := cur.idx - 1)));
    } else {
      assert Prev(pos, d).None?;
    }
  }

  /** Moving the cursor by one counts the side at `cur` and nothing else. */
  lemma ExpectedAdvance(mf: Plots, w: nat, h: nat, cur: Cursor, p: Pos)
    requires Covers(mf, w, h) && InArea(p, w, h) && cur.phase <= 1 && cur.sub <= 1
    ensures Expected(mf, w, h, p, cur.(idx := cur.idx + 1)) ==
      Expected(mf, w, h, p, cur) + (if p == CellAt(cur) then Ind(Starts(mf, w, h, p, SideAt(cur))) else 0)
  {
    if p == CellAt(cur) {
      assert Key(p, SideAt(cur)) == cur;
    } else {
      assert Key(p, Top) != cur && Key(p, Bottom) != cur && Key(p, Left) != cur && Key(p, Right) != cur;
    }
  }

  /** The side counted at the `i`-th cell of `line` is exactly the one the
      cell starts there, and the scan moves past it. */
  lemma MarkAdvance(mf: Plots, m: Plots, w: nat, h: nat, d: NeighbourMap, line: nat, i: nat, pos: Pos,
                    border: bool, current: Option<nat>, current': Option<nat>)
    requires IsSide(d) && pos == (if d.Top? || d.Bottom? then (i, line) else (line, i)) && InArea(pos, w, h)
    requires AllFilled(mf, w, h) && Scanned(mf, m, w, h, ScanCursor(d, line, i))
    requires CurrentOk(mf, w, h, ScanCursor(d, line, i), current)
    requires Covers(m, w, h) && border == Border(m, w, h, pos, d)
    requires current' == (if !border then None else m[pos].id)
    ensures Scanned(mf, AddSides(m, pos, Ind(border && m[pos].id != current)), w, h, ScanCursor(d, line, i + 1))
    ensures CurrentOk(mf, w, h, ScanCursor(d, line, i + 1), current')
  {
    var cur := ScanCursor(d, line, i);
    assert cur.phase <= 1 && cur.sub <= 1 && pos == CellAt(cur) && d == SideAt(cur);
    IncAgrees(mf, m, w, h, cur, pos, d, border, current);
    ScannedAdvance(mf, m, w, h, cur, pos, Ind(border && m[pos].id != current));
    ScannedIds(mf, m, w, h, cur, pos, d);
    CurrentAdvance(mf, w, h, cur, pos, d, border, current');
    assert cur.(idx := cur.idx + 1) == ScanCursor(d, line, i + 1);
  }

  /** `mark_plot_side` adds one exactly where the cell starts a side. */
  lemma IncAgrees(mf: Plots, m: Plots, w: nat, h: nat, cur: Cursor, pos: Pos, d: NeighbourMap, border: bool,
                  current: Option<nat>)
    requires cur.phase <= 1 && cur.sub <= 1 && pos == CellAt(cur) && d == SideAt(cur) && InArea(pos, w, h)
    requires AllFilled(mf, w, h) && Scanned(mf, m, w, h, cur) && CurrentOk(mf, w, h, cur, current)
    requires Covers(m, w, h) && border == Border(m, w, h, pos, d)
    ensures Ind(border && m[pos].id != current) == Ind(Starts(mf, w, h, pos, d))
  {
    ScannedIds(mf, m, w, h, cur, pos, d);
    StartsAtCursor(mf, w, h, cur, current);
  }

  /** The `current_id` handed on is the one the next cell of the line expects. */
  lemma CurrentAdvance(mf: Plots, w: nat, h: nat, cur: Cursor, pos: Pos, d: NeighbourMap, border: bool,
                       current': Option<nat>)
    requires cur.phase <= 1 && cur.sub <= 1 && pos == CellAt(cur) && d == SideAt(cur) && InArea(pos, w, h)
    requires Covers(mf, w, h) && IsSide(d) && border == Border(mf, w, h, pos, d)
    requires current' == (if !border then None else mf[pos].id)
    ensures CurrentOk(mf, w, h, cur.(idx := cur.idx + 1), current')
  {
    var next := cur.(idx := cur.idx + 1);
    assert CellAt(next.(idx := next.idx - 1)) == pos && SideAt(next) == d;
  }

  lemma ScannedAdvance(mf: Plots, m: Plots, w: nat, h: nat, cur: Cursor, pos: Pos, inc: nat)
    requires cur.phase <= 1 && cur.sub <= 1 && pos == CellAt(cur) && InArea(pos, w, h)
    requires Covers(mf, w, h) && Scanned(mf, m, w, h, cur) && inc == Ind(Starts(mf, w, h, pos, SideAt(cur)))
    ensures Scanned(mf, AddSides(m, pos, inc), w, h, cur.(idx := cur.idx + 1))
  {
    var next := cur.(idx := cur.idx + 1);
    var m' := AddSides(m, pos, inc);
    forall p | p in mf
      ensures m'[p] == (if InArea(p, w, h) then mf[p].(sides := mf[p].sides + Expected(mf, w, h, p, next)) else mf[p])
    {
      if InArea(p, w, h) {
        ExpectedAdvance(mf, w, h, cur, p);
      }
    }
  }

  /** One call of `mark_plot_side`, at the `i`-th cell of `line`, counts the
      side the cell starts and moves the scan on. */
  method MarkStep(g: Grid<Plot>, current: Option<nat>, pos: Pos, chkSide: NeighbourMap,
                  ghost mf: Plots, ghost line: nat, ghost i: nat)
    returns (current': Option<nat>)
    requires g.Fits() && IsSide(chkSide) && pos == (if chkSide.Top? || chkSide.Bottom? then (i, line) else (line, i))
    requires InArea(pos, g.width, g.height) && AllFilled(mf, g.width, g.height)
    requires Scanned(mf, Snapshot(g.content), g.width, g.height, ScanCursor(chkSide, line, i))
    requires CurrentOk(mf, g.width, g.height, ScanCursor(chkSide, line, i), current)
    modifies g.content
    ensures Scanned(mf, Snapshot(g.content), g.width, g.height, ScanCursor(chkSide, line, i + 1))
    ensures CurrentOk(mf, g.width, g.height, ScanCursor(chkSide, line, i + 1), current')
  {
    ghost var m := Snapshot(g.content);
    ghost var border := Border(m, g.width, g.height, pos, chkSide);
    current' := MarkPlotSide(g, current, pos, chkSide);
    MarkAdvance(mf, m, g.width, g.height, chkSide, line, i, pos, border, current, current');
  }

  /** Nothing is counted before the first cursor. */
  lemma ScannedStart(mf: Plots, w: nat, h: nat)
    requires Covers(mf, w, h)
    ensures Scanned(mf, mf, w, h, Cursor(0, 0, 0, 0))
  {
  }

  /** Past both scans every cell carries the sides it starts. */
  lemma ScannedDone(mf: Plots, m: Plots, w: nat, h: nat)
    requires Covers(mf, w, h) && Scanned(mf, m, w, h, Cursor(2, 0, 0, 0))
    ensures m == Marked(mf, w, h)
  {
    var r := Marked(mf, w, h);
    forall p | p in mf
      ensures m[p] == r[p]
    {
      if InArea(p, w, h) {
        assert Expected(mf, w, h, p, Cursor(2, 0, 0, 0)) == SideStarts(mf, w, h, p);
      }
    }
  }

  /** The second side of a line follows the first. */
  lemma FirstSideDone(w: nat, h: nat, phase: nat, line: nat)
    requires phase <= 1
    ensures SameBefore(w, h, Cursor(phase, line, 0, if phase == 0 then w else h), Cursor(phase, line, 1, 0))
  {
  }

  /** The next line follows the second side of a line. */
  lemma SecondSideDone(w: nat, h: nat, phase: nat, line: nat)
    requires phase <= 1
    ensures SameBefore(w, h, Cursor(phase, line, 1, if phase == 0 then w else h), Cursor(phase, line + 1, 0, 0))
  {
  }

  /** The columns follow the rows, and the end follows the columns. */
  lemma PhaseDone(w: nat, h: nat, phase: nat)
    requires phase <= 1
    ensures SameBefore(w, h, Cursor(phase, if phase == 0 then h else w, 0, 0), Cursor(phase + 1, 0, 0, 0))
  {
  }

  /** The cursor of the `i`-th cell of `line` when checking side `side`. */
  function ScanCursor(side: NeighbourMap, line: nat, i: nat): Cursor
    requires IsSide(side)
  {
    Cursor(if side.Top? || side.Bottom? then 0 else 1, line, if side.Top? || side.Left? then 0 else 1, i)
  }

  /** One inner loop of `calculate_p2`: side `side` of every cell of a row
      (top, bottom) or a column (left, right), `current_id` starting empty. */
  method MarkLine(g: Grid<Plot>, line: nat, side: NeighbourMap, ghost mf: Plots)
    requires g.Fits() && IsSide(side) && AllFilled(mf, g.width, g.height)
    requires line < (if side.Top? || side.Bottom? then g.height else g.width)
    requires Scanned(mf, Snapshot(g.content), g.width, g.height, ScanCursor(side, line, 0))
    modifies g.content
    ensures Scanned(mf, Snapshot(g.content), g.width, g.height,
      ScanCursor(side, line, if side.Top? || side.Bottom? then g.width else g.height))
  {
    var rows := side.Top? || side.Bottom?;
    var len := if rows then g.width else g.height;
    var current: Option<nat> := None;
    for i := 0 to len
      invariant Scanned(mf, Snapshot(g.content), g.width, g.height, ScanCursor(side, line, i))
      invariant CurrentOk(mf, g.width, g.height, ScanCursor(side, line, i), current)
    {
      var pos := if rows then (i, line) else (line, i);
      current := MarkStep(g, current, pos, side, mf, line, i);
    }
  }

  /** The row scans of `calculate_p2`: top then bottom sides, row by row. */
  method MarkRows(g: Grid<Plot>, ghost mf: Plots)
    requires g.Fits() && AllFilled(mf, g.width, g.height)
    requires Scanned(mf, Snapshot(g.content), g.width, g.height, Cursor(0, 0, 0, 0))
    modifies g.content
    ensures Scanned(mf, Snapshot(g.content), g.width, g.height, Cursor(1, 0, 0, 0))
  {
    ghost var w, h := g.width, g.height;
    for y := 0 to g.height
      invariant Scanned(mf, Snapshot(g.content), w, h, Cursor(0, y, 0, 0))
    {
      MarkLine(g, y, Top, mf);
      FirstSideDone(w, h, 0, y);
      ScannedMove(mf, Snapshot(g.content), w, h, Cursor(0, y, 0, w), Cursor(0, y, 1, 0));
      MarkLine(g, y, Bottom, mf);
      SecondSideDone(w, h, 0, y);
      ScannedMove(mf, Snapshot(g.content), w, h, Cursor(0, y, 1, w), Cursor(0, y + 1, 0, 0));
    }
    PhaseDone(w, h, 0);
    ScannedMove(mf, Snapshot(g.content), w, h, Cursor(0, h, 0, 0), Cursor(1, 0, 0, 0));
  }

  /** The column scans of `calculate_p2`: left then right sides, column by column. */
  method MarkColumns(g: Grid<Plot>, ghost mf: Plots)
    requires g.Fits() && AllFilled(mf, g.width, g.height)
    requires Scanned(mf, Snapshot(g.content), g.width, g.height, Cursor(1, 0, 0, 0))
    modifies g.content
    ensures Scanned(mf, Snapshot(g.content), g.width, g.height, Cursor(2, 0, 0, 0))
  {
    ghost var w, h := g.width, g.height;
    for x := 0 to g.width
      invariant Scanned(mf, Snapshot(g.content), w, h, Cursor(1, x, 0, 0))
    {
      MarkLine(g, x, Left, mf);
      FirstSideDone(w, h, 1, x);
      ScannedMove(mf, Snapshot(g.content), w, h, Cursor(1, x, 0, h), Cursor(1, x, 1, 0));
      MarkLine(g, x, Right, mf);
      SecondSideDone(w, h, 1, x);
      ScannedMove(mf, Snapshot(g.content), w, h, Cursor(1, x, 1, h), Cursor(1, x + 1, 0, 0));
    }
    PhaseDone(w, h, 1);
    ScannedMove(mf, Snapshot(g.content), w, h, Cursor(1, w, 0, 0), Cursor(2, 0, 0, 0));
  }

  /** The four scans of `calculate_p2` leave every cell with the sides it starts. */
  method MarkSides(g: Grid<Plot>, ghost mf: Plots)
    requires g.Fits() && AllFilled(mf, g.width, g.height) && Snapshot(g.content) == mf
    modifies g.content
    ensures Snapshot(g.content) == Marked(mf, g.width, g.height)
  {
    ScannedStart(mf, g.width, g.height);
    MarkRows(g, mf);
    MarkColumns(g, mf);
    ScannedDone(mf, Snapshot(g.content), g.width, g.height);
  }

  /** Marking keeps the regions: every cell of the garden still carries its
      region, and the cell the enumeration meets beyond an empty-width garden is untouched. */
  lemma MarkedLabelled(m: Plots, w: nat, h: nat, n: nat)
    requires Labelled(m, w, h, n) && ZeroWidthEdge(m, w, h)
    ensures Labelled(Marked(m, w, h), w, h, n) && ZeroWidthEdge(Marked(m, w, h), w, h)
  {
    var r := Marked(m, w, h);
    forall p | InArea(p, w, h)
      ensures r[p].id == m[p].id
    {
    }
    if w == 0 && h > 0 {
      assert !InArea((0, 0), w, h);
    }
  }

  /** `calculate_p2`: fill the regions of a copy of the garden, count the sides
      each cell starts by the four scans, then sum area times sides over the
      regions; a garden of rows without columns panics ("Not filled"). */
  method CalculateP2(input: Grid<Plot>) returns (r: Option<nat>)
    requires input.Valid() && input.Fits() && Unfilled(Snapshot(input.content))
    ensures r.None? <==> input.width == 0 && input.height > 0
    ensures r.Some? ==> exists m, n, seeds ::
      Filled(Snapshot(input.content), m, input.width, input.height, n, seeds) &&
      r.value == Price(Marked(m, input.width, input.height), input.width, input.height, n, BySides)
  {
    var plots, n, seeds := FilledCopy(input);
    ghost var m := Snapshot(plots.content);
    MarkSides(plots, m);
    ghost var mm := Snapshot(plots.content);
    MarkedLabelled(m, plots.width, plots.height, n);
    var totals := TallyPlots(plots, n, BySides);
    if totals.None? {
      return None;
    }
    var sum := SumTotals(totals.value, n, BySides);
    TalliedSum(mm, plots.width, plots.height, Cells(plots.width, plots.height), totals.value, n, BySides, n);
    r := Some(sum);
    assert Filled(Snapshot(input.content), m, input.width, input.height, n, seeds) &&
      r.value == Price(Marked(m, input.width, input.height), input.width, input.height, n, BySides);
  }

  // ---------------------------------------------------------------- properties of the model

  /** After `fill_plots` orthogonally adjacent plots growing the same plant
      are in the same region. */
  lemma FilledJoinsAdjacent(m0: Plots, m: Plots, w: nat, h: nat, n: nat, seeds: seq<Pos>, p: Pos, q: Pos)
    requires Filled(m0, m, w, h, n, seeds) && InArea(p, w, h) && IsOrthogonalNeighbour(p, (w, h), q)
    requires m[p].plant == m[q].plant
    ensures m[p].id.Some? && m[p].id == m[q].id
  {
    assert Before(p, 0, h);
    assert Closed(m, w, h, p);
    PlusContainsAdjacent(p, (w, h), q);
    var ns := PlusOf(p, w, h);
    var i :| 0 <= i < 4 && ns[i] == Some(q);
    assert Joined(m, w, h, p, ns[i]);
  }

  /** Side `d` of a cell is a border exactly when `calculate_p1` counts a fence there. */
  lemma BorderIsFence(m: Plots, w: nat, h: nat, p: Pos, d: NeighbourMap)
    requires Covers(m, w, h) && InArea(p, w, h) && IsSide(d)
    ensures Border(m, w, h, p, d) == Fence(m, w, h, p, PlusOf(p, w, h)[PlusSlot(d)])
  {
    AcrossIsBeyond(p, w, h, d);
  }

  /** A cell starts at most as many straight sides as it has fences, so at most four. */
  lemma SideStartsAtMostFences(m: Plots, w: nat, h: nat, p: Pos)
    requires Covers(m, w, h) && InArea(p, w, h)
    ensures SideStarts(m, w, h, p) <= FencesUpTo(m, w, h, p, 4) <= 4
  {
    BorderIsFence(m, w, h, p, Top);
    BorderIsFence(m, w, h, p, Left);
    BorderIsFence(m, w, h, p, Right);
    BorderIsFence(m, w, h, p, Bottom);
  }

  /** The only cell of a one-plot garden starts four sides and has four fences. */
  lemma LonePlotFourSides(m: Plots)
    requires Covers(m, 1, 1)
    ensures SideStarts(m, 1, 1, (0, 0)) == FencesUpTo(m, 1, 1, (0, 0), 4) == 4
  {
    var p: Pos := (0, 0);
    assert Starts(m, 1, 1, p, Top) && Starts(m, 1, 1, p, Bottom);
    assert Starts(m, 1, 1, p, Left) && Starts(m, 1, 1, p, Right);
    SideStartsAtMostFences(m, 1, 1, p);
  }

  /** `m1` has the regions of `m2`, and each of its cells carries no more
      sides than the cell has fences in `m2`. */
  ghost predicate SidesWithinFences(m1: Plots, m2: Plots, w: nat, h: nat)
    requires Covers(m1, w, h) && Covers(m2, w, h)
  {
    forall p {:trigger m1[p]} :: InArea(p, w, h) ==>
      m1[p].id == m2[p].id && Weight(m1, w, h, p, BySides) <= Weight(m2, w, h, p, ByPerimeter)
  }

  /** Two gardens with the same regions on `ps` give every region the same area. */
  lemma {:induction false} AreaOfSameIds(m1: Plots, m2: Plots, w: nat, h: nat, ps: seq<Pos>, k: nat)
    requires Covers(m1, w, h) && Covers(m2, w, h) && AllInArea(ps, w, h)
    requires forall p {:trigger m1[p]} :: InArea(p, w, h) ==> m1[p].id == m2[p].id
    ensures AreaOf(m1, w, h, ps, k) == AreaOf(m2, w, h, ps, k)
    decreases |ps|
  {
    if ps != [] {
      AreaOfSameIds(m1, m2, w, h, ps[..|ps| - 1], k);
    }
  }

  /** Cell by cell no more sides than fences gives every region no more sides than perimeter. */
  lemma {:induction false} WeightOfSidesAtMost(m1: Plots, m2: Plots, w: nat, h: nat, ps: seq<Pos>, k: nat)
    requires Covers(m1, w, h) && Covers(m2, w, h) && AllInArea(ps, w, h)
    requires SidesWithinFences(m1, m2, w, h)
    ensures WeightOf(m1, w, h, ps, k, BySides) <= WeightOf(m2, w, h, ps, k, ByPerimeter)
    decreases |ps|
  {
    if ps != [] {
      WeightOfSidesAtMost(m1, m2, w, h, ps[..|ps| - 1], k);
      var q := ps[|ps| - 1];
      assert InArea(q, w, h);
    }
  }

  lemma MulAtMost(a: nat, b: nat, c: nat)
    requires b <= c
    ensures a * b <= a * c
  {
  }

  /** Region by region no dearer by sides than by perimeter gives the same
      bound summed over the regions `0 .. b - 1`. */
  lemma {:induction false} PriceBelowSidesAtMost(m1: Plots, m2: Plots, w: nat, h: nat, ps: seq<Pos>, b: nat)
    requires Covers(m1, w, h) && Covers(m2, w, h) && AllInArea(ps, w, h)
    requires forall k :: 0 <= k < b ==>
      Cost(RegionTotals(m1, w, h, ps, k, BySides), BySides) <= Cost(RegionTotals(m2, w, h, ps, k, ByPerimeter), ByPerimeter)
    ensures PriceBelow(m1, w, h, ps, b, BySides) <= PriceBelow(m2, w, h, ps, b, ByPerimeter)
    decreases b
  {
    if b > 0 {
      PriceBelowSidesAtMost(m1, m2, w, h, ps, b - 1);
    }
  }

  /** The bound for one region's price. */
  lemma CostSidesAtMost(m1: Plots, m2: Plots, w: nat, h: nat, ps: seq<Pos>, k: nat)
    requires Covers(m1, w, h) && Covers(m2, w, h) && AllInArea(ps, w, h)
    requires SidesWithinFences(m1, m2, w, h)
    ensures Cost(RegionTotals(m1, w, h, ps, k, BySides), BySides) <= Cost(RegionTotals(m2, w, h, ps, k, ByPerimeter), ByPerimeter)
  {
    AreaOfSameIds(m1, m2, w, h, ps, k);
    WeightOfSidesAtMost(m1, m2, w, h, ps, k);
    MulAtMost(AreaOf(m1, w, h, ps, k), WeightOf(m1, w, h, ps, k, BySides), WeightOf(m2, w, h, ps, k, ByPerimeter));
  }

  /** Part 2 never exceeds part 1: a straight side is made of one or more fences. */
  lemma PartTwoAtMostPartOne(m0: Plots, m: Plots, w: nat, h: nat, n: nat, seeds: seq<Pos>)
    requires Filled(m0, m, w, h, n, seeds) && Unfilled(m0) && (w >= 1 || h == 0)
    ensures Price(Marked(m, w, h), w, h, n, BySides) <= Price(m, w, h, n, ByPerimeter)
  {
    var mm := Marked(m, w, h);
    forall p | InArea(p, w, h)
      ensures mm[p].id == m[p].id && Weight(mm, w, h, p, BySides) <= Weight(m, w, h, p, ByPerimeter)
    {
      assert m[p].sides == m0[p].sides == 0;
      SideStartsAtMostFences(m, w, h, p);
    }
    CellsInArea(w, h);
    var ps := Cells(w, h);
    forall k | 0 <= k < n
      ensures Cost(RegionTotals(mm, w, h, ps, k, BySides), BySides) <= Cost(RegionTotals(m, w, h, ps, k, ByPerimeter), ByPerimeter)
    {
      CostSidesAtMost(mm, m, w, h, ps, k);
    }
    PriceBelowSidesAtMost(mm, m, w, h, ps, n);
  }
}
