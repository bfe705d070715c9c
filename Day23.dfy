/** Day 23 (day23/src/main.rs): a LAN party. Each input line links two named
    computers; part 1 finds the groups of three computers that are all linked
    to one another and counts those with a member whose name starts with 't'. */
module Day23 {
  import opened Wrappers
  import Parse
  import NameReg
  import Sets

  /** The two names of one `a-b` line, split at the first '-'. */
  function Link(line: string): Option<(string, string)> {
    Parse.SplitOnce(line, '-')
  }

  /** The edge list holds every link both ways: entry `2k` is line `k` in
      reading order, entry `2k + 1` the same link reversed. */
  predicate Paired(edges: seq<(nat, nat)>) {
    |edges| % 2 == 0 &&
    forall k :: 0 <= k < |edges| / 2 ==> edges[2 * k + 1] == (edges[2 * k].1, edges[2 * k].0)
  }

  /** Every edge is there in both directions. */
  predicate Symmetric(edges: seq<(nat, nat)>) {
    forall i :: 0 <= i < |edges| ==> (edges[i].1, edges[i].0) in edges
  }

  /** No name is registered twice. */
  predicate Distinct(names: seq<string>) {
    forall i, j :: 0 <= i < j < |names| ==> names[i] != names[j]
  }

  /** `parse_input` after `read_lines`: each line's two names get ids from one
      `NameRegistry` and the link is pushed both ways; a line without '-' is
      `InvalidInput`. The names come back ordered by id. */
  method ParseInput(lines: seq<string>) returns (r: Option<(seq<string>, seq<(nat, nat)>)>)
    ensures r.Some? <==> forall k :: 0 <= k < |lines| ==> Link(lines[k]).Some?
    ensures r.Some? ==> Distinct(r.value.0) && Paired(r.value.1) && |r.value.1| == 2 * |lines|
    ensures r.Some? ==> forall i :: 0 <= i < |r.value.1| ==> r.value.1[i].0 < |r.value.0| && r.value.1[i].1 < |r.value.0|
    ensures r.Some? ==> forall k :: 0 <= k < |lines| ==>
      (r.value.0[r.value.1[2 * k].0], r.value.0[r.value.1[2 * k].1]) == Link(lines[k]).value
  {
    var reg := new NameReg.NameRegistry();
    var edges: seq<(nat, nat)> := [];
    for k := 0 to |lines|
      invariant fresh(reg) && reg.Valid()
      invariant Registered(reg.order, edges, lines, k)
    {
      var link := Parse.SplitOnce(lines[k], '-');
      if link.None? {
        return None;
      }
      ghost var before := reg.order;
      var p1 := reg.AddOrLookup(link.value.0);
      var p2 := reg.AddOrLookup(link.value.1);
      RegisteredStep(before, reg.order, edges, lines, k, p1, p2);
      edges := edges + [(p1, p2), (p2, p1)];
    }
    var names := reg.IntoVec();
    assert Distinct(names) by {
      forall i, j | 0 <= i < j < |names|
        ensures names[i] != names[j]
      {
        assert reg.names[reg.order[i]] == i && reg.names[reg.order[j]] == j;
      }
    }
    return Some((names, edges));
  }

  /** After `k` lines: `order` names the ids, every line so far had a '-',
      and its link sits at `2k` and reversed at `2k + 1`. */
  ghost predicate Registered(order: seq<string>, edges: seq<(nat, nat)>, lines: seq<string>, k: nat) {
    k <= |lines| && |edges| == 2 * k && Paired(edges) &&
    (forall i :: 0 <= i < |edges| ==> edges[i].0 < |order| && edges[i].1 < |order|) &&
    (forall j :: 0 <= j < k ==> Link(lines[j]).Some?) &&
    (forall j :: 0 <= j < k ==> (order[edges[2 * j].0], order[edges[2 * j].1]) == Link(lines[j]).value)
  }

  /** Registering line `k`'s names (which only appends to `order`) and
      pushing its link both ways keeps the picture. */
  lemma RegisteredStep(order: seq<string>, order': seq<string>, edges: seq<(nat, nat)>, lines: seq<string>, k: nat, p1: nat, p2: nat)
    requires Registered(order, edges, lines, k) && k < |lines| && Link(lines[k]).Some?
    requires order <= order' && p1 < |order'| && p2 < |order'|
    requires (order'[p1], order'[p2]) == Link(lines[k]).value
    ensures Registered(order', edges + [(p1, p2), (p2, p1)], lines, k + 1)
  {
    var edges' := edges + [(p1, p2), (p2, p1)];
    assert forall i :: 0 <= i < |edges| ==> edges'[i] == edges[i];
    forall j | 0 <= j < k + 1
      ensures (order'[edges'[2 * j].0], order'[edges'[2 * j].1]) == Link(lines[j]).value
    {
      if j < k {
        assert edges'[2 * j] == edges[2 * j];
        assert order'[edges[2 * j].0] == order[edges[2 * j].0];
        assert order'[edges[2 * j].1] == order[edges[2 * j].1];
      } else {
        assert edges'[2 * j] == (p1, p2);
      }
    }
    forall j | 0 <= j < |edges'| / 2
      ensures edges'[2 * j + 1] == (edges'[2 * j].1, edges'[2 * j].0)
    {
      if j < k {
        assert edges'[2 * j + 1] == edges[2 * j + 1];
      }
    }
  }

  /** A list built in pairs holds every edge both ways. */
  lemma PairedSymmetric(edges: seq<(nat, nat)>)
    requires Paired(edges)
    ensures Symmetric(edges)
  {
    forall i | 0 <= i < |edges|
      ensures (edges[i].1, edges[i].0) in edges
    {
      var k := i / 2;
      if i % 2 == 0 {
        assert edges[2 * k + 1] == (edges[i].1, edges[i].0);
      } else {
        assert edges[2 * k + 1] == edges[i];
        assert edges[2 * k] == (edges[i].1, edges[i].0);
      }
    }
  }

  /** Three ids, ascending, all linked to one another. */
  predicate IsTriangle(edges: seq<(nat, nat)>, t: (nat, nat, nat)) {
    t.0 < t.1 < t.2 && (t.0, t.1) in edges && (t.1, t.2) in edges && (t.0, t.2) in edges
  }

  /** The triangles among the first `n` ids. */
  ghost function Triangles(n: nat, edges: seq<(nat, nat)>): set<(nat, nat, nat)> {
    set a: nat, b: nat, c: nat | a < b < c < n && IsTriangle(edges, (a, b, c)) :: (a, b, c)
  }

  /** `[s0, s1, s2].sort()`: the three ids in ascending order. */
  function Sort3(a: nat, b: nat, c: nat): (r: (nat, nat, nat))
    ensures r.0 <= r.1 <= r.2
    ensures multiset{r.0, r.1, r.2} == multiset{a, b, c}
  {
    if a <= b then
      if b <= c then (a, b, c)
      else if a <= c then (a, c, b)
      else (c, a, b)
    else
      if a <= c then (b, a, c)
      else if b <= c then (b, c, a)
      else (c, b, a)
  }

  /** Any three distinct ids pairwise linked (in either direction of a
      symmetric list) give, sorted, a triangle: each group is found once. */
  lemma TriangleOfGroup(n: nat, edges: seq<(nat, nat)>, x: nat, y: nat, z: nat)
    requires Symmetric(edges) && x < n && y < n && z < n && x != y && y != z && x != z
    requires (x, y) in edges && (y, z) in edges && (x, z) in edges
    ensures Sort3(x, y, z) in Triangles(n, edges)
  {
    var t := Sort3(x, y, z);
    forall u, v | u in multiset{x, y, z} && v in multiset{x, y, z} && u != v
      ensures (u, v) in edges
    {
      Linked(edges, x, y, z, u, v);
    }
    assert t.0 in multiset{x, y, z} && t.1 in multiset{x, y, z} && t.2 in multiset{x, y, z};
    assert IsTriangle(edges, t);
  }

  /** Two different ids among three pairwise-linked ones are linked. */
  lemma Linked(edges: seq<(nat, nat)>, x: nat, y: nat, z: nat, u: nat, v: nat)
    requires Symmetric(edges) && (x, y) in edges && (y, z) in edges && (x, z) in edges
    requires u in multiset{x, y, z} && v in multiset{x, y, z} && u != v
    ensures (u, v) in edges
  {
    var i :| 0 <= i < |edges| && edges[i] == (x, y);
    var j :| 0 <= j < |edges| && edges[j] == (y, z);
    var k :| 0 <= k < |edges| && edges[k] == (x, z);
    assert (y, x) in edges && (z, y) in edges && (z, x) in edges;
  }

  /** The triangles `calculate_p1` has found before reaching `(a, b, c)`:
      those that come first in lexicographic order. */
  ghost function Found(n: nat, edges: seq<(nat, nat)>, a: nat, b: nat, c: nat): set<(nat, nat, nat)> {
    set t | t in Triangles(n, edges) && (t.0 < a || (t.0 == a && (t.1 < b || (t.1 == b && t.2 < c))))
  }

  /** Trying `s2 = c` adds the triangle `(a, b, c)` when it is one. */
  lemma FoundStep(n: nat, edges: seq<(nat, nat)>, a: nat, b: nat, c: nat)
    requires a < b < c < n
    ensures Found(n, edges, a, b, c + 1) ==
      Found(n, edges, a, b, c) + (if IsTriangle(edges, (a, b, c)) then {(a, b, c)} else {})
  {
    if IsTriangle(edges, (a, b, c)) {
      assert (a, b, c) in Triangles(n, edges);
    }
  }

  /** The third id starts above the second: nothing below it is skipped. */
  lemma FoundInnerStart(n: nat, edges: seq<(nat, nat)>, a: nat, b: nat)
    ensures Found(n, edges, a, b, b + 1) == Found(n, edges, a, b, 0)
  {
  }

  /** Past the last third id, the next second id begins. */
  lemma FoundInnerEnd(n: nat, edges: seq<(nat, nat)>, a: nat, b: nat)
    ensures Found(n, edges, a, b, n) == Found(n, edges, a, b + 1, 0)
  {
  }

  /** Without the edge `(a, b)` there is no triangle starting `a, b`. */
  lemma FoundSkip(n: nat, edges: seq<(nat, nat)>, a: nat, b: nat)
    requires (a, b) !in edges
    ensures Found(n, edges, a, b + 1, 0) == Found(n, edges, a, b, 0)
  {
  }

  /** The second id starts above the first, and past the last one the next
      first id begins. */
  lemma FoundMiddle(n: nat, edges: seq<(nat, nat)>, a: nat)
    ensures Found(n, edges, a, a + 1, 0) == Found(n, edges, a, 0, 0)
    ensures Found(n, edges, a, n, 0) == Found(n, edges, a + 1, 0, 0)
  {
  }

  /** Once every first id is done, every triangle is found. */
  lemma FoundAll(n: nat, edges: seq<(nat, nat)>)
    ensures Found(n, edges, n, 0, 0) == Triangles(n, edges)
    ensures Found(n, edges, 0, 0, 0) == {}
  {
  }

  /** The loops of `calculate_p1` that fill `sets_of_3`. */
  method SetsOf3(n: nat, edges: seq<(nat, nat)>) returns (sets: set<(nat, nat, nat)>)
    ensures sets == Triangles(n, edges)
  {
    sets := {};
    FoundAll(n, edges);
    for s0 := 0 to n
      invariant sets == Found(n, edges, s0, 0, 0)
    {
      FoundMiddle(n, edges, s0);
      for s1 := s0 + 1 to n
        invariant sets == Found(n, edges, s0, s1, 0)
      {
        if (s0, s1) in edges {
          FoundInnerStart(n, edges, s0, s1);
          for s2 := s1 + 1 to n
            invariant sets == Found(n, edges, s0, s1, s2)
          {
            FoundStep(n, edges, s0, s1, s2);
            if (s1, s2) in edges && (s0, s2) in edges {
              var set3 := Sort3(s0, s1, s2);
              sets := sets + {set3};
            }
          }
          FoundInnerEnd(n, edges, s0, s1);
        } else {
          FoundSkip(n, edges, s0, s1);
        }
      }
    }
  }

  /** `n.starts_with("t")`. */
  predicate StartsWithT(name: string) {
    |name| >= 1 && name[0] == 't'
  }

  /** Some member of the group has a name starting with 't'. */
  predicate HasT(names: seq<string>, t: (nat, nat, nat)) {
    (t.0 < |names| && StartsWithT(names[t.0])) ||
    (t.1 < |names| && StartsWithT(names[t.1])) ||
    (t.2 < |names| && StartsWithT(names[t.2]))
  }

  /** `calculate_p1`: the triangles among all registered ids that have a
      member whose name starts with 't', counted. */
  method CalculateP1(names: seq<string>, edges: seq<(nat, nat)>) returns (r: nat)
    ensures r == |set t | t in Triangles(|names|, edges) && HasT(names, t)|
    ensures r <= |Triangles(|names|, edges)|
  {
    var sets := SetsOf3(|names|, edges);
    var withT := set i | 0 <= i < |names| && StartsWithT(names[i]);
    var containing := set t | t in sets && (t.0 in withT || t.1 in withT || t.2 in withT);
    assert containing == set t | t in Triangles(|names|, edges) && HasT(names, t);
    assert containing <= sets;
    Sets.SubsetCard(containing, sets);
    r := |containing|;
  }
}
