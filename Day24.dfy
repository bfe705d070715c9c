/** Day 24 (day24/src/main.rs): crossed wires. Wires carry booleans; some are
    given as constants and the others are driven by AND, OR and XOR gates.
    Part 1 propagates values pass by pass until a pass learns nothing new,
    then reads the wires whose names start with 'z' as a binary number, the
    greatest name being the most significant bit. */
module Day24 {
  import opened Wrappers
  import Parse
  import Digits
  import opened Bitwise

  /** `NodeOp`: a constant or a gate over two wire ids. */
  datatype NodeOp =
    | Const(val: bool)
    | And(a0: nat, a1: nat)
    | Or(a0: nat, a1: nat)
    | Xor(a0: nat, a1: nat)

  /** `Node`: the wire `id` and what drives it. */
  datatype Node = Node(id: nat, op: NodeOp)

  /** The ids a node touches are wires of the registry (`parse_input` gives
      every name an id below `names.len()`; a larger one makes the indexing
      of `values` panic). */
  predicate WellFormed(nodes: seq<Node>, n: nat) {
    forall k :: 0 <= k < |nodes| ==> nodes[k].id < n && (nodes[k].op.Const? || (nodes[k].op.a0 < n && nodes[k].op.a1 < n))
  }

  /** What a gate computes from two known inputs. */
  function Gate(op: NodeOp, x: bool, y: bool): bool
    requires !op.Const?
  {
    match op
    case And(_, _) => x && y
    case Or(_, _) => x || y
    case Xor(_, _) => x != y
  }

  /** `NodeOp::eval` with `fetch` reading `values`. Each `fetch(..)?` gives up
      on an unknown input, but `&&` and `||` stop after a first input that
      already decides the result, so the second input is not fetched then. */
  function Eval(op: NodeOp, values: seq<Option<bool>>): (r: Option<bool>)
    requires op.Const? || (op.a0 < |values| && op.a1 < |values|)
    ensures op.Const? ==> r == Some(op.val)
    ensures !op.Const? && values[op.a0].Some? && values[op.a1].Some? ==>
      r == Some(Gate(op, values[op.a0].value, values[op.a1].value))
    ensures !op.Const? && values[op.a0].None? ==> r.None?
    ensures op.And? && values[op.a0] == Some(false) ==> r == Some(false)
    ensures op.Or? && values[op.a0] == Some(true) ==> r == Some(true)
    ensures r.None? <==> !op.Const? && (values[op.a0].None? || (values[op.a1].None? && !Decides(op, values[op.a0].value)))
  {
    match op
    case Const(v) => Some(v)
    case And(x, y) =>
      if values[x].None? then None
      else if !values[x].value then Some(false)
      else values[y]
    case Or(x, y) =>
      if values[x].None? then None
      else if values[x].value then Some(true)
      else values[y]
    case Xor(x, y) =>
      if values[x].None? || values[y].None? then None
      else Some(values[x].value != values[y].value)
  }

  /** The first input alone fixes the gate's output: false into AND, true into OR. */
  predicate Decides(op: NodeOp, first: bool) {
    (op.And? && !first) || (op.Or? && first)
  }

  /** `b` keeps every value `a` knows and may know more. */
  predicate Extends(a: seq<Option<bool>>, b: seq<Option<bool>>) {
    |a| == |b| && forall i :: 0 <= i < |a| && a[i].Some? ==> b[i] == a[i]
  }

  /** A known result stays the same when more wires become known. */
  lemma EvalMonotone(op: NodeOp, a: seq<Option<bool>>, b: seq<Option<bool>>)
    requires op.Const? || (op.a0 < |a| && op.a1 < |a|)
    requires Extends(a, b) && Eval(op, a).Some?
    ensures Eval(op, b) == Eval(op, a)
  {
    if !op.Const? {
      assert a[op.a0].Some?;
      assert b[op.a0] == a[op.a0];
    }
  }

  /** The number of known wires. */
  function Known(values: seq<Option<bool>>): (r: nat)
    ensures r <= |values|
  {
    if values == [] then 0
    else Known(values[..|values| - 1]) + (if values[|values| - 1].Some? then 1 else 0)
  }

  /** Learning one wire adds one to the count. */
  lemma {:induction false} KnownSet(values: seq<Option<bool>>, i: nat, v: Option<bool>)
    requires i < |values| && values[i].None? && v.Some?
    ensures Known(values[i := v]) == Known(values) + 1
  {
    var n := |values| - 1;
    var after := values[i := v];
    if i < n {
      KnownSet(values[..n], i, v);
      assert after[..n] == values[..n][i := v];
    } else {
      assert after[..n] == values[..n];
    }
  }

  /** One node in the pass: an unknown wire takes what its node evaluates to. */
  function Visit(values: seq<Option<bool>>, node: Node): (r: (seq<Option<bool>>, bool))
    requires node.id < |values| && (node.op.Const? || (node.op.a0 < |values| && node.op.a1 < |values|))
    ensures Extends(values, r.0)
    ensures r.1 ==> Known(r.0) == Known(values) + 1
    ensures !r.1 ==> r.0 == values
  {
    if values[node.id].Some? then (values, false)
    else
      var v := Eval(node.op, values);
      if v.Some? then
        KnownSet(values, node.id, v);
        (values[node.id := v], true)
      else
        assert values[node.id := v] == values;
        (values, false)
  }

  /** The first `k` nodes of one pass of the `while new_values` loop: the
      values afterwards, and whether any wire became known. */
  function PassOver(values: seq<Option<bool>>, nodes: seq<Node>, k: nat): (r: (seq<Option<bool>>, bool))
    requires WellFormed(nodes, |values|) && k <= |nodes|
    ensures Extends(values, r.0)
    ensures r.1 ==> Known(r.0) > Known(values)
    ensures !r.1 ==> r.0 == values
  {
    if k == 0 then (values, false)
    else
      var before := PassOver(values, nodes, k - 1);
      var after := Visit(before.0, nodes[k - 1]);
      (after.0, before.1 || after.1)
  }

  /** A whole pass over the nodes. */
  function Pass(values: seq<Option<bool>>, nodes: seq<Node>): (r: (seq<Option<bool>>, bool))
    requires WellFormed(nodes, |values|)
  {
    PassOver(values, nodes, |nodes|)
  }

  /** The values when the loop stops: passes repeat while they learn
      something, and each one that does knows more wires. */
  function Settled(values: seq<Option<bool>>, nodes: seq<Node>): (r: seq<Option<bool>>)
    requires WellFormed(nodes, |values|)
    ensures Extends(values, r)
    decreases |values| - Known(values)
  {
    var p := Pass(values, nodes);
    if p.1 then Settled(p.0, nodes) else p.0
  }

  /** The number of passes the loop makes. */
  function Passes(values: seq<Option<bool>>, nodes: seq<Node>): (r: nat)
    requires WellFormed(nodes, |values|)
    ensures r <= |values| - Known(values) + 1
    decreases |values| - Known(values)
  {
    var p := Pass(values, nodes);
    if p.1 then 1 + Passes(p.0, nodes) else 1
  }

  /** Every wire is unknown before the first pass. */
  function Unknown(n: nat): (r: seq<Option<bool>>)
    ensures |r| == n && Known(r) == 0
  {
    if n == 0 then [] else
      var r := Unknown(n - 1) + [None];
      assert r[..n - 1] == Unknown(n - 1);
      r
  }

  /** The loop runs at most `names.len() + 1` passes. */
  lemma PassesBound(n: nat, nodes: seq<Node>)
    requires WellFormed(nodes, n)
    ensures Passes(Unknown(n), nodes) <= n + 1
  {
  }

  /** Nothing is left to learn: every node either drives a known wire or
      still evaluates to `None`. */
  predicate Stable(nodes: seq<Node>, values: seq<Option<bool>>)
    requires WellFormed(nodes, |values|)
  {
    forall k :: 0 <= k < |nodes| ==> values[nodes[k].id].Some? || Eval(nodes[k].op, values).None?
  }

  /** Every known wire is what one of its nodes evaluates to. */
  ghost predicate Justified(nodes: seq<Node>, values: seq<Option<bool>>)
    requires WellFormed(nodes, |values|)
  {
    forall i :: 0 <= i < |values| && values[i].Some? ==>
      exists k :: 0 <= k < |nodes| && nodes[k].id == i && Eval(nodes[k].op, values) == values[i]
  }

  /** A pass that learns nothing shows the values are stable. */
  lemma {:induction false} QuietPassStable(values: seq<Option<bool>>, nodes: seq<Node>, k: nat)
    requires WellFormed(nodes, |values|) && k <= |nodes| && !PassOver(values, nodes, k).1
    ensures forall j :: 0 <= j < k ==> values[nodes[j].id].Some? || Eval(nodes[j].op, values).None?
  {
    if k > 0 {
      QuietPassStable(values, nodes, k - 1);
    }
  }

  /** Learning more keeps every known wire justified. */
  lemma JustifiedExtends(nodes: seq<Node>, a: seq<Option<bool>>, b: seq<Option<bool>>, i: nat)
    requires WellFormed(nodes, |a|) && Extends(a, b) && Justified(nodes, a)
    requires i < |a| && a[i].Some?
    ensures exists k :: 0 <= k < |nodes| && nodes[k].id == i && Eval(nodes[k].op, b) == b[i]
  {
    var k :| 0 <= k < |nodes| && nodes[k].id == i && Eval(nodes[k].op, a) == a[i];
    EvalMonotone(nodes[k].op, a, b);
  }

  /** A pass keeps every known wire justified, the new ones by the node that
      set them. */
  lemma {:induction false} PassJustified(values: seq<Option<bool>>, nodes: seq<Node>, k: nat)
    requires WellFormed(nodes, |values|) && k <= |nodes| && Justified(nodes, values)
    ensures Justified(nodes, PassOver(values, nodes, k).0)
  {
    if k > 0 {
      PassJustified(values, nodes, k - 1);
      var before := PassOver(values, nodes, k - 1).0;
      var after := Visit(before, nodes[k - 1]).0;
      forall i | 0 <= i < |after| && after[i].Some?
        ensures exists j :: 0 <= j < |nodes| && nodes[j].id == i && Eval(nodes[j].op, after) == after[i]
      {
        if before[i].Some? {
          JustifiedExtends(nodes, before, after, i);
        } else {
          EvalMonotone(nodes[k - 1].op, before, after);
          assert nodes[k - 1].id == i;
        }
      }
    }
  }

  /** The loop stops at values that are stable and whose every known wire
      its node accounts for. */
  lemma {:induction false} SettledSound(values: seq<Option<bool>>, nodes: seq<Node>)
    requires WellFormed(nodes, |values|) && Justified(nodes, values)
    ensures Stable(nodes, Settled(values, nodes)) && Justified(nodes, Settled(values, nodes))
    decreases |values| - Known(values)
  {
    var p := Pass(values, nodes);
    PassJustified(values, nodes, |nodes|);
    if p.1 {
      SettledSound(p.0, nodes);
    } else {
      QuietPassStable(values, nodes, |nodes|);
    }
  }

  /** So from all-unknown wires the loop ends stable and justified. */
  lemma SettledFromUnknown(n: nat, nodes: seq<Node>)
    requires WellFormed(nodes, n)
    ensures Stable(nodes, Settled(Unknown(n), nodes)) && Justified(nodes, Settled(Unknown(n), nodes))
  {
    UnknownNone(n);
    SettledSound(Unknown(n), nodes);
  }

  lemma {:induction false} UnknownNone(n: nat)
    ensures forall i :: 0 <= i < n ==> Unknown(n)[i].None?
  {
    if n > 0 {
      UnknownNone(n - 1);
    }
  }

  /** The inner `for node in nodes` loop of one pass, on the `values` slice. */
  method RunPass(values: array<Option<bool>>, nodes: seq<Node>) returns (newValues: bool)
    requires WellFormed(nodes, values.Length)
    modifies values
    ensures (values[..], newValues) == Pass(old(values[..]), nodes)
  {
    newValues := false;
    ghost var start := values[..];
    for k := 0 to |nodes|
      invariant (values[..], newValues) == PassOver(start, nodes, k)
    {
      var node := nodes[k];
      ghost var cur, learned := values[..], newValues;
      if values[node.id].None? {
        var v := Eval(node.op, values[..]);
        values[node.id] := v;
        assert values[..] == cur[node.id := v];
        if v.None? {
          assert values[..] == cur;
        }
        newValues := newValues || v.Some?;
      }
      assert (values[..], newValues) == (Visit(cur, node).0, learned || Visit(cur, node).1);
    }
  }

  /** The `while new_values` loop of `calculate_p1`, from all-unknown wires. */
  method Propagate(n: nat, nodes: seq<Node>) returns (r: seq<Option<bool>>)
    requires WellFormed(nodes, n)
    ensures r == Settled(Unknown(n), nodes)
  {
    var values := new Option<bool>[n](_ => None);
    UnknownNone(n);
    assert values[..] == Unknown(n);
    var newValues := true;
    while newValues
      invariant values.Length == n
      invariant newValues ==> Settled(values[..], nodes) == Settled(Unknown(n), nodes)
      invariant !newValues ==> values[..] == Settled(Unknown(n), nodes)
      decreases n - Known(values[..]) + (if newValues then 1 else 0)
    {
      ghost var before := values[..];
      newValues := RunPass(values, nodes);
    }
    r := values[..];
  }

  /** Rust's `str` order: byte by byte, a proper prefix first. */
  predicate StrLess(a: string, b: string) {
    if a == [] then b != []
    else if b == [] then false
    else if a[0] != b[0] then a[0] < b[0]
    else StrLess(a[1..], b[1..])
  }

  lemma {:induction false} StrLessIrreflexive(a: string)
    ensures !StrLess(a, a)
  {
    if a != [] {
      StrLessIrreflexive(a[1..]);
    }
  }

  lemma {:induction false} StrLessTransitive(a: string, b: string, c: string)
    requires StrLess(a, b) && StrLess(b, c)
    ensures StrLess(a, c)
  {
    if a != [] && b != [] && c != [] && a[0] == b[0] && b[0] == c[0] {
      StrLessTransitive(a[1..], b[1..], c[1..]);
    }
  }

  lemma {:induction false} StrLessTotal(a: string, b: string)
    requires a != b
    ensures StrLess(a, b) || StrLess(b, a)
  {
    if a != [] && b != [] && a[0] == b[0] {
      assert a == [a[0]] + a[1..] && b == [b[0]] + b[1..];
      StrLessTotal(a[1..], b[1..]);
    }
  }

  /** `a` comes before `b` in `znames`: `sorted_by` with `b.cmp(a)` puts
      greater names first and, being stable, keeps equal names in id order. */
  predicate Before(names: seq<string>, a: nat, b: nat)
    requires a < |names| && b < |names|
  {
    StrLess(names[b], names[a]) || (names[a] == names[b] && a < b)
  }

  lemma BeforeTransitive(names: seq<string>, a: nat, b: nat, c: nat)
    requires a < |names| && b < |names| && c < |names|
    requires Before(names, a, b) && Before(names, b, c)
    ensures Before(names, a, c)
  {
    if StrLess(names[c], names[b]) && StrLess(names[b], names[a]) {
      StrLessTransitive(names[c], names[b], names[a]);
    }
  }

  /** Of two different ids one comes first. */
  lemma BeforeTotal(names: seq<string>, a: nat, b: nat)
    requires a < |names| && b < |names| && a != b
    ensures Before(names, a, b) || Before(names, b, a)
  {
    if names[a] != names[b] {
      StrLessTotal(names[a], names[b]);
    }
  }

  /** `zs` lists ids in `znames` order. */
  predicate Ordered(names: seq<string>, zs: seq<nat>)
    requires forall j :: 0 <= j < |zs| ==> zs[j] < |names|
  {
    forall j, l :: 0 <= j < l < |zs| ==> Before(names, zs[j], zs[l])
  }

  /** `n.starts_with("z")`. */
  predicate StartsWithZ(name: string) {
    |name| >= 1 && name[0] == 'z'
  }

  /** Id `i`, greater than every id in `zs`, put at its place. */
  function InsertZ(names: seq<string>, zs: seq<nat>, i: nat): (r: seq<nat>)
    requires i < |names| && forall j :: 0 <= j < |zs| ==> zs[j] < i
    requires Ordered(names, zs)
    ensures |r| == |zs| + 1 && forall j :: 0 <= j < |r| ==> r[j] < |names|
    ensures forall x :: x in r <==> x in zs || x == i
    ensures Ordered(names, r)
  {
    if zs == [] then [i]
    else if !StrLess(names[zs[0]], names[i]) then
      var rest := InsertZ(names, zs[1..], i);
      var r := [zs[0]] + rest;
      forall l | 0 < l < |r|
        ensures Before(names, zs[0], r[l])
      {
        if r[l] == i {
          BeforeTotal(names, zs[0], i);
        } else {
          assert r[l] == rest[l - 1] && r[l] in rest;
          assert r[l] in zs[1..];
          var m :| 0 <= m < |zs[1..]| && zs[1..][m] == r[l];
          assert zs[m + 1] == r[l];
        }
      }
      r
    else
      var r := [i] + zs;
      forall l | 0 < l < |r|
        ensures Before(names, i, r[l])
      {
        if l > 1 {
          BeforeTransitive(names, i, zs[0], zs[l - 1]);
        }
      }
      r
  }

  /** The ids of the 'z' wires among the first `k` names, in `znames` order. */
  ghost predicate ZNamesOk(names: seq<string>, k: nat, r: seq<nat>)
    requires k <= |names|
  {
    (forall j :: 0 <= j < |r| ==> r[j] < k) &&
    (forall x: nat :: x in r <==> x < k && StartsWithZ(names[x])) &&
    Ordered(names, r)
  }

  /** One more name: its id joins the list exactly when it is a 'z' wire. */
  lemma ZNamesStep(names: seq<string>, k: nat, prev: seq<nat>)
    requires 1 <= k <= |names| && ZNamesOk(names, k - 1, prev)
    ensures StartsWithZ(names[k - 1]) ==> ZNamesOk(names, k, InsertZ(names, prev, k - 1))
    ensures !StartsWithZ(names[k - 1]) ==> ZNamesOk(names, k, prev)
  {
    if StartsWithZ(names[k - 1]) {
      var r := InsertZ(names, prev, k - 1);
      forall j | 0 <= j < |r|
        ensures r[j] < k
      {
        assert r[j] in r;
      }
    }
  }

  /** `znames`: the ids of the 'z' wires among the first `k` names, in `znames` order. */
  function ZNamesFrom(names: seq<string>, k: nat): (r: seq<nat>)
    requires k <= |names|
    ensures forall j :: 0 <= j < |r| ==> r[j] < k
    ensures forall x: nat :: x in r <==> x < k && StartsWithZ(names[x])
    ensures Ordered(names, r)
  {
    if k == 0 then []
    else
      var prev := ZNamesFrom(names, k - 1);
      assert ZNamesOk(names, k - 1, prev);
      ZNamesStep(names, k, prev);
      if StartsWithZ(names[k - 1]) then InsertZ(names, prev, k - 1) else prev
  }

  function ZNames(names: seq<string>): (r: seq<nat>)
    ensures forall j :: 0 <= j < |r| ==> r[j] < |names|
  {
    ZNamesFrom(names, |names|)
  }

  /** Bit 0 or 1 of a 'z' wire: only a known `true` sets it. */
  function ZBit(values: seq<Option<bool>>, z: nat): (b: nat)
    requires z < |values|
    ensures b < 2
  {
    if values[z] == Some(true) then 1 else 0
  }

  /** The `result` after the shift loop over `zs`. */
  function Assembled(values: seq<Option<bool>>, zs: seq<nat>): (r: nat)
    requires forall j :: 0 <= j < |zs| ==> zs[j] < |values|
    ensures r < U64_RANGE
  {
    if zs == [] then 0
    else (Assembled(values, zs[..|zs| - 1]) * 2) % U64_RANGE + ZBit(values, zs[|zs| - 1])
  }

  /** The bits of `zs`, least significant (last in `zs`) first. */
  function LowFirst(values: seq<Option<bool>>, zs: seq<nat>): (r: seq<nat>)
    requires forall j :: 0 <= j < |zs| ==> zs[j] < |values|
    ensures |r| == |zs| && Digits.DigitsBelow(r, 2)
  {
    seq(|zs|, i requires 0 <= i < |zs| => ZBit(values, zs[|zs| - 1 - i]))
  }

  /** Up to 64 wires nothing is dropped: the result is the binary number
      whose digits, least significant first, are the wires from the end of
      `zs`. */
  lemma {:induction false} AssembledEncodes(values: seq<Option<bool>>, zs: seq<nat>)
    requires forall j :: 0 <= j < |zs| ==> zs[j] < |values|
    requires |zs| <= 64
    ensures Assembled(values, zs) == Digits.Encode(LowFirst(values, zs), 2)
  {
    if zs != [] {
      var init := zs[..|zs| - 1];
      var bits := LowFirst(values, zs);
      var a := Assembled(values, init);
      AssembledEncodes(values, init);
      assert bits[1..] == LowFirst(values, init);
      Digits.EncodeBound(LowFirst(values, init), 2);
      PowMonotone(|init|, 63);
      PowSixtyThree();
      assert a * 2 < U64_RANGE;
      ModBelow(a * 2, U64_RANGE);
      assert Assembled(values, zs) == a * 2 + ZBit(values, zs[|zs| - 1]);
      assert Digits.Encode(bits, 2) == bits[0] + 2 * Digits.Encode(bits[1..], 2);
    }
  }

  /** Bit `i` of the result, from the least significant end, is the wire
      `i` places from the end of `zs`: with `znames` order that is the
      `i`-th 'z' wire in ascending name order. */
  lemma ResultBit(values: seq<Option<bool>>, zs: seq<nat>, i: nat)
    requires forall j :: 0 <= j < |zs| ==> zs[j] < |values|
    requires |zs| <= 64 && i < |zs|
    ensures Digits.Digit(Assembled(values, zs), 2, i) == (if values[zs[|zs| - 1 - i]] == Some(true) then 1 else 0)
  {
    AssembledEncodes(values, zs);
    Digits.EncodeDigits(LowFirst(values, zs), 2, i);
  }

  /** The shift loop of `calculate_p1`. */
  method Assemble(values: seq<Option<bool>>, zs: seq<nat>) returns (result: nat)
    requires forall j :: 0 <= j < |zs| ==> zs[j] < |values|
    ensures result == Assembled(values, zs)
  {
    result := 0;
    for k := 0 to |zs|
      invariant result == Assembled(values, zs[..k])
    {
      assert zs[..k + 1][..k] == zs[..k];
      result := (result * 2) % U64_RANGE;
      if values[zs[k]] == Some(true) {
        result := result + 1;
      }
    }
    assert zs[..|zs|] == zs;
  }

  /** `calculate_p1`: propagate, then read the 'z' wires. */
  method CalculateP1(names: seq<string>, nodes: seq<Node>) returns (result: nat)
    requires WellFormed(nodes, |names|)
    ensures result == Assembled(Settled(Unknown(|names|), nodes), ZNames(names))
  {
    var values := Propagate(|names|, nodes);
    var znames := ZNames(names);
    result := Assemble(values, znames);
  }
}
