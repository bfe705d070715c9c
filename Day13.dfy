/** Day 13 (day13/src/main.rs): claw machines with two buttons. Button A
    moves the claw by `speedA` and costs 3 tokens, button B moves it by
    `speedB` and costs 1; a machine is won by landing exactly on `prize`.
    Part 1 searches the presses by brute force. */
module Day13 {
  import opened Wrappers
  import Grid

  datatype Machine = Machine(speedA: (nat, nat), speedB: (nat, nat), prize: (nat, nat))

  /** How far `n` presses of a button moving `s` carry the claw along one axis. */
  function Moved(n: nat, s: nat): nat
    decreases n
  {
    if n == 0 then 0 else Moved(n - 1, s) + s
  }

  lemma {:induction false} MovedIsProduct(n: nat, s: nat)
    ensures Moved(n, s) == n * s
    decreases n
  {
    if n > 0 {
      MovedIsProduct(n - 1, s);
    }
  }

  /** `a` presses of A and `b` presses of B land on the prize. */
  predicate Hits(m: Machine, a: nat, b: nat) {
    Moved(a, m.speedA.0) + Moved(b, m.speedB.0) == m.prize.0 && Moved(a, m.speedA.1) + Moved(b, m.speedB.1) == m.prize.1
  }

  /** Every speed component is nonzero; otherwise computing the search bounds divides by zero. */
  predicate Moving(m: Machine) {
    m.speedA.0 > 0 && m.speedA.1 > 0 && m.speedB.0 > 0 && m.speedB.1 > 0
  }

  function Min(x: nat, y: nat): nat {
    if x <= y then x else y
  }

  /** The most presses of A that do not overshoot the prize on either axis. */
  function MaxA(m: Machine): nat
    requires Moving(m)
  {
    Min(m.prize.0 / m.speedA.0, m.prize.1 / m.speedA.1)
  }

  /** The most presses of B that do not overshoot the prize on either axis. */
  function MaxB(m: Machine): nat
    requires Moving(m)
  {
    Min(m.prize.0 / m.speedB.0, m.prize.1 / m.speedB.1)
  }

  /** The inner loop's answer: the first `b'` in `b ..= maxB` that hits with `a` presses of A. */
  function FirstB(m: Machine, a: nat, b: nat, maxB: nat): (r: Option<nat>)
    ensures r.Some? ==> b <= r.value <= maxB && Hits(m, a, r.value)
    ensures r.Some? ==> forall b': nat :: b <= b' < r.value ==> !Hits(m, a, b')
    ensures r.None? ==> forall b': nat :: b <= b' <= maxB ==> !Hits(m, a, b')
    decreases maxB + 1 - b
  {
    if b > maxB then None
    else if Hits(m, a, b) then Some(b)
    else FirstB(m, a, b + 1, maxB)
  }

  /** `(a, b)` comes before `(a', b')` in the order the loops try them. */
  predicate TriedBefore(a: nat, b: nat, a': nat, b': nat) {
    a < a' || (a == a' && b < b')
  }

  /** The loops' answer from `a` on: the first hitting pair with A presses in
      `a ..= maxA` and B presses in `0 ..= maxB`, in the order tried. */
  function FirstHit(m: Machine, a: nat, maxA: nat, maxB: nat): (r: Option<(nat, nat)>)
    ensures r.Some? ==> a <= r.value.0 <= maxA && r.value.1 <= maxB && Hits(m, r.value.0, r.value.1)
    ensures r.Some? ==> forall a': nat, b': nat :: a <= a' && b' <= maxB && TriedBefore(a', b', r.value.0, r.value.1) ==> !Hits(m, a', b')
    ensures r.None? ==> forall a': nat, b': nat :: a <= a' <= maxA && b' <= maxB ==> !Hits(m, a', b')
    decreases maxA + 1 - a
  {
    if a > maxA then None
    else match FirstB(m, a, 0, maxB)
      case Some(b) => Some((a, b))
      case None => FirstHit(m, a + 1, maxA, maxB)
  }

  /** `find_costs`: the tokens of the first hitting pair, 0 when none is
      found, and a panic (`None`) when a speed component is zero. */
  function Costs(m: Machine): (r: Option<nat>)
    ensures r.Some? <==> Moving(m)
  {
    if !Moving(m) then None
    else match FirstHit(m, 0, MaxA(m), MaxB(m))
      case Some((a, b)) => Some(a * 3 + b)
      case None => Some(0)
  }

  /** `find_costs`: both search bounds, then A presses outer and B presses
      inner, returning at the first hit. */
  method FindCosts(m: Machine) returns (r: Option<nat>)
    ensures r == Costs(m)
  {
    var (px, py) := m.prize;
    var (sbx, sby) := m.speedB;
    var (sax, say) := m.speedA;
    if sbx == 0 || sby == 0 || sax == 0 || say == 0 {
      return None;
    }
    var maxB := Min(px / sbx, py / sby);
    var maxA := Min(px / sax, py / say);
    for a := 0 to maxA + 1
      invariant FirstHit(m, a, maxA, maxB) == FirstHit(m, 0, maxA, maxB)
    {
      for b := 0 to maxB + 1
        invariant FirstB(m, a, b, maxB) == FirstB(m, a, 0, maxB)
      {
        var tx := a * sax + b * sbx;
        var ty := a * say + b * sby;
        MovedIsProduct(a, sax);
        MovedIsProduct(b, sbx);
        MovedIsProduct(a, say);
        MovedIsProduct(b, sby);
        if tx == px && ty == py {
          return Some(a * 3 + b);
        }
      }
    }
    return Some(0);
  }

  /** A count of presses whose moves do not overshoot `p` is at most `p / s`. */
  lemma {:induction false} PressesAtMost(n: nat, s: nat, p: nat)
    requires s > 0 && Moved(n, s) <= p
    ensures n <= p / s
    decreases n
  {
    if n > 0 {
      PressesAtMost(n - 1, s, p - s);
      Grid.DivModUnique(p, s, (p - s) / s + 1, (p - s) % s);
    }
  }

  /** The search bounds lose nothing: every hitting pair lies within them. */
  lemma HitsWithinBounds(m: Machine, a: nat, b: nat)
    requires Moving(m) && Hits(m, a, b)
    ensures a <= MaxA(m) && b <= MaxB(m)
  {
    PressesAtMost(a, m.speedA.0, m.prize.0);
    PressesAtMost(a, m.speedA.1, m.prize.1);
    PressesAtMost(b, m.speedB.0, m.prize.0);
    PressesAtMost(b, m.speedB.1, m.prize.1);
  }

  /** A nonzero price comes from an exact hit within the bounds, costing three per A press and one per B press. */
  lemma CostsFromHit(m: Machine)
    requires Costs(m).Some? && Costs(m).value != 0
    ensures exists a: nat, b: nat :: a <= MaxA(m) && b <= MaxB(m) && Hits(m, a, b) && Costs(m).value == a * 3 + b
  {
    var (a, b) := FirstHit(m, 0, MaxA(m), MaxB(m)).value;
    assert Hits(m, a, b);
  }

  /** The pair paid for is the hitting pair with the fewest A presses (and,
      among those, the fewest B presses); a machine that can be won is paid. */
  lemma CostsLeastA(m: Machine, a: nat, b: nat)
    requires Moving(m) && Hits(m, a, b)
    ensures FirstHit(m, 0, MaxA(m), MaxB(m)).Some?
    ensures var (a0, b0) := FirstHit(m, 0, MaxA(m), MaxB(m)).value;
      Costs(m) == Some(a0 * 3 + b0) && !TriedBefore(a, b, a0, b0)
  {
    HitsWithinBounds(m, a, b);
  }

  /** A price of 0 means the machine cannot be won, unless the prize sits at the origin. */
  lemma ZeroCostUnwinnable(m: Machine, a: nat, b: nat)
    requires Costs(m) == Some(0) && Hits(m, a, b)
    ensures a == 0 && b == 0
  {
    CostsLeastA(m, a, b);
  }

  /** The first example machine: 80 presses of A and 40 of B cost 280 tokens. */
  lemma ExampleMachine()
    ensures Costs(Machine((94, 34), (22, 67), (8400, 5400))) == Some(280)
  {
    var m := Machine((94, 34), (22, 67), (8400, 5400));
    MovedIsProduct(80, 94);
    MovedIsProduct(80, 34);
    MovedIsProduct(40, 22);
    MovedIsProduct(40, 67);
    assert Hits(m, 80, 40);
    CostsLeastA(m, 80, 40);
    var (a0, b0) := FirstHit(m, 0, MaxA(m), MaxB(m)).value;
    MovedIsProduct(a0, 94);
    MovedIsProduct(a0, 34);
    MovedIsProduct(b0, 22);
    MovedIsProduct(b0, 67);
    assert a0 * 94 + b0 * 22 == 8400 && a0 * 34 + b0 * 67 == 5400;
    assert a0 == 80 && b0 == 40;
  }

  /** `calculate_p1`: the sum of `find_costs` over the machines; any machine with a zero speed panics. */
  function CalculateP1(ms: seq<Machine>): (r: Option<nat>)
    ensures r.Some? <==> forall i :: 0 <= i < |ms| ==> Moving(ms[i])
  {
    if ms == [] then Some(0)
    else match (CalculateP1(ms[..|ms| - 1]), Costs(ms[|ms| - 1]))
      case (Some(s), Some(c)) => Some(s + c)
      case _ => None
  }

  /** The total splits over any cut of the list of machines. */
  lemma {:induction false} CalculateP1Append(xs: seq<Machine>, ys: seq<Machine>)
    requires CalculateP1(xs).Some? && CalculateP1(ys).Some?
    ensures CalculateP1(xs + ys) == Some(CalculateP1(xs).value + CalculateP1(ys).value)
    decreases |ys|
  {
    if ys == [] {
      assert xs + ys == xs;
    } else {
      var init := ys[..|ys| - 1];
      assert (xs + ys)[..|xs + ys| - 1] == xs + init;
      assert CalculateP1(init).Some?;
      CalculateP1Append(xs, init);
    }
  }
}
