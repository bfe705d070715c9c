/** Day 7 (day07/src/main.rs): does some choice of operators between the
    operands, evaluated strictly left to right, give the expected value? */
module Day07 {
  import opened Parse
  import opened Seqs
  import opened Digits

  datatype Op = Add | Mul | Concat

  /** `concat_numbers`: the two decimal forms written one after the other, read back. */
  function ConcatNumbers(a: nat, b: nat): nat {
    AllDigitsAppend(DecimalString(a), DecimalString(b));
    DecimalValue(DecimalString(a) + DecimalString(b))
  }

  /** Concatenation shifts `a` left by as many decimal places as `b` has digits. */
  lemma ConcatNumbersValue(a: nat, b: nat)
    ensures ConcatNumbers(a, b) == a * Pow(10, |DecimalString(b)|) + b
  {
    DecimalValueAppend(DecimalString(a), DecimalString(b));
  }

  function Apply(op: Op, total: nat, item: nat): nat {
    match op
    case Add => total + item
    case Mul => total * item
    case Concat => ConcatNumbers(total, item)
  }

  /** The reference reading of an equation: operator `ops[i]` joins the running
      total and operand `i + 1`, with no precedence. */
  function EvalOps(args: seq<nat>, ops: seq<Op>): nat
    requires |args| >= 1 && |ops| == |args| - 1
    decreases |ops|
  {
    if ops == [] then args[0]
    else Apply(ops[|ops| - 1], EvalOps(args[..|args| - 1], ops[..|ops| - 1]), args[|args| - 1])
  }

  predicate UsesOnly(ops: seq<Op>, allowed: set<Op>) {
    forall i :: 0 <= i < |ops| ==> ops[i] in allowed
  }

  /** Some operators from `allowed` make the equation come out at `expected`. */
  ghost predicate Solvable(expected: nat, args: seq<nat>, allowed: set<Op>) {
    |args| >= 1 && exists ops :: |ops| == |args| - 1 && UsesOnly(ops, allowed) && EvalOps(args, ops) == expected
  }

  /** The `reduce` of `calc_exp_value_1` for one `pattern`: bit `idx - 1`
      clear adds operand `idx`, set multiplies by it. */
  function Reduce1(args: seq<nat>, pattern: nat): nat
    requires |args| >= 1
    decreases |args|
  {
    if |args| == 1 then args[0]
    else
      var idx := |args| - 1;
      var total := Reduce1(args[..idx], pattern);
      if Digit(pattern, 2, idx - 1) == 0 then total + args[idx] else total * args[idx]
  }

  /** `1 << k` on `i32` for a shift that does not panic (below 32): `2^k`,
      except that bit 31 is the sign bit, so `1 << 31` is `i32::MIN`. */
  function ShlOneI32(k: nat): (r: int)
    requires k < 32
    ensures k < 31 ==> r == Pow(2, k)
    ensures k == 31 ==> r < 0
  {
    if k == 31 then I32_MIN else Pow(2, k)
  }

  /** The most operands part 1 takes without panicking: from 33 on, the
      shift in `1 << args.len()-1` reaches 32. */
  const MAX_OPERANDS_1: nat := 32
  /** The same for part 2's `1 << (args.len()-1) * 2`. */
  const MAX_OPERANDS_2: nat := 16

  /** `calc_exp_value_1`: some pattern in the `i32` range `0..(1 << n-1)`
      reaches `expected`. The source's `args.len() - 1` panics on an empty
      operand list. */
  predicate CalcExpValue1(expected: nat, args: seq<nat>)
    requires 1 <= |args| <= MAX_OPERANDS_1
  {
    exists pattern: nat | pattern < ShlOneI32(|args| - 1) :: Reduce1(args, pattern) == expected
  }

  /** With 32 operands the range `0..i32::MIN` is empty, so no equation is accepted. */
  lemma ThirtyTwoOperandsRejected(expected: nat, args: seq<nat>)
    requires |args| == 32
    ensures !CalcExpValue1(expected, args)
  {
  }

  /** The `reduce` of `calc_exp_value_2`: the two bits at `2 * (idx - 1)` are
      0 or 1 for addition, 2 for multiplication, 3 for concatenation. */
  function Reduce2(args: seq<nat>, pattern: nat): nat
    requires |args| >= 1
    decreases |args|
  {
    if |args| == 1 then args[0]
    else
      var idx := |args| - 1;
      var total := Reduce2(args[..idx], pattern);
      var code := Digit(pattern, 4, idx - 1);
      if code <= 1 then total + args[idx]
      else if code == 2 then total * args[idx]
      else ConcatNumbers(total, args[idx])
  }

  /** `calc_exp_value_2`: some pattern in the `i32` range `0..(1 << 2(n-1))`
      reaches `expected`. */
  predicate CalcExpValue2(expected: nat, args: seq<nat>)
    requires 1 <= |args| <= MAX_OPERANDS_2
  {
    exists pattern: nat | pattern < ShlOneI32(2 * (|args| - 1)) :: Reduce2(args, pattern) == expected
  }

  /** Two bits per operator: `2^(2k)` is `4^k`. */
  lemma {:induction false} PowFourIsPowTwo(k: nat)
    ensures Pow(4, k) == Pow(2, 2 * k)
  {
    if k > 0 {
      PowFourIsPowTwo(k - 1);
      assert Pow(2, 2 * k) == 2 * (2 * Pow(2, 2 * (k - 1)));
    }
  }

  /** The operators a part 1 pattern chooses. */
  function Ops1(pattern: nat, n: nat): (ops: seq<Op>)
    ensures |ops| == n && UsesOnly(ops, {Add, Mul})
  {
    seq(n, i requires 0 <= i < n => if Digit(pattern, 2, i) == 0 then Add else Mul)
  }

  /** The operators a part 2 pattern chooses. */
  function Ops2(pattern: nat, n: nat): (ops: seq<Op>)
    ensures |ops| == n
  {
    seq(n, i requires 0 <= i < n =>
      var code := Digit(pattern, 4, i);
      if code <= 1 then Add else if code == 2 then Mul else Concat)
  }

  lemma {:induction false} Reduce1IsEvalOps(args: seq<nat>, pattern: nat)
    requires |args| >= 1
    ensures Reduce1(args, pattern) == EvalOps(args, Ops1(pattern, |args| - 1))
    decreases |args|
  {
    if |args| > 1 {
      var idx := |args| - 1;
      Reduce1IsEvalOps(args[..idx], pattern);
      assert Ops1(pattern, idx)[..idx - 1] == Ops1(pattern, idx - 1);
    }
  }

  lemma {:induction false} Reduce2IsEvalOps(args: seq<nat>, pattern: nat)
    requires |args| >= 1
    ensures Reduce2(args, pattern) == EvalOps(args, Ops2(pattern, |args| - 1))
    decreases |args|
  {
    if |args| > 1 {
      var idx := |args| - 1;
      var ops := Ops2(pattern, idx);
      Reduce2IsEvalOps(args[..idx], pattern);
      Ops2Prefix(pattern, idx);
      Reduce2Step(args, pattern);
      assert EvalOps(args, ops) == Apply(ops[idx - 1], EvalOps(args[..idx], ops[..idx - 1]), args[idx]);
    }
  }

  lemma Ops2Prefix(pattern: nat, n: nat)
    requires n >= 1
    ensures Ops2(pattern, n)[..n - 1] == Ops2(pattern, n - 1)
  {
  }

  /** One more operand applies the operator its two bits choose. */
  lemma Reduce2Step(args: seq<nat>, pattern: nat)
    requires |args| >= 2
    ensures Reduce2(args, pattern) ==
      Apply(Ops2(pattern, |args| - 1)[|args| - 2], Reduce2(args[..|args| - 1], pattern), args[|args| - 1])
  {
  }

  /** The part 1 pattern that spells out `ops`. */
  function Pattern1(ops: seq<Op>): (r: nat)
    requires UsesOnly(ops, {Add, Mul})
    ensures r < Pow(2, |ops|) && Ops1(r, |ops|) == ops
  {
    var ds := seq(|ops|, i requires 0 <= i < |ops| => if ops[i] == Mul then 1 else 0);
    EncodeBound(ds, 2);
    forall i | 0 <= i < |ops| ensures Ops1(Encode(ds, 2), |ops|)[i] == ops[i] {
      EncodeDigits(ds, 2, i);
    }
    Encode(ds, 2)
  }

  /** The part 2 pattern that spells out `ops`. */
  function Pattern2(ops: seq<Op>): (r: nat)
    ensures r < Pow(4, |ops|) && Ops2(r, |ops|) == ops
  {
    var ds := seq(|ops|, i requires 0 <= i < |ops| => match ops[i] case Add => 0 case Mul => 2 case Concat => 3);
    EncodeBound(ds, 4);
    forall i | 0 <= i < |ops| ensures Ops2(Encode(ds, 4), |ops|)[i] == ops[i] {
      EncodeDigits(ds, 4, i);
    }
    Encode(ds, 4)
  }

  /** Part 1 accepts exactly the equations some choice of `+` and `*` solves. */
  lemma CalcExpValue1Spec(expected: nat, args: seq<nat>)
    requires 1 <= |args| < MAX_OPERANDS_1
    ensures CalcExpValue1(expected, args) <==> Solvable(expected, args, {Add, Mul})
  {
    if CalcExpValue1(expected, args) {
      var pattern: nat :| pattern < Pow(2, |args| - 1) && Reduce1(args, pattern) == expected;
      Reduce1IsEvalOps(args, pattern);
    }
    if Solvable(expected, args, {Add, Mul}) {
      var ops :| |ops| == |args| - 1 && UsesOnly(ops, {Add, Mul}) && EvalOps(args, ops) == expected;
      var pattern := Pattern1(ops);
      Reduce1IsEvalOps(args, pattern);
    }
  }

  /** Part 2 accepts exactly the equations some choice of `+`, `*` and `||` solves. */
  lemma CalcExpValue2Spec(expected: nat, args: seq<nat>)
    requires 1 <= |args| <= MAX_OPERANDS_2
    ensures CalcExpValue2(expected, args) <==> Solvable(expected, args, {Add, Mul, Concat})
  {
    PowFourIsPowTwo(|args| - 1);
    if CalcExpValue2(expected, args) {
      var pattern: nat :| pattern < Pow(4, |args| - 1) && Reduce2(args, pattern) == expected;
      Reduce2IsEvalOps(args, pattern);
    }
    if Solvable(expected, args, {Add, Mul, Concat}) {
      var ops :| |ops| == |args| - 1 && UsesOnly(ops, {Add, Mul, Concat}) && EvalOps(args, ops) == expected;
      var pattern := Pattern2(ops);
      Reduce2IsEvalOps(args, pattern);
    }
  }

  /** A lone operand is accepted exactly when it is the expected value. */
  lemma SingleOperand(expected: nat, x: nat)
    ensures CalcExpValue1(expected, [x]) <==> x == expected
    ensures CalcExpValue2(expected, [x]) <==> x == expected
  {
    assert Reduce1([x], 0) == x && Reduce2([x], 0) == x;
  }

  /** Whatever part 1 accepts, part 2 accepts too. */
  lemma Accepted1IsAccepted2(expected: nat, args: seq<nat>)
    requires 1 <= |args| <= MAX_OPERANDS_2 && CalcExpValue1(expected, args)
    ensures CalcExpValue2(expected, args)
  {
    CalcExpValue1Spec(expected, args);
    CalcExpValue2Spec(expected, args);
  }

  type Equation = (nat, seq<nat>)

  /** Every equation has between one and `most` operands. */
  predicate HasOperands(input: seq<Equation>, most: nat) {
    forall i :: 0 <= i < |input| ==> 1 <= |input[i].1| <= most
  }

  function Score1(e: Equation): int {
    if 1 <= |e.1| <= MAX_OPERANDS_1 && CalcExpValue1(e.0, e.1) then e.0 else 0
  }

  function Score2(e: Equation): int {
    if 1 <= |e.1| <= MAX_OPERANDS_2 && CalcExpValue2(e.0, e.1) then e.0 else 0
  }

  /** `calculate_p1`: the expected values of the accepted lines, summed. */
  function CalculateP1(input: seq<Equation>): int
    requires HasOperands(input, MAX_OPERANDS_1)
  {
    SumOf(input, Score1)
  }

  /** `calculate_p2`, the same with three operators. */
  function CalculateP2(input: seq<Equation>): int
    requires HasOperands(input, MAX_OPERANDS_2)
  {
    SumOf(input, Score2)
  }

  /** Part 1's total adds up line by line. */
  lemma CalculateSpec(a: seq<Equation>, b: seq<Equation>)
    requires HasOperands(a, MAX_OPERANDS_1) && HasOperands(b, MAX_OPERANDS_1)
    ensures HasOperands(a + b, MAX_OPERANDS_1)
    ensures CalculateP1(a + b) == CalculateP1(a) + CalculateP1(b)
  {
    SumOfAppend(a, b, Score1);
  }

  /** Part 2's total adds up line by line, and is never below part 1's. */
  lemma CalculateP2Spec(a: seq<Equation>, b: seq<Equation>)
    requires HasOperands(a, MAX_OPERANDS_2) && HasOperands(b, MAX_OPERANDS_2)
    ensures HasOperands(a + b, MAX_OPERANDS_2)
    ensures CalculateP2(a + b) == CalculateP2(a) + CalculateP2(b)
    ensures CalculateP1(a) <= CalculateP2(a)
  {
    SumOfAppend(a, b, Score2);
    var f, g := Score1, Score2;
    forall i | 0 <= i < |a| ensures f(a[i]) <= g(a[i]) {
      ScoreGrows(a[i]);
    }
    SumOfMonotone(a, f, g);
  }

  lemma ScoreGrows(e: Equation)
    requires |e.1| <= MAX_OPERANDS_2
    ensures Score1(e) <= Score2(e)
  {
    if 1 <= |e.1| <= MAX_OPERANDS_2 && CalcExpValue1(e.0, e.1) {
      Accepted1IsAccepted2(e.0, e.1);
    }
  }

  /** The first sample line: 190 = 10 * 19. */
  lemma SampleLine()
    ensures CalcExpValue1(190, [10, 19])
  {
    assert Digit(1, 2, 0) == 1;
    assert Reduce1([10, 19], 1) == 190;
  }
}
