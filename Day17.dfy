/** Day 17 (day17/src/main.rs): the three-bit computer. Registers A, B and C
    hold `u64` values, the program is a list of three-bit opcodes each
    followed by an operand; part 1 runs it and collects what `out` prints,
    part 2 searches three bits at a time for an A that makes the program
    print itself. */
module Day17 {
  import opened Wrappers
  import opened Bitwise
  import Parse

  /** The eight opcodes, in the order of their numbers. */
  datatype Instruction = Adv | Bxl | Bst | Jnz | Bxc | Out | Bdv | Cdv

  /** `From<u8> for Instruction`: opcodes 0 to 7; any other byte panics. */
  function Decode(u: nat): (r: Option<Instruction>)
    ensures r.Some? <==> u < 8
    ensures r.Some? ==> Opcode(r.value) == u
  {
    match u
    case 0 => Some(Adv)
    case 1 => Some(Bxl)
    case 2 => Some(Bst)
    case 3 => Some(Jnz)
    case 4 => Some(Bxc)
    case 5 => Some(Out)
    case 6 => Some(Bdv)
    case 7 => Some(Cdv)
    case _ => None
  }

  /** The number of an instruction. */
  function Opcode(i: Instruction): (r: nat)
    ensures r < 8
  {
    match i
    case Adv => 0
    case Bxl => 1
    case Bst => 2
    case Jnz => 3
    case Bxc => 4
    case Out => 5
    case Bdv => 6
    case Cdv => 7
  }

  /** Decoding an instruction's number gives the instruction back. */
  lemma DecodeOpcode(i: Instruction)
    ensures Decode(Opcode(i)) == Some(i)
  {
  }

  /** A combo operand: a literal 0 to 3, or one of the registers. */
  datatype Combo = Const(v: nat) | A | B | C

  /** `From<u64> for Combo`: 0 to 3 stand for themselves, 4, 5 and 6 for
      A, B and C; 7 and above panic. */
  function ComboOf(u: nat): (r: Option<Combo>)
    ensures r.Some? <==> u < 7
    ensures r.Some? ==> ComboCode(r.value) == u
  {
    if u < 4 then Some(Const(u))
    else if u == 4 then Some(A)
    else if u == 5 then Some(B)
    else if u == 6 then Some(C)
    else None
  }

  /** The operand that decodes to a combo. */
  function ComboCode(c: Combo): nat {
    match c
    case Const(v) => v
    case A => 4
    case B => 5
    case C => 6
  }

  /** Decoding the code of a combo gives the combo back, for literals 0 to 3. */
  lemma ComboRoundTrip(c: Combo)
    requires c.Const? ==> c.v < 4
    ensures ComboOf(ComboCode(c)) == Some(c)
  {
  }

  /** The registers and the program counter of a `Computer`. */
  datatype Regs = Regs(a: nat, b: nat, c: nat, pc: nat)

  /** Every register fits a `u64`. */
  predicate Valid(r: Regs) {
    r.a <= Parse.U64_MAX && r.b <= Parse.U64_MAX && r.c <= Parse.U64_MAX
  }

  /** Every cell of the program is a `u8`. */
  predicate Bytes(prog: seq<nat>) {
    forall i :: 0 <= i < |prog| ==> prog[i] < 256
  }

  /** `fetch`: the opcode at `pc` and the operand after it, or `None` when
      either lies outside the program. */
  function Fetch(r: Regs, prog: seq<nat>): (f: Option<(nat, nat)>)
    ensures f.Some? <==> r.pc < |prog| && r.pc + 1 < |prog|
    ensures f.Some? ==> f.value == (prog[r.pc], prog[r.pc + 1])
  {
    if r.pc + 1 < |prog| then Some((prog[r.pc], prog[r.pc + 1])) else None
  }

  /** `combo`: the value a combo operand reads. */
  function ComboValue(r: Regs, c: Combo): nat {
    match c
    case Const(v) => v
    case A => r.a
    case B => r.b
    case C => r.c
  }

  /** The value of a combo operand, or `None` where decoding it panics. */
  function Operand(r: Regs, arg: nat): (v: Option<nat>)
    ensures v.Some? <==> arg < 7
    ensures arg < 4 ==> v == Some(arg)
    ensures arg == 4 ==> v == Some(r.a)
    ensures arg == 5 ==> v == Some(r.b)
    ensures arg == 6 ==> v == Some(r.c)
  {
    match ComboOf(arg)
    case None => None
    case Some(c) => Some(ComboValue(r, c))
  }

  /** `a >> combo`, or `None` where the operand panics or the shift is 64
      or more (a shift overflow, which panics in a debug build). */
  function Shifted(r: Regs, arg: nat): (v: Option<nat>)
    ensures v.Some? <==> Operand(r, arg).Some? && Operand(r, arg).value < 64
    ensures v.Some? ==> v.value <= r.a
  {
    match Operand(r, arg)
    case None => None
    case Some(k) => if k < 64 then Some(ShiftRight(r.a, k)) else None
  }

  /** What one instruction does: the program stops, panics, or moves on to
      new registers, perhaps printing one value. */
  datatype StepResult = Halted | Fault | Stepped(regs: Regs, out: Option<nat>)

  /** The instructions that read a combo operand. */
  predicate ReadsCombo(op: nat) {
    op == 0 || op == 2 || op == 5 || op == 6 || op == 7
  }

  /** The instructions that shift A by a combo operand. */
  predicate Shifts(op: nat) {
    op == 0 || op == 6 || op == 7
  }

  /** The ways an instruction panics: an opcode of 8 or more, a combo
      operand of 7, or a shift of 64 or more. */
  predicate Faults(r: Regs, op: nat, arg: nat) {
    op >= 8
    || (ReadsCombo(op) && arg >= 7)
    || (Shifts(op) && arg < 7 && Operand(r, arg).value >= 64)
  }

  /** One instruction executed from `instruction` on, after the fetch. */
  function Effect(r: Regs, i: Instruction, arg: nat): StepResult {
    var next := r.(pc := r.pc + 2);
    match i
    case Adv =>
      (match Shifted(r, arg) case None => Fault case Some(v) => Stepped(next.(a := v), None))
    case Bxl => Stepped(next.(b := Xor(r.b, arg)), None)
    case Bst =>
      (match Operand(r, arg) case None => Fault case Some(v) => Stepped(next.(b := v % 8), None))
    case Jnz => if r.a != 0 then Stepped(r.(pc := arg), None) else Stepped(next, None)
    case Bxc => Stepped(next.(b := Xor(r.b, r.c)), None)
    case Out =>
      (match Operand(r, arg) case None => Fault case Some(v) => Stepped(next, Some(v % 8)))
    case Bdv =>
      (match Shifted(r, arg) case None => Fault case Some(v) => Stepped(next.(b := v), None))
    case Cdv =>
      (match Shifted(r, arg) case None => Fault case Some(v) => Stepped(next.(c := v), None))
  }

  /** One turn of the `run_program` loop: fetch, decode, execute. */
  function Step(r: Regs, prog: seq<nat>): (s: StepResult)
    ensures s.Halted? <==> r.pc + 1 >= |prog|
    ensures s.Fault? <==> r.pc + 1 < |prog| && Faults(r, prog[r.pc], prog[r.pc + 1])
    ensures s.Stepped? ==>
      s.regs.pc == (if prog[r.pc] == 3 && r.a != 0 then prog[r.pc + 1] else r.pc + 2)
    ensures s.Stepped? ==> (s.out.Some? <==> prog[r.pc] == 5)
    ensures s.Stepped? && s.out.Some? ==> s.out.value < 8
    ensures s.Stepped? ==> s.regs.a <= r.a
    ensures s.Stepped? && prog[r.pc] != 0 ==> s.regs.a == r.a
    ensures s.Stepped? && prog[r.pc] != 1 && prog[r.pc] != 2 && prog[r.pc] != 4 && prog[r.pc] != 6 ==>
      s.regs.b == r.b
    ensures s.Stepped? && prog[r.pc] != 7 ==> s.regs.c == r.c
  {
    match Fetch(r, prog)
    case None => Halted
    case Some(f) =>
      match Decode(f.0)
      case None => Fault
      case Some(i) => Effect(r, i, f.1)
  }

  /** A step from registers that fit a `u64`, on a program of bytes, leaves
      registers that fit a `u64`: shifts only shrink A, `% 8` is small and
      xor keeps both operands' width. */
  lemma StepKeepsValid(r: Regs, prog: seq<nat>)
    requires Valid(r) && Bytes(prog)
    ensures Step(r, prog).Stepped? ==> Valid(Step(r, prog).regs)
  {
    if r.pc + 1 < |prog| && prog[r.pc] < 8 {
      EffectKeepsValid(r, Decode(prog[r.pc]).value, prog[r.pc + 1]);
    }
  }

  lemma EffectKeepsValid(r: Regs, i: Instruction, arg: nat)
    requires Valid(r) && arg < 256
    ensures Effect(r, i, arg).Stepped? ==> Valid(Effect(r, i, arg).regs)
  {
    match i
    case Bxl =>
      PowSixtyFour();
      XorBound(r.b, arg, 64);
    case Bxc =>
      PowSixtyFour();
      XorBound(r.b, r.c, 64);
    case _ =>
  }

  /** The outcome of running a program: what it printed when it halted, a
      panic, or not halted within the fuel. */
  datatype Outcome = Done(out: seq<nat>) | Panic | OutOfFuel

  /** The printed value of a step, as a list of zero or one values. */
  function Printed(out: Option<nat>): seq<nat> {
    match out
    case None => []
    case Some(v) => [v]
  }

  /** `output` printed before the rest of a run. */
  function Prepend(output: seq<nat>, o: Outcome): (r: Outcome)
    ensures r.Done? <==> o.Done?
    ensures r.Done? ==> r.out == output + o.out
  {
    match o
    case Done(rest) => Done(output + rest)
    case _ => o
  }

  /** `run_program` with at most `fuel` turns of its loop (the last one the
      turn that finds nothing to fetch). */
  function Run(r: Regs, prog: seq<nat>, fuel: nat): (o: Outcome)
    ensures o.Done? ==> |o.out| < fuel
    ensures o.Done? ==> forall i :: 0 <= i < |o.out| ==> o.out[i] < 8
    decreases fuel
  {
    if fuel == 0 then OutOfFuel
    else
      match Step(r, prog)
      case Halted => Done([])
      case Fault => Panic
      case Stepped(next, out) =>
        var o := Prepend(Printed(out), Run(next, prog, fuel - 1));
        assert o.Done? ==> o.out == Printed(out) + Run(next, prog, fuel - 1).out;
        o
  }

  /** More fuel changes no run that already finished. */
  lemma {:induction false} RunFuelMonotone(r: Regs, prog: seq<nat>, fuel: nat, more: nat)
    requires Run(r, prog, fuel) != OutOfFuel && fuel <= more
    ensures Run(r, prog, more) == Run(r, prog, fuel)
    decreases fuel
  {
    match Step(r, prog)
    case Halted =>
    case Fault =>
    case Stepped(next, out) =>
      RunFuelMonotone(next, prog, fuel - 1, more - 1);
  }

  /** A run that halts straight away prints nothing. */
  lemma EmptyProgram(r: Regs, fuel: nat)
    requires fuel > 0
    ensures Run(r, [], fuel) == Done([])
  {
  }

  /** Printing after printing is printing the two in order. */
  lemma PrependPrepend(first: seq<nat>, second: seq<nat>, o: Outcome)
    ensures Prepend(first, Prepend(second, o)) == Prepend(first + second, o)
  {
    if o.Done? {
      assert first + (second + o.out) == (first + second) + o.out;
    }
  }

  /** The state of the machine: registers in place and the program memory. */
  class Computer {
    var a: nat
    var b: nat
    var c: nat
    var pc: nat
    var progmem: seq<nat>

    /** The computer `parse_input` builds, starting at instruction 0. */
    constructor (a: nat, b: nat, c: nat, progmem: seq<nat>)
      ensures State() == Regs(a, b, c, 0) && this.progmem == progmem
    {
      this.a := a;
      this.b := b;
      this.c := c;
      this.pc := 0;
      this.progmem := progmem;
    }

    /** The registers as a value. */
    function State(): Regs
      reads this
    {
      Regs(a, b, c, pc)
    }

    /** `clone`: a new computer in the same state. */
    method Clone() returns (copy: Computer)
      ensures fresh(copy) && copy.State() == State() && copy.progmem == progmem
    {
      copy := new Computer(a, b, c, progmem);
      copy.pc := pc;
    }

    /** `reset`: the registers of `orig`, the program counter back to 0 and
        the program left as it is. */
    method Reset(orig: Computer)
      modifies this
      ensures State() == Regs(old(orig.a), old(orig.b), old(orig.c), 0)
      ensures progmem == old(progmem)
    {
      a := orig.a;
      b := orig.b;
      c := orig.c;
      pc := 0;
    }

    /** The body of the `run_program` loop: fetch an instruction and
        execute it in place, or report that there is none or that it panics. */
    method Execute() returns (s: StepResult)
      modifies this
      ensures s == Step(old(State()), progmem)
      ensures progmem == old(progmem)
      ensures s.Stepped? ==> State() == s.regs
    {
      var f := Fetch(State(), progmem);
      if f.None? {
        return Halted;
      }
      var (op, arg) := f.value;
      var i := Decode(op);
      if i.None? {
        return Fault;
      }
      ghost var r := State();
      var out: Option<nat> := None;
      match i.value {
        case Adv =>
          var v := Shifted(State(), arg);
          if v.None? {
            return Fault;
          }
          a := v.value;
        case Bxl =>
          b := Xor(b, arg);
        case Bst =>
          var v := Operand(State(), arg);
          if v.None? {
            return Fault;
          }
          b := v.value % 8;
        case Jnz =>
          if a != 0 {
            pc := arg;
            return Stepped(State(), None);
          }
        case Bxc =>
          b := Xor(b, c);
        case Out =>
          var v := Operand(State(), arg);
          if v.None? {
            return Fault;
          }
          out := Some(v.value % 8);
        case Bdv =>
          var v := Shifted(State(), arg);
          if v.None? {
            return Fault;
          }
          b := v.value;
        case Cdv =>
          var v := Shifted(State(), arg);
          if v.None? {
            return Fault;
          }
          c := v.value;
      }
      pc := pc + 2;
      assert Step(r, progmem) == Effect(r, i.value, arg);
      return Stepped(State(), out);
    }
  }

  /** `run_program`: execute instructions until none can be fetched,
      collecting every printed value; stops after `fuel` turns. */
  method RunProgram(computer: Computer, fuel: nat) returns (o: Outcome)
    modifies computer
    ensures o == Run(old(computer.State()), old(computer.progmem), fuel)
    ensures computer.progmem == old(computer.progmem)
  {
    var output: seq<nat> := [];
    var steps := 0;
    while steps < fuel
      invariant steps <= fuel
      invariant computer.progmem == old(computer.progmem)
      invariant Run(old(computer.State()), computer.progmem, fuel)
        == Prepend(output, Run(computer.State(), computer.progmem, fuel - steps))
    {
      var s := computer.Execute();
      match s {
        case Halted =>
          return Done(output);
        case Fault =>
          return Panic;
        case Stepped(_, out) =>
          PrependPrepend(output, Printed(out), Run(computer.State(), computer.progmem, fuel - steps - 1));
          output := output + Printed(out);
          steps := steps + 1;
      }
    }
    return OutOfFuel;
  }

  /** `calculate_p1`: the program run on a clone of the parsed computer. */
  method CalculateP1(input: Computer, fuel: nat) returns (o: Outcome)
    ensures o == Run(input.State(), input.progmem, fuel)
  {
    var computer := input.Clone();
    o := RunProgram(computer, fuel);
  }

  /** How the search for a self-printing A ends: with an A, having tried
      every digit, in a panic of a run, or a run out of fuel. */
  datatype SearchOutcome = Found(a: nat) | Exhausted | Panicked | Stalled

  /** 2^61: the values whose shift left by three still fits a `u64`. */
  const LOW_RANGE: nat := 2305843009213693952

  /** `search_a <<= 3` on a `u64`: the low 61 bits moved up three places,
      the three top bits lost. */
  function ShiftLeftThree(a: nat): (r: nat)
    ensures r % 8 == 0 && r <= U64_RANGE - 8
    ensures a < LOW_RANGE ==> r == 8 * a
  {
    8 * (a % LOW_RANGE)
  }

  /** `search_n_digits(input, search_a, n)`: A with three more low bits,
      tried digit by digit from 0. Whatever level it starts from, an A it
      finds makes the program print the whole program, because only level 0
      returns a candidate of its own. */
  function Search(b: nat, c: nat, prog: seq<nat>, searchA: nat, n: nat, fuel: nat): (r: SearchOutcome)
    requires n <= |prog|
    ensures r.Found? ==> r.a < U64_RANGE && Run(Regs(r.a, b, c, 0), prog, fuel) == Done(prog)
    decreases n, 3, 0
  {
    SearchFrom(b, c, prog, ShiftLeftThree(searchA), n, 0, fuel)
  }

  /** The `for i in 0..8` loop of `search_n_digits` from digit `i` on: the
      first digit that does not come back empty-handed decides. */
  function SearchFrom(b: nat, c: nat, prog: seq<nat>, base: nat, n: nat, i: nat, fuel: nat): (r: SearchOutcome)
    requires n <= |prog| && i <= 8 && base % 8 == 0 && base <= U64_RANGE - 8
    ensures r.Found? ==> r.a < U64_RANGE && Run(Regs(r.a, b, c, 0), prog, fuel) == Done(prog)
    decreases n, 2, 8 - i
  {
    if i == 8 then Exhausted
    else
      var t := Attempt(b, c, prog, base, n, i, fuel);
      if t.Exhausted? then SearchFrom(b, c, prog, base, n, i + 1, fuel) else t
  }

  /** One digit of the search: A is `base | i`; a run whose output is
      `prog[n..]` is the answer at level 0 and is searched one level deeper
      otherwise; a panic of the run ends everything. */
  function Attempt(b: nat, c: nat, prog: seq<nat>, base: nat, n: nat, i: nat, fuel: nat): (r: SearchOutcome)
    requires n <= |prog| && i < 8 && base % 8 == 0 && base <= U64_RANGE - 8
    ensures r.Found? ==> r.a < U64_RANGE && Run(Regs(r.a, b, c, 0), prog, fuel) == Done(prog)
    decreases n, 1, 0
  {
    OrLowBits(base, i);
    var a := Or(base, i);
    match Run(Regs(a, b, c, 0), prog, fuel)
    case Panic => Panicked
    case OutOfFuel => Stalled
    case Done(out) =>
      if out != prog[n..] then Exhausted
      else if n == 0 then
        assert prog[0..] == prog;
        Found(a)
      else Search(b, c, prog, a, n - 1, fuel)
  }

  /** `search_n_digits`: a clone of the input, reset before each candidate. */
  method SearchDigits(input: Computer, searchA: nat, n: nat, fuel: nat) returns (r: SearchOutcome)
    requires n <= |input.progmem|
    ensures r == Search(input.b, input.c, input.progmem, searchA, n, fuel)
    decreases n, 1
  {
    var computer := input.Clone();
    var base := ShiftLeftThree(searchA);
    for i := 0 to 8
      invariant fresh(computer) && computer.progmem == input.progmem
      invariant Search(input.b, input.c, input.progmem, searchA, n, fuel)
        == SearchFrom(input.b, input.c, input.progmem, base, n, i, fuel)
    {
      var t := TryDigit(input, computer, base, n, i, fuel);
      if !t.Exhausted? {
        return t;
      }
    }
    return Exhausted;
  }

  /** One turn of the `for i in 0..8` loop of `search_n_digits`, on the
      clone `computer`. */
  method TryDigit(input: Computer, computer: Computer, base: nat, n: nat, i: nat, fuel: nat) returns (r: SearchOutcome)
    requires computer != input && computer.progmem == input.progmem
    requires n <= |input.progmem| && i < 8 && base % 8 == 0 && base <= U64_RANGE - 8
    modifies computer
    ensures r == Attempt(input.b, input.c, input.progmem, base, n, i, fuel)
    ensures computer.progmem == old(computer.progmem)
    decreases n, 0
  {
    computer.Reset(input);
    computer.a := Or(base, i);
    var res := RunProgram(computer, fuel);
    match res {
      case Panic =>
        return Panicked;
      case OutOfFuel =>
        return Stalled;
      case Done(out) =>
        if out != input.progmem[n..] {
          return Exhausted;
        }
        if n == 0 {
          return Found(Or(base, i));
        }
        r := SearchDigits(input, Or(base, i), n - 1, fuel);
    }
  }

  /** `calculate_p2`: the search from A = 0 with one digit per program
      cell. An empty program underflows `len() - 1`, and a search that
      finds nothing panics in `unwrap`; an A found makes the program print
      itself and fits a `u64`. */
  method CalculateP2(input: Computer, fuel: nat) returns (r: SearchOutcome)
    ensures |input.progmem| == 0 ==> r == Panicked
    ensures !r.Exhausted?
    ensures r.Found? ==> r.a < U64_RANGE && Run(Regs(r.a, input.b, input.c, 0), input.progmem, fuel) == Done(input.progmem)
    ensures |input.progmem| > 0 && !Search(input.b, input.c, input.progmem, 0, |input.progmem| - 1, fuel).Exhausted? ==>
      r == Search(input.b, input.c, input.progmem, 0, |input.progmem| - 1, fuel)
  {
    if |input.progmem| == 0 {
      return Panicked;
    }
    r := SearchDigits(input, 0, |input.progmem| - 1, fuel);
    if r.Exhausted? {
      r := Panicked;
    }
  }
}
