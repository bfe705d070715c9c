/** The keypad-robot solver of day21/src/main.rs: key positions, displacements
    between keys, every shortest move sequence for a displacement, and their
    ordered combinations. */
module Keypad {
  import opened Wrappers
  import opened Direction
  import opened Point
  import opened Commands
  import opened C2d
  import opened Comparisons
  import Parse

  /** `digit_to_numeric_key`; `None` is the panic on any other character. */
  function DigitToNumericKey(digit: char): (r: Option<Point>)
    ensures r.Some? <==> digit in "0123456789A"
    ensures r.Some? ==> OnPad(r.value, NUMERIC_BOUNDS, NUMERIC_F)
  {
    match digit
    case '1' => Some(Point(0, 2))
    case '2' => Some(Point(1, 2))
    case '3' => Some(Point(2, 2))
    case '4' => Some(Point(0, 1))
    case '5' => Some(Point(1, 1))
    case '6' => Some(Point(2, 1))
    case '7' => Some(Point(0, 0))
    case '8' => Some(Point(1, 0))
    case '9' => Some(Point(2, 0))
    case '0' => Some(Point(1, 3))
    case 'A' => Some(Point(2, 3))
    case _ => None
  }

  /** The numeric key map and `numeric_keys_to_digits`' key decoding are
      inverse to each other, in both directions. */
  lemma DigitKeyRoundTrip(digit: char, key: Point)
    ensures DigitToNumericKey(digit) == Some(key) <==> KeyToDigit(key) == Some(digit)
  {
  }

  /** Different digits sit on different keys. */
  lemma DigitToNumericKeyInjective(a: char, b: char)
    requires DigitToNumericKey(a).Some? && DigitToNumericKey(a) == DigitToNumericKey(b)
    ensures a == b
  {
    DigitKeyRoundTrip(a, DigitToNumericKey(a).value);
    DigitKeyRoundTrip(b, DigitToNumericKey(b).value);
  }

  /** `command_to_directional_key`. */
  function CommandToDirectionalKey(cmd: Command): (p: Point)
    ensures OnPad(p, DIRECTIONAL_BOUNDS, DIRECTIONAL_F)
    ensures KeyToCommand(p) == Some(cmd)
  {
    match cmd
    case Move(Up) => Point(1, 0)
    case Move(Right) => Point(2, 1)
    case Move(Down) => Point(1, 1)
    case Move(Left) => Point(0, 1)
    case Activate => Point(2, 0)
  }

  /** Every key of the directional pad is the key of its own command. */
  lemma DirectionalKeyRoundTrip(key: Point, cmd: Command)
    ensures KeyToCommand(key) == Some(cmd) <==> CommandToDirectionalKey(cmd) == key
  {
  }

  /** Different commands sit on different keys. */
  lemma CommandToDirectionalKeyInjective(a: Command, b: Command)
    requires CommandToDirectionalKey(a) == CommandToDirectionalKey(b)
    ensures a == b
  {
    DirectionalKeyRoundTrip(CommandToDirectionalKey(a), b);
  }

  /** `commands_to_directional_keys`. */
  function CommandsToDirectionalKeys(cmds: seq<Command>): (keys: seq<Point>)
    ensures |keys| == |cmds|
    ensures forall i :: 0 <= i < |cmds| ==> keys[i] == CommandToDirectionalKey(cmds[i])
  {
    if cmds == [] then [] else [CommandToDirectionalKey(cmds[0])] + CommandsToDirectionalKeys(cmds[1..])
  }

  /** `directional_keys_to_commands` undoes `commands_to_directional_keys`. */
  lemma DirectionalKeysRoundTrip(cmds: seq<Command>)
    ensures DirectionalKeysToCommands(CommandsToDirectionalKeys(cmds)) == Ok(cmds)
  {
    var keys := CommandsToDirectionalKeys(cmds);
    var r := DirectionalKeysToCommands(keys);
    assert r.Ok?;
    forall i | 0 <= i < |cmds|
      ensures r.value[i] == cmds[i]
    {
      assert Some(r.value[i]) == KeyToCommand(keys[i]);
    }
    assert r.value == cmds;
  }

  /** `digits_to_numeric_keys`; `None` is the panic on a character that is no key. */
  function DigitsToNumericKeys(digits: string): (r: Option<seq<Point>>)
    ensures r.Some? <==> forall i :: 0 <= i < |digits| ==> digits[i] in "0123456789A"
    ensures r.Some? ==> |r.value| == |digits| && forall i :: 0 <= i < |digits| ==> Some(r.value[i]) == DigitToNumericKey(digits[i])
  {
    if digits == [] then Some([])
    else match DigitToNumericKey(digits[0])
      case None => None
      case Some(key) =>
        match DigitsToNumericKeys(digits[1..])
        case None => None
        case Some(rest) => Some([key] + rest)
  }

  /** `numeric_keys_to_digits` undoes `digits_to_numeric_keys`. */
  lemma NumericKeysRoundTrip(digits: string)
    requires DigitsToNumericKeys(digits).Some?
    ensures NumericKeysToDigits(DigitsToNumericKeys(digits).value) == Ok(digits)
  {
    var keys := DigitsToNumericKeys(digits).value;
    forall i | 0 <= i < |keys|
      ensures OnPad(keys[i], NUMERIC_BOUNDS, NUMERIC_F) && KeyToDigit(keys[i]) == Some(digits[i])
    {
      DigitKeyRoundTrip(digits[i], keys[i]);
    }
    var r := NumericKeysToDigits(keys);
    forall i | 0 <= i < |digits|
      ensures r.value[i] == digits[i]
    {
      assert Some(r.value[i]) == KeyToDigit(keys[i]);
    }
    assert r.value == digits;
  }

  /** The signed displacement from `p` to `q`. */
  function Delta(p: Point, q: Point): (int, int) {
    (q.x as int - p.x as int, q.y as int - p.y as int)
  }

  /** `distances_between_points`: one displacement per point, each measured
      from the point before it (from `start` for the first). */
  function DistancesBetweenPoints(start: Point, points: seq<Point>): (ds: seq<(int, int)>)
    ensures |ds| == |points|
    ensures |points| > 0 ==> ds[0] == Delta(start, points[0])
    ensures forall i :: 0 < i < |points| ==> ds[i] == Delta(points[i - 1], points[i])
    decreases |points|
  {
    if points == [] then []
    else [Delta(start, points[0])] + DistancesBetweenPoints(points[0], points[1..])
  }

  /** The componentwise sum of a list of displacements. */
  function SumDeltas(ds: seq<(int, int)>): (int, int) {
    if ds == [] then (0, 0)
    else var rest := SumDeltas(ds[1..]); (ds[0].0 + rest.0, ds[0].1 + rest.1)
  }

  /** The displacements telescope: they add up to the way from `start` to the last point. */
  lemma {:induction false} DistancesTelescope(start: Point, points: seq<Point>)
    requires |points| > 0
    ensures SumDeltas(DistancesBetweenPoints(start, points)) == Delta(start, points[|points| - 1])
    decreases |points|
  {
    var ds := DistancesBetweenPoints(start, points);
    if |points| > 1 {
      DistancesTelescope(points[0], points[1..]);
      assert ds[1..] == DistancesBetweenPoints(points[0], points[1..]);
    }
  }

  function Abs(n: int): nat {
    if n < 0 then -n else n
  }

  /** Each list of `xs` with `prefix` in front. */
  function PrependAll(prefix: seq<Command>, xs: seq<seq<Command>>): (r: seq<seq<Command>>)
    ensures |r| == |xs|
    ensures forall i :: 0 <= i < |xs| ==> r[i] == prefix + xs[i]
  {
    seq(|xs|, i requires 0 <= i < |xs| => prefix + xs[i])
  }

  lemma AppendAssoc<T>(a: seq<T>, b: seq<T>, c: seq<T>)
    ensures (a + b) + c == a + (b + c)
  {
  }

  lemma PrependAllAppend(prefix: seq<Command>, a: seq<seq<Command>>, b: seq<seq<Command>>)
    ensures PrependAll(prefix, a + b) == PrependAll(prefix, a) + PrependAll(prefix, b)
  {
    assert forall i :: 0 <= i < |a + b| ==> PrependAll(prefix, a + b)[i] == (PrependAll(prefix, a) + PrependAll(prefix, b))[i];
  }

  lemma PrependAllTwice(c: seq<Command>, p: seq<Command>, xs: seq<seq<Command>>)
    ensures PrependAll(c, PrependAll(p, xs)) == PrependAll(c + p, xs)
  {
    forall i | 0 <= i < |xs|
      ensures PrependAll(c, PrependAll(p, xs))[i] == PrependAll(c + p, xs)[i]
    {
      assert c + (p + xs[i]) == (c + p) + xs[i];
    }
  }

  /** Whether a move in `dir` brings the arm closer along the displacement `d`. */
  predicate Toward(dir: Direction, d: (int, int)) {
    match dir
    case Right => d.0 > 0
    case Left => d.0 < 0
    case Down => d.1 > 0
    case Up => d.1 < 0
  }

  /** The displacement left after one move in `dir`. */
  function After(d: (int, int), dir: Direction): (int, int) {
    (d.0 - Offset(dir).0, d.1 - Offset(dir).1)
  }

  /** A shortest way to cover `d` and press: every move brings the arm closer,
      and one `Activate` ends the list exactly on the target. */
  predicate IsShortestPress(p: seq<Command>, d: (int, int))
    decreases |p|
  {
    if |p| == 0 then false
    else match p[0]
      case Activate => |p| == 1 && d == (0, 0)
      case Move(dir) => Toward(dir, d) && IsShortestPress(p[1..], After(d, dir))
  }

  /** `generate_commands` without the accumulated prefix: the move lists for
      `d` in the order it emits them (right, left, down, up branches). */
  function Paths(d: (int, int)): (r: seq<seq<Command>>)
    ensures |r| > 0
    decreases Abs(d.0) + Abs(d.1), 1
  {
    if d == (0, 0) then [[Activate]]
    else Branch(d, Right) + Branch(d, Left) + Branch(d, Down) + Branch(d, Up)
  }

  /** The lists of one branch of `generate_commands`: a first move in `dir`
      when it brings the arm closer, followed by every list for what is left. */
  function Branch(d: (int, int), dir: Direction): (r: seq<seq<Command>>)
    ensures Toward(dir, d) <==> |r| > 0
    decreases Abs(d.0) + Abs(d.1), 0
  {
    if Toward(dir, d) then PrependAll([Move(dir)], Paths(After(d, dir))) else []
  }

  /** `generate_commands`: appends `current` followed by every move list for
      `distance` to `output`, recursing once per branch as the source does. */
  method GenerateCommands(distance: (int, int), current: seq<Command>, output: seq<seq<Command>>)
    returns (out: seq<seq<Command>>)
    ensures out == output + PrependAll(current, Paths(distance))
    decreases Abs(distance.0) + Abs(distance.1), 1
  {
    if distance == (0, 0) {
      out := output + [current + [Activate]];
      return;
    }
    assert output + PrependAll(current, []) == output;
    out := GenerateBranch(distance, Right, current, output, [], output);
    ghost var acc := Branch(distance, Right);
    out := GenerateBranch(distance, Left, current, output, acc, out);
    acc := acc + Branch(distance, Left);
    out := GenerateBranch(distance, Down, current, output, acc, out);
    acc := acc + Branch(distance, Down);
    out := GenerateBranch(distance, Up, current, output, acc, out);
  }

  /** One of the four branches of `generate_commands`: when a move in `dir`
      brings the arm closer, recurse with that move appended to `current`. */
  method GenerateBranch(distance: (int, int), dir: Direction, current: seq<Command>,
                        ghost output: seq<seq<Command>>, ghost acc: seq<seq<Command>>, out: seq<seq<Command>>)
    returns (out': seq<seq<Command>>)
    requires distance != (0, 0) && out == output + PrependAll(current, acc)
    ensures out' == output + PrependAll(current, acc + Branch(distance, dir))
    decreases Abs(distance.0) + Abs(distance.1), 0
  {
    out' := out;
    if Toward(dir, distance) {
      out' := GenerateCommands(After(distance, dir), current + [Move(dir)], out);
      PrependAllTwice(current, [Move(dir)], Paths(After(distance, dir)));
    }
    ExtendBranch(output, current, acc, distance, dir, out');
  }

  /** After one branch the output holds the branches so far, this one included. */
  lemma ExtendBranch(output: seq<seq<Command>>, current: seq<Command>, acc: seq<seq<Command>>,
                     d: (int, int), dir: Direction, out: seq<seq<Command>>)
    requires out == output + PrependAll(current, acc) + PrependAll(current, Branch(d, dir))
    ensures out == output + PrependAll(current, acc + Branch(d, dir))
  {
    PrependAllAppend(current, acc, Branch(d, dir));
    AppendAssoc(output, PrependAll(current, acc), PrependAll(current, Branch(d, dir)));
  }

  lemma InPrependAll(prefix: seq<Command>, xs: seq<seq<Command>>, p: seq<Command>)
    requires p in PrependAll(prefix, xs)
    ensures exists q :: q in xs && p == prefix + q
  {
    var i :| 0 <= i < |xs| && PrependAll(prefix, xs)[i] == p;
    assert xs[i] in xs;
  }

  lemma ToPrependAll(prefix: seq<Command>, xs: seq<seq<Command>>, q: seq<Command>)
    requires q in xs
    ensures prefix + q in PrependAll(prefix, xs)
  {
    var i :| 0 <= i < |xs| && xs[i] == q;
    assert PrependAll(prefix, xs)[i] == prefix + q;
  }

  /** Every list `generate_commands` emits is a shortest press for `d`. */
  lemma {:induction false} PathsAreShortest(d: (int, int))
    ensures forall p :: p in Paths(d) ==> IsShortestPress(p, d)
    decreases Abs(d.0) + Abs(d.1), 1
  {
    if d != (0, 0) {
      BranchIsShortest(d, Right);
      BranchIsShortest(d, Left);
      BranchIsShortest(d, Down);
      BranchIsShortest(d, Up);
    }
  }

  lemma {:induction false} BranchIsShortest(d: (int, int), dir: Direction)
    ensures forall p :: p in Branch(d, dir) ==> IsShortestPress(p, d)
    decreases Abs(d.0) + Abs(d.1), 0
  {
    if Toward(dir, d) {
      var rest := Paths(After(d, dir));
      PathsAreShortest(After(d, dir));
      forall p | p in Branch(d, dir)
        ensures IsShortestPress(p, d)
      {
        InPrependAll([Move(dir)], rest, p);
        var q :| q in rest && p == [Move(dir)] + q;
        assert p[1..] == q;
      }
    }
  }

  /** Every shortest press for `d` is among the lists `generate_commands` emits. */
  lemma {:induction false} ShortestAreInPaths(p: seq<Command>, d: (int, int))
    requires IsShortestPress(p, d)
    ensures p in Paths(d)
    decreases |p|
  {
    match p[0]
    case Activate =>
      assert p == [Activate];
    case Move(dir) =>
      ShortestAreInPaths(p[1..], After(d, dir));
      ToPrependAll([Move(dir)], Paths(After(d, dir)), p[1..]);
      assert [Move(dir)] + p[1..] == p;
      assert p in Branch(d, dir);
  }

  /** A shortest press has one move per unit of displacement, then one
      `Activate`; every move goes in a sign direction of `d`, so a list never
      holds both `Left` and `Right`, nor both `Up` and `Down`. */
  lemma {:induction false} ShortestPressShape(p: seq<Command>, d: (int, int))
    requires IsShortestPress(p, d)
    ensures |p| == Abs(d.0) + Abs(d.1) + 1
    ensures p[|p| - 1] == Activate
    ensures forall i :: 0 <= i < |p| - 1 ==> p[i].Move? && Toward(p[i].dir, d)
    decreases |p|
  {
    match p[0]
    case Activate =>
    case Move(dir) =>
      ShortestPressShape(p[1..], After(d, dir));
      forall i | 0 <= i < |p| - 1
        ensures p[i].Move? && Toward(p[i].dir, d)
      {
        if i > 0 {
          assert p[i] == p[1..][i - 1];
        }
      }
  }

  /** The displacement `(0, 0)` yields only the lone press. */
  lemma PathsOfZero()
    ensures Paths((0, 0)) == [[Activate]]
  {
  }

  /** The binomial coefficient, by Pascal's rule. */
  function Binom(n: nat, k: nat): nat
    decreases n
  {
    if k == 0 then 1
    else if k > n then 0
    else if k == n then 1
    else Binom(n - 1, k - 1) + Binom(n - 1, k)
  }

  /** There are C(|dx| + |dy|, |dx|) lists for a displacement `(dx, dy)`:
      one per interleaving of the horizontal and vertical moves. */
  lemma {:induction false} PathsCount(d: (int, int))
    ensures |Paths(d)| == Binom(Abs(d.0) + Abs(d.1), Abs(d.0))
    decreases Abs(d.0) + Abs(d.1)
  {
    if d != (0, 0) {
      var a, b := Abs(d.0), Abs(d.1);
      var h := if d.0 > 0 then Right else Left;
      var v := if d.1 > 0 then Down else Up;
      if a > 0 {
        PathsCount(After(d, h));
      }
      if b > 0 {
        PathsCount(After(d, v));
      }
      assert |Paths(d)| == |Branch(d, h)| + |Branch(d, v)|;
    }
  }

  /** `n` copies of `c`. */
  function Repeat(c: Command, n: nat): (r: seq<Command>)
    ensures |r| == n && forall i :: 0 <= i < n ==> r[i] == c
  {
    if n == 0 then [] else [c] + Repeat(c, n - 1)
  }

  /** The direction of the first move `generate_commands` tries for `d`. */
  function FirstDir(d: (int, int)): Direction {
    if d.0 > 0 then Right else if d.0 < 0 then Left else if d.1 > 0 then Down else Up
  }

  /** The first list starts with the first direction tried and goes on with
      the first list for what is left. */
  lemma PathsHead(d: (int, int))
    requires d != (0, 0)
    ensures Paths(d)[0] == [Move(FirstDir(d))] + Paths(After(d, FirstDir(d)))[0]
  {
    var dir := FirstDir(d);
    assert Branch(d, dir)[0] == [Move(dir)] + Paths(After(d, dir))[0];
    if dir != Right {
      assert Branch(d, Right) == [];
      if dir != Left {
        assert Branch(d, Left) == [];
        if dir != Down {
          assert Branch(d, Down) == [];
        }
      }
    }
  }

  /** All the horizontal moves of `d`, then all the vertical ones, then the press. */
  function HorizontalFirst(d: (int, int)): seq<Command> {
    Repeat(Move(if d.0 > 0 then Right else Left), Abs(d.0)) + Repeat(Move(if d.1 > 0 then Down else Up), Abs(d.1)) + [Activate]
  }

  /** The first list is horizontal-first. */
  lemma {:induction false} PathsFirstIsHorizontalFirst(d: (int, int))
    ensures Paths(d)[0] == HorizontalFirst(d)
    decreases Abs(d.0) + Abs(d.1)
  {
    if d != (0, 0) {
      PathsHead(d);
      PathsFirstIsHorizontalFirst(After(d, FirstDir(d)));
      HorizontalFirstHead(d);
    }
  }

  /** Horizontal-first lists start with the first direction tried. */
  lemma HorizontalFirstHead(d: (int, int))
    requires d != (0, 0)
    ensures HorizontalFirst(d) == [Move(FirstDir(d))] + HorizontalFirst(After(d, FirstDir(d)))
  {
    if d.0 != 0 {
      HorizontalHead(d);
    } else {
      VerticalHead(d);
    }
  }

  lemma HorizontalHead(d: (int, int))
    requires d.0 != 0
    ensures HorizontalFirst(d) == [Move(FirstDir(d))] + HorizontalFirst(After(d, FirstDir(d)))
  {
    var m := Move(FirstDir(d));
    var d' := After(d, FirstDir(d));
    assert d' == (d.0 - (if d.0 > 0 then 1 else -1), d.1);
    var hs' := Repeat(Move(if d'.0 > 0 then Right else Left), Abs(d'.0));
    var vs := Repeat(Move(if d.1 > 0 then Down else Up), Abs(d.1));
    RepeatStep(m, Abs(d.0), hs');
    assert HorizontalFirst(d) == ([m] + hs') + vs + [Activate];
    assert HorizontalFirst(d') == hs' + vs + [Activate];
    ConsParts(m, hs', vs);
  }

  lemma VerticalHead(d: (int, int))
    requires d.0 == 0 && d.1 != 0
    ensures HorizontalFirst(d) == [Move(FirstDir(d))] + HorizontalFirst(After(d, FirstDir(d)))
  {
    var m := Move(FirstDir(d));
    var d' := After(d, FirstDir(d));
    assert d' == (0, d.1 - (if d.1 > 0 then 1 else -1));
    var vs' := Repeat(Move(if d'.1 > 0 then Down else Up), Abs(d'.1));
    RepeatStep(m, Abs(d.1), vs');
    var none: seq<Command> := [];
    assert HorizontalFirst(d) == none + ([m] + vs') + [Activate];
    assert HorizontalFirst(d') == none + vs' + [Activate];
    ConsParts(m, vs', []);
  }

  lemma ConsParts(m: Command, a: seq<Command>, b: seq<Command>)
    ensures ([m] + a) + b + [Activate] == [m] + (a + b + [Activate])
    ensures [] + ([m] + a) + [Activate] == [m] + ([] + a + [Activate])
  {
  }

  /** `n > 0` copies of `c` are one copy followed by any `n - 1` copies of `c`,
      or of anything when `n - 1` is zero. */
  lemma RepeatStep(c: Command, n: nat, rest: seq<Command>)
    requires n > 0 && |rest| == n - 1 && forall i :: 0 <= i < |rest| ==> rest[i] == c
    ensures Repeat(c, n) == [c] + rest
  {
  }

  lemma PrependNothing(xs: seq<seq<Command>>)
    ensures PrependAll([], xs) == xs
  {
    assert forall i :: 0 <= i < |xs| ==> [] + xs[i] == xs[i];
  }

  /** `all_commands_from_distance`: starts `generate_commands` with an empty
      prefix and an empty output. */
  method AllCommandsFromDistance(distance: (int, int)) returns (r: seq<seq<Command>>)
    ensures r == Paths(distance)
  {
    r := GenerateCommands(distance, [], []);
    PrependNothing(Paths(distance));
  }

  /** What `all_commands_from_distances` produces for `ds`: one list per way
      of choosing a list for each displacement, concatenated, with the choice
      for the first displacement varying slowest. */
  function Combos(ds: seq<(int, int)>): (r: seq<seq<Command>>)
    decreases |ds|, 1, 0
  {
    if ds == [] then [[]] else Extend(Paths(ds[0]), ds[1..])
  }

  /** Every option, each followed by every combination for `rest`. */
  function Extend(options: seq<seq<Command>>, rest: seq<(int, int)>): (r: seq<seq<Command>>)
    decreases |rest| + 1, 0, |options|
  {
    if options == [] then [] else PrependAll(options[0], Combos(rest)) + Extend(options[1..], rest)
  }

  lemma {:induction false} ExtendSnoc(options: seq<seq<Command>>, o: seq<Command>, rest: seq<(int, int)>)
    ensures Extend(options + [o], rest) == Extend(options, rest) + PrependAll(o, Combos(rest))
    decreases |options|
  {
    if options == [] {
      assert options + [o] == [o];
    } else {
      ExtendSnoc(options[1..], o, rest);
      assert (options + [o])[1..] == options[1..] + [o];
      AppendAssoc(PrependAll(options[0], Combos(rest)), Extend(options[1..], rest), PrependAll(o, Combos(rest)));
    }
  }

  /** `recursive_add_all_commands`: appends `current` followed by every
      combination for `distances[depth..]` to `output`. */
  method RecursiveAddAllCommands(distances: seq<(int, int)>, current: seq<Command>, output: seq<seq<Command>>, depth: nat)
    returns (out: seq<seq<Command>>)
    requires depth <= |distances|
    ensures out == output + PrependAll(current, Combos(distances[depth..]))
    decreases |distances| - depth
  {
    if depth == |distances| {
      out := output + [current];
      assert distances[depth..] == [];
      assert current + [] == current;
      return;
    }
    var options := AllCommandsFromDistance(distances[depth]);
    ghost var rest := distances[depth + 1..];
    assert distances[depth..][0] == distances[depth] && distances[depth..][1..] == rest;
    out := output;
    var j := 0;
    while j < |options|
      invariant 0 <= j <= |options|
      invariant out == output + PrependAll(current, Extend(options[..j], rest))
    {
      var specific := current + options[j];
      out := RecursiveAddAllCommands(distances, specific, out, depth + 1);
      PrependAllTwice(current, options[j], Combos(rest));
      ExtendSnoc(options[..j], options[j], rest);
      assert options[..j + 1] == options[..j] + [options[j]];
      PrependAllAppend(current, Extend(options[..j], rest), PrependAll(options[j], Combos(rest)));
      AppendAssoc(output, PrependAll(current, Extend(options[..j], rest)), PrependAll(current, PrependAll(options[j], Combos(rest))));
      j := j + 1;
    }
    assert options[..j] == options;
  }

  /** `all_commands_from_distances`. */
  method AllCommandsFromDistances(distances: seq<(int, int)>) returns (r: seq<seq<Command>>)
    ensures r == Combos(distances)
  {
    r := RecursiveAddAllCommands(distances, [], [], 0);
    assert distances[0..] == distances;
    PrependNothing(Combos(distances));
  }

  /** The number of combinations: the product of C(|dx| + |dy|, |dx|) over the displacements. */
  function CombosCount(ds: seq<(int, int)>): nat {
    if ds == [] then 1 else Binom(Abs(ds[0].0) + Abs(ds[0].1), Abs(ds[0].0)) * CombosCount(ds[1..])
  }

  lemma {:induction false} ExtendLength(options: seq<seq<Command>>, rest: seq<(int, int)>)
    ensures |Extend(options, rest)| == |options| * |Combos(rest)|
    decreases |options|
  {
    if options != [] {
      ExtendLength(options[1..], rest);
      var n, k := |Combos(rest)|, |options[1..]|;
      assert |options| * n == (k + 1) * n == k * n + n;
    }
  }

  /** `all_commands_from_distances` yields as many lists as the product of the
      per-displacement counts. */
  lemma {:induction false} CombosLength(ds: seq<(int, int)>)
    ensures |Combos(ds)| == CombosCount(ds)
    decreases |ds|
  {
    if ds != [] {
      CombosLength(ds[1..]);
      ExtendLength(Paths(ds[0]), ds[1..]);
      PathsCount(ds[0]);
    }
  }

  /** A shortest press holds exactly one `Activate`. */
  lemma {:induction false} PressActivatesOnce(p: seq<Command>, d: (int, int))
    requires IsShortestPress(p, d)
    ensures CountActivates(p) == 1
    decreases |p|
  {
    if p[0] != Activate {
      PressActivatesOnce(p[1..], After(d, p[0].dir));
    }
  }

  lemma {:induction false} ExtendActivates(options: seq<seq<Command>>, d: (int, int), rest: seq<(int, int)>)
    requires forall o :: o in options ==> IsShortestPress(o, d)
    requires forall c :: c in Combos(rest) ==> CountActivates(c) == |rest|
    ensures forall c :: c in Extend(options, rest) ==> CountActivates(c) == |rest| + 1
    decreases |options|
  {
    if options != [] {
      ExtendActivates(options[1..], d, rest);
      forall c | c in PrependAll(options[0], Combos(rest))
        ensures CountActivates(c) == |rest| + 1
      {
        InPrependAll(options[0], Combos(rest), c);
        var x :| x in Combos(rest) && c == options[0] + x;
        PressActivatesOnce(options[0], d);
        CountActivatesAppend(options[0], x);
      }
    }
  }

  /** Every combination presses `Activate` once per displacement. */
  lemma {:induction false} CombosActivates(ds: seq<(int, int)>)
    ensures forall c :: c in Combos(ds) ==> CountActivates(c) == |ds|
    decreases |ds|
  {
    if ds == [] {
      assert Combos(ds) == [[]];
    } else {
      CombosActivates(ds[1..]);
      PathsAreShortest(ds[0]);
      ExtendActivates(Paths(ds[0]), ds[0], ds[1..]);
    }
  }

  /** The displacements a directional-pad robot must cover to type `cmds`,
      starting from its `A` key. */
  function Expansion(cmds: seq<Command>): seq<(int, int)> {
    DistancesBetweenPoints(DIRECTIONAL_A, CommandsToDirectionalKeys(cmds))
  }

  /** The `is_err` filter of the two directional levels. */
  predicate DirectionalOk(cmds: seq<Command>) {
    CommandsOnDirectionalPad(cmds, DIRECTIONAL_A).Ok?
  }

  /** What one innermost candidate adds: its length when it is valid. */
  function Piece3(s: string): seq<Command> -> seq<(nat, string)> {
    c => if DirectionalOk(c) then [(|c|, s)] else []
  }

  /** The lengths the innermost loop compares, each paired with the printed
      first-level candidate `s` it would record, in loop order. */
  function Events3(cands: seq<seq<Command>>, s: string): seq<(nat, string)> {
    FlatMap(cands, Piece3(s))
  }

  /** What one middle candidate adds: the innermost loop over its expansion, when it is valid. */
  function Piece2(s: string): seq<Command> -> seq<(nat, string)> {
    c => if DirectionalOk(c) then Events3(Combos(Expansion(c)), s) else []
  }

  /** The comparisons of the middle loop, in loop order. */
  function Events2(cands: seq<seq<Command>>, s: string): seq<(nat, string)> {
    FlatMap(cands, Piece2(s))
  }

  /** The comparisons made for one first-level candidate. */
  function Block(c1: seq<Command>): seq<(nat, string)> {
    Events2(Combos(Expansion(c1)), CommandsToString(c1))
  }

  /** What one first-level candidate adds: its block, when the validator accepts it. */
  function Piece1(validator: seq<Command> -> bool): seq<Command> -> seq<(nat, string)> {
    c => if validator(c) then Block(c) else []
  }

  /** Every comparison of `eval_key_distances`, in loop order. */
  function Events1(cands: seq<seq<Command>>, validator: seq<Command> -> bool): seq<(nat, string)> {
    FlatMap(cands, Piece1(validator))
  }

  /** What `eval_key_distances` returns: `None` is the panic of `result.unwrap()`. */
  function EvalResult(distances: seq<(int, int)>, validator: seq<Command> -> bool): Option<(nat, string)> {
    Outcome(Events1(Combos(distances), validator))
  }

  /** The innermost loop of `eval_key_distances`: every valid third-level
      candidate shorter than `shortest` replaces it, recording `s`. */
  method EvalThirdLevel(cands: seq<seq<Command>>, s: string, st: (nat, Option<string>))
    returns (r: (nat, Option<string>))
    ensures r == Best(Events3(cands, s), st)
  {
    var shortest, result := st.0, st.1;
    var k := 0;
    while k < |cands|
      invariant 0 <= k <= |cands|
      invariant (shortest, result) == Best(Events3(cands[..k], s), st)
    {
      var cmds3 := cands[k];
      FlatMapSnoc(cands, k, Piece3(s));
      BestAppend(Events3(cands[..k], s), Piece3(s)(cmds3), st);
      if CommandsOnDirectionalPad(cmds3, DIRECTIONAL_A).Ok? {
        if |cmds3| < shortest {
          shortest := |cmds3|;
          result := Some(s);
        }
        BestOne((|cmds3|, s), Best(Events3(cands[..k], s), st));
      }
      k := k + 1;
    }
    assert cands[..k] == cands;
    r := (shortest, result);
  }

  /** The middle loop: each valid second-level candidate is expanded once more. */
  method EvalSecondLevel(cands: seq<seq<Command>>, s: string, st: (nat, Option<string>))
    returns (r: (nat, Option<string>))
    ensures r == Best(Events2(cands, s), st)
  {
    r := st;
    var j := 0;
    while j < |cands|
      invariant 0 <= j <= |cands|
      invariant r == Best(Events2(cands[..j], s), st)
    {
      var cmds2 := cands[j];
      FlatMapSnoc(cands, j, Piece2(s));
      BestAppend(Events2(cands[..j], s), Piece2(s)(cmds2), st);
      if CommandsOnDirectionalPad(cmds2, DIRECTIONAL_A).Ok? {
        var cands3 := AllCommandsFromDistances(DistancesBetweenPoints(DIRECTIONAL_A, CommandsToDirectionalKeys(cmds2)));
        r := EvalThirdLevel(cands3, s, r);
      }
      j := j + 1;
    }
    assert cands[..j] == cands;
  }

  /** `eval_key_distances`: three nested loops over the candidates of the
      numeric or first directional level and of the two directional levels
      above it, keeping the shortest third-level length and the first-level
      candidate that first reached it. */
  method EvalKeyDistances(distances: seq<(int, int)>, validator: seq<Command> -> bool)
    returns (r: Option<(nat, string)>)
    ensures r == EvalResult(distances, validator)
  {
    var st: (nat, Option<string>) := (Parse.USIZE_MAX, None);
    var cands := AllCommandsFromDistances(distances);
    var i := 0;
    while i < |cands|
      invariant 0 <= i <= |cands|
      invariant st == Best(Events1(cands[..i], validator), (Parse.USIZE_MAX, None))
    {
      var cmds := cands[i];
      FlatMapSnoc(cands, i, Piece1(validator));
      BestAppend(Events1(cands[..i], validator), Piece1(validator)(cmds), (Parse.USIZE_MAX, None));
      if validator(cmds) {
        var cands2 := AllCommandsFromDistances(DistancesBetweenPoints(DIRECTIONAL_A, CommandsToDirectionalKeys(cmds)));
        st := EvalSecondLevel(cands2, CommandsToString(cmds), st);
      }
      i := i + 1;
    }
    assert cands[..i] == cands;
    if st.1.None? {
      return None;
    }
    r := Some((st.0, st.1.value));
  }

  /** `eval_key_distances` panics exactly when no comparison beats `usize::MAX`;
      otherwise it returns the smallest length compared, with the first-level
      candidate of the first comparison that reached it. */
  lemma EvalResultIsFirstShortest(distances: seq<(int, int)>, validator: seq<Command> -> bool)
    ensures FirstShortest(Events1(Combos(distances), validator), EvalResult(distances, validator))
  {
    OutcomeIsFirstShortest(Events1(Combos(distances), validator));
  }

  /** The comparisons of the innermost loop are the valid candidates' lengths. */
  lemma Events3Members(cands: seq<seq<Command>>, s: string, e: (nat, string))
    ensures e in Events3(cands, s) <==> exists c :: c in cands && DirectionalOk(c) && e == (|c|, s)
  {
    FlatMapMembers(cands, Piece3(s), e);
    if c :| c in cands && DirectionalOk(c) && e == (|c|, s) {
      assert e in Piece3(s)(c);
    }
  }

  /** The comparisons of the middle loop are the valid third-level lengths
      reached through a valid second-level candidate. */
  lemma Events2Members(cands: seq<seq<Command>>, s: string, e: (nat, string))
    ensures e in Events2(cands, s) <==>
      exists c2, c3 :: c2 in cands && DirectionalOk(c2) && c3 in Combos(Expansion(c2)) && DirectionalOk(c3) && e == (|c3|, s)
  {
    FlatMapMembers(cands, Piece2(s), e);
    if e in Events2(cands, s) {
      var c2 :| c2 in cands && e in Piece2(s)(c2);
      Events3Members(Combos(Expansion(c2)), s, e);
      var c3 :| c3 in Combos(Expansion(c2)) && DirectionalOk(c3) && e == (|c3|, s);
    }
    if c2, c3 :| c2 in cands && DirectionalOk(c2) && c3 in Combos(Expansion(c2)) && DirectionalOk(c3) && e == (|c3|, s) {
      Events3Members(Combos(Expansion(c2)), s, e);
      assert e in Piece2(s)(c2);
    }
  }

  /** When `eval_key_distances` does not panic, no validated candidate has a
      valid third-level sequence shorter than the length it returns. */
  lemma EvalKeyDistancesIsShortest(distances: seq<(int, int)>, validator: seq<Command> -> bool, j: nat, e: (nat, string))
    requires EvalResult(distances, validator).Some?
    requires j < |Combos(distances)| && validator(Combos(distances)[j]) && e in Block(Combos(distances)[j])
    ensures EvalResult(distances, validator).value.0 <= e.0
  {
    assert e in Piece1(validator)(Combos(distances)[j]);
    OutcomeBelow(Combos(distances), Piece1(validator), j, e);
  }

  /** When `eval_key_distances` does not panic, the candidate it returns is the
      first validated one that reaches the shortest length: every validated
      candidate before it needs strictly more presses. */
  lemma EvalKeyDistancesPicksFirst(distances: seq<(int, int)>, validator: seq<Command> -> bool)
    requires EvalResult(distances, validator).Some?
    ensures exists i :: FirstToReach(Combos(distances), validator, EvalResult(distances, validator).value, i)
  {
    var cands := Combos(distances);
    var r := EvalResult(distances, validator).value;
    OutcomeFirstPiece(cands, Piece1(validator));
    var i :| 0 <= i < |cands| && r in Piece1(validator)(cands[i]) &&
      forall j, e :: 0 <= j < i && e in Piece1(validator)(cands[j]) ==> r.0 < e.0;
    assert validator(cands[i]);
    BlockRecordsCandidate(cands[i], r);
    forall j, e | 0 <= j < i && validator(cands[j]) && e in Block(cands[j])
      ensures r.0 < e.0
    {
      assert e in Piece1(validator)(cands[j]);
    }
    assert FirstToReach(cands, validator, r, i);
  }

  /** The validated candidate `i` made comparison `r`, recording itself, and
      every validated candidate before it only made longer ones. */
  ghost predicate FirstToReach(cands: seq<seq<Command>>, validator: seq<Command> -> bool, r: (nat, string), i: int) {
    0 <= i < |cands| && validator(cands[i]) && r in Block(cands[i]) &&
    r.1 == CommandsToString(cands[i]) &&
    forall j, e :: 0 <= j < i && validator(cands[j]) && e in Block(cands[j]) ==> r.0 < e.0
  }

  /** Every comparison of a candidate's block records that candidate, printed. */
  lemma BlockRecordsCandidate(c1: seq<Command>, e: (nat, string))
    requires e in Block(c1)
    ensures e.1 == CommandsToString(c1)
  {
    Events2Members(Combos(Expansion(c1)), CommandsToString(c1), e);
  }
}
