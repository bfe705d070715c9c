/** Why the `unwrap`s of day21/src/main.rs never panic: between any two keys
    of either pad some shortest press avoids the gap, so every level of
    `eval_key_distances` has a valid candidate and both transition tables
    exist in full. */
module Reachable {
  import opened Wrappers
  import opened Direction
  import opened Point
  import opened Commands
  import opened C2d
  import opened Comparisons
  import opened Keypad
  import opened Transitions
  import opened Seqs
  import Parse

  /** The gap sits in a corner of the pad: the left column, top or bottom row. */
  predicate CornerGap(bounds: (nat, nat), gap: Point) {
    gap.x == 0 && bounds.1 > 0 && (gap.y == 0 || gap.y + 1 == bounds.1)
  }

  /** The coordinates one move in `dir` away from `p`. */
  function Beside(p: Point, dir: Direction): (int, int) {
    (p.x + Offset(dir).0, p.y + Offset(dir).1)
  }

  /** The first move of a gap-avoiding press from `pos` toward `target`:
      the horizontal one unless it lands on the gap. */
  function SafeDir(pos: Point, target: Point, gap: Point): (dir: Direction)
    requires pos != target
    ensures Toward(dir, Delta(pos, target))
  {
    var d := Delta(pos, target);
    var h := if d.0 > 0 then Right else Left;
    var v := if d.1 > 0 then Down else Up;
    if d.0 != 0 && (d.1 == 0 || Beside(pos, h) != (gap.x, gap.y)) then h else v
  }

  /** The key one move toward `target` away from `pos`. */
  function Closer(pos: Point, target: Point, gap: Point): (n: Point)
    requires pos != target
    ensures (n.x, n.y) == Beside(pos, SafeDir(pos, target, gap))
    ensures Delta(n, target) == After(Delta(pos, target), SafeDir(pos, target, gap))
  {
    var b := Beside(pos, SafeDir(pos, target, gap));
    Point(b.0, b.1)
  }

  /** A press from `pos` to `target` that steps around the gap. */
  function SafeMoves(pos: Point, target: Point, gap: Point): seq<Command>
    decreases Abs(Delta(pos, target).0) + Abs(Delta(pos, target).1)
  {
    if pos == target then [Activate]
    else [Move(SafeDir(pos, target, gap))] + SafeMoves(Closer(pos, target, gap), target, gap)
  }

  /** The press is one of the shortest ones `generate_commands` emits. */
  lemma {:induction false} SafeMovesShortest(pos: Point, target: Point, gap: Point)
    ensures IsShortestPress(SafeMoves(pos, target, gap), Delta(pos, target))
    ensures SafeMoves(pos, target, gap) in Paths(Delta(pos, target))
    ensures |SafeMoves(pos, target, gap)| == Abs(Delta(pos, target).0) + Abs(Delta(pos, target).1) + 1
    decreases Abs(Delta(pos, target).0) + Abs(Delta(pos, target).1)
  {
    var p := SafeMoves(pos, target, gap);
    if pos != target {
      SafeMovesShortest(Closer(pos, target, gap), target, gap);
      assert p[1..] == SafeMoves(Closer(pos, target, gap), target, gap);
    }
    ShortestAreInPaths(p, Delta(pos, target));
    ShortestPressShape(p, Delta(pos, target));
  }

  /** The first move never lands on the gap when the gap is a corner and
      neither end is the gap. */
  lemma CloserAvoidsGap(pos: Point, target: Point, bounds: (nat, nat), gap: Point)
    requires pos != target && OnPad(pos, bounds, gap) && OnPad(target, bounds, gap) && CornerGap(bounds, gap)
    ensures OnPad(Closer(pos, target, gap), bounds, gap)
    ensures Advance(pos, SafeDir(pos, target, gap), bounds) == Some(Closer(pos, target, gap))
  {
  }

  /** Replaying the press walks from `pos` to `target` and presses `target` once. */
  lemma {:induction false} SafeMovesRun(pos: Point, target: Point, bounds: (nat, nat), gap: Point)
    requires OnPad(pos, bounds, gap) && OnPad(target, bounds, gap) && CornerGap(bounds, gap)
    ensures Run(SafeMoves(pos, target, gap), pos, bounds, gap) == Ok((target, [target]))
    decreases Abs(Delta(pos, target).0) + Abs(Delta(pos, target).1)
  {
    var p := SafeMoves(pos, target, gap);
    if pos == target {
      assert p[1..] == [];
      assert Run(p[1..], pos, bounds, gap) == Ok((pos, []));
      assert [target] + [] == [target];
    } else {
      var n := Closer(pos, target, gap);
      CloserAvoidsGap(pos, target, bounds, gap);
      SafeMovesRun(n, target, bounds, gap);
      assert p[1..] == SafeMoves(n, target, gap);
      PressedNothing(Run(p[1..], n, bounds, gap));
    }
  }

  /** An option followed by a combination for the rest is one of the extended lists. */
  lemma {:induction false} ExtendHas(options: seq<seq<Command>>, rest: seq<(int, int)>, p: seq<Command>, q: seq<Command>)
    requires p in options && q in Combos(rest)
    ensures p + q in Extend(options, rest)
    decreases |options|
  {
    if p == options[0] {
      ToPrependAll(p, Combos(rest), q);
    } else {
      ExtendHas(options[1..], rest, p, q);
    }
  }

  /** A key of the directional pad sits within two columns and one row of any other. */
  lemma DirectionalPressLength(a: Point, b: Point)
    requires OnPad(a, DIRECTIONAL_BOUNDS, DIRECTIONAL_F) && OnPad(b, DIRECTIONAL_BOUNDS, DIRECTIONAL_F)
    ensures |SafeMoves(a, b, DIRECTIONAL_F)| <= 4
  {
    SafeMovesShortest(a, b, DIRECTIONAL_F);
  }

  /** From any key of the directional pad, some combination for typing `cmds`
      replays without failure, at most four presses per command. */
  lemma {:induction false} DirectionalReach(k: Point, cmds: seq<Command>)
    requires OnPad(k, DIRECTIONAL_BOUNDS, DIRECTIONAL_F)
    ensures exists c :: (c in Combos(DistancesBetweenPoints(k, CommandsToDirectionalKeys(cmds))) &&
      Run(c, k, DIRECTIONAL_BOUNDS, DIRECTIONAL_F).Ok? && |c| <= 4 * |cmds|)
    decreases |cmds|
  {
    var keys := CommandsToDirectionalKeys(cmds);
    var ds := DistancesBetweenPoints(k, keys);
    if cmds == [] {
      assert ds == [] && Combos(ds) == [[]];
      assert [] in Combos(ds);
    } else {
      var t := keys[0];
      assert keys[1..] == CommandsToDirectionalKeys(cmds[1..]);
      assert ds == [Delta(k, t)] + DistancesBetweenPoints(t, keys[1..]);
      DirectionalReach(t, cmds[1..]);
      var q :| q in Combos(DistancesBetweenPoints(t, keys[1..])) &&
        Run(q, t, DIRECTIONAL_BOUNDS, DIRECTIONAL_F).Ok? && |q| <= 4 * |cmds[1..]|;
      var p := SafeMoves(k, t, DIRECTIONAL_F);
      SafeMovesShortest(k, t, DIRECTIONAL_F);
      DirectionalPressLength(k, t);
      SafeMovesRun(k, t, DIRECTIONAL_BOUNDS, DIRECTIONAL_F);
      RunAppend(p, q, k, DIRECTIONAL_BOUNDS, DIRECTIONAL_F);
      assert ds[1..] == DistancesBetweenPoints(t, keys[1..]);
      ExtendHas(Paths(ds[0]), ds[1..], p, q);
    }
  }

  /** Every command list has a valid expansion one directional level up,
      at most four times as long. */
  lemma NextLevelExists(c: seq<Command>)
    ensures exists c' :: c' in Combos(Expansion(c)) && DirectionalOk(c') && |c'| <= 4 * |c|
  {
    DirectionalReach(DIRECTIONAL_A, c);
    var c' :| c' in Combos(Expansion(c)) && Run(c', DIRECTIONAL_A, DIRECTIONAL_BOUNDS, DIRECTIONAL_F).Ok? && |c'| <= 4 * |c|;
    assert DirectionalOk(c');
  }

  /** Every first-level candidate makes at least one comparison, of a length
      at most sixteen times its own. */
  lemma BlockHasComparison(c1: seq<Command>)
    ensures exists e :: e in Block(c1) && e.0 <= 16 * |c1|
  {
    NextLevelExists(c1);
    var c2 :| c2 in Combos(Expansion(c1)) && DirectionalOk(c2) && |c2| <= 4 * |c1|;
    NextLevelExists(c2);
    var c3 :| c3 in Combos(Expansion(c2)) && DirectionalOk(c3) && |c3| <= 4 * |c2|;
    var e := (|c3|, CommandsToString(c1));
    Events2Members(Combos(Expansion(c1)), CommandsToString(c1), e);
  }

  /** `eval_key_distances` returns a result as soon as one short candidate passes the validator. */
  lemma EvalResultDefined(ds: seq<(int, int)>, validator: seq<Command> -> bool, c1: seq<Command>)
    requires c1 in Combos(ds) && validator(c1) && |c1| <= 6
    ensures EvalResult(ds, validator).Some?
  {
    BlockHasComparison(c1);
    var e :| e in Block(c1) && e.0 <= 16 * |c1|;
    assert e in Piece1(validator)(c1);
    var ev := Events1(Combos(ds), validator);
    FlatMapMembers(Combos(ds), Piece1(validator), e);
    var k :| 0 <= k < |ev| && ev[k] == e;
    OutcomeIsFirstShortest(ev);
  }

  /** One key pressed from another on a pad is a single displacement, whose
      gap-avoiding press is one of its combinations. */
  lemma SinglePress(a: Point, b: Point, gap: Point)
    ensures SafeMoves(a, b, gap) in Combos(DistancesBetweenPoints(a, [b]))
  {
    var ds := DistancesBetweenPoints(a, [b]);
    assert ds == [Delta(a, b)];
    SafeMovesShortest(a, b, gap);
    assert Combos(ds[1..]) == [[]];
    ExtendHas(Paths(ds[0]), ds[1..], SafeMoves(a, b, gap), []);
    assert SafeMoves(a, b, gap) + [] == SafeMoves(a, b, gap);
  }

  /** Every ordered pair of numeric buttons has an entry. */
  lemma NumericEntriesDefined()
    ensures EntriesDefined(NumericPad)
  {
    forall a, b | a in Buttons(NumericPad) && b in Buttons(NumericPad)
      ensures Entry(NumericPad, a, b).Some?
    {
      var sp := DigitToNumericKey(a).value;
      var ep := DigitsToNumericKeys([b]).value[0];
      assert DigitsToNumericKeys([b]).value == [ep];
      assert Some(ep) == DigitToNumericKey(b);
      var c := SafeMoves(sp, ep, NUMERIC_F);
      SinglePress(sp, ep, NUMERIC_F);
      SafeMovesShortest(sp, ep, NUMERIC_F);
      SafeMovesRun(sp, ep, NUMERIC_BOUNDS, NUMERIC_F);
      assert NumericValidator(sp)(c);
      EvalResultDefined(DistancesBetweenPoints(sp, [ep]), NumericValidator(sp), c);
    }
  }

  /** Every ordered pair of directional buttons has an entry. */
  lemma DirectionalEntriesDefined()
    ensures EntriesDefined(DirectionalPad)
  {
    forall a, b | a in Buttons(DirectionalPad) && b in Buttons(DirectionalPad)
      ensures Entry(DirectionalPad, a, b).Some?
    {
      var sc := DirectionalButtonToCommand(a).value;
      var ec := CommandsFromString([b]).value;
      var sk := CommandToDirectionalKey(sc);
      assert |ec| == 1;
      var ek := CommandToDirectionalKey(ec[0]);
      assert CommandsToDirectionalKeys(ec) == [ek];
      var c := SafeMoves(sk, ek, DIRECTIONAL_F);
      SinglePress(sk, ek, DIRECTIONAL_F);
      DirectionalPressLength(sk, ek);
      SafeMovesRun(sk, ek, DIRECTIONAL_BOUNDS, DIRECTIONAL_F);
      assert DirectionalValidator(sk)(c);
      EvalResultDefined(DistancesBetweenPoints(sk, [ek]), DirectionalValidator(sk), c);
    }
  }

  /** Both preparing functions return a table, holding every ordered pair of
      the pad's buttons: 121 numeric pairs and 25 directional ones. */
  lemma TablesExist()
    ensures TableOf(NumericPad).Some? && TableOf(NumericPad).value.Keys == Keys(NumericPad)
    ensures TableOf(DirectionalPad).Some? && TableOf(DirectionalPad).value.Keys == Keys(DirectionalPad)
  {
    NumericEntriesDefined();
    DirectionalEntriesDefined();
    TableOfSpec(NumericPad);
    TableOfSpec(DirectionalPad);
  }

  /** With every code at least three characters long, starting with a
      number and made of numeric buttons only, part 1 has an answer. */
  lemma CalculateP1Defined(input: seq<string>)
    requires forall i :: 0 <= i < |input| ==>
      CodeNumber(input[i]).Some? && forall j :: 0 <= j < |input[i]| ==> input[i][j] in ALL_DIGITS
    ensures TableOf(NumericPad).Some? && TotalP1(TableOf(NumericPad).value, input).Some?
  {
    TablesExist();
    var t := TableOf(NumericPad).value;
    forall i | 0 <= i < |input| ensures Complexity1Of(t)(input[i]).Some? {
      var pairs := Pairs('A', input[i]);
      forall k | 0 <= k < |pairs| ensures pairs[k] in t {
        var code := input[i];
        assert |pairs| == |code|;
        if k == 0 {
          assert pairs[k] == ('A', code[0]);
        } else {
          assert pairs[k] == (code[k - 1], code[k]);
        }
        assert pairs[k] in Keys(NumericPad);
      }
    }
    SumSomeDefined(input, Complexity1Of(t));
  }

  /** A non-empty string of directional buttons. */
  predicate ButtonString(s: string) {
    |s| > 0 && forall i :: 0 <= i < |s| ==> s[i] in ALL_BUTTONS
  }

  /** What `eval_key_distances` returns for at least one key is a non-empty
      string of directional buttons: the printed candidate, which ends in a
      press for each key. */
  lemma EvalResultString(ds: seq<(int, int)>, validator: seq<Command> -> bool)
    requires |ds| > 0 && EvalResult(ds, validator).Some?
    ensures ButtonString(EvalResult(ds, validator).value.1)
  {
    EvalKeyDistancesPicksFirst(ds, validator);
    var i :| FirstToReach(Combos(ds), validator, EvalResult(ds, validator).value, i);
    CombosActivates(ds);
    assert Combos(ds)[i] in Combos(ds);
  }

  /** Every string in a pad's table is a non-empty string of directional buttons. */
  lemma TableStrings(pad: Pad)
    requires TableOf(pad).Some?
    ensures forall k :: k in TableOf(pad).value ==> ButtonString(TableOf(pad).value[k].1)
  {
    TableOfSpec(pad);
    var t := TableOf(pad).value;
    forall k | k in t ensures ButtonString(t[k].1) {
      assert Some(t[k]) == Entry(pad, k.0, k.1);
      match pad
      case NumericPad =>
        var sp, ep := DigitToNumericKey(k.0).value, DigitsToNumericKeys([k.1]).value;
        EvalResultString(DistancesBetweenPoints(sp, ep), NumericValidator(sp));
      case DirectionalPad =>
        var sc, ec := DirectionalButtonToCommand(k.0).value, CommandsFromString([k.1]).value;
        var sk := CommandToDirectionalKey(sc);
        EvalResultString(DistancesBetweenPoints(sk, CommandsToDirectionalKeys(ec)), DirectionalValidator(sk));
    }
  }

  /** Concatenating table strings of directional buttons gives directional buttons. */
  lemma {:induction false} ConcatButtons(dir: Table, pairs: seq<(char, char)>)
    requires Concat(dir, pairs).Some? && forall k :: k in dir ==> ButtonString(dir[k].1)
    ensures forall i :: 0 <= i < |Concat(dir, pairs).value| ==> Concat(dir, pairs).value[i] in ALL_BUTTONS
    decreases |pairs|
  {
    if pairs != [] {
      ConcatButtons(dir, pairs[..|pairs| - 1]);
    }
  }

  /** One directional level of `calculate_cmd_len_v2` never panics on a
      string of directional buttons, and yields one again. */
  lemma ExpandLevelDefined(dir: Table, level: string)
    requires dir.Keys == Keys(DirectionalPad) && forall k :: k in dir ==> ButtonString(dir[k].1)
    requires ButtonString(level)
    ensures ExpandLevel(dir, level).Some? && ButtonString(ExpandLevel(dir, level).value)
  {
    var pairs := Pairs('A', level);
    forall i | 0 <= i < |pairs| ensures pairs[i] in dir {
      if i == 0 {
        assert pairs[i] == ('A', level[0]);
      } else {
        assert pairs[i] == (level[i - 1], level[i]);
      }
      assert pairs[i] in Keys(DirectionalPad);
    }
    assert ('A', level[0]) in dir;
    ConcatButtons(dir, pairs);
  }

  lemma {:induction false} AllCommandsDefined(t: Table, dir: Table, pairs: seq<(char, char)>)
    requires forall i :: 0 <= i < |pairs| ==> PairCommands(t, dir, pairs[i]).Some?
    ensures AllCommands(t, dir, pairs).Some?
    decreases |pairs|
  {
    if pairs != [] {
      AllCommandsDefined(t, dir, pairs[..|pairs| - 1]);
    }
  }

  /** With every code at least three characters long, starting with a
      number and made of numeric buttons only, part 2 has an answer. */
  lemma CalculateP2Defined(input: seq<string>)
    requires forall i :: 0 <= i < |input| ==>
      CodeNumber(input[i]).Some? && forall j :: 0 <= j < |input[i]| ==> input[i][j] in ALL_DIGITS
    ensures TableOf(NumericPad).Some? && TableOf(DirectionalPad).Some?
    ensures TotalP2(TableOf(NumericPad).value, TableOf(DirectionalPad).value, input).Some?
  {
    TablesExist();
    TableStrings(NumericPad);
    TableStrings(DirectionalPad);
    var t, dir := TableOf(NumericPad).value, TableOf(DirectionalPad).value;
    forall i | 0 <= i < |input| ensures Complexity2Of(t, dir)(input[i]).Some? {
      var code := input[i];
      var pairs := Pairs('A', code);
      forall k | 0 <= k < |pairs| ensures PairCommands(t, dir, pairs[k]).Some? {
        assert |pairs| == |code|;
        if k == 0 {
          assert pairs[k] == ('A', code[0]);
        } else {
          assert pairs[k] == (code[k - 1], code[k]);
        }
        assert pairs[k] in Keys(NumericPad);
        ExpandLevelDefined(dir, t[pairs[k]].1);
        ExpandLevelDefined(dir, ExpandLevel(dir, t[pairs[k]].1).value);
      }
      AllCommandsDefined(t, dir, pairs);
    }
    SumSomeDefined(input, Complexity2Of(t, dir));
  }
}
