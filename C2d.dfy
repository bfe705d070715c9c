/** Replaying button presses on the keypads and decoding them back
    (day21/src/c2d.rs). */
module C2d {
  import opened Wrappers
  import opened Direction
  import opened Point
  import opened Commands

  /** How decoding can fail. `InvalidButton` and `InvalidKey` stand for the
      panics on an unknown character or key position; `OffPad` and `Forbidden`
      are the `InvalidInput` errors of `interpret_commands`. */
  datatype Failure = InvalidButton(button: char) | InvalidKey(key: Point) | OffPad(pos: Point, dir: Direction) | Forbidden(pos: Point)

  /** `directional_button_to_command`. */
  function DirectionalButtonToCommand(button: char): (r: Option<Command>)
    ensures r.Some? <==> button in "^>v<A"
    ensures r.Some? ==> CommandChar(r.value) == button
  {
    match button
    case '^' => Some(Move(Up))
    case '>' => Some(Move(Right))
    case 'v' => Some(Move(Down))
    case '<' => Some(Move(Left))
    case 'A' => Some(Activate)
    case _ => None
  }

  /** Reading a printed command gives the command back. */
  lemma ButtonInvertsCommandChar(cmd: Command)
    ensures DirectionalButtonToCommand(CommandChar(cmd)) == Some(cmd)
  {
  }

  /** `commands_from_string`: panics (here `InvalidButton`) on the first
      character that is not a directional button. */
  function CommandsFromString(s: string): (r: Result<seq<Command>, Failure>)
    ensures r.Ok? <==> forall i :: 0 <= i < |s| ==> s[i] in "^>v<A"
    ensures r.Ok? ==> CommandsToString(r.value) == s
    ensures r.Err? ==> r.error.InvalidButton? && r.error.button in s && r.error.button !in "^>v<A"
  {
    if s == [] then Ok([])
    else match DirectionalButtonToCommand(s[0])
      case None => Err(InvalidButton(s[0]))
      case Some(cmd) =>
        match CommandsFromString(s[1..])
        case Err(e) => Err(e)
        case Ok(rest) => Ok([cmd] + rest)
  }

  /** Printing and reading back a command list is the identity. */
  lemma {:induction false} StringRoundTrip(cmds: seq<Command>)
    ensures CommandsFromString(CommandsToString(cmds)) == Ok(cmds)
  {
    if cmds != [] {
      StringRoundTrip(cmds[1..]);
      ButtonInvertsCommandChar(cmds[0]);
      var s := CommandsToString(cmds);
      assert s[0] == CommandChar(cmds[0]) && s[1..] == CommandsToString(cmds[1..]);
      assert [cmds[0]] + cmds[1..] == cmds;
    }
  }

  /** Where one command takes the arm at `pos`: an `Activate` stays, a move
      goes one key over and fails off the pad or on the gap. */
  function Step(cmd: Command, pos: Point, bounds: (nat, nat), forbidden: Point): (r: Result<Point, Failure>)
    ensures r.Ok? && cmd.Move? ==> Advance(pos, cmd.dir, bounds) == Some(r.value) && r.value != forbidden
    ensures r.Ok? && cmd.Activate? ==> r.value == pos
    ensures r.Err? <==> cmd.Move? && (Advance(pos, cmd.dir, bounds).None? || Advance(pos, cmd.dir, bounds) == Some(forbidden))
    ensures r.Err? ==> r.error.OffPad? || r.error.Forbidden?
  {
    match cmd
    case Activate => Ok(pos)
    case Move(dir) =>
      match Advance(pos, dir, bounds)
      case None => Err(OffPad(pos, dir))
      case Some(next) => if next == forbidden then Err(Forbidden(next)) else Ok(next)
  }

  /** The replay of `cmds` from `pos`: the final arm position and the keys
      pressed, or the first failure. */
  function Run(cmds: seq<Command>, pos: Point, bounds: (nat, nat), forbidden: Point): (r: Result<(Point, seq<Point>), Failure>)
    ensures r.Err? ==> r.error.OffPad? || r.error.Forbidden?
  {
    if cmds == [] then Ok((pos, []))
    else
      var step := Step(cmds[0], pos, bounds, forbidden);
      if step.Err? then Err(step.error)
      else Pressed(if cmds[0] == Activate then [pos] else [], Run(cmds[1..], step.value, bounds, forbidden))
  }

  /** A replay result with `keys` pressed before it. */
  function Pressed(keys: seq<Point>, r: Result<(Point, seq<Point>), Failure>): Result<(Point, seq<Point>), Failure> {
    if r.Err? then r else Ok((r.value.0, keys + r.value.1))
  }

  lemma PressedNothing(r: Result<(Point, seq<Point>), Failure>)
    ensures Pressed([], r) == r
  {
    if r.Ok? {
      assert [] + r.value.1 == r.value.1;
    }
  }

  /** The keys pressed, or the failure: the result of `interpret_commands`. */
  function Interpret(cmds: seq<Command>, pos: Point, bounds: (nat, nat), forbidden: Point): (r: Result<seq<Point>, Failure>)
    ensures r.Err? ==> r.error.OffPad? || r.error.Forbidden?
  {
    var r := Run(cmds, pos, bounds, forbidden);
    if r.Err? then Err(r.error) else Ok(r.value.1)
  }

  /** `interpret_commands`: walk the arm over the pad, recording its position
      at every `Activate`. */
  method InterpretCommands(cmds: seq<Command>, initialPos: Point, bounds: (nat, nat), forbidden: Point)
    returns (r: Result<seq<Point>, Failure>)
    ensures r == Interpret(cmds, initialPos, bounds, forbidden)
  {
    var pos := initialPos;
    var output: seq<Point> := [];
    var i := 0;
    assert cmds[0..] == cmds;
    PressedNothing(Run(cmds, initialPos, bounds, forbidden));
    while i < |cmds|
      invariant 0 <= i <= |cmds|
      invariant Run(cmds, initialPos, bounds, forbidden) == Pressed(output, Run(cmds[i..], pos, bounds, forbidden))
    {
      assert cmds[i..][1..] == cmds[i + 1..];
      match cmds[i] {
        case Move(dir) =>
          var next := Advance(pos, dir, bounds);
          if next.None? {
            return Err(OffPad(pos, dir));
          }
          pos := next.value;
          if pos == forbidden {
            return Err(Forbidden(pos));
          }
          PressedNothing(Run(cmds[i + 1..], pos, bounds, forbidden));
        case Activate =>
          ghost var rest := Run(cmds[i + 1..], pos, bounds, forbidden);
          assert rest.Ok? ==> output + ([pos] + rest.value.1) == (output + [pos]) + rest.value.1;
          output := output + [pos];
      }
      i := i + 1;
    }
    assert cmds[i..] == [];
    assert output + [] == output;
    r := Ok(output);
  }

  /** `commands_on_numeric_pad`: the 3 × 4 pad with its gap. */
  function CommandsOnNumericPad(cmds: seq<Command>, initialPos: Point): Result<seq<Point>, Failure> {
    Interpret(cmds, initialPos, NUMERIC_BOUNDS, NUMERIC_F)
  }

  /** `commands_on_directional_pad`: the 3 × 2 pad with its gap. */
  function CommandsOnDirectionalPad(cmds: seq<Command>, initialPos: Point): Result<seq<Point>, Failure> {
    Interpret(cmds, initialPos, DIRECTIONAL_BOUNDS, DIRECTIONAL_F)
  }

  /** A key the arm may rest on: inside the pad and not the gap. */
  predicate OnPad(p: Point, bounds: (nat, nat), forbidden: Point) {
    InBounds(p, bounds) && p != forbidden
  }

  /** A successful replay presses one key per `Activate`; starting on the pad,
      the arm ends on the pad and every pressed key is on the pad. */
  lemma {:induction false} RunSucceeds(cmds: seq<Command>, pos: Point, bounds: (nat, nat), forbidden: Point)
    requires Run(cmds, pos, bounds, forbidden).Ok?
    ensures |Run(cmds, pos, bounds, forbidden).value.1| == CountActivates(cmds)
    ensures OnPad(pos, bounds, forbidden) ==> OnPad(Run(cmds, pos, bounds, forbidden).value.0, bounds, forbidden)
    ensures OnPad(pos, bounds, forbidden) ==> forall k :: k in Run(cmds, pos, bounds, forbidden).value.1 ==> OnPad(k, bounds, forbidden)
  {
    if cmds != [] {
      var next := Step(cmds[0], pos, bounds, forbidden).value;
      RunSucceeds(cmds[1..], next, bounds, forbidden);
      if cmds[0].Move? && OnPad(pos, bounds, forbidden) {
        AdvanceStaysInBounds(pos, cmds[0].dir, bounds, 1);
      }
    }
  }

  /** `interpret_commands` outputs one key per `Activate`, all on the pad when it starts on the pad. */
  lemma InterpretOutput(cmds: seq<Command>, pos: Point, bounds: (nat, nat), forbidden: Point)
    requires Interpret(cmds, pos, bounds, forbidden).Ok?
    ensures |Interpret(cmds, pos, bounds, forbidden).value| == CountActivates(cmds)
    ensures OnPad(pos, bounds, forbidden) ==> forall k :: k in Interpret(cmds, pos, bounds, forbidden).value ==> OnPad(k, bounds, forbidden)
  {
    RunSucceeds(cmds, pos, bounds, forbidden);
  }

  /** Continue a replay result with `b`. */
  function Then(r: Result<(Point, seq<Point>), Failure>, b: seq<Command>, bounds: (nat, nat), forbidden: Point): Result<(Point, seq<Point>), Failure> {
    if r.Err? then r else Pressed(r.value.1, Run(b, r.value.0, bounds, forbidden))
  }

  /** Replaying two lists one after the other is replaying their concatenation. */
  lemma {:induction false} RunAppend(a: seq<Command>, b: seq<Command>, pos: Point, bounds: (nat, nat), forbidden: Point)
    ensures Run(a + b, pos, bounds, forbidden) == Then(Run(a, pos, bounds, forbidden), b, bounds, forbidden)
  {
    if a == [] {
      assert a + b == b;
      PressedNothing(Run(b, pos, bounds, forbidden));
    } else {
      assert (a + b)[0] == a[0] && (a + b)[1..] == a[1..] + b;
      var step := Step(a[0], pos, bounds, forbidden);
      if step.Ok? {
        RunAppend(a[1..], b, step.value, bounds, forbidden);
        var pressed: seq<Point> := if a[0] == Activate then [pos] else [];
        var r1 := Run(a[1..], step.value, bounds, forbidden);
        if r1.Ok? {
          var r2 := Run(b, r1.value.0, bounds, forbidden);
          assert r2.Ok? ==> pressed + (r1.value.1 + r2.value.1) == (pressed + r1.value.1) + r2.value.1;
        }
      }
    }
  }

  /** A move that leaves the pad or lands on the gap makes the whole replay fail. */
  lemma FailingMoveFails(before: seq<Command>, dir: Direction, after: seq<Command>, pos: Point, bounds: (nat, nat), forbidden: Point)
    requires Run(before, pos, bounds, forbidden).Ok?
    requires var at := Run(before, pos, bounds, forbidden).value.0;
      Advance(at, dir, bounds).None? || Advance(at, dir, bounds) == Some(forbidden)
    ensures Interpret(before + [Move(dir)] + after, pos, bounds, forbidden).Err?
  {
    assert ([Move(dir)] + after)[1..] == after;
    RunAppend(before, [Move(dir)] + after, pos, bounds, forbidden);
    assert before + [Move(dir)] + after == before + ([Move(dir)] + after);
  }

  /** An `Activate` records the current position without moving. */
  lemma ActivateRecords(rest: seq<Command>, pos: Point, bounds: (nat, nat), forbidden: Point)
    ensures Interpret([Activate] + rest, pos, bounds, forbidden) ==
      match Interpret(rest, pos, bounds, forbidden)
      case Err(e) => Err(e)
      case Ok(out) => Ok([pos] + out)
  {
    assert ([Activate] + rest)[1..] == rest;
  }

  /** The key a directional-pad position stands for; `None` is the panic on any other position. */
  function KeyToCommand(key: Point): (r: Option<Command>)
    ensures r.Some? <==> OnPad(key, DIRECTIONAL_BOUNDS, DIRECTIONAL_F)
  {
    match key
    case Point(1, 0) => Some(Move(Up))
    case Point(2, 0) => Some(Activate)
    case Point(0, 1) => Some(Move(Left))
    case Point(1, 1) => Some(Move(Down))
    case Point(2, 1) => Some(Move(Right))
    case _ => None
  }

  /** `directional_keys_to_commands`. */
  function DirectionalKeysToCommands(keys: seq<Point>): (r: Result<seq<Command>, Failure>)
    ensures r.Ok? <==> forall i :: 0 <= i < |keys| ==> OnPad(keys[i], DIRECTIONAL_BOUNDS, DIRECTIONAL_F)
    ensures r.Ok? ==> |r.value| == |keys| && forall i :: 0 <= i < |keys| ==> Some(r.value[i]) == KeyToCommand(keys[i])
  {
    if keys == [] then Ok([])
    else match KeyToCommand(keys[0])
      case None => Err(InvalidKey(keys[0]))
      case Some(cmd) =>
        match DirectionalKeysToCommands(keys[1..])
        case Err(e) => Err(e)
        case Ok(rest) => Ok([cmd] + rest)
  }

  /** The digit a numeric-pad position stands for; `None` is the panic on any other position. */
  function KeyToDigit(key: Point): (r: Option<char>)
    ensures r.Some? <==> OnPad(key, NUMERIC_BOUNDS, NUMERIC_F)
    ensures r.Some? ==> r.value in "0123456789A"
  {
    match key
    case Point(0, 2) => Some('1')
    case Point(1, 2) => Some('2')
    case Point(2, 2) => Some('3')
    case Point(0, 1) => Some('4')
    case Point(1, 1) => Some('5')
    case Point(2, 1) => Some('6')
    case Point(0, 0) => Some('7')
    case Point(1, 0) => Some('8')
    case Point(2, 0) => Some('9')
    case Point(1, 3) => Some('0')
    case Point(2, 3) => Some('A')
    case _ => None
  }

  /** `numeric_keys_to_digits`. */
  function NumericKeysToDigits(keys: seq<Point>): (r: Result<string, Failure>)
    ensures r.Ok? <==> forall i :: 0 <= i < |keys| ==> OnPad(keys[i], NUMERIC_BOUNDS, NUMERIC_F)
    ensures r.Ok? ==> |r.value| == |keys| && forall i :: 0 <= i < |keys| ==> Some(r.value[i]) == KeyToDigit(keys[i])
  {
    if keys == [] then Ok([])
    else match KeyToDigit(keys[0])
      case None => Err(InvalidKey(keys[0]))
      case Some(d) =>
        match NumericKeysToDigits(keys[1..])
        case Err(e) => Err(e)
        case Ok(rest) => Ok([d] + rest)
  }

  /** Decoding directional keys works key by key: a concatenation decodes to
      the concatenation of the decodings. */
  lemma DirectionalKeysAppend(a: seq<Point>, b: seq<Point>)
    requires DirectionalKeysToCommands(a).Ok? && DirectionalKeysToCommands(b).Ok?
    ensures DirectionalKeysToCommands(a + b) == Ok(DirectionalKeysToCommands(a).value + DirectionalKeysToCommands(b).value)
  {
    var ra, rb := DirectionalKeysToCommands(a).value, DirectionalKeysToCommands(b).value;
    forall i | 0 <= i < |a + b|
      ensures OnPad((a + b)[i], DIRECTIONAL_BOUNDS, DIRECTIONAL_F) && Some((ra + rb)[i]) == KeyToCommand((a + b)[i])
    {
      if i < |a| {
        assert (a + b)[i] == a[i];
      } else {
        assert (a + b)[i] == b[i - |a|];
      }
    }
    var r := DirectionalKeysToCommands(a + b).value;
    assert |r| == |ra + rb|;
    forall i | 0 <= i < |r|
      ensures r[i] == (ra + rb)[i]
    {
      assert Some(r[i]) == KeyToCommand((a + b)[i]);
    }
    assert r == ra + rb;
  }

  /** Decoding numeric keys works key by key as well. */
  lemma NumericKeysAppend(a: seq<Point>, b: seq<Point>)
    requires NumericKeysToDigits(a).Ok? && NumericKeysToDigits(b).Ok?
    ensures NumericKeysToDigits(a + b) == Ok(NumericKeysToDigits(a).value + NumericKeysToDigits(b).value)
  {
    var ra, rb := NumericKeysToDigits(a).value, NumericKeysToDigits(b).value;
    forall i | 0 <= i < |a + b|
      ensures OnPad((a + b)[i], NUMERIC_BOUNDS, NUMERIC_F) && Some((ra + rb)[i]) == KeyToDigit((a + b)[i])
    {
      if i < |a| {
        assert (a + b)[i] == a[i];
      } else {
        assert (a + b)[i] == b[i - |a|];
      }
    }
    var r := NumericKeysToDigits(a + b).value;
    assert |r| == |ra + rb|;
    forall i | 0 <= i < |r|
      ensures r[i] == (ra + rb)[i]
    {
      assert Some(r[i]) == KeyToDigit((a + b)[i]);
    }
    assert r == ra + rb;
  }

  /** `commands_to_digits`: what the top robot's presses type on the numeric
      pad through two intermediate directional pads. */
  function CommandsToDigits(commands: string): Result<string, Failure> {
    match CommandsFromString(commands)
    case Err(e) => Err(e)
    case Ok(cmds) =>
      match CommandsOnDirectionalPad(cmds, DIRECTIONAL_A)
      case Err(e) => Err(e)
      case Ok(step1) =>
        match DirectionalKeysToCommands(step1)
        case Err(e) => Err(e)
        case Ok(cmds2) =>
          match CommandsOnDirectionalPad(cmds2, DIRECTIONAL_A)
          case Err(e) => Err(e)
          case Ok(step2) =>
            match DirectionalKeysToCommands(step2)
            case Err(e) => Err(e)
            case Ok(cmds3) =>
              match CommandsOnNumericPad(cmds3, NUMERIC_A)
              case Err(e) => Err(e)
              case Ok(step3) => NumericKeysToDigits(step3)
  }

  /** Decoding never panics on a key: every failure of `commands_to_digits` is
      an unknown button character or an invalid move. */
  lemma DecodingNeverHitsUnknownKey(commands: string)
    ensures !(CommandsToDigits(commands).Err? && CommandsToDigits(commands).error.InvalidKey?)
  {
    match CommandsFromString(commands)
    case Err(e) =>
      assert CommandsToDigits(commands) == Err(e);
    case Ok(cmds) =>
      match CommandsOnDirectionalPad(cmds, DIRECTIONAL_A)
      case Err(_) =>
      case Ok(step1) =>
        InterpretOutput(cmds, DIRECTIONAL_A, DIRECTIONAL_BOUNDS, DIRECTIONAL_F);
        var cmds2 := DirectionalKeysToCommands(step1).value;
        match CommandsOnDirectionalPad(cmds2, DIRECTIONAL_A)
        case Err(_) =>
        case Ok(step2) =>
          InterpretOutput(cmds2, DIRECTIONAL_A, DIRECTIONAL_BOUNDS, DIRECTIONAL_F);
          var cmds3 := DirectionalKeysToCommands(step2).value;
          match CommandsOnNumericPad(cmds3, NUMERIC_A)
          case Err(_) =>
          case Ok(step3) =>
            InterpretOutput(cmds3, NUMERIC_A, NUMERIC_BOUNDS, NUMERIC_F);
  }
}
