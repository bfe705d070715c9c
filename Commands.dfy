/** The keypad robots' command alphabet and pad constants (day21/src/commands.rs). */
module Commands {
  import opened Direction
  import opened Point

  /** One button press on a directional keypad: move the arm, or press the key under it. */
  datatype Command = Move(dir: Direction) | Activate

  /** The `A` key and the gap of the 3 × 4 numeric pad. */
  const NUMERIC_A: Point := Point(2, 3)
  const NUMERIC_F: Point := Point(0, 3)

  /** The `A` key and the gap of the 3 × 2 directional pad. */
  const DIRECTIONAL_A: Point := Point(2, 0)
  const DIRECTIONAL_F: Point := Point(0, 0)

  const NUMERIC_BOUNDS: (nat, nat) := (3, 4)
  const DIRECTIONAL_BOUNDS: (nat, nat) := (3, 2)

  /** The printed form of a command. */
  function CommandChar(cmd: Command): char {
    match cmd
    case Move(Up) => '^'
    case Move(Right) => '>'
    case Move(Down) => 'v'
    case Move(Left) => '<'
    case Activate => 'A'
  }

  /** `commands_to_string`: one character per command, in order. */
  function CommandsToString(cmds: seq<Command>): (s: string)
    ensures |s| == |cmds|
    ensures forall i :: 0 <= i < |cmds| ==> s[i] == CommandChar(cmds[i])
    ensures forall i :: 0 <= i < |s| ==> s[i] in "^>v<A"
  {
    if cmds == [] then "" else [CommandChar(cmds[0])] + CommandsToString(cmds[1..])
  }

  /** The five commands print as five distinct characters. */
  lemma CommandCharInjective(a: Command, b: Command)
    ensures CommandChar(a) == CommandChar(b) <==> a == b
  {
  }

  /** Different command lists print differently. */
  lemma CommandsToStringInjective(a: seq<Command>, b: seq<Command>)
    requires CommandsToString(a) == CommandsToString(b)
    ensures a == b
  {
    assert |a| == |b|;
    forall i | 0 <= i < |a|
      ensures a[i] == b[i]
    {
      CommandCharInjective(a[i], b[i]);
    }
  }

  /** Printing a concatenation prints each part in turn. */
  lemma CommandsToStringAppend(a: seq<Command>, b: seq<Command>)
    ensures CommandsToString(a + b) == CommandsToString(a) + CommandsToString(b)
  {
    var s, t := CommandsToString(a + b), CommandsToString(a) + CommandsToString(b);
    assert |s| == |t|;
    forall i | 0 <= i < |s|
      ensures s[i] == t[i]
    {
      if i < |a| {
        assert (a + b)[i] == a[i];
      } else {
        assert (a + b)[i] == b[i - |a|];
      }
    }
  }

  /** Each `A` key is on its pad and is not the gap. */
  lemma PadConstants()
    ensures InBounds(NUMERIC_A, NUMERIC_BOUNDS) && InBounds(NUMERIC_F, NUMERIC_BOUNDS) && NUMERIC_A != NUMERIC_F
    ensures InBounds(DIRECTIONAL_A, DIRECTIONAL_BOUNDS) && InBounds(DIRECTIONAL_F, DIRECTIONAL_BOUNDS) && DIRECTIONAL_A != DIRECTIONAL_F
  {
  }

  function CountActivates(cmds: seq<Command>): nat {
    if cmds == [] then 0 else (if cmds[0] == Activate then 1 else 0) + CountActivates(cmds[1..])
  }

  lemma {:induction false} CountActivatesAppend(a: seq<Command>, b: seq<Command>)
    ensures CountActivates(a + b) == CountActivates(a) + CountActivates(b)
  {
    if a == [] {
      assert a + b == b;
    } else {
      assert (a + b)[0] == a[0] && (a + b)[1..] == a[1..] + b;
      CountActivatesAppend(a[1..], b);
    }
  }
}
