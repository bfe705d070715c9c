/** The per-pair transition tables of day21/src/main.rs and the two answers
    built from them: part 1 sums the table's third-level lengths over the
    pairs of a code, part 2 expands the table strings through two more
    directional levels. */
module Transitions {
  import opened Wrappers
  import opened Commands
  import opened C2d
  import opened Keypad
  import opened Comparisons
  import opened Seqs
  import Parse

  /** Per ordered pair of buttons: the shortest third-level length and the
      printed first-level sequence that reaches it. */
  type Table = map<(char, char), (nat, string)>

  /** The buttons in the order the preparing loops visit them. */
  const ALL_DIGITS: seq<char> := ['A', '0', '1', '2', '3', '4', '5', '6', '7', '8', '9']
  const ALL_BUTTONS: seq<char> := ['A', '>', '<', '^', 'v']

  datatype Pad = NumericPad | DirectionalPad

  function Buttons(pad: Pad): seq<char> {
    match pad
    case NumericPad => ALL_DIGITS
    case DirectionalPad => ALL_BUTTONS
  }

  /** The closure passed to `eval_key_distances` for a pair starting at `start`. */
  function NumericValidator(start: Point.Point): seq<Command> -> bool {
    c => CommandsOnNumericPad(c, start).Ok?
  }

  function DirectionalValidator(start: Point.Point): seq<Command> -> bool {
    c => CommandsOnDirectionalPad(c, start).Ok?
  }

  /** The table entry for `(start, end)`; `None` is a panic, either of an
      unknown button or of `eval_key_distances`. */
  function Entry(pad: Pad, start: char, end: char): Option<(nat, string)> {
    match pad
    case NumericPad =>
      (match (DigitToNumericKey(start), DigitsToNumericKeys([end]))
       case (Some(sp), Some(ep)) => EvalResult(DistancesBetweenPoints(sp, ep), NumericValidator(sp))
       case _ => None)
    case DirectionalPad =>
      (match (DirectionalButtonToCommand(start), CommandsFromString([end]))
       case (Some(sc), Ok(ec)) =>
         var sk := CommandToDirectionalKey(sc);
         EvalResult(DistancesBetweenPoints(sk, CommandsToDirectionalKeys(ec)), DirectionalValidator(sk))
       case _ => None)
  }

  /** One iteration of the inner preparing loop. */
  method EvalEntry(pad: Pad, start: char, end: char) returns (r: Option<(nat, string)>)
    ensures r == Entry(pad, start, end)
  {
    match pad
    case NumericPad =>
      var sp := DigitToNumericKey(start);
      var ep := DigitsToNumericKeys([end]);
      if sp.None? || ep.None? {
        return None;
      }
      r := EvalKeyDistances(DistancesBetweenPoints(sp.value, ep.value), NumericValidator(sp.value));
    case DirectionalPad =>
      var sc := DirectionalButtonToCommand(start);
      var ec := CommandsFromString([end]);
      if sc.None? || ec.Err? {
        return None;
      }
      var sk := CommandToDirectionalKey(sc.value);
      r := EvalKeyDistances(DistancesBetweenPoints(sk, CommandsToDirectionalKeys(ec.value)), DirectionalValidator(sk));
  }

  function Keys(pad: Pad): set<(char, char)> {
    set a, b | a in Buttons(pad) && b in Buttons(pad) :: (a, b)
  }

  predicate EntriesDefined(pad: Pad) {
    forall a, b :: a in Buttons(pad) && b in Buttons(pad) ==> Entry(pad, a, b).Some?
  }

  /** The table entry of a pair of buttons, as a function value. */
  function EntryOf(pad: Pad): ((char, char)) -> Option<(nat, string)> {
    (k: (char, char)) => Entry(pad, k.0, k.1)
  }

  /** The map holding `f`'s value at every key of `keys`; `None` if `f` fails on one. */
  function TableFrom<K(==), V>(keys: set<K>, f: K -> Option<V>): Option<map<K, V>> {
    if forall k :: k in keys ==> f(k).Some? then Some(map k | k in keys :: f(k).value) else None
  }

  /** Every entry of `t` is `f`'s value at its key. */
  ghost predicate AgreesWith<K, V>(t: map<K, V>, f: K -> Option<V>) {
    forall k :: k in t ==> f(k) == Some(t[k])
  }

  lemma AgreesInsert<K, V>(t: map<K, V>, f: K -> Option<V>, k: K, v: V)
    requires AgreesWith(t, f) && f(k) == Some(v)
    ensures AgreesWith(t[k := v], f)
  {
  }

  /** A map that agrees with `f` on exactly `keys` is the table of `f`. */
  lemma TableFromComplete<K, V>(keys: set<K>, f: K -> Option<V>, t: map<K, V>)
    requires AgreesWith(t, f) && t.Keys == keys
    ensures TableFrom(keys, f) == Some(t)
  {
    forall k | k in keys ensures f(k).Some? {
      assert k in t;
    }
    var m := map k | k in keys :: f(k).value;
    assert m.Keys == t.Keys;
    forall k | k in m ensures m[k] == t[k] {
      assert f(k) == Some(t[k]);
    }
    assert m == t;
  }

  /** One failing key makes the table fail. */
  lemma TableFromMissing<K, V>(keys: set<K>, f: K -> Option<V>, k: K)
    requires k in keys && f(k).None?
    ensures TableFrom(keys, f).None?
  {
  }

  /** The table a pad's preparing function builds, `None` if it panics. */
  function TableOf(pad: Pad): Option<Table> {
    TableFrom(Keys(pad), EntryOf(pad))
  }

  /** The table exists exactly when every pair of the pad's buttons has an
      entry; it then holds exactly those pairs, each with its entry. */
  lemma TableOfSpec(pad: Pad)
    ensures TableOf(pad).Some? <==> EntriesDefined(pad)
    ensures TableOf(pad).Some? ==> TableOf(pad).value.Keys == Keys(pad)
    ensures TableOf(pad).Some? ==> forall k :: k in TableOf(pad).value ==> Some(TableOf(pad).value[k]) == Entry(pad, k.0, k.1)
  {
    if EntriesDefined(pad) {
      forall k | k in Keys(pad) ensures EntryOf(pad)(k).Some? {
        assert k.0 in Buttons(pad) && k.1 in Buttons(pad);
      }
    } else {
      var a, b :| a in Buttons(pad) && b in Buttons(pad) && Entry(pad, a, b).None?;
      TableFromMissing(Keys(pad), EntryOf(pad), (a, b));
    }
  }

  /** The entries in `t` are those the pad's buttons give. */
  ghost predicate Agrees(t: Table, pad: Pad) {
    AgreesWith(t, EntryOf(pad))
  }

  /** The row of `start` has been inserted into `t0` up to button `j`. */
  ghost predicate RowUpTo(t: Table, t0: Table, start: char, buttons: seq<char>, j: nat)
    requires j <= |buttons|
  {
    forall k :: k in t <==> k in t0 || (k.0 == start && k.1 in buttons[..j])
  }

  /** The inner preparing loop: the row of `start`, inserted into `t`. */
  method PrepareRow(pad: Pad, start: char, t0: Table) returns (r: Option<Table>)
    requires Agrees(t0, pad)
    ensures r.None? ==> exists b :: b in Buttons(pad) && Entry(pad, start, b).None?
    ensures r.Some? ==> Agrees(r.value, pad)
    ensures r.Some? ==> forall k :: k in r.value <==> k in t0 || (k.0 == start && k.1 in Buttons(pad))
  {
    var buttons := Buttons(pad);
    var t := t0;
    var j := 0;
    while j < |buttons|
      invariant 0 <= j <= |buttons|
      invariant RowUpTo(t, t0, start, buttons, j) && Agrees(t, pad)
    {
      var next := InsertEntry(pad, start, buttons, j, t0, t);
      if next.None? {
        return None;
      }
      t := next.value;
      j := j + 1;
    }
    assert buttons[..j] == buttons;
    r := Some(t);
  }

  /** One iteration of the inner preparing loop: the entry `(start, buttons[j])`
      evaluated and inserted. */
  method InsertEntry(pad: Pad, start: char, buttons: seq<char>, j: nat, t0: Table, t: Table) returns (r: Option<Table>)
    requires j < |buttons| && RowUpTo(t, t0, start, buttons, j) && Agrees(t, pad)
    ensures r.None? ==> Entry(pad, start, buttons[j]).None?
    ensures r.Some? ==> RowUpTo(r.value, t0, start, buttons, j + 1) && Agrees(r.value, pad)
  {
    var e := EvalEntry(pad, start, buttons[j]);
    if e.None? {
      return None;
    }
    InPrefixSnoc(buttons, j);
    assert EntryOf(pad)((start, buttons[j])) == e;
    AgreesInsert(t, EntryOf(pad), (start, buttons[j]), e.value);
    r := Some(t[(start, buttons[j]) := e.value]);
  }

  /** `prepare_numpad_transitions` and `prepare_directional_transitions`:
      every ordered pair of the pad's buttons, evaluated and inserted. */
  method PrepareTransitions(pad: Pad) returns (r: Option<Table>)
    ensures r == TableOf(pad)
  {
    var buttons := Buttons(pad);
    var t: Table := map[];
    var i := 0;
    while i < |buttons|
      invariant 0 <= i <= |buttons|
      invariant forall k :: k in t <==> k.0 in buttons[..i] && k.1 in buttons
      invariant Agrees(t, pad)
    {
      var row := PrepareRow(pad, buttons[i], t);
      if row.None? {
        var b :| b in buttons && Entry(pad, buttons[i], b).None?;
        assert EntryOf(pad)((buttons[i], b)).None?;
        TableFromMissing(Keys(pad), EntryOf(pad), (buttons[i], b));
        return None;
      }
      t := row.value;
      InPrefixSnoc(buttons, i);
      i := i + 1;
    }
    assert buttons[..i] == buttons;
    KeysOfRows(pad, t);
    TableFromComplete(Keys(pad), EntryOf(pad), t);
    r := Some(t);
  }

  lemma KeysOfRows(pad: Pad, t: Table)
    requires forall k :: k in t <==> k.0 in Buttons(pad) && k.1 in Buttons(pad)
    ensures t.Keys == Keys(pad)
  {
  }

  /** The pairs a string is typed through when the arm starts on `prev`:
      `(prev, s[0])`, then each adjacent pair of `s`. */
  function Pairs(prev: char, s: string): (r: seq<(char, char)>)
    ensures |r| == |s|
    ensures |s| > 0 ==> r[0] == (prev, s[0])
    ensures forall i :: 0 < i < |s| ==> r[i] == (s[i - 1], s[i])
    decreases |s|
  {
    if s == [] then [] else [(prev, s[0])] + Pairs(s[0], s[1..])
  }

  /** Typing `a + b` is typing `a`, then typing `b` from where `a` ended. */
  lemma PairsAppend(prev: char, a: string, b: string)
    ensures Pairs(prev, a + b) == Pairs(prev, a) + Pairs(if a == [] then prev else a[|a| - 1], b)
  {
    var l, r := Pairs(prev, a + b), Pairs(prev, a) + Pairs(if a == [] then prev else a[|a| - 1], b);
    assert |l| == |r|;
    forall i | 0 <= i < |l|
      ensures l[i] == r[i]
    {
      if i < |a| {
        assert (a + b)[i] == a[i];
        if i > 0 {
          assert (a + b)[i - 1] == a[i - 1];
        }
      } else {
        assert (a + b)[i] == b[i - |a|];
        if i > 0 {
          assert (a + b)[i - 1] == if i == |a| then a[|a| - 1] else b[i - |a| - 1];
        }
      }
    }
  }

  function StepsOf(e: (nat, string)): nat {
    e.0
  }

  function LengthOf(e: (nat, string)): nat {
    |e.1|
  }

  /** The sum of `w` over the table entries of `pairs` (a missing pair adds nothing). */
  function Weight(t: Table, pairs: seq<(char, char)>, w: ((nat, string)) -> nat): nat
    decreases |pairs|
  {
    if pairs == [] then 0
    else Weight(t, pairs[..|pairs| - 1], w) + (var p := pairs[|pairs| - 1]; if p in t then w(t[p]) else 0)
  }

  lemma {:induction false} WeightAppend(t: Table, a: seq<(char, char)>, b: seq<(char, char)>, w: ((nat, string)) -> nat)
    ensures Weight(t, a + b, w) == Weight(t, a, w) + Weight(t, b, w)
    decreases |b|
  {
    if b == [] {
      assert a + b == a;
    } else {
      WeightAppend(t, a, b[..|b| - 1], w);
      assert (a + b)[..|a + b| - 1] == a + b[..|b| - 1];
    }
  }

  /** The weight of a list of pairs depends only on how often each pair
      occurs: the pair-count (histogram) view of an expansion. */
  lemma {:induction false} WeightOfPermutation(t: Table, a: seq<(char, char)>, b: seq<(char, char)>, w: ((nat, string)) -> nat)
    requires multiset(a) == multiset(b)
    ensures Weight(t, a, w) == Weight(t, b, w)
    decreases |a|
  {
    if a != [] {
      var x, a' := a[|a| - 1], a[..|a| - 1];
      assert a == a' + [x];
      assert x in multiset(b);
      var k :| 0 <= k < |b| && b[k] == x;
      var b' := b[..k] + b[k + 1..];
      assert b == b[..k] + [x] + b[k + 1..];
      assert multiset(b) == multiset(b[..k]) + multiset([x]) + multiset(b[k + 1..]);
      assert multiset(a) == multiset(a') + multiset([x]);
      assert multiset(b') == multiset(b[..k]) + multiset(b[k + 1..]);
      assert multiset(a') == multiset(a) - multiset{x};
      assert multiset(b') == multiset(b) - multiset{x};
      WeightOfPermutation(t, a', b', w);
      WeightAppend(t, a', [x], w);
      WeightAppend(t, b[..k] + [x], b[k + 1..], w);
      WeightAppend(t, b[..k], [x], w);
      WeightAppend(t, b[..k], b[k + 1..], w);
      assert [x][..0] == [];
    }
  }

  /** Part 1's inner sum: the table's step counts over `pairs`; `None` is the
      `unwrap` panic on a pair missing from the table. */
  function StepSum(t: Table, pairs: seq<(char, char)>): (r: Option<nat>)
    ensures r.Some? <==> forall i :: 0 <= i < |pairs| ==> pairs[i] in t
    ensures r.Some? ==> r.value == Weight(t, pairs, StepsOf)
    decreases |pairs|
  {
    if pairs == [] then Some(0)
    else
      var p := pairs[|pairs| - 1];
      match StepSum(t, pairs[..|pairs| - 1])
      case None => None
      case Some(n) => if p in t then Some(n + t[p].0) else None
  }

  /** `digits[..3].parse::<usize>().unwrap()`; `None` is the panic. */
  function CodeNumber(digits: string): Option<nat> {
    if |digits| < 3 then None else Parse.ParseUnsigned(digits[..3], Parse.USIZE_MAX)
  }

  /** A code's complexity: its length or step count times its number. */
  function Times(a: nat, b: nat): nat {
    a * b
  }

  /** Part 1's contribution of one code: its number times its step count. */
  function Complexity1(t: Table, digits: string): Option<nat> {
    match CodeNumber(digits)
    case None => None
    case Some(code) =>
      match StepSum(t, Pairs('A', digits))
      case None => None
      case Some(steps) => Some(Times(steps, code))
  }

  function Complexity1Of(t: Table): string -> Option<nat> {
    digits => Complexity1(t, digits)
  }

  /** Part 1's answer: the complexities of all codes, summed. */
  function TotalP1(t: Table, codes: seq<string>): Option<nat> {
    SumSome(codes, Complexity1Of(t))
  }

  /** The inner loop of `calculate_p1`: the steps of each pair of `'A'`
      followed by the code, summed. */
  method CodeSteps(t: Table, digits: string) returns (r: Option<nat>)
    ensures r == StepSum(t, Pairs('A', digits))
  {
    ghost var pairs := Pairs('A', digits);
    var nSteps := 0;
    var p := 0;
    while p < |digits|
      invariant 0 <= p <= |digits|
      invariant StepSum(t, pairs[..p]) == Some(nSteps)
    {
      var next := AddPairSteps(t, digits, p, nSteps);
      if next.None? {
        StepSumPrefix(t, pairs, p + 1);
        return None;
      }
      nSteps := next.value;
      p := p + 1;
    }
    assert pairs[..p] == pairs;
    r := Some(nSteps);
  }

  /** One iteration of the inner loop of `calculate_p1`: the steps of the pair
      ending at `digits[p]` added. */
  method AddPairSteps(t: Table, digits: string, p: nat, nSteps: nat) returns (r: Option<nat>)
    requires p < |digits| && StepSum(t, Pairs('A', digits)[..p]) == Some(nSteps)
    ensures r == StepSum(t, Pairs('A', digits)[..p + 1])
  {
    ghost var pairs := Pairs('A', digits);
    var start := if p == 0 then 'A' else digits[p - 1];
    var end := digits[p];
    assert pairs[p] == (start, end);
    StepSumSnoc(t, pairs, p);
    if (start, end) !in t {
      return None;
    }
    r := Some(nSteps + t[(start, end)].0);
  }

  lemma StepSumSnoc(t: Table, pairs: seq<(char, char)>, i: nat)
    requires i < |pairs|
    ensures StepSum(t, pairs[..i + 1]) ==
      match StepSum(t, pairs[..i])
      case Some(n) => if pairs[i] in t then Some(n + t[pairs[i]].0) else None
      case None => None
  {
    assert pairs[..i + 1][..i] == pairs[..i];
  }

  /** A panic on a prefix of the pairs is a panic on all of them. */
  lemma StepSumPrefix(t: Table, pairs: seq<(char, char)>, i: nat)
    requires i <= |pairs| && StepSum(t, pairs[..i]).None?
    ensures StepSum(t, pairs).None?
  {
    var k :| 0 <= k < i && pairs[..i][k] !in t;
    assert pairs[k] !in t;
  }

  /** One iteration of `calculate_p1`'s loop: the code's number times its steps. */
  method CodeComplexity(t: Table, digits: string) returns (r: Option<nat>)
    ensures r == Complexity1(t, digits)
  {
    if |digits| < 3 {
      return None;
    }
    var code := Parse.ParseUnsigned(digits[..3], Parse.USIZE_MAX);
    if code.None? {
      return None;
    }
    var nSteps := CodeSteps(t, digits);
    if nSteps.None? {
      return None;
    }
    r := Some(Times(nSteps.value, code.value));
  }

  /** The loop of `calculate_p1` over the codes. */
  method SumComplexities(t: Table, input: seq<string>) returns (r: Option<nat>)
    ensures r == TotalP1(t, input)
  {
    var totals := 0;
    var i := 0;
    while i < |input|
      invariant 0 <= i <= |input|
      invariant TotalP1(t, input[..i]) == Some(totals)
    {
      var next := AddComplexity(t, input, i, totals);
      if next.None? {
        SumSomePrefix(input, i + 1, Complexity1Of(t));
        return None;
      }
      totals := next.value;
      i := i + 1;
    }
    assert input[..i] == input;
    r := Some(totals);
  }

  /** One iteration of `calculate_p1`'s loop: the complexity of `input[i]` added. */
  method AddComplexity(t: Table, input: seq<string>, i: nat, totals: nat) returns (r: Option<nat>)
    requires i < |input| && TotalP1(t, input[..i]) == Some(totals)
    ensures r == TotalP1(t, input[..i + 1])
  {
    var c := CodeComplexity(t, input[i]);
    SumSomeStep(input, i, Complexity1Of(t), totals, c);
    if c.None? {
      return None;
    }
    r := Some(totals + c.value);
  }

  /** `calculate_p1`: the numeric table's steps for each code, times the
      code's number, summed; `None` is a panic. */
  method CalculateP1(input: seq<string>) returns (r: Option<nat>)
    ensures r == (match TableOf(NumericPad) case None => None case Some(t) => TotalP1(t, input))
  {
    var transitions := PrepareTransitions(NumericPad);
    if transitions.None? {
      return None;
    }
    r := SumComplexities(transitions.value, input);
  }

  /** A code's step count is the sum of its pairs' step counts, and it depends
      only on how often each pair occurs. */
  lemma StepsByPairCount(t: Table, a: string, b: string)
    requires multiset(Pairs('A', a)) == multiset(Pairs('A', b))
    requires StepSum(t, Pairs('A', a)).Some?
    ensures StepSum(t, Pairs('A', b)) == StepSum(t, Pairs('A', a))
  {
    var pa, pb := Pairs('A', a), Pairs('A', b);
    forall i | 0 <= i < |pb|
      ensures pb[i] in t
    {
      assert pb[i] in multiset(pa);
    }
    WeightOfPermutation(t, pa, pb, StepsOf);
  }

  /** The table strings of `pairs`, concatenated; `None` is the `unwrap` panic
      on a pair missing from the table. */
  function Concat(dir: Table, pairs: seq<(char, char)>): (r: Option<string>)
    ensures r.Some? <==> forall i :: 0 <= i < |pairs| ==> pairs[i] in dir
    decreases |pairs|
  {
    if pairs == [] then Some([])
    else
      var p := pairs[|pairs| - 1];
      match Concat(dir, pairs[..|pairs| - 1])
      case None => None
      case Some(s) => if p in dir then Some(s + dir[p].1) else None
  }

  /** The expansion of a concatenation is the concatenation of the expansions. */
  lemma {:induction false} ConcatAppend(dir: Table, a: seq<(char, char)>, b: seq<(char, char)>)
    requires Concat(dir, a).Some? && Concat(dir, b).Some?
    ensures Concat(dir, a + b) == Some(Concat(dir, a).value + Concat(dir, b).value)
    decreases |b|
  {
    if b == [] {
      assert a + b == a;
      assert Concat(dir, a).value + [] == Concat(dir, a).value;
    } else {
      var b' := b[..|b| - 1];
      ConcatAppend(dir, a, b');
      assert (a + b)[..|a + b| - 1] == a + b';
      assert (a + b)[|a + b| - 1] == b[|b| - 1];
      var x, y, z := Concat(dir, a).value, Concat(dir, b').value, dir[b[|b| - 1]].1;
      assert x + y + z == x + (y + z);
    }
  }

  /** An expansion is as long as the sum of its pairs' table-string lengths. */
  lemma {:induction false} ConcatLength(dir: Table, pairs: seq<(char, char)>)
    requires Concat(dir, pairs).Some?
    ensures |Concat(dir, pairs).value| == Weight(dir, pairs, LengthOf)
    decreases |pairs|
  {
    if pairs != [] {
      ConcatLength(dir, pairs[..|pairs| - 1]);
    }
  }

  /** The table string of the first pair starts the expansion. */
  lemma ConcatStartsWithFirst(dir: Table, pairs: seq<(char, char)>)
    requires |pairs| > 0 && Concat(dir, pairs).Some?
    ensures dir[pairs[0]].1 <= Concat(dir, pairs).value
  {
    ConcatAppend(dir, [pairs[0]], pairs[1..]);
    assert [pairs[0]] + pairs[1..] == pairs;
    assert [pairs[0]][..0] == [];
  }

  /** One directional level of `calculate_cmd_len_v2`: the table strings of
      the pairs of `'A'` followed by `level`. `None` is a panic: an empty
      level, a missing pair, or an empty string for the first pair. */
  function ExpandLevel(dir: Table, level: string): (r: Option<string>)
    ensures r.Some? ==> |r.value| > 0
  {
    if level == [] then None
    else
      match Concat(dir, Pairs('A', level))
      case None => None
      case Some(out) =>
        if dir[('A', level[0])].1 == [] then None
        else
          ConcatStartsWithFirst(dir, Pairs('A', level));
          Some(out)
  }

  /** The commands the outermost robot needs for one numeric pair: its table
      string, expanded through two directional levels. */
  function PairCommands(t: Table, dir: Table, pair: (char, char)): Option<string> {
    if pair !in t then None
    else
      match ExpandLevel(dir, t[pair].1)
      case None => None
      case Some(level2) => ExpandLevel(dir, level2)
  }

  /** The commands for all pairs of a code, concatenated. */
  function AllCommands(t: Table, dir: Table, pairs: seq<(char, char)>): Option<string>
    decreases |pairs|
  {
    if pairs == [] then Some([])
    else
      match AllCommands(t, dir, pairs[..|pairs| - 1])
      case None => None
      case Some(s) =>
        match PairCommands(t, dir, pairs[|pairs| - 1])
        case None => None
        case Some(c) => Some(s + c)
  }

  /** What `calculate_cmd_len_v2` returns. */
  function CmdLenV2(t: Table, dir: Table, digits: string): Option<nat> {
    match AllCommands(t, dir, Pairs('A', digits))
    case None => None
    case Some(all) => Some(|all|)
  }

  /** The inner loop of `calculate_cmd_len_v2`: walks `first` and then the
      adjacent pairs of `level`, appending each pair's table string and
      remembering where the next level starts. */
  method ExpandOnce(dir: Table, level: string, first: Option<(char, char)>) returns (r: Option<(string, Option<(char, char)>)>)
    requires |level| > 0 && first == Some(('A', level[0]))
    ensures r.None? <==> ExpandLevel(dir, level).None?
    ensures r.Some? ==> Some(r.value.0) == ExpandLevel(dir, level) && r.value.1 == Some(('A', r.value.0[0]))
  {
    ghost var pairs := Pairs('A', level);
    var nextLevel := "";
    var nextFirst: Option<(char, char)> := None;
    var p := 0;
    while p < |level|
      invariant 0 <= p <= |level|
      invariant Concat(dir, pairs[..p]) == Some(nextLevel)
      invariant p == 0 <==> nextFirst.None?
      invariant p > 0 ==> |nextLevel| > 0 && nextFirst == Some(('A', nextLevel[0])) && dir[('A', level[0])].1 != []
    {
      var pair := if p == 0 then first.value else (level[p - 1], level[p]);
      assert pairs[..p + 1][..p] == pairs[..p] && pairs[p] == pair;
      if pair !in dir {
        ConcatPrefix(dir, pairs, p + 1);
        return None;
      }
      var cmd := dir[pair].1;
      if nextFirst.None? {
        if cmd == [] {
          return None;
        }
        nextFirst := Some((pair.0, cmd[0]));
      }
      nextLevel := nextLevel + cmd;
      p := p + 1;
    }
    assert pairs[..p] == pairs;
    r := Some((nextLevel, nextFirst));
  }

  /** A panic on a prefix of the pairs is a panic on all of them. */
  lemma ConcatPrefix(dir: Table, pairs: seq<(char, char)>, i: nat)
    requires i <= |pairs| && Concat(dir, pairs[..i]).None?
    ensures Concat(dir, pairs).None?
  {
    var k :| 0 <= k < i && pairs[..i][k] !in dir;
    assert pairs[k] !in dir;
  }

  /** The two directional levels of one numeric pair. */
  method ExpandPair(t: Table, dir: Table, pair: (char, char)) returns (r: Option<string>)
    ensures r == PairCommands(t, dir, pair)
  {
    if pair !in t {
      return None;
    }
    var level := t[pair].1;
    if level == [] {
      return None;
    }
    var first := Some(('A', level[0]));
    var l := 2;
    while l <= 3
      invariant 2 <= l <= 4 && |level| > 0 && first == Some(('A', level[0]))
      invariant l == 3 ==> Some(level) == ExpandLevel(dir, t[pair].1)
      invariant l == 4 ==> Some(level) == PairCommands(t, dir, pair)
      invariant l == 2 ==> level == t[pair].1
    {
      var next := ExpandOnce(dir, level, first);
      if next.None? {
        return None;
      }
      level, first := next.value.0, next.value.1;
      l := l + 1;
    }
    r := Some(level);
  }

  /** `calculate_cmd_len_v2`: for each pair of `'A'` followed by the code, the
      numeric table's string expanded through two directional levels; the
      length of all of them together. */
  method CalculateCmdLenV2(t: Table, dir: Table, digits: string) returns (r: Option<nat>)
    ensures r == CmdLenV2(t, dir, digits)
  {
    ghost var pairs := Pairs('A', digits);
    var allCommands := "";
    var p := 0;
    while p < |digits|
      invariant 0 <= p <= |digits|
      invariant AllCommands(t, dir, pairs[..p]) == Some(allCommands)
    {
      var next := AppendPairCommands(t, dir, digits, p, allCommands);
      if next.None? {
        AllCommandsPrefix(t, dir, pairs, p + 1);
        return None;
      }
      allCommands := next.value;
      p := p + 1;
    }
    assert pairs[..p] == pairs;
    r := Some(|allCommands|);
  }

  /** One iteration of `calculate_cmd_len_v2`'s loop: the pair ending at
      `digits[p]`, expanded and appended. */
  method AppendPairCommands(t: Table, dir: Table, digits: string, p: nat, allCommands: string) returns (r: Option<string>)
    requires p < |digits| && AllCommands(t, dir, Pairs('A', digits)[..p]) == Some(allCommands)
    ensures r == AllCommands(t, dir, Pairs('A', digits)[..p + 1])
  {
    var nf := if p == 0 then 'A' else digits[p - 1];
    var nt := digits[p];
    assert Pairs('A', digits)[p] == (nf, nt);
    var level := ExpandPair(t, dir, (nf, nt));
    AllCommandsSnoc(t, dir, Pairs('A', digits), p);
    if level.None? {
      return None;
    }
    r := Some(allCommands + level.value);
  }

  /** The commands of one more pair extend the commands so far. */
  lemma AllCommandsSnoc(t: Table, dir: Table, pairs: seq<(char, char)>, i: nat)
    requires i < |pairs|
    ensures AllCommands(t, dir, pairs[..i + 1]) ==
      match (AllCommands(t, dir, pairs[..i]), PairCommands(t, dir, pairs[i]))
      case (Some(s), Some(c)) => Some(s + c)
      case _ => None
  {
    assert pairs[..i + 1][..i] == pairs[..i];
  }

  lemma {:induction false} AllCommandsPrefix(t: Table, dir: Table, pairs: seq<(char, char)>, i: nat)
    requires i <= |pairs| && AllCommands(t, dir, pairs[..i]).None?
    ensures AllCommands(t, dir, pairs).None?
    decreases |pairs|
  {
    if i < |pairs| {
      var p := pairs[..|pairs| - 1];
      assert p[..i] == pairs[..i];
      AllCommandsPrefix(t, dir, p, i);
    } else {
      assert pairs[..i] == pairs;
    }
  }

  /** Each directional level is exactly as long as the sum of the table-string
      lengths over the pairs of `'A'` followed by the level below it. */
  lemma ExpandLevelLength(dir: Table, level: string)
    requires ExpandLevel(dir, level).Some?
    ensures |ExpandLevel(dir, level).value| == Weight(dir, Pairs('A', level), LengthOf)
  {
    ConcatLength(dir, Pairs('A', level));
  }

  /** Two levels with the same pair counts expand to equally long levels: the
      pair-count (histogram) view of an expansion. */
  lemma ExpandByPairCount(dir: Table, a: string, b: string)
    requires ExpandLevel(dir, a).Some? && ExpandLevel(dir, b).Some?
    requires multiset(Pairs('A', a)) == multiset(Pairs('A', b))
    ensures |ExpandLevel(dir, a).value| == |ExpandLevel(dir, b).value|
  {
    ExpandLevelLength(dir, a);
    ExpandLevelLength(dir, b);
    WeightOfPermutation(dir, Pairs('A', a), Pairs('A', b), LengthOf);
  }

  /** Expanding `a + b` is expanding `a`, then expanding `b` from the last
      button of `a`: the levels of a code can be expanded piece by piece. */
  lemma ExpandAppend(dir: Table, a: string, b: string)
    requires |a| > 0 && Concat(dir, Pairs('A', a)).Some? && Concat(dir, Pairs(a[|a| - 1], b)).Some?
    ensures Concat(dir, Pairs('A', a + b)) == Some(Concat(dir, Pairs('A', a)).value + Concat(dir, Pairs(a[|a| - 1], b)).value)
  {
    PairsAppend('A', a, b);
    ConcatAppend(dir, Pairs('A', a), Pairs(a[|a| - 1], b));
  }

  /** Part 2's contribution of one code. */
  function Complexity2(t: Table, dir: Table, digits: string): Option<nat> {
    match CodeNumber(digits)
    case None => None
    case Some(code) =>
      match CmdLenV2(t, dir, digits)
      case None => None
      case Some(len) => Some(Times(len, code))
  }

  function Complexity2Of(t: Table, dir: Table): string -> Option<nat> {
    digits => Complexity2(t, dir, digits)
  }

  /** Part 2's answer: the complexities of all codes, summed. */
  function TotalP2(t: Table, dir: Table, codes: seq<string>): Option<nat> {
    SumSome(codes, Complexity2Of(t, dir))
  }

  /** One iteration of `calculate_p2`'s loop. */
  method CodeComplexity2(t: Table, dir: Table, digits: string) returns (r: Option<nat>)
    ensures r == Complexity2(t, dir, digits)
  {
    if |digits| < 3 {
      return None;
    }
    var code := Parse.ParseUnsigned(digits[..3], Parse.USIZE_MAX);
    if code.None? {
      return None;
    }
    var nSteps := CalculateCmdLenV2(t, dir, digits);
    if nSteps.None? {
      return None;
    }
    r := Some(Times(nSteps.value, code.value));
  }

  /** The loop of `calculate_p2` over the codes. */
  method SumComplexities2(t: Table, dir: Table, input: seq<string>) returns (r: Option<nat>)
    ensures r == TotalP2(t, dir, input)
  {
    var totals := 0;
    var i := 0;
    while i < |input|
      invariant 0 <= i <= |input|
      invariant TotalP2(t, dir, input[..i]) == Some(totals)
    {
      var next := AddComplexity2(t, dir, input, i, totals);
      if next.None? {
        SumSomePrefix(input, i + 1, Complexity2Of(t, dir));
        return None;
      }
      totals := next.value;
      i := i + 1;
    }
    assert input[..i] == input;
    r := Some(totals);
  }

  /** One iteration of `calculate_p2`'s loop: the complexity of `input[i]` added. */
  method AddComplexity2(t: Table, dir: Table, input: seq<string>, i: nat, totals: nat) returns (r: Option<nat>)
    requires i < |input| && TotalP2(t, dir, input[..i]) == Some(totals)
    ensures r == TotalP2(t, dir, input[..i + 1])
  {
    var c := CodeComplexity2(t, dir, input[i]);
    SumSomeStep(input, i, Complexity2Of(t, dir), totals, c);
    if c.None? {
      return None;
    }
    r := Some(totals + c.value);
  }

  /** `calculate_p2`: both tables, then each code's expanded length times its
      number, summed; `None` is a panic. */
  method CalculateP2(input: seq<string>) returns (r: Option<nat>)
    ensures r == (match (TableOf(NumericPad), TableOf(DirectionalPad))
                  case (Some(t), Some(dir)) => TotalP2(t, dir, input)
                  case _ => None)
  {
    var transitions := PrepareTransitions(NumericPad);
    var dirTransitions := PrepareTransitions(DirectionalPad);
    if transitions.None? || dirTransitions.None? {
      return None;
    }
    r := SumComplexities2(transitions.value, dirTransitions.value, input);
  }

  /** The only list for a zero displacement is a single `Activate`. */
  lemma CombosOfZero()
    ensures Combos([(0, 0)]) == [[Activate]]
  {
    PathsOfZero();
    assert [(0, 0)][1..] == [];
    assert Combos([]) == [[]];
    var empty: seq<Command> := [];
    assert [Activate] + empty == [Activate];
    assert PrependAll([Activate], [empty]) == [[Activate]];
  }

  /** A lone `Activate` on a key of the pad presses that key. */
  lemma ActivateAlone(pos: Point.Point, bounds: (nat, nat), forbidden: Point.Point)
    ensures Interpret([Activate], pos, bounds, forbidden) == Ok([pos])
  {
    var c: seq<Command> := [Activate];
    var none: seq<Point.Point> := [];
    assert c[1..] == [];
    assert Run([], pos, bounds, forbidden) == Ok((pos, none));
    assert [pos] + none == [pos];
    assert Run(c, pos, bounds, forbidden) == Pressed([pos], Ok((pos, none)));
  }

  lemma ExpansionOfActivate()
    ensures Expansion([Activate]) == [(0, 0)]
  {
    assert CommandsToDirectionalKeys([Activate]) == [DIRECTIONAL_A];
  }

  lemma Events3OfActivate(s: string)
    ensures Events3([[Activate]], s) == [(1, s)]
  {
    ActivateAlone(DIRECTIONAL_A, DIRECTIONAL_BOUNDS, DIRECTIONAL_F);
    FlatMapSingle([Activate], Piece3(s));
  }

  lemma Events2OfActivate(s: string)
    ensures Events2([[Activate]], s) == [(1, s)]
  {
    ActivateAlone(DIRECTIONAL_A, DIRECTIONAL_BOUNDS, DIRECTIONAL_F);
    ExpansionOfActivate();
    CombosOfZero();
    Events3OfActivate(s);
    FlatMapSingle([Activate], Piece2(s));
  }

  /** The directional levels above a lone `Activate` add one press each. */
  lemma BlockOfActivate()
    ensures Block([Activate]) == [(1, "A")]
  {
    ExpansionOfActivate();
    CombosOfZero();
    assert CommandsToString([Activate]) == "A";
    Events2OfActivate("A");
  }

  /** Pressing the key the arm already rests on, seen through every level:
      one `Activate` at each, so one press in total. */
  lemma EvalOfZero(validator: seq<Command> -> bool)
    requires validator([Activate])
    ensures EvalResult([(0, 0)], validator) == Some((1, "A"))
  {
    CombosOfZero();
    BlockOfActivate();
    FlatMapSingle([Activate], Piece1(validator));
    assert Events1([[Activate]], validator) == [(1, "A")];
    var ev: seq<(nat, string)> := [(1, "A")];
    assert ev[..0] == [];
  }

  /** Every diagonal entry of both tables is one press, typed as `A`. */
  lemma DiagonalEntries(pad: Pad, b: char)
    requires b in Buttons(pad)
    ensures Entry(pad, b, b) == Some((1, "A"))
  {
    match pad
    case NumericPad =>
      var sp := DigitToNumericKey(b).value;
      var none: seq<Point.Point> := [];
      assert [b][1..] == [] && [sp] + none == [sp];
      assert DigitsToNumericKeys([b]) == Some([sp]);
      assert DistancesBetweenPoints(sp, [sp]) == [(0, 0)];
      ActivateAlone(sp, NUMERIC_BOUNDS, NUMERIC_F);
      EvalOfZero(NumericValidator(sp));
    case DirectionalPad =>
      var sc := DirectionalButtonToCommand(b).value;
      var sk := CommandToDirectionalKey(sc);
      var none: seq<Command> := [];
      assert [b][1..] == [] && [sc] + none == [sc];
      assert CommandsFromString([b]) == Ok([sc]);
      assert CommandsToDirectionalKeys([sc]) == [sk];
      assert DistancesBetweenPoints(sk, [sk]) == [(0, 0)];
      ActivateAlone(sk, DIRECTIONAL_BOUNDS, DIRECTIONAL_F);
      EvalOfZero(DirectionalValidator(sk));
  }
}
