# Advent of Code 2024 solutions, modelled in Dafny

This project models Velko's Rust solutions to Advent of Code 2024 (days 1, 2 and 4 to 25) and the shared
`aoc_tools` library, and proves properties of the model. It covers the keypad-robot solver of day 21 in full:
`commands.rs`, `c2d.rs` and the command generators, key maps and transition tables of `main.rs`.
Each Rust source file becomes one Dafny module of the same shape:

- `aoc_tools`: `NumExt` (`clamped_add_signed`), `Direction` (turns), `Point` (advance, middle, conversions),
  `Neighbours` (the eight-offset neighbour iterator, as a class), `Grid` (the `Grid<T>` class over a
  row-major array, its enumerator, `map` and `try_from_lines`), `NameReg` (the `NameRegistry` class) and
  `IterMore` (`StatefulMap`, `aggregate` and the `try_collect` wrappers).
- Day 21: `Commands`, `C2d` (command interpretation and key decoding), `Keypad` (key maps, distance
  lists, the recursive command generators and `eval_key_distances`), `Transitions` (the transition tables,
  part 1 and `calculate_cmd_len_v2`), `Reachable` (why the `unwrap`s of the preparing functions never
  panic) and `KeypadFixtures`/`C2dFixture` (the source's unit-test cases).
- One module per day, `Day01` to `Day25` (`Day15Wide` holds day 15's part 2), with the parsers that split
  lines themselves modelled as well.
- Shared helpers: `Wrappers` (`Option`/`Result`), `Parse` (Rust's `str::parse` for integers, splitting
  and whitespace), `Digits`, `Bitwise`, `Seqs`, `Sets`, `Sorting`, `Heap` (the least-first `BinaryHeap`
  pop that the `BfsState` orderings produce), `Board` and `Comparisons`.

How the code's form is kept:

- Rust functions that only compute a value are Dafny functions with lemmas about them.
- Loops that update variables, in-place writes to grids and vectors, and structs whose methods change
  their fields are methods, arrays and classes. Each is proved against a specification function, and the
  promised properties are proved about that function.
- `usize`, `u32` and `u64` are `nat`. Bounds are stated where a panic shapes the result; the integer overflows that are not modelled are listed under "Left out".
  `i32` arithmetic uses Rust's truncating `%`.
- A panic is the `None`/`Err` case of the result, or a precondition where the panic cannot be reached from
  the function's callers.
- Hash sets and maps are Dafny `set` and `map`. A `BinaryHeap` is a sequence from which a least-score state
  is popped.

Points where the code's behaviour is easy to misread:

- Day 21. `calculate_cmd_len_v2` builds the literal command strings for exactly two directional levels,
  and `calculate_p1` sums numeric-table lengths. The model does the same, and proves the per-level
  additivity over adjacent pairs that a pair-count method would rely on.
- Day 24. `NodeOp::eval` uses `?` inside `&&` and `||`, which short-circuit. So an AND whose first input
  is `false` is `false`, and an OR whose first input is `true` is `true`, even while the second input is
  unknown. `Day24.Eval` models this.
- Day 5. `sort_by` with `cmp_by_rules` is modelled as a stable insertion sort. See "Left out".

## Model

| member | source | states |
|---|---|---|
| NumExt.CheckedAddSigned | aoc_tools/src/numext.rs:10 | the signed add fails when the sum is negative, and otherwise is the sum |
| NumExt.ClampedAddSigned | aoc_tools/src/numext.rs:9-16 | `Some(self + rhs)` exactly when `0 <= self + rhs < limit`, so any result is below `limit` |
| NumExt.NoneBelowZero | aoc_tools/src/numext.rs:10 | a sum below zero always gives `None`, whatever the limit |
| NumExt.ZeroOffset | aoc_tools/src/numext.rs:9-16 | adding zero gives `Some(self)` exactly when `self < limit` |
| Direction.Turn | aoc_tools/src/direction.rs:16-33 | a quarter turn never returns its input direction |
| Direction.Index | aoc_tools/src/direction.rs:1-7 | the declaration index of a direction is below 4 |
| Direction.TurnIsCyclicStep | aoc_tools/src/direction.rs:18-31 | a clockwise turn moves one step forward around Up, Right, Down, Left and an anticlockwise turn one step back |
| Direction.TurnThenReverse | aoc_tools/src/direction.rs:16-33 | a turn followed by the opposite turn is the identity |
| Direction.FourTurns | aoc_tools/src/direction.rs:18-24 | four turns in the same sense are the identity |
| Point.AdvanceWithDistance | aoc_tools/src/point.rs:16-35 | Up/Down change only `y` and Left/Right only `x`, by exactly `distance`; the result is `Some` exactly when the moved coordinate stays in `0..bound` |
| Point.Advance | aoc_tools/src/point.rs:12-14 | a successful single step changes exactly one coordinate by one |
| Point.AdvanceStaysInBounds | aoc_tools/src/point.rs:20-33 | a successful step from a point inside the bounds stays inside them |
| Point.AdvanceThenBack | aoc_tools/src/point.rs:16-35 | stepping back in the opposite direction by the same distance returns the start |
| Point.Middle | aoc_tools/src/point.rs:37-42 | each coordinate of the result is the floor average of the two points' coordinates |
| Point.MiddleSymmetric | aoc_tools/src/point.rs:37-42 | the middle does not depend on the order of the two points |
| Point.MiddleOfSelf | aoc_tools/src/point.rs:37-42 | the middle of a point with itself is that point |
| Point.FromTuple | aoc_tools/src/point.rs:45-52 | the point has the tuple's first component as `x` and the second as `y` |
| Point.ToTuple | aoc_tools/src/point.rs:54-58 | the tuple holds `x` then `y` |
| Point.TupleRoundTrips | aoc_tools/src/point.rs:45-58 | the two conversions are mutual inverses |
| Neighbours.NeighbourAtIsOffset | aoc_tools/src/neighbours.rs:39-53 | the k-th item is the cell at the k-th offset scaled by `distance` when both coordinates fall in `0..width` and `0..height`, and `None` otherwise (the first offset component moves the row) |
| Neighbours.NeighboursFrom | aoc_tools/src/neighbours.rs:38-56 | the items left from offset `k` on are one per remaining offset, in `OFFSETS` order |
| Neighbours.Neighbours2D.New | aoc_tools/src/neighbours.rs:17-19 | `new` is `new_with_distance` with distance one and no offset used yet |
| Neighbours.Neighbours2D.NewWithDistance | aoc_tools/src/neighbours.rs:21-30 | the iterator keeps the cell, size and distance and starts at the first offset |
| Neighbours.Neighbours2D.Next | aoc_tools/src/neighbours.rs:38-56 | each call yields the next offset's cell (`Some(None)` outside the grid) and moves on by one; after eight calls it yields `None` and stays put |
| Neighbours.Neighbours2D.Collect | aoc_tools/src/neighbours.rs:35-56 | draining the iterator yields exactly the remaining items in order and uses every offset |
| Neighbours.ValidOnly | aoc_tools/src/neighbours.rs:111-119 | `filter_map(\|n\| n)` keeps exactly the cells present as `Some`, and never more items than it is given |
| Neighbours.NeighboursInBounds | aoc_tools/src/neighbours.rs:43-44 | a reported neighbour lies inside `width` × `height` |
| Neighbours.InteriorHasEight | aoc_tools/src/neighbours.rs:93-109 | a cell strictly inside the grid has all eight neighbours at distance one |
| Neighbours.CornerFixture | aoc_tools/src/neighbours.rs:63-76 | the corner (0, 0) of a 5 × 5 grid yields four `None`, (1, 0), `None`, (0, 1), (1, 1) |
| Neighbours.FarCornerFixture | aoc_tools/src/neighbours.rs:78-91 | the corner (4, 4) of a 5 × 5 grid yields (3, 3), (4, 3), `None`, (3, 4) and four `None` |
| Neighbours.CentreFixture | aoc_tools/src/neighbours.rs:93-109 | the centre (2, 2) of a 5 × 5 grid yields its eight neighbours in row-major order |
| Neighbours.Neighbourhood | day12/src/main.rs:56 | a shaped neighbourhood holds, in `OFFSETS` order, the iterator's items at the offsets the shape keeps |
| Neighbours.PlusIsOrthogonal | day12/src/main.rs:94 | a cell is in the `Plus` neighbourhood at distance one exactly when it is orthogonally adjacent and inside the grid |
| Neighbours.PlusOnlyAdjacent | day18/src/main.rs:72 | every cell the `Plus` neighbourhood reports is orthogonally adjacent and inside the grid |
| Neighbours.PlusTwoApart | day20/src/main.rs:96 | every cell of the `Plus` neighbourhood at distance two is inside the grid, two cells away in a straight line |
| Neighbours.PlusCells | day20/src/main.rs:55 | the `Plus` neighbourhood has four entries; each present one is orthogonally adjacent and inside, and every orthogonally adjacent cell inside is present |
| Neighbours.PlusContainsAdjacent | day18/src/main.rs:72 | every orthogonally adjacent cell inside the grid is in the `Plus` neighbourhood |
| Grid.Grid.New | aoc_tools/src/grid.rs:23-29 | the grid has size `(width, height)`, 256 stored rows, and every stored cell equals `value` |
| Grid.Grid.Set | aoc_tools/src/grid.rs:165-170 | after writing `(col, row)` that cell holds the value and every other stored cell is unchanged |
| Grid.Grid.Map | aoc_tools/src/grid.rs:51-72 | the new grid has the same size and row count, and each stored cell is `f` of the old one |
| Grid.Grid.FromParts | aoc_tools/src/grid.rs:124-128 | a grid built from rows of width 256 keeps those rows and the given size |
| Grid.Area | aoc_tools/src/grid.rs:143-149 | the area holds exactly the positions with `col < width` and `row < height` |
| Grid.Snapshot | aoc_tools/src/grid.rs:157-163 | the value view of the stored cells has one entry per stored position |
| Grid.CellAt | aoc_tools/src/grid.rs:157-163 | indexing `(col, row)` reads row `row`, column `col` of the stored cells |
| Grid.SetAt | aoc_tools/src/grid.rs:165-170 | writing through `IndexMut` changes the one cell written and no other |
| Grid.ItemsAt | aoc_tools/src/grid.rs:139-155 | one item per position, each paired with the value stored there |
| Grid.EnumeratedItems | aoc_tools/src/grid.rs:139-155 | what a fresh enumerator yields is the value at each row-major position of the used area, paired with that position |
| Grid.TryFromLines | aoc_tools/src/grid.rs:98-129 | a grid exists exactly when no line is longer than 256 characters and every line is as long as the first; its height is the line count, its width the first line's length, and each row holds its line padded with `'\0'` |
| Grid.EnumerationIsRowMajor | aoc_tools/src/grid.rs:139-155 | for width at least 1 the enumerator visits `width * height` positions and the k-th is `(k % width, k / width)` |
| Grid.ZeroWidthEnumeration | aoc_tools/src/grid.rs:143-149 | with width 0 the enumerator still visits `(0, r)` once for each row `r` |
| Grid.GridEnumerator.constructor | aoc_tools/src/grid.rs:31-37 | `enumerate` starts at column 0 of row 0 |
| Grid.GridEnumerator.Next | aoc_tools/src/grid.rs:142-154 | yields the cell under the cursor with its position and moves to the next column, or the start of the next row at the width; `None` once the rows are done |
| Grid.PositionsInRange | aoc_tools/src/grid.rs:142-154 | every position the enumerator visits has a row below the height and a column below the width (or column 0) |
| Grid.EnumerateAll | aoc_tools/src/grid.rs:139-155 | collecting a fresh enumerator yields every used cell in row-major order with its position and stored value |
| Grid.PositionsFromAfter | aoc_tools/src/grid.rs:142-154 | the enumerator never moves backwards in row-major order |
| Grid.PositionsDistinct | aoc_tools/src/grid.rs:142-154 | the enumerator never visits a position twice |
| NameReg.NameRegistry.constructor | aoc_tools/src/namereg.rs:10-14 | a new registry holds no names |
| NameReg.NameRegistry.Len | aoc_tools/src/namereg.rs:21-23 | the length is the number of distinct names registered |
| NameReg.NameRegistry.AddOrLookup | aoc_tools/src/namereg.rs:16-19 | a known name returns its id and changes nothing; a new name gets id equal to the previous length and the registry grows by that one entry |
| NameReg.NameRegistry.IntoVec | aoc_tools/src/namereg.rs:26-34 | the vector has one entry per name and entry `id` is the name registered under `id` |
| NameReg.IdsAreDense | aoc_tools/src/namereg.rs:16-23 | the ids in use are exactly `0..len` |
| NameReg.IdsAreDistinct | aoc_tools/src/namereg.rs:16-19 | two names with the same id are the same name |
| NameReg.AddTwice | aoc_tools/src/namereg.rs:16-19 | adding a name twice returns the same id both times and grows the registry by at most one |
| IterMore.TryCollectVec | aoc_tools/src/itermore.rs:4-9 | `Ok` exactly when every item is `Ok`, then holding all values in order; otherwise the first `Err` |
| IterMore.TryCollectMap | aoc_tools/src/itermore.rs:11-17 | `Ok` exactly when every item is `Ok`, then keyed by exactly the items' keys, each mapped to the value of the last pair with that key; otherwise the first `Err` |
| IterMore.InsertValue | aoc_tools/src/itermore.rs:11-17 | after inserting pairs in order, a key some pair mentions holds the value of its last pair |
| IterMore.InsertUntouched | aoc_tools/src/itermore.rs:11-17 | inserting pairs leaves the value of a key no pair mentions unchanged |
| IterMore.InsertKeys | aoc_tools/src/itermore.rs:11-17 | inserting pairs into a map adds exactly their keys |
| IterMore.StatefulMapAll | aoc_tools/src/itermore.rs:47-63 | one output per input |
| IterMore.StatefulMapThreadsState | aoc_tools/src/itermore.rs:59-62 | output `i` is `f` applied to the state left by the first `i` inputs and to input `i` |
| IterMore.StatefulMap.constructor | aoc_tools/src/itermore.rs:19-25 | the adaptor starts at the first item with the initial state |
| IterMore.StatefulMap.Next | aoc_tools/src/itermore.rs:59-62 | each call yields the next mapped output and moves on by one; `None` once the input is used up |
| IterMore.CollectStatefulMap | aoc_tools/src/itermore.rs:41-63 | collecting the adaptor yields the state-threading map of all inputs |
| IterMore.RunningSumIsPrefixSums | aoc_tools/src/itermore.rs:71-83 | a running-sum map outputs the prefix sums of its input |
| IterMore.RunningSumFixture | aoc_tools/src/itermore.rs:71-83 | a running sum over 1..5 gives `[1, 3, 6, 10, 15]` |
| IterMore.Aggregate | aoc_tools/src/itermore.rs:27-38 | `None` exactly on empty input |
| IterMore.AggregateIsFoldFromFirst | aoc_tools/src/itermore.rs:27-38 | on non-empty input the result is the left fold of the aggregator starting from the first item converted |
| Commands.CommandsToString | day21/src/commands.rs:15-23 | one character per command, character `i` being command `i`'s button, always one of `^>v<A` |
| Commands.CommandCharInjective | day21/src/commands.rs:16-22 | two commands have the same button character exactly when they are equal |
| Commands.CommandsToStringInjective | day21/src/commands.rs:15-23 | two command lists with the same string are equal |
| Commands.CommandsToStringAppend | day21/src/commands.rs:15-23 | the string of a concatenation is the concatenation of the strings |
| Commands.PadConstants | day21/src/commands.rs:9-13 | `NUMERIC_A` and `NUMERIC_F` lie inside 3 × 4 and differ; `DIRECTIONAL_A` and `DIRECTIONAL_F` lie inside 3 × 2 and differ |
| Commands.CountActivatesAppend | day21/src/c2d.rs:59-61 | the number of `Activate` commands is additive over concatenation |
| C2d.DirectionalButtonToCommand | day21/src/c2d.rs:27-36 | a command exactly for the five buttons `^>v<A` (any other character panics), and its button is the character given |
| C2d.ButtonInvertsCommandChar | day21/src/c2d.rs:27-36 | decoding a command's button character gives the command back |
| C2d.CommandsFromString | day21/src/c2d.rs:21-25 | succeeds exactly when every character is a button, and then re-encodes to the input; otherwise reports an invalid button from the input |
| C2d.StringRoundTrip | day21/src/c2d.rs:21-25 | decoding the string of a command list gives the list back |
| C2d.Step | day21/src/c2d.rs:52-61 | a move fails exactly when it leaves the pad or lands on the forbidden cell, and otherwise advances one step; `Activate` stays put |
| C2d.Run | day21/src/c2d.rs:46-66 | every failure is an off-pad move or a forbidden cell |
| C2d.Interpret | day21/src/c2d.rs:46-66 | every failure is an off-pad move or a forbidden cell |
| C2d.InterpretCommands | day21/src/c2d.rs:46-66 | the loop returns what the command replay specifies: the positions at each `Activate`, or the first failure |
| C2d.RunSucceeds | day21/src/c2d.rs:53-61 | on success there is one output point per `Activate`, and from a start on the pad every output point and the final position are on the pad and never the forbidden cell |
| C2d.InterpretOutput | day21/src/c2d.rs:46-66 | on success the output length is the number of `Activate` commands, each output point on the pad off the gap |
| C2d.RunAppend | day21/src/c2d.rs:51-63 | replaying a concatenation replays the first part, then the second from where the first stopped |
| C2d.FailingMoveFails | day21/src/c2d.rs:54-57 | one move off the pad or onto the gap makes the whole call fail, whatever follows |
| C2d.ActivateRecords | day21/src/c2d.rs:59-61 | `Activate` records the current position without moving |
| C2d.KeyToCommand | day21/src/c2d.rs:68-79 | a command exactly for the five keys of the 3 × 2 pad off its gap |
| C2d.DirectionalKeysToCommands | day21/src/c2d.rs:68-79 | succeeds exactly when every key is on the directional pad off its gap, with one command per key |
| C2d.KeyToDigit | day21/src/c2d.rs:81-98 | a character exactly for the eleven keys of the 3 × 4 pad off its gap, one of `0123456789A` |
| C2d.NumericKeysToDigits | day21/src/c2d.rs:81-98 | succeeds exactly when every key is on the numeric pad off its gap, with one character per key |
| C2d.DirectionalKeysAppend | day21/src/c2d.rs:68-79 | decoding directional keys is additive over concatenation |
| C2d.NumericKeysAppend | day21/src/c2d.rs:81-98 | decoding numeric keys is additive over concatenation |
| C2d.DecodingNeverHitsUnknownKey | day21/src/c2d.rs:5-19 | `commands_to_digits` never reaches the key panics: each replayed key lies on its pad |
| C2dFixture.DecodesToCode42 | day21/src/c2d.rs:109 | the third fixture's presses decode to `"42"` |
| Keypad.DigitToNumericKey | day21/src/main.rs:215-230 | a key exactly for `0`-`9` and `A` (any other character panics), always inside 3 × 4 and off the gap (0, 3) |
| Keypad.DigitKeyRoundTrip | day21/src/main.rs:215-230 | `digit_to_numeric_key` and the numeric-key decoder of c2d.rs are inverse to each other on every key |
| Keypad.DigitToNumericKeyInjective | day21/src/main.rs:215-230 | two characters with the same key are the same character |
| Keypad.CommandToDirectionalKey | day21/src/main.rs:201-209 | the key lies inside 3 × 2 off the gap (0, 0), and the directional-key decoder maps it back to the command |
| Keypad.DirectionalKeyRoundTrip | day21/src/main.rs:201-209 | a key decodes to a command exactly when the command maps to that key |
| Keypad.CommandToDirectionalKeyInjective | day21/src/main.rs:201-209 | two commands with the same key are the same command |
| Keypad.CommandsToDirectionalKeys | day21/src/main.rs:197-199 | one key per command, key `i` being command `i`'s key |
| Keypad.DirectionalKeysRoundTrip | day21/src/main.rs:197-199 | decoding the keys of a command list gives the list back |
| Keypad.DigitsToNumericKeys | day21/src/main.rs:211-213 | keys exactly when every character is a digit or `A`, one key per character |
| Keypad.NumericKeysRoundTrip | day21/src/main.rs:211-213 | decoding the keys of a code gives the code back |
| Keypad.DistancesBetweenPoints | day21/src/main.rs:232-239 | one delta per point; entry 0 is the first point minus `start`, entry `i` point `i` minus point `i - 1` |
| Keypad.DistancesTelescope | day21/src/main.rs:232-239 | the deltas add up to the last point minus `start` |
| Keypad.PrependAll | day21/src/main.rs:253-254 | each list gets the prefix, one result per list |
| Keypad.PrependAllAppend | day21/src/main.rs:252-256 | prefixing distributes over concatenation of the outputs |
| Keypad.PrependAllTwice | day21/src/main.rs:253-255 | prefixing twice is prefixing once with the joined prefix |
| Keypad.Paths | day21/src/main.rs:263-302 | every displacement has at least one sequence |
| Keypad.Branch | day21/src/main.rs:274-296 | a branch contributes sequences exactly when its direction moves toward the target |
| Keypad.GenerateCommands | day21/src/main.rs:266-297 | the recursion appends to `output` every shortest sequence for `distance`, each prefixed by `current`, in generation order |
| Keypad.GenerateBranch | day21/src/main.rs:274-296 | one `if` branch appends the sequences that start with its move |
| Keypad.PathsAreShortest | day21/src/main.rs:263-302 | every generated sequence is a shortest press: each move goes toward the target and one `Activate` ends on it |
| Keypad.BranchIsShortest | day21/src/main.rs:274-296 | every sequence of a branch is a shortest press |
| Keypad.ShortestAreInPaths | day21/src/main.rs:263-302 | every shortest press is generated, so the generator is complete |
| Keypad.ShortestPressShape | day21/src/main.rs:267-296 | a shortest press has exactly `\|dx\| + \|dy\|` moves, each in the sign direction of `dx` or `dy`, then one trailing `Activate` |
| Keypad.PathsOfZero | day21/src/main.rs:267-272 | a zero displacement yields exactly `[[Activate]]` |
| Keypad.PathsCount | day21/src/main.rs:274-296 | there are C(\|dx\| + \|dy\|, \|dx\|) sequences |
| Keypad.Repeat | day21/src/main.rs:274-296 | `n` copies of the command |
| Keypad.PathsFirstIsHorizontalFirst | day21/src/main.rs:274-296 | the first sequence makes all horizontal moves, then all vertical ones, then presses |
| Keypad.AllCommandsFromDistance | day21/src/main.rs:263-302 | returns exactly the generated sequences, in generation order |
| Keypad.RecursiveAddAllCommands | day21/src/main.rs:246-257 | appends `current` followed by every combination for the remaining displacements, the earliest displacement varying slowest |
| Keypad.AllCommandsFromDistances | day21/src/main.rs:241-260 | returns the ordered cartesian concatenation of the per-displacement sequences |
| Keypad.ExtendLength | day21/src/main.rs:252-256 | each option multiplies the number of results by the number of combinations of the rest |
| Keypad.CombosLength | day21/src/main.rs:241-260 | the number of combinations is the product of the per-displacement counts |
| Keypad.PressActivatesOnce | day21/src/main.rs:267-272 | a shortest press holds exactly one `Activate` |
| Keypad.ExtendActivates | day21/src/main.rs:252-256 | extending by one displacement adds exactly one `Activate` |
| Keypad.CombosActivates | day21/src/main.rs:241-260 | every combination holds exactly one `Activate` per displacement |
| Keypad.EvalThirdLevel | day21/src/main.rs:182-189 | the innermost loop leaves the state that its comparisons in order determine: every valid third-level candidate shorter than `shortest` replaces it |
| Keypad.EvalSecondLevel | day21/src/main.rs:177-190 | the middle loop leaves the state that its comparisons in order determine, skipping candidates that fail on the directional pad |
| Keypad.EvalKeyDistances | day21/src/main.rs:165-194 | the nested loops return the outcome of all comparisons in loop order, starting from `usize::MAX`; `None` is the panic when no candidate validates |
| Keypad.EvalResultIsFirstShortest | day21/src/main.rs:165-194 | the result is the minimum third-level length, paired with the first comparison that reached it |
| Keypad.Events3Members | day21/src/main.rs:182-189 | the innermost comparisons are exactly the lengths of the valid third-level candidates |
| Keypad.Events2Members | day21/src/main.rs:177-190 | the comparisons of one first-level candidate are exactly the lengths of valid third-level expansions of its valid second-level expansions |
| Keypad.EvalKeyDistancesIsShortest | day21/src/main.rs:165-194 | the returned length is at most every comparison of every validated candidate |
| Keypad.EvalKeyDistancesPicksFirst | day21/src/main.rs:184-188 | the returned string is that of the first validated first-level candidate, in generation order, that reaches the minimum |
| Keypad.BlockRecordsCandidate | day21/src/main.rs:187 | each comparison of a candidate records that candidate's string |
| Transitions.EvalEntry | day21/src/main.rs:64-71 | one table entry is `eval_key_distances` over the displacement between the two buttons' keys, validated on the pad from the start key |
| Transitions.TableOfSpec | day21/src/main.rs:57-99 | a table exists exactly when every entry is defined; it then covers exactly the ordered pairs of the pad's buttons, each with its entry |
| Transitions.TableFromMissing | day21/src/main.rs:62-73 | one undefined entry makes the whole preparation fail |
| Transitions.PrepareRow | day21/src/main.rs:63-72 | the inner loop adds the row of `start` to the table, or fails on an undefined entry |
| Transitions.InsertEntry | day21/src/main.rs:64-71 | one insertion keeps the table agreeing with the entries |
| Transitions.PrepareTransitions | day21/src/main.rs:57-99 | both preparing functions return the table their nested loops build over the ordered pairs of the pad's buttons, `None` standing for a panic |
| Transitions.Pairs | day21/src/main.rs:45 | the adjacent pairs of `'A'` followed by the code: one per character, the first starting at `'A'` |
| Transitions.PairsAppend | day21/src/main.rs:45 | the pairs of a concatenation are the pairs of each part, the second starting at the first part's last character |
| Transitions.WeightAppend | day21/src/main.rs:45-48 | a sum over pairs is additive over concatenation |
| Transitions.WeightOfPermutation | day21/src/main.rs:45-48 | a sum over pairs depends only on the multiset of pairs |
| Transitions.StepSum | day21/src/main.rs:45-48 | defined exactly when every pair is in the table, and then the sum of the pairs' step counts |
| Transitions.CodeSteps | day21/src/main.rs:43-48 | the loop returns the step sum over the pairs of `'A'` followed by the code |
| Transitions.AddPairSteps | day21/src/main.rs:46-47 | one iteration extends the step sum by one pair |
| Transitions.CodeComplexity | day21/src/main.rs:42-50 | one code contributes its numeric prefix times its step sum |
| Transitions.SumComplexities | day21/src/main.rs:39-53 | the loop returns the sum of the codes' complexities |
| Transitions.AddComplexity | day21/src/main.rs:41-51 | one iteration adds one code's complexity |
| Transitions.CalculateP1 | day21/src/main.rs:30-54 | part 1 is the sum over codes of `code[..3]` times the sum of numeric-table step counts over the adjacent pairs |
| Transitions.StepsByPairCount | day21/src/main.rs:45-48 | two codes with the same multiset of pairs have the same step sum |
| Transitions.Concat | day21/src/main.rs:132-138 | the concatenated strings exist exactly when every pair is in the table |
| Transitions.ConcatAppend | day21/src/main.rs:132-138 | concatenating table strings is additive over the pairs |
| Transitions.ConcatLength | day21/src/main.rs:132-138 | a level's length is the sum of the table-string lengths over its pairs |
| Transitions.ConcatStartsWithFirst | day21/src/main.rs:134-136 | an expansion begins with the first pair's table string |
| Transitions.ExpandLevel | day21/src/main.rs:130-140 | an expanded level is never empty |
| Transitions.ExpandOnce | day21/src/main.rs:130-140 | one level of the loop returns the expansion of the level and the next `first` pair `('A', first char)` |
| Transitions.ExpandPair | day21/src/main.rs:125-142 | one numeric pair's commands: its table string expanded through two directional levels |
| Transitions.CalculateCmdLenV2 | day21/src/main.rs:121-150 | returns the length of the concatenated commands over all pairs of the code |
| Transitions.AppendPairCommands | day21/src/main.rs:124-145 | one iteration appends one pair's commands |
| Transitions.AllCommandsPrefix | day21/src/main.rs:124-145 | a failure on a prefix of the pairs makes the whole call fail |
| Transitions.ExpandLevelLength | day21/src/main.rs:129-142 | a level's expansion length is the sum of table-string lengths over the adjacent pairs of `'A'` followed by the level |
| Transitions.ExpandByPairCount | day21/src/main.rs:129-142 | two levels with the same multiset of pairs expand to the same length, the basis of a pair-count model |
| Transitions.ExpandAppend | day21/src/main.rs:132-138 | expanding a concatenation expands each part, the second starting from the first part's last button |
| Transitions.CodeComplexity2 | day21/src/main.rs:109-113 | one code contributes its numeric prefix times its command length |
| Transitions.SumComplexities2 | day21/src/main.rs:106-116 | the loop returns the sum of the codes' part 2 complexities |
| Transitions.AddComplexity2 | day21/src/main.rs:108-114 | one iteration adds one code's complexity |
| Transitions.CalculateP2 | day21/src/main.rs:101-119 | part 2 sums `code[..3]` times the length of each code's two-level expansion, given both tables |
| Reachable.SafeMovesShortest | day21/src/main.rs:263-302 | the gap-avoiding press between two keys is a shortest press, so `generate_commands` emits it |
| Reachable.SafeMovesRun | day21/src/c2d.rs:46-66 | on a pad whose gap is a corner, the gap-avoiding press walks from one key to any other without failing and presses the target once |
| Reachable.DirectionalReach | day21/src/main.rs:174-178 | from any directional key, some combination for typing a command list replays on the directional pad without failing, at most four presses per command |
| Reachable.NextLevelExists | day21/src/main.rs:174-183 | every command list has a valid expansion one directional level up, at most four times as long |
| Reachable.BlockHasComparison | day21/src/main.rs:174-189 | every first-level candidate reaches the innermost comparison with a length at most sixteen times its own |
| Reachable.EvalResultDefined | day21/src/main.rs:165-194 | `eval_key_distances` does not panic once one candidate of at most six presses passes the validator |
| Reachable.NumericEntriesDefined | day21/src/main.rs:57-76 | every one of the 121 ordered pairs of numeric buttons has an entry |
| Reachable.DirectionalEntriesDefined | day21/src/main.rs:78-99 | every one of the 25 ordered pairs of directional buttons has an entry |
| Reachable.TablesExist | day21/src/main.rs:57-99 | both preparing functions return a table, holding exactly the ordered pairs of the pad's buttons |
| Reachable.CalculateP1Defined | day21/src/main.rs:30-54 | part 1 has an answer for codes that start with three digits and use only numeric buttons |
| Reachable.EvalResultString | day21/src/main.rs:165-194 | what `eval_key_distances` returns for at least one key is a non-empty string of directional buttons |
| Reachable.TableStrings | day21/src/main.rs:57-99 | every string in either table is a non-empty string of directional buttons |
| Reachable.ExpandLevelDefined | day21/src/main.rs:127-144 | expanding a string of directional buttons through the directional table never panics and gives such a string again |
| Reachable.CalculateP2Defined | day21/src/main.rs:101-119 | part 2 has an answer for codes that start with three digits and use only numeric buttons |
| Transitions.CombosOfZero | day21/src/main.rs:241-260 | a single zero displacement has the single combination `[Activate]` |
| Transitions.ActivateAlone | day21/src/c2d.rs:59-61 | a lone `Activate` outputs the start position |
| Transitions.EvalOfZero | day21/src/main.rs:165-194 | for equal buttons, `eval_key_distances` returns length 1 and the string `"A"` |
| Transitions.DiagonalEntries | day21/src/main.rs:62-72 | every table entry from a button to itself is `(1, "A")` |
| KeypadFixtures.PathsOf11 | day21/src/main.rs:340-346 | displacement (1, 1) yields right-down-press, then down-right-press |
| KeypadFixtures.PathsOf02 | day21/src/main.rs:348-353 | displacement (0, 2) yields down-down-press only |
| KeypadFixtures.PathsOf22 | day21/src/main.rs:355-367 | displacement (2, 2) yields its six sequences in the order the test lists |
| KeypadFixtures.CombosOf10Then11Then01 | day21/src/main.rs:369-377 | the three displacements (1, 0), (1, 1), (0, 1) yield the two combined sequences the test lists |
| Parse.DigitChar | day09/src/main.rs:42-44 | the character of a digit is a digit character with that value |
| Parse.DecimalString | day11/src/main.rs:53-65 | the decimal form of `n` is a non-empty digit string without a leading zero whose value is `n` |
| Parse.ParseUnsigned | day05/src/main.rs:49-78 | `str::parse` for an unsigned type: a value exactly when the text is an optional `+` then at least one digit with value at most the type's maximum |
| Parse.ParseSigned | day01/src/main.rs:31 | `str::parse::<i32>`: any value lies within the type's range |
| Parse.ParseSignedSpec | day01/src/main.rs:31 | `str::parse::<i32>` succeeds exactly on an optional `+` or `-`, then at least one digit, with a value in range; the value is the digits' value, negated after a `-` |
| Parse.ParseSignedViaUnsigned | day01/src/main.rs:31 | unsigned text parses to the same value either way, and a leading `-` negates the unsigned value, bounded by the type's minimum |
| Parse.ParseUnsignedRoundTrip | day05/src/main.rs:49-78 | parsing the decimal form of an in-range number gives it back |
| Parse.ParseSignedRoundTrip | day01/src/main.rs:31 | parsing the signed decimal form of an in-range number gives it back |
| Parse.ParseUnsignedPlus | day05/src/main.rs:49-78 | a leading `+` is accepted and changes nothing |
| Parse.Words | day02/src/main.rs:22-33 | `split_ascii_whitespace` yields only non-empty words free of whitespace |
| Parse.WordsOfUnwords | day02/src/main.rs:22-33 | splitting words joined by single spaces gives the words back |
| Parse.ParseSignedAll | day02/src/main.rs:22-33 | all words parse exactly when each does, one value per word |
| Parse.SplitOnce | day23/src/main.rs:26-34 | a split exactly when the separator occurs; the parts around its first occurrence rebuild the input |
| Parse.SplitOn | day05/src/main.rs:49-78 | `split` always yields at least one piece |
| Parse.JoinOfSplit | day05/src/main.rs:49-78 | joining the pieces with the separator rebuilds the input |
| Parse.SplitOfJoin | day05/src/main.rs:49-78 | splitting pieces joined by a separator they do not contain gives them back |
| Parse.ParseUnsignedAll | day05/src/main.rs:68-78 | all pieces parse exactly when each does, one value per piece |
| Sorting.Insert | day01/src/main.rs:45-55 | inserting into a sorted list keeps it sorted and adds exactly the element |
| Sorting.Sort | day01/src/main.rs:45-55 | `sorted` returns a sorted permutation of its input |
| Sorting.SortedUnique | day01/src/main.rs:45-55 | two sorted permutations of each other are equal |
| Sorting.SortOfPermutation | day01/src/main.rs:45-55 | sorting depends only on the multiset of the input |
| Comparisons.BestAppend | day21/src/main.rs:171-192 | running the comparisons of two parts in turn is running them in sequence |
| Comparisons.BestIsFirstMinimum | day21/src/main.rs:184-188 | the loop keeps the least length seen, recorded by the first comparison strictly below the start |
| Comparisons.OutcomeIsFirstShortest | day21/src/main.rs:168-193 | `None` exactly when no length is below `usize::MAX`; otherwise the minimum with the first comparison that reaches it |
| Board.CharAt | day04/src/main.rs:71-73 | a character exactly for positions inside a rectangular grid, the one stored there |
| Board.Positions | aoc_tools/src/grid.rs:139-155 | `width * height` positions, the k-th being `(k % width, k / width)` |
| Board.PositionsAreEnumeration | aoc_tools/src/grid.rs:139-155 | for width at least 1 these are exactly the enumerator's positions |
| Board.PositionsCoverGrid | aoc_tools/src/grid.rs:139-155 | every cell of the grid is visited |
| Day01.ParseLocations | day01/src/main.rs:24-41 | a pair exactly when the line has two whitespace-separated words that both parse as `i32`, and then those values |
| Day01.ParseLocationsRoundTrip | day01/src/main.rs:24-41 | two `i32` values printed with a space between parse back to themselves |
| Day01.Firsts | day01/src/main.rs:45-49 | the first column, one entry per row |
| Day01.Seconds | day01/src/main.rs:51-55 | the second column, one entry per row |
| Day01.Swap | day01/src/main.rs:43-61 | the rows with their columns exchanged |
| Day01.DistanceSymmetric | day01/src/main.rs:57-60 | the summed distance of two lists does not depend on their order |
| Day01.MatchLists1Swap | day01/src/main.rs:43-61 | exchanging the two columns leaves `match_lists_1` unchanged |
| Day01.MatchLists1Reorder | day01/src/main.rs:43-61 | reordering either column leaves `match_lists_1` unchanged |
| Day01.DistanceZero | day01/src/main.rs:57-60 | the summed distance is 0 exactly when the lists are equal |
| Day01.MatchLists1ZeroIff | day01/src/main.rs:43-61 | `match_lists_1` is 0 exactly when the columns are equal as multisets |
| Day01.SimilaritySnocRight | day01/src/main.rs:76-81 | one more id in the second column adds that id times its count in the first |
| Day01.SimilaritySymmetric | day01/src/main.rs:63-82 | the similarity score is the same with the columns exchanged |
| Day01.EmptyScoresZero | day01/src/main.rs:43-82 | both scores are 0 on empty input |
| Day04.GetCharXY | day04/src/main.rs:71-73 | a character only for a present position, the one stored there, and always one inside the grid |
| Day04.Transpose | day04/src/main.rs:75-83 | `v[0].len()` rows of `v.len()` entries with `r[i][j] == v[j][i]`; empty input is the assertion panic, excluded by the precondition |
| Day04.Lookups | day04/src/main.rs:28-30 | one lookup per neighbour of the shape, the character there or `None` |
| Day04.FindWords1 | day04/src/main.rs:16-42 | the loop returns the sum over cells of what each 'X' adds |
| Day04.Rays | day04/src/main.rs:24-35 | one ray per offset: the characters at distances 1, 2, 3 in that direction |
| Day04.WordsAreRays | day04/src/main.rs:24-35 | the transposed lookups are the eight rays |
| Day04.XmasAtCountsDirections | day04/src/main.rs:21-38 | an 'X' adds the number of directions whose cells at distances 1, 2, 3 read M, A, S (at most 8); other cells add nothing |
| Day04.FindX2 | day04/src/main.rs:44-68 | the loop returns the number of 'A' cells whose diagonal neighbours match a listed pattern |
| Day04.CrossPatterns | day04/src/main.rs:45-50 | the four listed patterns are exactly the crosses where each diagonal reads M and S in some order |
| Day04.CrossIsDiagonals | day04/src/main.rs:57-59 | the cross is the four diagonal neighbours, up-left, up-right, down-left, down-right |
| Day02.ParseReport | day02/src/main.rs:22-33 | a report exactly when every whitespace-separated word parses as `i32`, one level per word |
| Day02.CalcDiffs | day02/src/main.rs:53-58 | `n - 1` entries for `n >= 1` levels (none otherwise), entry `i` the absolute difference and sign of `r[i+1] - r[i]` |
| Day02.OneSign | day02/src/main.rs:45-48 | there is exactly one distinct sign exactly when every difference has the first one's sign |
| Day02.SafeIsSteady | day02/src/main.rs:35-51 | a safe report steps steadily up or steadily down by 1 to 3 |
| Day02.SteadyIsSafe | day02/src/main.rs:35-51 | a report of two or more levels stepping steadily up or down by 1 to 3 is safe |
| Day02.ShortReportsUnsafe | day02/src/main.rs:45-48 | a report of fewer than two levels is unsafe, since it has no sign at all |
| Day02.SafeIffSteady | day02/src/main.rs:35-51 | safe exactly when there are two or more levels and every step goes the same way by 1 to 3 |
| Day02.SafeIsMonotone | day02/src/main.rs:41-48 | every safe report is strictly monotone, in the direction of its first step |
| Day02.CountSafeReports | day02/src/main.rs:35-51 | never more than the number of reports |
| Day02.CountSafeReportsSpec | day02/src/main.rs:35-51 | all reports count exactly when all are safe, none exactly when none is, and counts add up over concatenation |
| Day05.ParseRule | day05/src/main.rs:49-65 | a rule parses exactly when the line has two `|`-separated fields that are both `u32`, and the rule holds those two numbers |
| Day05.ParseRuleRoundTrip | day05/src/main.rs:49-65 | a printed rule `a|b` parses back to `(a, b)` |
| Day05.ParseUpdate | day05/src/main.rs:67-78 | an update parses exactly when every comma-separated field is a `u32`, and it holds those numbers in order |
| Day05.CmpByRules | day05/src/main.rs:104-117 | `Less` exactly when `(a, b)` is a rule; `Equal` exactly when it is not and `a == b`; `Greater` otherwise |
| Day05.SafeIffRuled | day05/src/main.rs:80-84 | an update is safe exactly when every adjacent pair is a rule or two equal pages |
| Day05.ExtractMiddlePage | day05/src/main.rs:86-93 | the page at the index with as many pages before it as after it |
| Day05.InsertBack | day05/src/main.rs:96-102 | inserting a page into the placed ones keeps every page and adds that one |
| Day05.InsertLast | day05/src/main.rs:96-102 | the in-place sort step: the prefix becomes the inserted sequence and the rest of the array is unchanged |
| Day05.FixUnsafeUpdate | day05/src/main.rs:96-102 | the array sorted in place by the rules equals the specification order `Fixed` |
| Day05.FixedIsPermutation | day05/src/main.rs:96-102 | fixing an update reorders its pages and drops or adds none |
| Day05.InsertBackSafe | day05/src/main.rs:96-117 | inserting a page into a safe sequence keeps it safe when the rules order every pair of the pages |
| Day05.FixedIsSafe | day05/src/main.rs:96-117 | a fixed update is safe whenever the rules order every pair of its pages |
| Day05.FixedOfSafe | day05/src/main.rs:96-117 | fixing an update that is already safe leaves it as it is |
| Day05.CalculateP2 | day05/src/main.rs:33-42 | the sum of the middle pages of the unsafe updates after fixing |
| Day05.PartsAreComplementary | day05/src/main.rs:21-42 | each update counts in exactly one part, with the middle page of its fixed form; and a fixed update counts in part 1 |
| Day06.NewGuard | day06/src/main.rs:115-120 | a new guard stands at the given position facing up |
| Day06.TurnGuard | day06/src/main.rs:122-127 | turning keeps the position and moves the direction one step clockwise |
| Day06.StepGuard | day06/src/main.rs:129-134 | a step exists exactly when the position can advance in the facing direction; it keeps the direction, moves the guard and stays on the map |
| Day06.AsIndexInArray | day06/src/main.rs:136-138 | the index of a guard on the map lies inside the visited array, and distinct guard states have distinct indices |
| Day06.MoveCases | day06/src/main.rs:47-60 | one pass of the walk: turn when the cell ahead is `#` or the obstacle, step otherwise |
| Day06.WalkStaysInBounds | day06/src/main.rs:47-60 | a guard that starts on the map stays on it for as long as the walk goes on |
| Day06.WalkAvoidsBlocked | day06/src/main.rs:47-60 | a guard that starts on a free cell never stands on a blocked one |
| Day06.RepeatNeverLeaves | day06/src/main.rs:89-104 | a walk that reaches the same state twice never leaves the map |
| Day06.VisitedStable | day06/src/main.rs:40-63 | once the guard has left, the set of visited cells no longer depends on how many passes are counted |
| Day06.VisitedSnoc | day06/src/main.rs:56-58 | each pass adds at most the guard's new cell to the visited set |
| Day06.FindGuard | day06/src/main.rs:21-30 | the first `^` in enumeration order, or none when the map has no `^` |
| Day06.WalkUnobstructed | day06/src/main.rs:40-63 | the cells the guard stands on before it leaves the map |
| Day06.TrailFacts | day06/src/main.rs:40-63 | the trail holds the start and only cells on the map that are not `#` |
| Day06.CalculateP1 | day06/src/main.rs:32-38 | the number of distinct cells on the trail |
| Day06.Mark | day06/src/main.rs:87 | marking the start state keeps the visited array in step with the states walked so far |
| Day06.LookupAndMark | day06/src/main.rs:100-103 | a state already marked means the guard never leaves; otherwise it is marked and the array stays in step |
| Day06.FoundRepeat | day06/src/main.rs:100-102 | reaching a marked state again proves a loop |
| Day06.WalkDetectLoop | day06/src/main.rs:80-107 | as written: 1 exactly when the guard with the extra obstacle never leaves, given the guard is not boxed in at the start |
| Day06.WalkDetectLoopFixed | day06/src/main.rs:80-107 | with every state marked: 1 exactly when the guard never leaves, on every map, and it always returns |
| Day06.CountTrapping | day06/src/main.rs:72-75 | the number of candidate cells where an obstacle traps the guard |
| Day06.CalculateP2 | day06/src/main.rs:65-78 | the number of trail cells, start excluded, where an obstacle traps the guard |
| Day06.BoxedStartSpins | day06/src/main.rs:89-104 | on a map where the obstacle boxes the guard in, the guard only turns on the spot: the loop as written never ends although the guard never leaves |
| Day07.ConcatNumbersValue | day07/src/main.rs:99-101 | gluing the decimal digits of `b` after those of `a` gives `a * 10^digits(b) + b` |
| Day07.Ops1 | day07/src/main.rs:56-60 | a part-1 pattern selects one operator per gap, each `+` or `*` |
| Day07.Ops2 | day07/src/main.rs:86-91 | a part-2 pattern selects one operator per gap |
| Day07.Reduce1IsEvalOps | day07/src/main.rs:51-62 | the fold over the bits of a pattern evaluates the operands left to right with the operators that pattern selects |
| Day07.Reduce2IsEvalOps | day07/src/main.rs:81-93 | the fold over the 2-bit fields of a pattern evaluates the operands left to right with the operators that pattern selects |
| Day07.ShlOneI32 | day07/src/main.rs:48 | `1 << k` on `i32` is `2^k` below 31 and negative (`i32::MIN`) at 31 |
| Day07.Pattern1 | day07/src/main.rs:48 | every choice of `+` and `*` is selected by some pattern below `2^k` for `k` operators |
| Day07.Pattern2 | day07/src/main.rs:78 | every choice of `+`, `*` and concatenation is selected by some pattern below `4^k` for `k` operators |
| Day07.PowFourIsPowTwo | day07/src/main.rs:78 | the part 2 range `1 << 2k` is `4^k`, two bits per operator |
| Day07.CalcExpValue1Spec | day07/src/main.rs:46-66 | with fewer than 32 operands, accepted exactly when some choice of `+` and `*` between the operands yields the expected value |
| Day07.ThirtyTwoOperandsRejected | day07/src/main.rs:48 | with 32 operands the `i32` range `0..(1 << 31)` is empty, so part 1 accepts nothing |
| Day07.CalcExpValue2Spec | day07/src/main.rs:76-97 | with at most 16 operands, accepted exactly when some choice of `+`, `*` and concatenation yields the expected value |
| Day07.SingleOperand | day07/src/main.rs:46-97 | a single operand is accepted exactly when it is the expected value |
| Day07.Accepted1IsAccepted2 | day07/src/main.rs:46-97 | every equation part 1 accepts, part 2 accepts too |
| Day07.CalculateSpec | day07/src/main.rs:38-44 | the part 1 total adds up over concatenated inputs |
| Day07.CalculateP2Spec | day07/src/main.rs:38-74 | the part 2 total adds up over concatenated inputs and never falls below the part 1 total |
| Day07.ScoreGrows | day07/src/main.rs:38-74 | an equation with at most 16 operands scores at least as much in part 2 as in part 1 |
| Day07.SampleLine | day07/src/main.rs:115-123 | `190: 10 19` is accepted in part 1 |
| Day08.CalcAnt | day08/src/main.rs:75-80 | a point exactly when both shifted coordinates stay on the map, and then it is the shifted point |
| Day08.Antennas | day08/src/main.rs:23-29 | the non-`.` cells, never more than the cells enumerated |
| Day08.AntennasMember | day08/src/main.rs:23-29 | every antenna is an enumerated cell whose character is not `.` |
| Day08.AntennasDistinct | day08/src/main.rs:23-29 | antennas at distinct cells stay distinct |
| Day08.AddLocationSorted | day08/src/main.rs:33-45 | adding an antenna keeps the groups sorted by frequency and none of them empty |
| Day08.AddLocationLookup | day08/src/main.rs:33-45 | adding an antenna appends its position to its own frequency's group and changes no other group |
| Day08.GroupLocationsLookup | day08/src/main.rs:33-45 | the group of a frequency lists that frequency's antennas in enumeration order |
| Day08.KeyPointsFound | day08/src/main.rs:33-45 | a frequency's list is non-empty exactly when some antenna has that frequency |
| Day08.GroupLocationsSpec | day08/src/main.rs:33-45 | the groups are sorted by frequency, non-empty, each lists its own antennas, and there is a group exactly for each frequency present |
| Day08.ParseInput | day08/src/main.rs:20-48 | the groups of the grid's antennas and the grid's size |
| Day08.ParsedInBounds | day08/src/main.rs:20-48 | every grouped antenna lies on the map |
| Day08.ParsedDistinct | day08/src/main.rs:20-48 | no group holds the same position twice |
| Day08.ScaledIsProduct | day08/src/main.rs:95-101 | the multiplied offset is the offset times the multiplier |
| Day08.AddPair1 | day08/src/main.rs:57-69 | adds the point beyond each end of the pair, where it is on the map |
| Day08.RayStops | day08/src/main.rs:95-104 | once a multiple of the offset leaves the map, every larger one does too |
| Day08.NearIfOnMap | day08/src/main.rs:95-104 | a non-zero offset stays on the map for fewer than `width + height` multiples |
| Day08.RayMember | day08/src/main.rs:95-104 | the ray holds exactly the cells on the map that are the start plus a multiple of the offset |
| Day08.PairSet1InPairSet2 | day08/src/main.rs:50-109 | every part-1 antinode of a pair is a part-2 antinode |
| Day08.PairEndsInPairSet2 | day08/src/main.rs:95-104 | both antennas of a pair are part-2 antinodes |
| Day08.AntinodesMember | day08/src/main.rs:55-70 | a point is an antinode exactly when some pair of one group produces it |
| Day08.Part1InPart2 | day08/src/main.rs:50-109 | the part-1 antinodes are a subset of the part-2 antinodes |
| Day08.AntennasAreAntinodes2 | day08/src/main.rs:88-106 | every antenna that shares its frequency with another is a part-2 antinode |
| Day08.AddRay | day08/src/main.rs:94-104 | adds every multiple of the offset from the start, as long as it stays on the map |
| Day08.AddPair2 | day08/src/main.rs:90-104 | adds both rays of the pair |
| Day08.AddGroup | day08/src/main.rs:88-105 | adds the antinodes of every pair of the group |
| Day08.CollectAntinodes | day08/src/main.rs:53-70 | the set of antinodes of all groups |
| Day08.CalculateP1 | day08/src/main.rs:50-73 | the number of distinct part-1 antinodes |
| Day08.CalculateP2 | day08/src/main.rs:83-109 | the number of distinct part-2 antinodes |
| Day09.ParseCharSpec | day09/src/main.rs:42-44 | a character parses exactly when it is a decimal digit, to that digit's value |
| Day09.ParseInput | day09/src/main.rs:19-40 | a line of digits becomes one run per digit, alternating file (numbered from 0) and free space, with the digit as its length; anything else fails |
| Day09.Repeat | day09/src/main.rs:76 | `count` copies of the value |
| Day09.ExpandDiskMap | day09/src/main.rs:72-80 | the runs laid out block by block |
| Day09.ExpandLength | day09/src/main.rs:72-80 | the expanded disk has as many blocks as the run lengths add up to |
| Day09.ExpandMember | day09/src/main.rs:72-80 | a block value occurs on the disk exactly when some non-empty run holds it |
| Day09.Files | day09/src/main.rs:85 | dropping the free blocks never lengthens the disk |
| Day09.CompactedChecksum | day09/src/main.rs:82-89 | on a compacted disk the checksum is the sum of block position times file id |
| Day09.AllUsed | day09/src/main.rs:85 | a disk without free blocks keeps all its blocks |
| Day09.ChecksumIgnoresFree | day09/src/main.rs:82-89 | a free block changes neither the files nor the checksum |
| Day09.MoveKeepsBlocks | day09/src/main.rs:61-63 | moving a used block into a free one keeps the blocks |
| Day09.ScanFree | day09/src/main.rs:53-55 | the scan stops only at a free block at or after its start |
| Day09.ScanFile | day09/src/main.rs:57-59 | the scan stops only at a used block at or before its start |
| Day09.RunAsWrittenKeepsBlocks | day09/src/main.rs:49-67 | whenever the loop as written finishes, it has kept the length and the blocks |
| Day09.OneFileOneGapPanics | day09/src/main.rs:49-67 | the loop as written panics on the disk `11` |
| Day09.NoGapPanics | day09/src/main.rs:49-67 | the loop as written panics on a disk without free space |
| Day09.MoveStep | day09/src/main.rs:61-66 | one move keeps everything between the two indices as a compaction in progress |
| Day09.ScannedDone | day09/src/main.rs:52 | when the indices meet the disk is compacted |
| Day09.Compact | day09/src/main.rs:49-67 | the disk is compacted in place: same blocks, no used block after a free one, only free blocks filled and used blocks emptied |
| Day09.CalculateP1 | day09/src/main.rs:46-70 | the checksum of a compaction of the expanded disk |
| Day09.CalculateP2 | day09/src/main.rs:91-93 | the unfinished part 2 always answers 0 |
| Day10.Next | day10/src/main.rs:68 | the next height is the digit one above |
| Day10.MoveX | day10/src/main.rs:70-75 | a horizontal neighbour exactly when it stays on the map, and then it is that cell |
| Day10.MoveY | day10/src/main.rs:76-81 | a vertical neighbour exactly when it stays on the map, and then it is that cell |
| Day10.MovesInGrid | day10/src/main.rs:70-81 | every neighbour found lies on the map |
| Day10.WalkPath | day10/src/main.rs:55-84 | the score is the number of distinct hiking trails from the cell at this height (the size of `Trails`), and exactly the peaks they reach are added to the set |
| Day10.PeaksStep | day10/src/main.rs:66-83 | below the top, the peaks reached are those reached through the four neighbour lookups |
| Day10.TrailsAreHikingTrails | day10/src/main.rs:55-84 | the trails collected from a cell are exactly the hiking trails starting there: adjacent cells rising by one from this height to a `9` |
| Day10.ExtendCard | day10/src/main.rs:66-83 | putting the current cell in front of each trail from a neighbour keeps their number |
| Day10.ExtendDisjoint | day10/src/main.rs:66-83 | trails continuing through different neighbours are different trails |
| Day10.PathsCountTrails | day10/src/main.rs:55-84 | the score `walk_path` returns is the number of distinct hiking trails from the cell |
| Day10.TrailsStep | day10/src/main.rs:66-83 | below the top, the trails from a cell are the cell followed by a trail from one of the four neighbour lookups |
| Day10.TrailsSound | day10/src/main.rs:66-83 | below the top, every collected trail is a hiking trail from the cell |
| Day10.TrailsComplete | day10/src/main.rs:66-83 | below the top, every hiking trail from the cell is collected |
| Day10.CountAt | day10/src/main.rs:70-81 | one neighbour lookup's score is the number of trails continuing through it |
| Day10.AdjacentIsMove | day10/src/main.rs:70-81 | the four moves reach exactly the orthogonally adjacent cells |
| Day10.PeaksAreTrailEnds | day10/src/main.rs:55-84 | a peak is reached exactly when some trail of steps rising by one leads from the cell to it |
| Day10.TrailEndIsPeak | day10/src/main.rs:55-84 | the end of every trail is among the peaks reached |
| Day10.PeakHasTrail | day10/src/main.rs:55-84 | every peak reached ends some trail |
| Day10.PeaksAtMostPaths | day10/src/main.rs:55-84 | the number of distinct peaks never exceeds the number of trails |
| Day10.StartsAboveMember | day10/src/main.rs:28-34 | the starts in the rows above `y` are exactly the `0` cells there |
| Day10.StartsAboveStep | day10/src/main.rs:28-34 | the starts above row `y` are those above row `y - 1` together with the `0` cells of row `y - 1` |
| Day10.StartsAreZeros | day10/src/main.rs:28-34 | the starts are exactly the `0` cells of the map |
| Day10.StartsInGrid | day10/src/main.rs:28-34 | every start lies on the map |
| Day10.ParseInput | day10/src/main.rs:19-37 | fails exactly on an empty map; otherwise the `0` cells and the map size |
| Day10.CalculateP1 | day10/src/main.rs:39-52 | the sum over the starts of the number of distinct peaks each reaches |
| Day10.CalculateP2 | day10/src/main.rs:88-97 | the sum over the starts of the number of distinct hiking trails from each |
| Day10.PartTwoAtLeastPartOne | day10/src/main.rs:39-97 | the part-2 total is never below the part-1 total |
| Day10.LoneZeroFixture | day10/src/main.rs:55-84 | a lone `0` reaches no peak and has no trail |
| Day10.LastStepFixture | day10/src/main.rs:55-84 | from an `8` next to a `9` there is one trail, to that `9` |
| Day11.ParseInput | day11/src/main.rs:18-28 | parses exactly when every whitespace-separated word is a `u64`, giving those numbers in order |
| Day11.ParseInputRoundTrip | day11/src/main.rs:18-28 | a printed row of stones parses back to itself |
| Day11.SplitPebble | day11/src/main.rs:53-65 | splits exactly when the stone's decimal form has an even number of digits |
| Day11.DecimalStringOfValue | day11/src/main.rs:54 | printing the value of a digit string without leading zeros gives the string back |
| Day11.SplitPebbleJoins | day11/src/main.rs:53-65 | the two halves put back together give the stone: the left half shifted by half the digits plus the right half, which is below that shift |
| Day11.SplitOfJoined | day11/src/main.rs:53-65 | two digit strings of equal length, the first without a leading zero, glued together split back into their values |
| Day11.JoinedValue | day11/src/main.rs:53-65 | a stone built from two halves of equal length splits into those halves |
| Day11.SplitFixture | day11/src/main.rs:53-65 | `1000` splits into `10` and `0`, `17` into `1` and `7` |
| Day11.OddDigitsFixture | day11/src/main.rs:53-65 | `253` does not split |
| Day11.Blink | day11/src/main.rs:37-44 | each stone becomes one or two stones |
| Day11.BlinkRowLength | day11/src/main.rs:33-48 | a blink keeps every stone and at most doubles the row |
| Day11.BlinksLength | day11/src/main.rs:33-48 | after `n` blinks the row is at least as long as before and at most `2^n` times as long |
| Day11.BlinkFixture | day11/src/main.rs:37-44 | `0` becomes `1`, `1` becomes `2024`, `10` becomes `1 0`, `99` becomes `9 9`, `999` becomes `2021976` |
| Day11.CalculateP1 | day11/src/main.rs:30-51 | the number of stones after 25 blinks |
| Day11.PartOneAtLeastInput | day11/src/main.rs:30-51 | after 25 blinks there are at least as many stones as at the start and at most `2^25` times as many |
| Day11.CalculateP2 | day11/src/main.rs:67-69 | the unfinished part 2 always answers 0 |
| Day12.PlusOf | day12/src/main.rs:94 | the four `Plus` neighbours of a plot, each either off the map or on it |
| Day12.FillNeighbours | day12/src/main.rs:93-104 | the recursive flood fill only labels unlabelled plots of the same plant with this region's id, and leaves the start and every plot it labels with all same-plant neighbours labelled |
| Day12.FillPlots | day12/src/main.rs:77-91 | after the row-by-row scan every plot is labelled, ids are dense and numbered in order of their first plot, and each region holds one plant |
| Day12.VisitCell | day12/src/main.rs:83-88 | an unlabelled plot starts a new region, which is filled before the scan moves on |
| Day12.RegionClosed | day12/src/main.rs:83-88 | once a region is filled, every labelled plot has all its same-plant neighbours in its region |
| Day12.RegionPlants | day12/src/main.rs:93-104 | every plot of a region grows the plant of the region's first plot |
| Day12.FilledJoinsAdjacent | day12/src/main.rs:77-104 | after filling, adjacent plots of the same plant are in the same region |
| Day12.CellFences | day12/src/main.rs:56-65 | the number of a plot's sides that face the edge or another region |
| Day12.TallyCell | day12/src/main.rs:49-68 | adding one plot to its region's area and fence count keeps the totals in step with the plots seen |
| Day12.TallyPlots | day12/src/main.rs:47-69 | the per-region totals over all plots; fails exactly on a garden with rows but no columns |
| Day12.SumTotals | day12/src/main.rs:71-74 | the sum of every region's price |
| Day12.FilledCopy | day12/src/main.rs:43-45 | a fresh copy of the garden, filled, every plot labelled |
| Day12.CalculateP1 | day12/src/main.rs:42-75 | the sum over the regions of area times perimeter in the filled garden |
| Day12.Beyond | day12/src/main.rs:168-170 | the cell across a side is an orthogonal neighbour on the map |
| Day12.IsBorderAt | day12/src/main.rs:168-174 | a side is a border exactly when the cell across it is off the map or of another region |
| Day12.MarkPlotSide | day12/src/main.rs:167-184 | a border where the run of this region starts adds one side to the plot; the run continues on a border and is broken otherwise |
| Day12.MarkLine | day12/src/main.rs:124-145 | one scan of a row or column along one side counts exactly the sides that start there |
| Day12.MarkRows | day12/src/main.rs:124-133 | after the row scans every plot has counted its top and bottom sides |
| Day12.MarkColumns | day12/src/main.rs:135-145 | after the column scans every plot has counted its left and right sides |
| Day12.MarkSides | day12/src/main.rs:124-145 | every plot carries the number of straight sides that start at it |
| Day12.MarkedLabelled | day12/src/main.rs:124-145 | marking sides changes no region label |
| Day12.CalculateP2 | day12/src/main.rs:119-165 | the sum over the regions of area times number of straight sides |
| Day12.BorderIsFence | day12/src/main.rs:56-174 | a border side is exactly a fenced side of the perimeter |
| Day12.SideStartsAtMostFences | day12/src/main.rs:119-184 | a plot starts no more sides than it has fences, and at most four |
| Day12.LonePlotFourSides | day12/src/main.rs:119-184 | a one-plot garden has four fences and starts four sides |
| Day12.PartTwoAtMostPartOne | day12/src/main.rs:42-165 | the part-2 price never exceeds the part-1 price |
| Day13.MovedIsProduct | day13/src/main.rs:100-101 | moving `n` presses of step `s` covers `n * s` |
| Day13.FirstB | day13/src/main.rs:99-106 | the inner loop finds the smallest B press count in range that hits the prize with these A presses, or none exists in range |
| Day13.FirstHit | day13/src/main.rs:98-107 | the nested loops find the first hit in the order tried (A outer, B inner), or none exists in range |
| Day13.Costs | day13/src/main.rs:90-110 | defined exactly when no button step is zero, where the source would divide by zero |
| Day13.FindCosts | day13/src/main.rs:90-110 | the loops compute the cost of the first hit, or 0 when none is found |
| Day13.PressesAtMost | day13/src/main.rs:95-96 | presses that stay within the prize coordinate are at most the coordinate divided by the step |
| Day13.HitsWithinBounds | day13/src/main.rs:95-107 | every way to hit the prize lies within the bounds the loops search |
| Day13.CostsFromHit | day13/src/main.rs:98-105 | a non-zero cost is `3 * a + b` for some hit `(a, b)` within the bounds |
| Day13.CostsLeastA | day13/src/main.rs:98-107 | when the prize can be hit, the cost is that of a hit found no later than any other in the search order |
| Day13.ZeroCostUnwinnable | day13/src/main.rs:109 | a cost of 0 for a winnable machine means the prize is at the origin |
| Day13.ExampleMachine | day13/src/main.rs:166-175 | the first sample machine costs 280 |
| Day13.CalculateP1 | day13/src/main.rs:81-87 | defined exactly when every machine's buttons move in both axes |
| Day13.CalculateP1Append | day13/src/main.rs:81-87 | the total over concatenated machine lists is the sum of the two totals |
| Day14.TruncRem | day14/src/main.rs:86-87 | Rust's `%` on `i32`: the remainder takes the sign of the dividend and is smaller than the divisor in magnitude |
| Day14.WrapIsRemainder | day14/src/main.rs:86-87 | adding the width and taking the remainder again gives the non-negative remainder, inside `0 .. width` |
| Day14.PositionAfter | day14/src/main.rs:81-89 | defined exactly when the area is non-empty (a zero divisor panics), and then always a cell of the area |
| Day14.PositionAfterIsRemainder | day14/src/main.rs:81-89 | each coordinate is start plus velocity times time, reduced modulo the area's size |
| Day14.PositionAfterZero | day14/src/main.rs:86-87 | at time 0 a robot that starts inside the area is where it started |
| Day14.ColumnPeriodic | day14/src/main.rs:86 | the column repeats every `width` seconds |
| Day14.RowPeriodic | day14/src/main.rs:87 | the row repeats every `height` seconds |
| Day14.Quadrant | day14/src/main.rs:62-74 | no quadrant exactly on the middle column or row; otherwise the quadrant given by the two halves |
| Day14.QuadrantsPartition | day14/src/main.rs:59-75 | every robot is counted in exactly one quadrant or in the middle |
| Day14.SafetyFactorZero | day14/src/main.rs:77 | an empty quadrant makes the product 0 |
| Day14.CalculateP1 | day14/src/main.rs:51-78 | the product of the four quadrant counts after 100 seconds; on an empty area it fails unless there are no robots |
| Day15.CommandToDirection | day15/src/main.rs:101-109 | a direction exactly for the four arrows `^ > v <` (any other character panics) |
| Day15.CommandRoundTrip | day15/src/main.rs:101-109 | each arrow maps to its direction and each direction back to its arrow |
| Day15.Ahead | day15/src/main.rs:65 | the cell `dist` steps ahead lies on the map |
| Day15.AheadIsNeighbourhood | day15/src/main.rs:65 | the cell ahead is the first valid cell of the neighbourhood at that distance |
| Day15.Ray | day15/src/main.rs:64-76 | the cells collected ahead of the robot are on the map and none is a wall |
| Day15.FirstFree | day15/src/main.rs:82 | the index of the first `.` among the collected cells, or none when there is none |
| Day15.Boxes | day15/src/main.rs:94-98 | the cells on the map holding `O` |
| Day15.MoveOneBox | day15/src/main.rs:85-88 | moving one box into a free cell keeps the warehouse well formed and the box count |
| Day15.PushP1Cases | day15/src/main.rs:59-92 | a command does nothing at a wall or without a free cell; steps onto a free cell; or pushes the row of boxes by writing a box into the first free cell and clearing the one ahead |
| Day15.PushP1Keeps | day15/src/main.rs:59-92 | a command never writes a wall, keeps the warehouse well formed and keeps the number of boxes |
| Day15.PushP1Robot | day15/src/main.rs:64-91 | the robot stays or moves exactly one cell ahead, onto a cell that was free or a box and is now free |
| Day15.PushP1Gps | day15/src/main.rs:82-98 | a push moves the GPS sum by exactly the box that moved from the cell ahead to the first free cell |
| Day15.RunP1 | day15/src/main.rs:59-92 | running the commands keeps the map covering the area |
| Day15.RunP1Keeps | day15/src/main.rs:59-92 | after all commands the walls and the number of boxes are unchanged |
| Day15.FirstAt | day15/src/main.rs:46-53 | the position of the first item with the character, present exactly when one exists |
| Day15.CollectRay | day15/src/main.rs:62-76 | collects the cells ahead of the robot up to the edge or a wall |
| Day15.FindFree | day15/src/main.rs:82 | finds the first free collected cell |
| Day15.PushBoxes | day15/src/main.rs:59-92 | one command applied to the grid in place, as the push specification says |
| Day15.FindStart | day15/src/main.rs:46-53 | the first `@` in enumeration order |
| Day15.SumGps | day15/src/main.rs:94-98 | the sum of `100 * y + x` over the cells holding the character |
| Day15.ClearedStart | day15/src/main.rs:43-55 | a copy of the grid with the robot's start cleared to `.` |
| Day15.RunCommands | day15/src/main.rs:59-92 | succeeds exactly when every command is an arrow, and leaves the grid and robot the specification gives |
| Day15.GridGps | day15/src/main.rs:94-98 | the GPS sum of the grid's cells holding the character |
| Day15.CalculateP1 | day15/src/main.rs:42-99 | the GPS sum of the boxes after all commands; none when there is no robot or a command is not an arrow |
| Day15Wide.BoxOf | day15/src/main.rs:187 | the box a `[` or `]` cell belongs to covers that cell |
| Day15Wide.BoxOfUnique | day15/src/main.rs:187 | in a consistent warehouse the box listed at a cell is exactly the one its `[`/`]` marks |
| Day15Wide.Collect | day15/src/main.rs:185-218 | the collected set only grows; when the push can go ahead it holds the box at `pos` and every collected box has each cell ahead free or in a collected box |
| Day15Wide.CollectCell | day15/src/main.rs:192-212 | the cell ahead of a box half is free or belongs to a collected box whenever the push can go ahead |
| Day15Wide.Shift | day15/src/main.rs:231-232 | a box moved one cell is still a box whose right cell follows its left |
| Day15Wide.MoveKeepsConsistent | day15/src/main.rs:220-237 | after a supported push the grid and the box list still agree cell by cell |
| Day15Wide.MoveKeepsWalls | day15/src/main.rs:220-237 | moving boxes never writes over a wall and never makes one |
| Day15Wide.MovedDisjoint | day15/src/main.rs:220-237 | no moved box lands on a box that stays |
| Day15Wide.MovedMultiset | day15/src/main.rs:220-237 | as a multiset, the boxes after the move are the unmoved ones plus each moved one shifted a cell; the count is unchanged |
| Day15Wide.StepP2 | day15/src/main.rs:149-172 | a command keeps the grid and box list in agreement |
| Day15Wide.RunP2 | day15/src/main.rs:149-172 | all commands keep the grid and box list in agreement |
| Day15Wide.StepP2Robot | day15/src/main.rs:152-171 | the robot stays or moves one cell, always onto a free cell; the walls stay; a free cell ahead means a plain move and a wall means no change |
| Day15Wide.RunP2Robot | day15/src/main.rs:147-172 | after all commands the robot stands on a free cell of the map and the walls are unchanged |
| Day15Wide.Wide | day15/src/main.rs:124-145 | the widened grid covers the whole buffer |
| Day15Wide.WideConsistent | day15/src/main.rs:124-145 | the widened grid and the box list built with it agree |
| Day15Wide.WideStart | day15/src/main.rs:140-142 | the robot's doubled start is a free cell of the widened grid |
| Day15Wide.LastAt | day15/src/main.rs:129-145 | the position of the last item with the character, which the loop without `break` keeps |
| Day15Wide.FindBox | day15/src/main.rs:187 | a listed box covering the cell, or none covers it |
| Day15Wide.FindIndex | day15/src/main.rs:229 | the index of the listed box, or it is not listed |
| Day15Wide.CollectBoxes | day15/src/main.rs:185-218 | the recursive collection on the grid computes what the collection specification says |
| Day15Wide.CollectAhead | day15/src/main.rs:193-212 | testing one cell ahead on the grid computes `CollectCell`: blocked by `#`, done on `.`, otherwise the box there is collected recursively |
| Day15Wide.SupportedSeparate | day15/src/main.rs:220-237 | the boxes of a supported push land on distinct cells |
| Day15Wide.EraseBoxes | day15/src/main.rs:222-226 | every cell of a moved box becomes `.` and nothing else changes |
| Day15Wide.DrawOne | day15/src/main.rs:228-236 | one moved box is shifted in the list and drawn at its new cells |
| Day15Wide.DrawBoxes | day15/src/main.rs:228-236 | every moved box is drawn shifted, and the list holds the moved boxes shifted |
| Day15Wide.MoveBoxes | day15/src/main.rs:220-237 | the grid becomes the moved grid and the list the moved boxes |
| Day15Wide.StepCommand | day15/src/main.rs:150-171 | one command applied to the grid in place, as the step specification says |
| Day15Wide.RunCommandsP2 | day15/src/main.rs:149-172 | the commands applied in place; succeeds exactly when the specification does |
| Day15Wide.WidenItem | day15/src/main.rs:130-144 | one cell of the original drawn doubled |
| Day15Wide.WidenGrid | day15/src/main.rs:124-145 | the widened grid, its box list and the doubled start of the last `@` |
| Day15Wide.CalculateP2 | day15/src/main.rs:121-179 | the GPS sum of the box left halves after all commands on the widened grid; none where the source panics |
| Day16.Open | day16/src/main.rs:58-59 | a neighbour exactly ahead in the direction, on the map and not a wall |
| Day16.Candidate | day16/src/main.rs:58-88 | a move is queued exactly when the cell in that direction is open and not visited, with the given score and that direction |
| Day16.MovesSound | day16/src/main.rs:58-88 | every queued move follows from the state by one step into an open, unvisited cell |
| Day16.MovesComplete | day16/src/main.rs:58-88 | every open, unvisited cell ahead, left or right is queued, at score +1 straight ahead and +1001 after a turn |
| Day16.PopKeeps | day16/src/main.rs:49-51 | popping a least-score state keeps the popped scores non-decreasing and every queued state at or above the last one |
| Day16.PushKeeps | day16/src/main.rs:58-88 | queuing the moves of the last popped state keeps the queue on the map and at or above the last popped score |
| Day16.ReachedStart | day16/src/main.rs:37-45 | the start state, facing right with score 0, is reached by the run of no moves |
| Day16.ReachedFollows | day16/src/main.rs:58-88 | a state one move on from a reached state is reached |
| Day16.PushReached | day16/src/main.rs:58-88 | queuing moves of a queued state keeps every queued state reached |
| Day16.NoEndKeeps | day16/src/main.rs:53-56 | popping a state off an `E` cell keeps every popped state off `E` cells |
| Day16.ClosedStep | day16/src/main.rs:51-88 | visiting the popped cell and queuing its moves keeps every open neighbour of a visited cell visited or queued, except the start's left-hand neighbour |
| Day16.CameFromStep | day16/src/main.rs:58-88 | every queued state still has a visited cell behind it |
| Day16.ChainVisited | day16/src/main.rs:49-89 | once nothing is queued, every run of moves from the start that never leaves the start to its left stays on visited cells |
| Day16.Heap1Step | day16/src/main.rs:49-88 | a pass of the part 1 loop keeps the heap's bounds, the popped states in order and off `E` cells, and every queued state reached |
| Day16.Frontier1Step | day16/src/main.rs:49-88 | a pass of the part 1 loop keeps the visited cells off `E` cells and closed up to the queue |
| Day16.Measure1Step | day16/src/main.rs:49-88 | a pass of the part 1 loop visits a new cell or leaves fewer queued states on visited cells, so the loop ends |
| Day16.Step1 | day16/src/main.rs:49-88 | a pass of the part 1 loop keeps its whole invariant and lowers the measure |
| Day16.Search1Start | day16/src/main.rs:37-47 | the part 1 loop invariant holds with only the start queued |
| Day16.Search1Pop | day16/src/main.rs:49-56 | a popped least state is on the map, scores at least every earlier one, and is reached when it stands on an `E` cell |
| Day16.Search1Empty | day16/src/main.rs:89-91 | with an empty heap no run of moves that never leaves the start to its left reaches an `E` cell |
| Day16.CalculateP1 | day16/src/main.rs:34-92 | the states come off the heap in non-decreasing score, the first being the start facing right; a best score is the score of a run of moves from the start to an `E` cell, and no state popped before it scores more; `NotFound` means no run of moves that never leaves the start to its left reaches an `E` cell |
| Day16.Candidate2 | day16/src/main.rs:149-179 | a move is queued exactly when the cell in that direction is open and that cell and direction are not yet visited |
| Day16.Moves2Sound | day16/src/main.rs:149-179 | every queued move follows from the state by one step into an open cell not visited in that direction |
| Day16.Moves2Complete | day16/src/main.rs:149-179 | every open cell ahead, left or right not visited in its direction is queued, with the right score |
| Day16.FoundReached | day16/src/main.rs:143-146 | a best score is that of a reached state on an `E` cell |
| Day16.Closed2Step | day16/src/main.rs:140-179 | visiting the popped pose and queuing its moves keeps every open onward pose of a visited pose off `E` cells visited or queued |
| Day16.ChainVisited2 | day16/src/main.rs:132-180 | once nothing is queued and no `E` cell was visited, every run of moves from the start stays on visited poses |
| Day16.Search2Start | day16/src/main.rs:118-130 | the part 2 loop invariant holds with only the start queued |
| Day16.Heap2Step | day16/src/main.rs:132-179 | a pass of the part 2 loop keeps the heap's bounds, the recorded states in order with the best score and end cell in step, and every queued and recorded state reached |
| Day16.Frontier2Step | day16/src/main.rs:132-179 | a pass of the part 2 loop keeps the visited poses on the map and closed up to the queue |
| Day16.Measure2Step | day16/src/main.rs:132-179 | a pass of the part 2 loop visits a new pose or leaves fewer queued states on visited poses, so the loop ends |
| Day16.Step2 | day16/src/main.rs:132-179 | a pass of the part 2 loop keeps its whole invariant and lowers the measure |
| Day16.Search2End | day16/src/main.rs:132-190 | when the loop stops, the best score is that of a reached `E` state, and without one no `E` cell can be reached |
| Day16.SearchP2 | day16/src/main.rs:115-180 | the recorded states come off the heap in non-decreasing score, the first being the start, and each is reached by a run of moves; the best score and end cell are those of a recorded `E` state, and that score is the score of a run of moves to an `E` cell; without a best score no `E` cell can be reached |
| Day16.FoundStep | day16/src/main.rs:134-147 | recording a state keeps the best score and end cell in step with the recorded `E` states |
| Heap.ReversedCmp | day16/src/main.rs:102-112 | the state ordering is the scores compared the other way round: greater exactly when the score is smaller |
| Heap.FirstLeast | day16/src/main.rs:49 | an index of a least-score entry of a non-empty queue |
| Heap.GreatestIsLeast | day16/src/main.rs:102-112 | the greatest state under the reversed ordering is exactly a least-score one |
| Heap.Pop | day16/src/main.rs:49 | removes and returns a least-score entry; the rest is the queue without that one entry |
| Heap.RemoveAt | day16/src/main.rs:49 | removing one entry keeps every other entry |
| Day17.Decode | day17/src/main.rs:82-96 | an instruction exactly for the opcodes 0 to 7, and its opcode is the number decoded |
| Day17.Opcode | day17/src/main.rs:70-80 | every instruction has an opcode below 8 |
| Day17.DecodeOpcode | day17/src/main.rs:82-96 | decoding an instruction's opcode gives the instruction back |
| Day17.ComboOf | day17/src/main.rs:107-117 | a combo operand exactly for the codes 0 to 6 (7 panics), and it encodes back to the code |
| Day17.ComboRoundTrip | day17/src/main.rs:107-117 | every combo operand decodes from its own code |
| Day17.Fetch | day17/src/main.rs:120-125 | an opcode and argument exactly when both the program counter and the cell after it are inside the program, and then those two cells |
| Day17.Operand | day17/src/main.rs:127-134 | the combo value: the literal for 0 to 3, register A, B or C for 4, 5 or 6, and a panic for 7 |
| Day17.Shifted | day17/src/main.rs:159-201 | `A >> combo` is defined exactly for a shift below 64 (a larger one panics) and never exceeds A |
| Day17.Step | day17/src/main.rs:151-209 | halts exactly past the end of the program and faults exactly on a panicking operand; otherwise jumps only on `jnz` with A non-zero and else advances by 2, outputs only on `out` a value below 8, and changes only the register the instruction names |
| Day17.StepKeepsValid | day17/src/main.rs:61-68 | a step keeps every register a `u64` |
| Day17.EffectKeepsValid | day17/src/main.rs:155-204 | every instruction keeps the registers `u64` values |
| Day17.Prepend | day17/src/main.rs:186-190 | output produced earlier stays in front of later output |
| Day17.Run | day17/src/main.rs:148-213 | every value output is below 8, fewer values than steps allowed |
| Day17.RunFuelMonotone | day17/src/main.rs:148-213 | a run that finishes within some fuel finishes the same way with more |
| Day17.EmptyProgram | day17/src/main.rs:148-213 | an empty program outputs nothing |
| Day17.PrependPrepend | day17/src/main.rs:186-190 | output collected in two stretches is their concatenation |
| Day17.Computer.constructor | day17/src/main.rs:61-68 | a computer with the given registers, its program counter at 0 |
| Day17.Computer.Clone | day17/src/main.rs:224 | a fresh computer in the same state with the same program |
| Day17.Computer.Reset | day17/src/main.rs:136-141 | the registers copied from the original and the program counter back at 0; the program is kept |
| Day17.Computer.Execute | day17/src/main.rs:153-206 | one instruction executed in place, as `Step` specifies |
| Day17.RunProgram | day17/src/main.rs:148-213 | the output of running the computer in place, as `Run` specifies |
| Day17.CalculateP1 | day17/src/main.rs:144-146 | the output of running a copy of the input computer |
| Day17.ShiftLeftThree | day17/src/main.rs:225 | `search_a <<= 3` in `u64`: a multiple of 8 below 2^64, exactly `8 * a` when nothing is shifted out |
| Day17.Search | day17/src/main.rs:222-252 | any value found makes the program output itself |
| Day17.Attempt | day17/src/main.rs:228-248 | any value found from this digit makes the program output itself |
| Day17.SearchDigits | day17/src/main.rs:222-252 | the digit search on the computer computes what `Search` says |
| Day17.TryDigit | day17/src/main.rs:228-248 | one digit tried on the computer as `Attempt` says |
| Day17.CalculateP2 | day17/src/main.rs:215-220 | panics on an empty program; otherwise any value returned makes the program output itself, and it is the one the search finds |
| Day18.ParseLine | day18/src/main.rs:26-31 | a point exactly when the line has two comma-separated fields that are both `usize` values |
| Day18.ParseLineRoundTrip | day18/src/main.rs:26-31 | a printed point `x,y` parses back to itself |
| Day18.ParseInput | day18/src/main.rs:20-37 | all lines parse exactly when each does, giving one point per line in order |
| Day18.Fallen | day18/src/main.rs:42 | the first `nbytes` points, or all of them when there are fewer |
| Day18.DropBytes | day18/src/main.rs:42-44 | succeeds exactly when every fallen byte lies inside the grid buffer, and then the grid is `#` exactly at the fallen bytes |
| Day18.PushFrom | day18/src/main.rs:72-84 | the queue keeps its old entries and gains exactly the admissible neighbours (open, unvisited, not yet queued) at the given score, each recorded in the dedup set |
| Day18.Expand | day18/src/main.rs:72-84 | the neighbour loop computes what `PushFrom` says |
| Day18.Walls | day18/src/main.rs:40-44 | the stored cells that hold `#` |
| Day18.Corrupted | day18/src/main.rs:42-44 | exactly the cells of the fallen bytes |
| Day18.WalkExtend | day18/src/main.rs:72-84 | a walk extended by a step to an adjacent open cell is a walk |
| Day18.PopKeeps | day18/src/main.rs:60-63 | popping a least-score state keeps the popped scores non-decreasing; the state's score is at least its distance from the start |
| Day18.PushKeeps | day18/src/main.rs:72-84 | queuing neighbours at one more than the popped score keeps the queue's bounds |
| Day18.PushedFrom | day18/src/main.rs:72-84 | the neighbour loop keeps the heap as a prefix, pushes only open unvisited neighbours at one more step, records exactly those in the dedup set, and pushes every open unvisited neighbour not already recorded |
| Day18.HeapStep | day18/src/main.rs:60-84 | a pass of the loop keeps the heap's bounds and the popped scores in order |
| Day18.WalkedStep | day18/src/main.rs:60-84 | a pass of the loop keeps every queued entry the end of a walk as long as its score |
| Day18.FrontierStep | day18/src/main.rs:60-84 | a pass of the loop keeps the corner visited and the exit unvisited, every dedup entry visited or queued, and every open neighbour of a visited cell visited or queued |
| Day18.MeasureStep | day18/src/main.rs:60-84 | a pass of the loop visits a new cell or leaves fewer queued entries on visited cells, so the loop ends |
| Day18.SearchStep | day18/src/main.rs:60-84 | a pass of the loop that does not pop the exit keeps the whole invariant and lowers the measure |
| Day18.SearchingStart | day18/src/main.rs:48-56 | the loop invariant holds with only the corner queued |
| Day18.SearchingPop | day18/src/main.rs:60-63 | a popped least entry is inside the area, walked, and scores at least every earlier popped score |
| Day18.SearchingFound | day18/src/main.rs:67-70 | an exit popped scores at least `width + height` and is the end of a walk as long as its score |
| Day18.WalkVisited | day18/src/main.rs:60-85 | once the visited cells hold the corner and are closed under open neighbours, every walk stays on visited cells |
| Day18.SearchingEmpty | day18/src/main.rs:60-87 | with an empty heap no walk reaches the exit |
| Day18.Search | day18/src/main.rs:53-87 | popped scores never go down; a score found is at least `width + height` and is the length of a walk from the corner to the exit through cells without `#`; an empty heap means no such walk exists |
| Day18.CalculateP1 | day18/src/main.rs:39-88 | fails exactly when a fallen byte lies outside the grid buffer; a score found is at least `width + height` and is the length of a walk from `(0, 0)` to `(width, height)` that avoids the fallen bytes; `Unreachable` means no such walk exists |
| Day19.CanBuildSound | day19/src/main.rs:47-75 | whenever the search over towels from index `i` succeeds, the design is `base` followed by some sequence of towels |
| Day19.CanBuildComplete | day19/src/main.rs:47-75 | whenever the design is `base` followed by a non-empty sequence of towels, the search from any index up to the first towel's position succeeds |
| Day19.CanBuildIsBuildable | day19/src/main.rs:47-75 | `can_build_design` succeeds exactly when the rest of the design splits into available towels |
| Day19.NoTowels | day19/src/main.rs:55-74 | with no towels nothing can be built |
| Day19.TowelBuildable | day19/src/main.rs:55-74 | every available towel on its own is a buildable design |
| Day19.EmptyDesign | day19/src/main.rs:55-74 | the empty design is never buildable |
| Day19.CalculateP1 | day19/src/main.rs:32-45 | the count is at most the number of designs |
| Day19.CalculateP1Counts | day19/src/main.rs:39-44 | the count equals the number of positions whose design `can_build_design` accepts |
| Day19.CalculateP1IsBuildable | day19/src/main.rs:32-45 | the count equals the number of designs that split into available towels |
| Day19.Trim | day19/src/main.rs:26 | the trimmed name starts and ends with non-whitespace and is no longer than the input |
| Day19.TrimStart | day19/src/main.rs:26 | a suffix of the input that does not start with whitespace |
| Day19.TrimEnd | day19/src/main.rs:26 | a prefix of the input that does not end with whitespace |
| Day19.ParseInput | day19/src/main.rs:18-30 | succeeds exactly when there are at least two lines; towels are the trimmed comma-separated fields of the first line and designs are the lines after the second |
| Day20.FirstAt | day20/src/main.rs:26-33 | the position of the first cell holding `v` in enumeration order, and `None` exactly when no cell holds it |
| Day20.FindStart | day20/src/main.rs:26-33 | the early-exit scan finds the first `S`, as `FirstAt` says |
| Day20.RelaxOneKeeps | day20/src/main.rs:58-80 | relaxing one neighbour keeps every labelled cell a reachable track tile with a consistent `came_from` link, and keeps the queue consistent with the labels |
| Day20.RelaxAllKeeps | day20/src/main.rs:55-81 | relaxing all neighbours of a popped state keeps the track and queue invariants |
| Day20.Relax | day20/src/main.rs:55-81 | the in-place neighbour loop updates the track grid and queue as `RelaxAll` says |
| Day20.RelaxCell | day20/src/main.rs:58-80 | the in-place update of one neighbour's track cell and the queue is `RelaxOne` |
| Day20.LabelTrack | day20/src/main.rs:47-82 | the search keeps the track invariant; an end point found is a labelled `E` tile |
| Day20.CheatsInStep | day20/src/main.rs:97-107 | the cheats from one cell grow one neighbour at a time: a neighbour adds its cheat exactly when it is farther along the track and the cell between is not track |
| Day20.CheatsAmongStep | day20/src/main.rs:94-109 | the cheat set over the cells grows one cell at a time by that cell's cheats |
| Day20.MidBetween | day20/src/main.rs:99 | the middle of two cells two apart in a line is adjacent to both |
| Day20.CollectCheats | day20/src/main.rs:92-109 | the loop over every track cell collects exactly the cheat set `CheatsAmong` |
| Day20.CheatsFrom | day20/src/main.rs:95-108 | the cheats collected from one cell are exactly `CheatsIn` over its distance-two neighbours |
| Day20.CheatsSound | day20/src/main.rs:94-109 | every collected cheat jumps two cells in a line over a non-track cell, between two labelled cells, with a positive gain equal to the difference of their distances |
| Day20.InitialTrack | day20/src/main.rs:35-43 | labelling only the start with distance 0 satisfies the track invariant |
| Day20.CoversGrid | day20/src/main.rs:24 | the tile map covers every in-bounds position |
| Day20.CalculateP1 | day20/src/main.rs:23-124 | fails exactly when no `S` exists; otherwise the track it built satisfies the invariant from the first `S` and the count is the size of its cheat set |
| Day20.Solve | day20/src/main.rs:35-118 | from the start, the count returned is the size of the cheat set of the final track, which satisfies the track invariant |
| Day22.Prune | day22/src/main.rs:49 | the reduction modulo 16777216 is below the modulus and leaves smaller values unchanged |
| Day22.Round | day22/src/main.rs:48-55 | one mix-and-prune round yields a value below the modulus |
| Day22.Rounds | day22/src/main.rs:47-56 | after at least one round the value is below the modulus |
| Day22.GenerateSecret | day22/src/main.rs:45-58 | the 2000-round loop computes `Secret(seed)`, a value below 16777216 |
| Day22.RoundNoOverflow | day22/src/main.rs:46-55 | for a `u32` seed none of the multiplications in the first round overflows `u64` |
| Day22.RoundsOfZero | day22/src/main.rs:47-56 | zero is a fixed point of any number of rounds |
| Day22.RoundOfZero | day22/src/main.rs:48-55 | zero is a fixed point of one round |
| Day22.CalculateP1 | day22/src/main.rs:32-39 | the sum of secrets is at most the number of seeds times 16777215 |
| Day22.CalculateP1Append | day22/src/main.rs:32-39 | the sum over concatenated seed lists is the sum of the two sums |
| Day22.ParseInput | day22/src/main.rs:18-30 | succeeds exactly when every line parses as a `u32`, giving one seed per line |
| Day23.ParseInput | day23/src/main.rs:20-38 | succeeds exactly when every line splits at `-`; names are registered without duplicates, each line adds its link in both directions, and the edge indices name the two computers of that line |
| Day23.RegisteredStep | day23/src/main.rs:26-34 | registering one more line keeps every earlier link and adds the new link in both directions |
| Day23.PairedSymmetric | day23/src/main.rs:32-33 | edges pushed in both directions form a symmetric relation |
| Day23.Sort3 | day23/src/main.rs:54-55 | the sorted triple is ascending and a permutation of the three indices |
| Day23.TriangleOfGroup | day23/src/main.rs:48-61 | any three distinct, pairwise-linked computers are recorded as a sorted triangle |
| Day23.Linked | day23/src/main.rs:51-53 | in a symmetric edge list, any two distinct members of a linked triple are linked |
| Day23.FoundStep | day23/src/main.rs:52-58 | the innermost loop adds a triple exactly when its three pairs are linked |
| Day23.FoundInnerStart | day23/src/main.rs:52 | the innermost loop begins after the middle index |
| Day23.FoundInnerEnd | day23/src/main.rs:50-59 | finishing the innermost loop completes one middle index |
| Day23.FoundSkip | day23/src/main.rs:51 | when the first two are not linked the middle index adds nothing |
| Day23.FoundMiddle | day23/src/main.rs:48-61 | the middle loop begins after the first index, and finishing it completes one first index |
| Day23.FoundAll | day23/src/main.rs:48-61 | the triple loops start from nothing and end with every triangle |
| Day23.SetsOf3 | day23/src/main.rs:46-61 | the nested loops collect exactly the set of ascending linked triples |
| Day23.CalculateP1 | day23/src/main.rs:40-90 | the count of triangles with a member whose name starts with `t`, never more than the number of triangles |
| Day24.Eval | day24/src/main.rs:117-128 | a constant is its value; a gate with both inputs known is its Boolean function; unknown exactly when the first input is unknown or the second is unknown and the first does not decide (`false` for AND, `true` for OR, by short-circuit) |
| Day24.EvalMonotone | day24/src/main.rs:117-128 | once a gate evaluates, learning more wire values never changes its value |
| Day24.Known | day24/src/main.rs:82-94 | the number of known wires is at most the number of wires |
| Day24.KnownSet | day24/src/main.rs:89-91 | setting an unknown wire to a value raises the known count by one |
| Day24.Visit | day24/src/main.rs:89-92 | visiting one node only adds values, and reports a new value exactly when one more wire is known |
| Day24.PassOver | day24/src/main.rs:88-93 | a pass only adds values; when it reports new values the known count grew, and otherwise nothing changed |
| Day24.Settled | day24/src/main.rs:85-94 | repeating passes until one adds nothing only extends the starting values |
| Day24.Passes | day24/src/main.rs:85-94 | the number of passes is at most one more than the number of unknown wires |
| Day24.Unknown | day24/src/main.rs:82 | the starting vector has one unknown entry per name |
| Day24.PassesBound | day24/src/main.rs:85-94 | from all-unknown the `while new_values` loop runs at most one pass per wire plus one |
| Day24.QuietPassStable | day24/src/main.rs:86-94 | after a pass that adds nothing every node is either set or still cannot be evaluated |
| Day24.JustifiedExtends | day24/src/main.rs:89-91 | every known wire keeps agreeing with a node that drives it as more values become known |
| Day24.PassJustified | day24/src/main.rs:88-93 | a pass assigns each wire only the value of a node that drives it |
| Day24.SettledSound | day24/src/main.rs:85-94 | the final values are stable (no node can add a value) and every known wire is justified by a driving node |
| Day24.SettledFromUnknown | day24/src/main.rs:82-94 | from all-unknown, propagation ends stable and justified |
| Day24.UnknownNone | day24/src/main.rs:82 | every starting entry is unknown |
| Day24.RunPass | day24/src/main.rs:88-93 | the in-place pass over the value array computes `Pass` of the old values |
| Day24.Propagate | day24/src/main.rs:82-94 | the `while new_values` loop leaves the settled values |
| Day24.StrLessIrreflexive | day24/src/main.rs:100 | no name is less than itself in byte order |
| Day24.StrLessTransitive | day24/src/main.rs:100 | byte order on names is transitive |
| Day24.StrLessTotal | day24/src/main.rs:100 | two different names are ordered one way or the other |
| Day24.BeforeTransitive | day24/src/main.rs:96-102 | the descending stable order on z-wires is transitive |
| Day24.BeforeTotal | day24/src/main.rs:96-102 | two different z-wire ids are ordered one way or the other |
| Day24.InsertZ | day24/src/main.rs:96-102 | inserting a new id keeps the list in descending name order and adds exactly that id |
| Day24.ZNamesStep | day24/src/main.rs:96-102 | one more name keeps the list correct: its id joins, at its place in descending name order, exactly when the name starts with `z` |
| Day24.ZNamesFrom | day24/src/main.rs:96-102 | the ids below `k` whose name starts with `z`, each exactly once, in descending name order |
| Day24.ZNames | day24/src/main.rs:96-102 | every selected id names a wire |
| Day24.ZBit | day24/src/main.rs:108-110 | a z-wire contributes bit 1 only when it is known true, else 0 |
| Day24.Assembled | day24/src/main.rs:104-111 | the shifted-in result stays within `u64` |
| Day24.LowFirst | day24/src/main.rs:104-111 | the z bits, least significant first, are binary digits |
| Day24.AssembledEncodes | day24/src/main.rs:104-111 | for at most 64 z-wires, the result is the binary number whose digits are the z bits with the last wire lowest |
| Day24.ResultBit | day24/src/main.rs:104-111 | bit `i` of the result is 1 exactly when the `i`-th z-wire from the end of the order is known true |
| Day24.Assemble | day24/src/main.rs:104-111 | the shift-and-or loop computes `Assembled` |
| Day24.CalculateP1 | day24/src/main.rs:77-115 | the result is the z bits of the settled wires, assembled in descending name order |
| Day25.Hashes | day25/src/main.rs:29-35 | a column's count of `#` is at most the number of interior rows |
| Day25.Heights | day25/src/main.rs:28-35 | counts for all five columns exactly when no interior row has a `#` past the fifth column (the source's index panic), each at most the number of rows |
| Day25.Block | day25/src/main.rs:27-35 | a block parses exactly when it has a first and a last row, a non-empty first row and fitting interior rows; it is a lock exactly when its first character is `#`, with the interior column counts |
| Day25.Sort | day25/src/main.rs:26-42 | succeeds exactly when every block parses; each block becomes one lock or one key of five heights |
| Day25.EmptyInput | day25/src/main.rs:26-27 | empty input fails, because splitting it gives one empty block |
| Day25.CountHeights | day25/src/main.rs:28-35 | the counting loop over the interior rows computes `Heights` |
| Day25.ParseInput | day25/src/main.rs:19-45 | the block loop computes `Parsed` of the lines |
| Day25.FitCount | day25/src/main.rs:55-60 | the number of keys fitting one lock is at most the number of keys |
| Day25.Matches | day25/src/main.rs:54-61 | the number of fitting pairs is at most locks times keys |
| Day25.CalculateP1 | day25/src/main.rs:47-64 | the nested loop counts `Matches`, the pairs whose column sums are all below 6 |
| Day25.FitCountIsSize | day25/src/main.rs:55-60 | the count for one lock is the number of key positions that fit it |
| Day25.MatchesAppendKey | day25/src/main.rs:54-61 | one more lock adds exactly the number of keys fitting it |
| Day25.MatchesSymmetric | day25/src/main.rs:57 | the count is the same with locks and keys swapped, since fitting is symmetric |
| Day25.ZeroLocks | day25/src/main.rs:54-61 | with no locks the count is zero |
| Day25.CalculateP2 | day25/src/main.rs:66-68 | part two always fails with "Not implemented" |

## Left out

- File and command-line input (`aoc_tools/src/input.rs`, `aoc_tools/src/samples.rs`) is not part of this model. Each `parse_input` that only reads lines or a grid is replaced by the lines or the grid as a parameter.
- Printing carries no result and is left out: `Grid::print`, day 14's `draw_picture_p2`/`print_map_after`/`FormattedCell`, day 21's `show_dir_transition` and `digits_to_commands`, and every `println!`.
- Day 3 is left out because it is parsed and evaluated by regular expressions.
- The regex-driven `parse_input` functions of days 13, 14, 17 and 24 are left out. The models start from the parsed machines, robots, computer and nodes. In day 17's parser a "Register C" line writes `b`, so the model's computers take the registers as given.
- Floating point is left out: `aoc_tools/src/gauss.rs`, and day 13's part 2 (`find_costs_2`, `check_round`).
- Day 6's rayon `par_iter` is modelled as a sequential sum. Addition does not depend on order.
- The `transmute` in day 17's `Computer::fetch` is replaced by the `From<u8>` opcode table that it stands for.
- Some library APIs the days call are not defined in the `aoc_tools` sources: `Neighbours2D::new` with a `NeighbourMap`, `new_only_valid` and `Rotation::Flip`. `Neighbours.Neighbourhood` models a `NeighbourMap` shape as a subset of the eight `OFFSETS`, taken in `OFFSETS` order: `All` is all eight, `Plus` the four orthogonal ones, `X` the four diagonals, and `Top`, `Bottom`, `Left` and `Right` one each. The library sources do not define these shapes, so their members and their order are assumed; day 4's `find_words_1` (`All`) and `find_x_2` (`X`) depend on that order. The parts that depend on more than that are left out: day 14's `calculate_p2` and day 16's `follow_back`.
- `aoc_tools/src/result.rs` (error adapters), `aoc_tools/src/lib.rs` (re-exports) and `boiler/main.rs` (stubs) are not modelled.
- Part 2 of days 18, 19, 20, 22, 23 and 24 only returns 0 and is not modelled. Day 9's and day 11's constant part 2 and day 25's `Err` are modelled.
- Day20: the loop that marks the best path with `O` on a copy of the grid writes nothing that is read afterwards, so it is left out.
- NumExt.CheckedAddSigned: the `None` for a sum above `usize::MAX` is not modelled. Sizes and coordinates are unbounded, and every caller compares the sum against a `usize` width, height or limit, which rejects such a sum anyway.
- Day01.MatchLists1: the distances and their sum are `i32` in the source and can overflow (a panic with overflow checks on, wrap-around without). The model sums unbounded integers.
- Day01.MatchLists2: the count cast to `i32`, its product with the id, and the sum are `i32` in the source and can overflow the same way. The model computes them unbounded.
- Day10.ParseInput: every Day 10 member requires a rectangular map. The source takes the width from the first row (day10/src/main.rs:24) and panics through `unwrap` when a shorter row is indexed (day10/src/main.rs:57). That panic is not modelled.
- Day05.FixUnsafeUpdate: `sort_by` is modelled as a stable insertion sort. When the rules are not a total order, the standard library's merge sort may order pages differently. The result is still proved to be a permutation.
- Day05.CalculateP2: requires every update to have odd length, where the source's assertion in `extract_middle_page` panics. The middle pages are summed into the `u32` variables `result1` and `result2` (day05/src/main.rs:25, 38), which can overflow; the model sums unbounded integers.
- Day02.CalcDiffs: the levels are `i32` and the source takes `(w[1] - w[0]).abs()` and `.signum()` in `i32` (day02/src/main.rs:56). For levels such as `-2147483648 2147483646` the subtraction overflows (a panic with overflow checks on; without them the difference wraps to -2 and the report can count as safe). The model takes the unbounded difference.
- Day06.CalculateP1: requires the guard to leave the unobstructed map, where the source's `walk_unobstructed` would loop forever. The same applies to `Day06.WalkUnobstructed` and `Day06.CalculateP2`.
- Day07.CalculateSpec: `u64` overflow of the sums, products and concatenations is not modelled. Both totals require every equation to have an operand, because the source's `args.len()-1` underflows on an empty list.
- Day07.CalcExpValue1: requires at most 32 operands, and `Day07.CalcExpValue2` at most 16. With more, the `i32` shift in `1 << args.len()-1` (or `1 << (args.len()-1) * 2`) reaches 32 bits, which panics when overflow checks are on. The same bounds apply to `Day07.CalculateP1`, `Day07.CalculateP2` and `Day07.CalculateP2Spec`.
- Day09.CalculateP1: states that the checksum is that of some compaction of the disk (same blocks, no used block after a free block), not of the particular fill order of the corrected loop.
- Day09.ParseInput: returns `None` for a non-digit where `parse_char` panics.
- Day11.CalculateP1: the `u64` overflow of `p * 2024` is not modelled.
- Day12.CalculateP1: the ids are proved to be assigned in first-seen order and equal on adjacent same-plant cells, but not that equal ids form one connected region. The grid is taken as `parse_input` leaves it, with every cell unfilled.
- Day13.CalculateP1: `u64` overflow of the cost sum is not modelled.
- Day14.CalculateP1: the `i32` casts and the overflow of `v * time` are not modelled. Coordinates are unbounded integers with Rust's truncating `%`.
- Day15Wide.CalculateP2: requires a width of at least 1 whose doubled value fits the grid buffer. The completeness of `collect_boxes`'s `false` answer (that some box really is blocked) is not proved. The order in which the `HashSet` of boxes is iterated is left open.
- Day16.CalculateP1: optimality of the returned score (that no run of moves to an `E` cell scores less) is not proved, and the order of equal-score states in the heap is left open. The same applies to `Day16.SearchP2` and `Day18.Search`.
- Day16.CalculateP1: `NotFound` is proved to mean only that no run of moves avoiding the start's left-hand move reaches an `E` cell. The source marks cells, not cells with directions, as visited, so the start cell is never entered again and the move from the start to its left is never queued. An `E` in a dead end directly left of `S` therefore gives "Failed to find best score".
- Heap.Pop: takes the first entry of least score. `BinaryHeap::pop` may return any of several entries of equal score; the search lemmas hold for any least-score entry (`Heap.Greatest`), and the loops use this one.
- Day20.CalculateP1: runs for at most `fuel` pops and reports running out. Optimality of the returned score is not proved, and the order of equal-score states in the heap is left open.
- Day17.RunProgram: runs for at most `fuel` instructions, since a program may loop forever. The same applies to `Day17.CalculateP1` and `Day17.CalculateP2`.
- Day18.CalculateP1: requires the area's size to fit below the grid buffer's width and height. The final `unwrap` panic is the `Unreachable` outcome.
- Day18.Search: the neighbour loop is taken as `PushFrom`, the function that `Day18.Expand`'s loop is proved to compute, rather than a call to `Expand`.
- Day19.CalculateP1: requires every towel to be non-empty, since an empty towel makes `can_build_design` recurse forever.
- Day19.Trim: removes only ASCII whitespace, not all of Unicode's.
- Day19.CanBuild: designs and towels are taken as ASCII. The source compares `check_des.len()` with `design.len()` in bytes and slices `design[..check_des.len()]`, which panics when the cut falls inside a multi-byte character (towels `["a"]` and design `"aé"`). The model counts characters and never panics. The same applies to `Day19.CanBuildFrom` and `Day19.CalculateP1`.
- Day20.CalculateP1: requires a grid height within the track grid's buffer.
- Day22.CalculateP1: the `u64` overflow of the sum is not modelled. Each secret is below 2^24.
- Day24.ResultBit: proved for up to 64 z-wires. With more, the shifts in `u64` push the first bits out, which `Day24.Assembled` models as reduction modulo 2^64.
- Day24.SettledSound: the settled values are stable and justified by the nodes. That they are the least such assignment is not proved.
- C2dFixture: only the `"42"` fixture of `commands_to_digits` is decoded in the model. The `"256A"` and `"512A"` fixtures are left out, because their literal expansion is too long for the verifier.

## Findings

| source | as written | input that shows it | evidently intended | confidence | as-written member | corrected member |
|---|---|---|---|---|---|---|
| day06/src/main.rs:89-104 | a turn `continue`s before the visited check, so a guard that only turns is never caught as looping | map `.#.`, `#^#`, `...` with the obstacle at (1, 2): the guard turns forever on (1, 1) | report 1: the guard never leaves | not executed | Day06.BoxedStartSpins | Day06.WalkDetectLoopFixed |
| day09/src/main.rs:49-67 | the scans and `end_idx -= 1` assume a gap before the last file block | disk `11` (`end_idx` underflows below 0) and a disk with no gap (the forward scan runs off the end) | leave such a disk compacted as it is | not executed | Day09.OneFileOneGapPanics | Day09.Compact |
