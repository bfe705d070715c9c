/** Day 25 (day25/src/main.rs): locks and keys. The input is blocks of
    schematic lines separated by empty lines; a block whose first line starts
    with '#' is a lock, any other a key, and each becomes five column heights.
    Part 1 counts the lock/key pairs whose heights never overlap. */
module Day25 {
  import opened Wrappers
  import Parse

  /** The number of pins a schematic has: `[usize; 5]`. */
  const COLUMNS: nat := 5

  /** A lock and a key fit together when no column pair reaches 6 once
      added; the comparison runs over the columns both have, as `zip` does. */
  predicate Fits(lock: seq<nat>, key: seq<nat>) {
    forall i :: 0 <= i < |lock| && i < |key| ==> lock[i] + key[i] < 6
  }

  /** The rows of `rows` with a '#' in column `i`, counted. */
  function Hashes(rows: seq<string>, i: nat): (r: nat)
    ensures r <= |rows|
  {
    if rows == [] then 0
    else
      var last := rows[|rows| - 1];
      Hashes(rows[..|rows| - 1], i) + (if i < |last| && last[i] == '#' then 1 else 0)
  }

  /** No row has a '#' past the fifth column (one there makes `counts[i] += 1`
      index out of bounds). */
  predicate InColumns(rows: seq<string>) {
    forall r, j :: 0 <= r < |rows| && COLUMNS <= j < |rows[r]| ==> rows[r][j] != '#'
  }

  /** The column heights of the interior rows, or `None` where counting them
      panics. */
  function Heights(rows: seq<string>): (r: Option<seq<nat>>)
    ensures r.Some? <==> InColumns(rows)
    ensures r.Some? ==> |r.value| == COLUMNS && forall i :: 0 <= i < COLUMNS ==> r.value[i] <= |rows|
  {
    if InColumns(rows) then Some(seq(COLUMNS, i requires 0 <= i => Hashes(rows, i))) else None
  }

  /** The interior rows of a block: all but its first and last line. */
  function Interior(block: seq<string>): seq<string>
    requires |block| >= 2
  {
    block[1..|block| - 1]
  }

  /** One block of `parse_input`: whether it is a lock, and its heights.
      An empty block (`block[0]`), an empty first line (`unwrap`), a block of
      one line (`block[1..0]`) and a '#' past the fifth column all panic. */
  function Block(block: seq<string>): (r: Option<(bool, seq<nat>)>)
    ensures r.Some? <==> |block| >= 2 && block[0] != [] && InColumns(Interior(block))
    ensures r.Some? ==> (r.value.0 <==> block[0][0] == '#')
    ensures r.Some? ==> Some(r.value.1) == Heights(Interior(block))
  {
    if |block| == 0 || block[0] == [] || |block| < 2 then None
    else
      match Heights(Interior(block))
      case None => None
      case Some(h) => Some((block[0][0] == '#', h))
  }

  /** The blocks sorted into locks and keys, in input order; `None` as soon
      as one block fails. */
  function Sort(blocks: seq<seq<string>>): (r: Option<(seq<seq<nat>>, seq<seq<nat>>)>)
    ensures r.Some? <==> forall b :: 0 <= b < |blocks| ==> Block(blocks[b]).Some?
    ensures r.Some? ==> |r.value.0| + |r.value.1| == |blocks|
    ensures r.Some? ==> forall k :: 0 <= k < |r.value.0| ==> |r.value.0[k]| == COLUMNS
    ensures r.Some? ==> forall k :: 0 <= k < |r.value.1| ==> |r.value.1[k]| == COLUMNS
  {
    if blocks == [] then Some(([], []))
    else
      var init := blocks[..|blocks| - 1];
      assert forall b :: 0 <= b < |init| ==> init[b] == blocks[b];
      match Sort(init)
      case None => None
      case Some(sorted) =>
        match Block(blocks[|blocks| - 1])
        case None => None
        case Some(block) =>
          if block.0 then Some((sorted.0 + [block.1], sorted.1))
          else Some((sorted.0, sorted.1 + [block.1]))
  }

  /** `parse_input` on the lines of the file. */
  function Parsed(lines: seq<string>): Option<(seq<seq<nat>>, seq<seq<nat>>)> {
    Sort(Parse.SplitOn(lines, ""))
  }

  /** An empty file is one empty block, and `block[0]` panics on it. */
  lemma EmptyInput()
    ensures Parsed([]) == None
  {
    assert Parse.SplitOn([], "") == [[]];
    assert Block([]) == None;
  }

  /** The counting loop of `parse_input` over one block's interior rows,
      into a fresh `[0; 5]`. */
  method CountHeights(rows: seq<string>) returns (r: Option<seq<nat>>)
    ensures r == Heights(rows)
  {
    var counts := new nat[COLUMNS](_ => 0);
    for k := 0 to |rows|
      invariant forall i :: 0 <= i < COLUMNS ==> counts[i] == Hashes(rows[..k], i)
      invariant InColumns(rows[..k])
    {
      var line := rows[k];
      for i := 0 to |line|
        invariant forall c :: 0 <= c < COLUMNS ==>
          counts[c] == Hashes(rows[..k], c) + (if c < i && line[c] == '#' then 1 else 0)
        invariant forall j :: COLUMNS <= j < i ==> line[j] != '#'
      {
        if line[i] == '#' {
          if i >= COLUMNS {
            assert !InColumns(rows);
            return None;
          }
          counts[i] := counts[i] + 1;
        }
      }
      assert rows[..k + 1][..k] == rows[..k];
    }
    assert rows[..|rows|] == rows;
    assert counts[..] == Heights(rows).value;
    return Some(counts[..]);
  }

  /** `parse_input` after `read_lines`: split on empty lines, classify each
      block by its first character and push its heights to `locks` or `keys`. */
  method ParseInput(lines: seq<string>) returns (r: Option<(seq<seq<nat>>, seq<seq<nat>>)>)
    ensures r == Parsed(lines)
  {
    var blocks := Parse.SplitOn(lines, "");
    var locks: seq<seq<nat>> := [];
    var keys: seq<seq<nat>> := [];
    for b := 0 to |blocks|
      invariant Sort(blocks[..b]) == Some((locks, keys))
    {
      var block := blocks[b];
      assert blocks[..b + 1][..b] == blocks[..b];
      if |block| == 0 || block[0] == [] || |block| < 2 {
        return None;
      }
      var isLock := block[0][0] == '#';
      var counts := CountHeights(block[1..|block| - 1]);
      if counts.None? {
        return None;
      }
      if isLock {
        locks := locks + [counts.value];
      } else {
        keys := keys + [counts.value];
      }
    }
    assert blocks[..|blocks|] == blocks;
    return Some((locks, keys));
  }

  /** The keys that fit `lock`, counted. */
  function FitCount(lock: seq<nat>, keys: seq<seq<nat>>): (r: nat)
    ensures r <= |keys|
  {
    if keys == [] then 0
    else FitCount(lock, keys[..|keys| - 1]) + (if Fits(lock, keys[|keys| - 1]) then 1 else 0)
  }

  /** The fitting lock/key pairs, counted lock by lock. */
  function Matches(locks: seq<seq<nat>>, keys: seq<seq<nat>>): (r: nat)
    ensures r <= |locks| * |keys|
  {
    if locks == [] then 0
    else
      var n := |locks| - 1;
      var r := Matches(locks[..n], keys) + FitCount(locks[n], keys);
      assert n * |keys| + |keys| == |locks| * |keys|;
      r
  }

  /** `calculate_p1`: every lock against every key, counting the pairs that fit. */
  method CalculateP1(locks: seq<seq<nat>>, keys: seq<seq<nat>>) returns (matches: nat)
    ensures matches == Matches(locks, keys)
  {
    matches := 0;
    for a := 0 to |locks|
      invariant matches == Matches(locks[..a], keys)
    {
      var lock := locks[a];
      for b := 0 to |keys|
        invariant matches == Matches(locks[..a], keys) + FitCount(lock, keys[..b])
      {
        assert keys[..b + 1][..b] == keys[..b];
        if Fits(lock, keys[b]) {
          matches := matches + 1;
        }
      }
      assert keys[..|keys|] == keys;
      assert locks[..a + 1][..a] == locks[..a];
    }
    assert locks[..|locks|] == locks;
  }

  /** The keys that fit `lock`, as a set of positions. */
  function FittingKeys(lock: seq<nat>, keys: seq<seq<nat>>): set<nat> {
    set j: nat | j < |keys| && Fits(lock, keys[j])
  }

  /** `FitCount` counts each fitting key once. */
  lemma {:induction false} FitCountIsSize(lock: seq<nat>, keys: seq<seq<nat>>)
    ensures FitCount(lock, keys) == |FittingKeys(lock, keys)|
  {
    if keys == [] {
      assert FittingKeys(lock, keys) == {};
    } else {
      var n := |keys| - 1;
      var init := keys[..n];
      FitCountIsSize(lock, init);
      assert forall j: nat :: j < n ==> init[j] == keys[j];
      if Fits(lock, keys[n]) {
        assert FittingKeys(lock, keys) == FittingKeys(lock, init) + {n};
      } else {
        assert FittingKeys(lock, keys) == FittingKeys(lock, init);
      }
    }
  }

  /** One more lock adds the keys that fit it, whichever side counts. */
  lemma {:induction false} MatchesAppendKey(keys: seq<seq<nat>>, locks: seq<seq<nat>>, lock: seq<nat>)
    ensures Matches(keys, locks + [lock]) == Matches(keys, locks) + FitCount(lock, keys)
  {
    if keys != [] {
      var n := |keys| - 1;
      MatchesAppendKey(keys[..n], locks, lock);
      assert (locks + [lock])[..|locks|] == locks;
    }
  }

  /** Fitting is symmetric, so counting keys against locks gives the same total. */
  lemma {:induction false} MatchesSymmetric(locks: seq<seq<nat>>, keys: seq<seq<nat>>)
    ensures Matches(locks, keys) == Matches(keys, locks)
  {
    if locks == [] {
      ZeroLocks(keys);
    } else {
      var n := |locks| - 1;
      MatchesSymmetric(locks[..n], keys);
      MatchesAppendKey(keys, locks[..n], locks[n]);
      assert locks[..n] + [locks[n]] == locks;
    }
  }

  /** No locks, no matches, counted from the keys' side. */
  lemma {:induction false} ZeroLocks(keys: seq<seq<nat>>)
    ensures Matches(keys, []) == 0
  {
    if keys != [] {
      ZeroLocks(keys[..|keys| - 1]);
    }
  }

  /** `calculate_p2` is not implemented and always fails. */
  function CalculateP2(locks: seq<seq<nat>>, keys: seq<seq<nat>>): (r: Result<nat, string>)
    ensures r.Err?
  {
    Err("Not implemented")
  }
}
