/** Day 11 (day11/src/main.rs): a row of numbered pebbles changes at every
    blink: 0 becomes 1, a number with an even count of digits splits into
    its two halves, and any other number is multiplied by 2024. Part 1 is
    the number of pebbles after 25 blinks. */
module Day11 {
  import opened Wrappers
  import opened Parse
  import opened Digits
  import opened Seqs

  /** `parse_input`: every whitespace-separated word a `u64`, else `InvalidInput`. */
  function ParseInput(line: string): (r: Option<seq<nat>>)
    ensures r.Some? <==> forall i :: 0 <= i < |Words(line)| ==> ParseUnsigned(Words(line)[i], U64_MAX).Some?
    ensures r.Some? ==> |r.value| == |Words(line)|
    ensures r.Some? ==> forall i :: 0 <= i < |r.value| ==>
      r.value[i] <= U64_MAX && Some(r.value[i]) == ParseUnsigned(Words(line)[i], U64_MAX)
  {
    ParseUnsignedAll(Words(line), U64_MAX)
  }

  /** The numbers written out in decimal, separated by single spaces. */
  function Show(ns: seq<nat>): string {
    Unwords(seq(|ns|, i requires 0 <= i < |ns| => DecimalString(ns[i])))
  }

  /** Reading back a written row gives the row. */
  lemma ParseInputRoundTrip(ns: seq<nat>)
    requires forall i :: 0 <= i < |ns| ==> ns[i] <= U64_MAX
    ensures ParseInput(Show(ns)) == Some(ns)
  {
    var ws := seq(|ns|, i requires 0 <= i < |ns| => DecimalString(ns[i]));
    forall i | 0 <= i < |ws|
      ensures IsWord(ws[i])
    {
      DigitsAreWord(ws[i]);
    }
    WordsOfUnwords(ws);
    var r := ParseInput(Show(ns));
    forall i | 0 <= i < |ws|
      ensures ParseUnsigned(ws[i], U64_MAX) == Some(ns[i])
    {
      ParseUnsignedRoundTrip(ns[i], U64_MAX);
    }
    assert r.value == ns;
  }

  lemma DigitsAreWord(s: string)
    requires |s| > 0 && AllDigits(s)
    ensures IsWord(s)
  {
  }

  // ---------------------------------------------------------------- splitting

  /** `split_pebble`: the two halves of the decimal form when it has an even
      number of digits; leading zeros of the right half are dropped by parsing. */
  function SplitPebble(p: nat): (r: Option<(nat, nat)>)
    ensures r.Some? <==> |DecimalString(p)| % 2 == 0
  {
    var s := DecimalString(p);
    var l := |s|;
    if l % 2 == 0 then Some((DecimalValue(s[..l / 2]), DecimalValue(s[l / 2..]))) else None
  }

  /** A decimal string is below ten to the power of its length. */
  lemma {:induction false} DecimalValueBound(s: string)
    requires AllDigits(s)
    ensures DecimalValue(s) < Pow(10, |s|)
    decreases |s|
  {
    if s != [] {
      var init := s[..|s| - 1];
      DecimalValueBound(init);
      DigitInFront(DigitValue(s[|s| - 1]), 10, DecimalValue(init), Pow(10, |init|));
    }
  }

  /** A decimal string without a leading zero has a nonzero value. */
  lemma {:induction false} LeadingDigitNonzero(s: string)
    requires AllDigits(s) && |s| >= 1 && s[0] != '0'
    ensures DecimalValue(s) >= 1
    ensures |s| >= 2 ==> DecimalValue(s) >= 10
    decreases |s|
  {
    if |s| >= 2 {
      var init := s[..|s| - 1];
      LeadingDigitNonzero(init);
    }
  }

  /** Printing the value of a decimal string without a leading zero gives the string back. */
  lemma {:induction false} DecimalStringOfValue(s: string)
    requires AllDigits(s) && |s| >= 1 && (|s| == 1 || s[0] != '0')
    ensures DecimalString(DecimalValue(s)) == s
    decreases |s|
  {
    var n := DecimalValue(s);
    var last := s[|s| - 1];
    if |s| == 1 {
      assert s[..0] == [];
      assert DecimalValue(s[..0]) == 0;
      assert n == DigitValue(last);
    } else {
      var init := s[..|s| - 1];
      LeadingDigitNonzero(s);
      DecimalStringOfValue(init);
      Grid.DivModUnique(n, 10, DecimalValue(init), DigitValue(last));
      assert s == init + [last];
    }
  }

  /** The halves put back together give the pebble: the left half shifted by
      half the digit count, the right half below that power of ten, and the
      left half printed with exactly half the digits. */
  lemma SplitPebbleJoins(p: nat)
    requires SplitPebble(p).Some?
    ensures var h := |DecimalString(p)| / 2;
      var (a, b) := SplitPebble(p).value;
      p == a * Pow(10, h) + b && b < Pow(10, h) && |DecimalString(a)| == h
  {
    var s := DecimalString(p);
    var h := |s| / 2;
    var left, right := s[..h], s[h..];
    assert |s| >= 2 && |left| == h == |right| && left[0] == s[0];
    assert SplitPebble(p) == Some((DecimalValue(left), DecimalValue(right)));
    assert s == left + right;
    DecimalValueAppend(left, right);
    DecimalValueBound(right);
    DecimalStringOfValue(left);
  }

  /** Splitting a pebble whose decimal form is `s + t`, both halves of equal
      length and `s` without a leading zero, gives the values of `s` and `t`. */
  lemma SplitOfJoined(s: string, t: string)
    requires AllDigits(s) && AllDigits(t) && |s| == |t| >= 1 && s[0] != '0'
    ensures AllDigits(s + t)
    ensures SplitPebble(DecimalValue(s + t)) == Some((DecimalValue(s), DecimalValue(t)))
  {
    DecimalValueAppend(s, t);
    var st := s + t;
    assert st[0] == s[0];
    DecimalStringOfValue(st);
    assert st[..|s|] == s && st[|s|..] == t;
  }

  /** Splitting the pebble written `s + t` (halves of equal length) into the values of `s` and `t`. */
  lemma SplitFixture()
    ensures SplitPebble(1000) == Some((10, 0))
    ensures SplitPebble(17) == Some((1, 7))
  {
    JoinedValue("10", "00", 10, 0);
    JoinedValue("1", "7", 1, 7);
  }

  /** Three digits do not split. */
  lemma OddDigitsFixture()
    ensures SplitPebble(253) == None
  {
    var s: string := "253";
    assert s[..2][..1] == "2" && s[..2] == "25";
    assert DecimalValue("2") == 2;
    assert DecimalValue("25") == 25;
    assert DecimalValue(s) == 253;
    DecimalStringOfValue(s);
  }

  lemma JoinedValue(s: string, t: string, a: nat, b: nat)
    requires AllDigits(s) && AllDigits(t) && |s| == |t| >= 1 && s[0] != '0'
    requires DecimalValue(s) == a && DecimalValue(t) == b
    ensures SplitPebble(a * Pow(10, |t|) + b) == Some((a, b))
  {
    DecimalValueAppend(s, t);
    SplitOfJoined(s, t);
  }

  // ---------------------------------------------------------------- blinking

  /** The pebbles one pebble turns into, in the order of the rules. */
  function Blink(p: nat): (r: seq<nat>)
    ensures 1 <= |r| <= 2
  {
    if p == 0 then [1]
    else match SplitPebble(p)
      case Some((a, b)) => [a, b]
      case None => [p * 2024]
  }

  /** One blink over the whole row: each pebble's replacements, in row order. */
  function BlinkRow(row: seq<nat>): seq<nat> {
    FlatMap(row, Blink)
  }

  /** `n` blinks in a row. */
  function Blinks(row: seq<nat>, n: nat): seq<nat>
    decreases n
  {
    if n == 0 then row else BlinkRow(Blinks(row, n - 1))
  }

  /** A blink never loses a pebble and at most doubles the row. */
  lemma BlinkRowLength(row: seq<nat>)
    ensures |row| <= |BlinkRow(row)| <= 2 * |row|
  {
    FlatMapLength(row, Blink, 1, 2);
  }

  /** After `n` blinks the row is at least as long and at most `2^n` times as long. */
  lemma {:induction false} BlinksLength(row: seq<nat>, n: nat)
    ensures |row| <= |Blinks(row, n)| <= Pow(2, n) * |row|
    decreases n
  {
    if n > 0 {
      BlinksLength(row, n - 1);
      BlinkRowLength(Blinks(row, n - 1));
      MulAssoc(2, Pow(2, n - 1), |row|);
    }
  }

  /** The three rules on the first example row: 0, 1, 10, 99 and 999. */
  lemma BlinkFixture()
    ensures Blink(0) == [1] && Blink(1) == [2024]
    ensures Blink(10) == [1, 0] && Blink(99) == [9, 9] && Blink(999) == [2021976]
  {
    assert DecimalString(1) == "1";
    JoinedValue("1", "0", 1, 0);
    JoinedValue("9", "9", 9, 9);
    assert DecimalValue("999") == 999;
    DecimalStringOfValue("999");
  }

  /** `calculate_p1`: 25 blinks, each building the new row pebble by pebble. */
  method CalculateP1(input: seq<nat>) returns (count: nat)
    ensures count == |Blinks(input, 25)|
  {
    var pebbles := input;
    for round := 0 to 25
      invariant pebbles == Blinks(input, round)
    {
      var newRow: seq<nat> := [];
      for i := 0 to |pebbles|
        invariant newRow == BlinkRow(pebbles[..i])
      {
        var p := pebbles[i];
        assert pebbles[..i + 1] == pebbles[..i] + [p];
        FlatMapAppend(pebbles[..i], [p], Blink);
        if p == 0 {
          newRow := newRow + [1];
        } else {
          var split := SplitPebble(p);
          if split.Some? {
            assert Blink(p) == [split.value.0, split.value.1];
            newRow := newRow + [split.value.0, split.value.1];
          } else {
            assert Blink(p) == [p * 2024];
            newRow := newRow + [p * 2024];
          }
        }
      }
      assert pebbles[..|pebbles|] == pebbles;
      pebbles := newRow;
    }
    count := |pebbles|;
  }

  /** Part 1 is never below the number of pebbles read. */
  lemma PartOneAtLeastInput(input: seq<nat>)
    ensures |input| <= |Blinks(input, 25)| <= Pow(2, 25) * |input|
  {
    BlinksLength(input, 25);
  }

  /** `calculate_p2`: not implemented in the source, always 0. */
  function CalculateP2(input: seq<nat>): (r: nat)
    ensures r == 0
  {
    0
  }
}
