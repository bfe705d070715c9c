/** Day 5 (day05/src/main.rs): page-ordering rules, the updates that obey
    them, and the updates reordered by them. */
module Day05 {
  import opened Wrappers
  import opened Parse

  type Rule = (nat, nat)

  /** `parse_rules`: two `|`-separated `u32` values, else `InvalidInput`. */
  function ParseRule(line: string): (r: Option<Rule>)
    ensures r.Some? <==> (|SplitOn(line, '|')| == 2 &&
      forall i :: 0 <= i < 2 ==> ParseUnsigned(SplitOn(line, '|')[i], U32_MAX).Some?)
    ensures r.Some? ==> (Some(r.value.0) == ParseUnsigned(SplitOn(line, '|')[0], U32_MAX) &&
      Some(r.value.1) == ParseUnsigned(SplitOn(line, '|')[1], U32_MAX))
  {
    match ParseUnsignedAll(SplitOn(line, '|'), U32_MAX)
    case None => None
    case Some(vs) => if |vs| == 2 then Some((vs[0], vs[1])) else None
  }

  /** A rule printed as `a|b` parses back to itself. */
  lemma ParseRuleRoundTrip(a: nat, b: nat)
    requires a <= U32_MAX && b <= U32_MAX
    ensures ParseRule(DecimalString(a) + "|" + DecimalString(b)) == Some((a, b))
  {
    NoSeparatorInDecimal(a, '|');
    NoSeparatorInDecimal(b, '|');
    SplitTwo(DecimalString(a), DecimalString(b), '|');
    ParseUnsignedRoundTrip(a, U32_MAX);
    ParseUnsignedRoundTrip(b, U32_MAX);
  }

  /** `parse_update`: a comma-separated list of `u32` values, else `InvalidInput`. */
  function ParseUpdate(line: string): (r: Option<seq<nat>>)
    ensures r.Some? ==> forall i :: 0 <= i < |SplitOn(line, ',')| ==> ParseUnsigned(SplitOn(line, ',')[i], U32_MAX).Some?
    ensures (forall i :: 0 <= i < |SplitOn(line, ',')| ==> ParseUnsigned(SplitOn(line, ',')[i], U32_MAX).Some?) ==> r.Some?
    ensures r.Some? ==> (|r.value| == |SplitOn(line, ',')| >= 1 &&
      forall i :: 0 <= i < |r.value| ==> Some(r.value[i]) == ParseUnsigned(SplitOn(line, ',')[i], U32_MAX))
  {
    ParseUnsignedAll(SplitOn(line, ','), U32_MAX)
  }

  datatype Ordering = Less | Equal | Greater

  /** `cmp_by_rules`: `Less` when a rule puts `a` before `b`, otherwise
      `Equal` for the same page and `Greater` for any other. */
  function CmpByRules(a: nat, b: nat, rules: seq<Rule>): (r: Ordering)
    ensures r == Less <==> exists i :: 0 <= i < |rules| && rules[i] == (a, b)
    ensures r == Equal <==> (a, b) !in rules && a == b
  {
    if (a, b) in rules then Less else if a == b then Equal else Greater
  }

  /** The comparison `is_sorted_by` is given: not `Greater`. */
  predicate InOrder(a: nat, b: nat, rules: seq<Rule>) {
    CmpByRules(a, b, rules) != Greater
  }

  /** `is_update_safe`: every adjacent pair in order. */
  predicate IsUpdateSafe(update: seq<nat>, rules: seq<Rule>) {
    forall k :: 0 < k < |update| ==> InOrder(update[k - 1], update[k], rules)
  }

  /** An update is safe exactly when each adjacent pair is a rule or the same page twice. */
  lemma SafeIffRuled(update: seq<nat>, rules: seq<Rule>)
    ensures IsUpdateSafe(update, rules) <==>
      forall k :: 0 < k < |update| ==> (update[k - 1], update[k]) in rules || update[k - 1] == update[k]
  {
  }

  /** `extract_middle_page`: it asserts an odd length and returns the page
      with as many pages before it as after it. */
  function ExtractMiddlePage(update: seq<nat>): (r: nat)
    requires |update| % 2 == 1
    ensures exists k :: 0 <= k < |update| && k == |update| - 1 - k && r == update[k]
  {
    var k := |update| / 2;
    assert k == |update| - 1 - k;
    update[k]
  }

  /** Insertion of `x` behind a prefix the sort has already placed: it moves
      left past every page it compares `Less` against. */
  function InsertBack(placed: seq<nat>, x: nat, rules: seq<Rule>): (r: seq<nat>)
    ensures multiset(r) == multiset(placed) + multiset{x}
    ensures |r| == |placed| + 1
    decreases |placed|
  {
    if placed == [] then [x]
    else
      var last := placed[|placed| - 1];
      var init := placed[..|placed| - 1];
      assert placed == init + [last];
      if CmpByRules(last, x, rules) == Greater then InsertBack(init, x, rules) + [last]
      else placed + [x]
  }

  lemma InsertBackStep(placed: seq<nat>, x: nat, rules: seq<Rule>)
    requires placed != [] && CmpByRules(placed[|placed| - 1], x, rules) == Greater
    ensures InsertBack(placed, x, rules) == InsertBack(placed[..|placed| - 1], x, rules) + [placed[|placed| - 1]]
  {
  }

  lemma InsertBackStop(placed: seq<nat>, x: nat, rules: seq<Rule>)
    requires placed == [] || CmpByRules(placed[|placed| - 1], x, rules) != Greater
    ensures InsertBack(placed, x, rules) == placed + [x]
  {
  }

  lemma InsertBackSwap(s: seq<nat>, t: seq<nat>, i: nat, j: nat, x: nat, placed: seq<nat>, rules: seq<Rule>)
    requires 0 < j <= i < |s| && s[j] == x && CmpByRules(s[j - 1], x, rules) == Greater
    requires InsertBack(placed, x, rules) == InsertBack(s[..j], x, rules) + s[j + 1..i + 1]
    requires t == s[j - 1 := x][j := s[j - 1]]
    ensures t[j - 1] == x && t[i + 1..] == s[i + 1..]
    ensures InsertBack(placed, x, rules) == InsertBack(t[..j - 1], x, rules) + t[j..i + 1]
  {
    InsertBackStep(s[..j], x, rules);
    assert s[..j][..j - 1] == t[..j - 1];
    assert t[j..i + 1] == [s[j - 1]] + s[j + 1..i + 1];
  }

  lemma InsertBackDone(s: seq<nat>, i: nat, j: nat, x: nat, placed: seq<nat>, rules: seq<Rule>)
    requires j <= i < |s| && s[j] == x
    requires InsertBack(placed, x, rules) == InsertBack(s[..j], x, rules) + s[j + 1..i + 1]
    requires j == 0 || CmpByRules(s[j - 1], x, rules) != Greater
    ensures s[..i + 1] == InsertBack(placed, x, rules)
  {
    InsertBackStop(s[..j], x, rules);
    assert s[j..i + 1] == [x] + s[j + 1..i + 1];
    assert s[..i + 1] == s[..j] + s[j..i + 1];
  }

  /** The order `fix_unsafe_update`'s sort leaves the pages in. */
  function Fixed(update: seq<nat>, rules: seq<Rule>): (r: seq<nat>)
    ensures |r| == |update|
    decreases |update|
  {
    if update == [] then []
    else InsertBack(Fixed(update[..|update| - 1], rules), update[|update| - 1], rules)
  }

  lemma FixedSnoc(update: seq<nat>, i: nat, rules: seq<Rule>)
    requires i < |update|
    ensures Fixed(update[..i + 1], rules) == InsertBack(Fixed(update[..i], rules), update[i], rules)
  {
    assert update[..i + 1][..i] == update[..i];
  }

  /** One pass of the in-place sort: the page at `i` swapped leftwards past
      every page that compares `Greater` against it. */
  method InsertLast(a: array<nat>, i: nat, rules: seq<Rule>)
    requires i < a.Length
    modifies a
    ensures a[..i + 1] == InsertBack(old(a[..i]), old(a[i]), rules)
    ensures a[i + 1..] == old(a[i + 1..])
  {
    ghost var placed := a[..i];
    var x := a[i];
    var j := i;
    while j > 0 && CmpByRules(a[j - 1], a[j], rules) == Greater
      invariant 0 <= j <= i && a[j] == x
      invariant InsertBack(placed, x, rules) == InsertBack(a[..j], x, rules) + a[j + 1..i + 1]
      invariant a[i + 1..] == old(a[i + 1..])
    {
      ghost var before := a[..];
      a[j - 1], a[j] := a[j], a[j - 1];
      InsertBackSwap(before, a[..], i, j, x, placed, rules);
      j := j - 1;
    }
    InsertBackDone(a[..], i, j, x, placed, rules);
  }

  /** `fix_unsafe_update`: a copy of the update sorted in place by `cmp_by_rules`. */
  method FixUnsafeUpdate(badOne: seq<nat>, rules: seq<Rule>) returns (fixed: seq<nat>)
    ensures fixed == Fixed(badOne, rules)
  {
    var a := new nat[|badOne|](i requires 0 <= i < |badOne| => badOne[i]);
    assert a[..] == badOne;
    for i := 0 to a.Length
      invariant a[..i] == Fixed(badOne[..i], rules)
      invariant a[i..] == badOne[i..]
    {
      FixedSnoc(badOne, i, rules);
      assert a[i] == a[i..][0] == badOne[i];
      assert a[i + 1..] == a[i..][1..] == badOne[i + 1..];
      InsertLast(a, i, rules);
    }
    fixed := a[..];
    assert badOne[..a.Length] == badOne;
  }

  /** Fixing only reorders the pages. */
  lemma {:induction false} FixedIsPermutation(update: seq<nat>, rules: seq<Rule>)
    ensures multiset(Fixed(update, rules)) == multiset(update)
    decreases |update|
  {
    if update != [] {
      var init := update[..|update| - 1];
      FixedIsPermutation(init, rules);
      assert update == init + [update[|update| - 1]];
    }
  }

  /** Any two distinct pages of the update are ordered one way or the other by a rule. */
  predicate RulesCover(update: seq<nat>, rules: seq<Rule>) {
    forall x, y :: x in update && y in update && x != y ==> (x, y) in rules || (y, x) in rules
  }

  /** The inserted page ends up last, or the previous last page stays last. */
  lemma InsertBackLast(placed: seq<nat>, x: nat, rules: seq<Rule>)
    requires placed != []
    ensures var r := InsertBack(placed, x, rules);
      r[|r| - 1] == x || r[|r| - 1] == placed[|placed| - 1]
  {
  }

  lemma SafeSnoc(s: seq<nat>, y: nat, rules: seq<Rule>)
    requires IsUpdateSafe(s, rules) && (s != [] ==> InOrder(s[|s| - 1], y, rules))
    ensures IsUpdateSafe(s + [y], rules)
  {
    var out := s + [y];
    forall k | 0 < k < |out| ensures InOrder(out[k - 1], out[k], rules) {
      if k < |s| {
        assert out[k - 1] == s[k - 1] && out[k] == s[k];
      }
    }
  }

  lemma {:induction false} InsertBackSafe(placed: seq<nat>, x: nat, rules: seq<Rule>, pages: seq<nat>)
    requires IsUpdateSafe(placed, rules) && RulesCover(pages, rules)
    requires x in pages && forall k :: 0 <= k < |placed| ==> placed[k] in pages
    ensures IsUpdateSafe(InsertBack(placed, x, rules), rules)
    decreases |placed|
  {
    if placed != [] {
      var last := placed[|placed| - 1];
      var init := placed[..|placed| - 1];
      if CmpByRules(last, x, rules) == Greater {
        assert last in pages;
        assert InOrder(x, last, rules);
        assert IsUpdateSafe(init, rules) by {
          forall k | 0 < k < |init| ensures InOrder(init[k - 1], init[k], rules) {
            assert init[k - 1] == placed[k - 1] && init[k] == placed[k];
          }
        }
        InsertBackSafe(init, x, rules, pages);
        var r := InsertBack(init, x, rules);
        if init != [] {
          InsertBackLast(init, x, rules);
          assert placed[|placed| - 2] == init[|init| - 1];
        }
        SafeSnoc(r, last, rules);
      } else {
        SafeSnoc(placed, x, rules);
      }
    }
  }

  /** When the rules order every two distinct pages of an update, fixing it gives a safe update. */
  lemma {:induction false} FixedIsSafe(update: seq<nat>, rules: seq<Rule>, pages: seq<nat>)
    requires RulesCover(pages, rules) && forall k :: 0 <= k < |update| ==> update[k] in pages
    ensures IsUpdateSafe(Fixed(update, rules), rules)
    decreases |update|
  {
    if update != [] {
      var init := update[..|update| - 1];
      FixedIsSafe(init, rules, pages);
      FixedIsPermutation(init, rules);
      var f := Fixed(init, rules);
      forall k | 0 <= k < |f| ensures f[k] in pages {
        assert f[k] in multiset(init);
      }
      InsertBackSafe(f, update[|update| - 1], rules, pages);
    }
  }

  /** A safe update is left as it is. */
  lemma {:induction false} FixedOfSafe(update: seq<nat>, rules: seq<Rule>)
    requires IsUpdateSafe(update, rules)
    ensures Fixed(update, rules) == update
    decreases |update|
  {
    if update != [] {
      var init := update[..|update| - 1];
      FixedOfSafe(init, rules);
      assert update == init + [update[|update| - 1]];
    }
  }

  /** Result p1: the middle pages of the safe updates, summed. */
  function SumSafeMiddles(updates: seq<seq<nat>>, rules: seq<Rule>): nat
    requires forall i :: 0 <= i < |updates| ==> |updates[i]| % 2 == 1
    decreases |updates|
  {
    if updates == [] then 0
    else
      var u := updates[|updates| - 1];
      SumSafeMiddles(updates[..|updates| - 1], rules) + (if IsUpdateSafe(u, rules) then ExtractMiddlePage(u) else 0)
  }

  /** Result p2: the middle pages of the unsafe updates once fixed, summed. */
  function SumFixedMiddles(updates: seq<seq<nat>>, rules: seq<Rule>): nat
    requires forall i :: 0 <= i < |updates| ==> |updates[i]| % 2 == 1
    decreases |updates|
  {
    if updates == [] then 0
    else
      var u := updates[|updates| - 1];
      SumFixedMiddles(updates[..|updates| - 1], rules) + (if IsUpdateSafe(u, rules) then 0 else ExtractMiddlePage(Fixed(u, rules)))
  }

  /** The second part of `main`: fix each unsafe update and sum the middles. */
  method CalculateP2(updates: seq<seq<nat>>, rules: seq<Rule>) returns (total: nat)
    requires forall i :: 0 <= i < |updates| ==> |updates[i]| % 2 == 1
    ensures total == SumFixedMiddles(updates, rules)
  {
    total := 0;
    for i := 0 to |updates|
      invariant total == SumFixedMiddles(updates[..i], rules)
    {
      assert updates[..i + 1][..i] == updates[..i];
      var u := updates[i];
      if !IsUpdateSafe(u, rules) {
        var fixed := FixUnsafeUpdate(u, rules);
        total := total + ExtractMiddlePage(fixed);
      }
    }
    assert updates[..|updates|] == updates;
  }

  /** An update is counted by exactly one of the two parts, and when the rules
      order its pages, its fixed form would have been counted by the first. */
  lemma PartsAreComplementary(u: seq<nat>, rules: seq<Rule>)
    requires |u| % 2 == 1 && RulesCover(u, rules)
    ensures SumSafeMiddles([u], rules) + SumFixedMiddles([u], rules) == ExtractMiddlePage(Fixed(u, rules))
    ensures SumSafeMiddles([Fixed(u, rules)], rules) == ExtractMiddlePage(Fixed(u, rules))
  {
    var none: seq<seq<nat>> := [];
    assert [u][..0] == none;
    FixedIsSafe(u, rules, u);
    var f := Fixed(u, rules);
    assert [f][..0] == none;
    if IsUpdateSafe(u, rules) {
      FixedOfSafe(u, rules);
    }
  }
}
