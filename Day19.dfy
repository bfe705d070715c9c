/** Day 19 (day19/src/main.rs): towel patterns. A design can be built when it
    is a concatenation of one or more available towels; part 1 counts the
    buildable designs. */
module Day19 {
  import opened Wrappers
  import Parse

  /** No towel is empty; with an empty towel `can_build_design` recurses on
      the same prefix forever. */
  predicate NonEmpty(towels: seq<string>) {
    forall i :: 0 <= i < |towels| ==> |towels[i]| > 0
  }

  /** The pieces laid one after another. */
  function Flatten(parts: seq<string>): string {
    if parts == [] then [] else parts[0] + Flatten(parts[1..])
  }

  /** Every piece is one of the towels. */
  predicate FromTowels(parts: seq<string>, towels: seq<string>) {
    forall k :: 0 <= k < |parts| ==> parts[k] in towels
  }

  /** `design` is `base` followed by one or more towels. */
  ghost predicate Buildable(design: string, base: string, towels: seq<string>) {
    exists parts :: |parts| >= 1 && FromTowels(parts, towels) && base + Flatten(parts) == design
  }

  /** `can_build_design` from the towel `towels[i]` on: each towel is put
      after `base`; a candidate shorter than the design recurses when it is a
      prefix of the design, a longer or equal one succeeds only on equality. */
  function CanBuildFrom(design: string, base: string, towels: seq<string>, i: nat): bool
    requires NonEmpty(towels)
    decreases |design| - |base|, |towels| - i
  {
    if i >= |towels| then false
    else
      var check := base + towels[i];
      if |check| < |design| then
        if check == design[..|check|] && CanBuildFrom(design, check, towels, 0) then true
        else CanBuildFrom(design, base, towels, i + 1)
      else if check == design then true
      else CanBuildFrom(design, base, towels, i + 1)
  }

  /** `can_build_design(design, base, towels)`. */
  function CanBuild(design: string, base: string, towels: seq<string>): bool
    requires NonEmpty(towels)
  {
    CanBuildFrom(design, base, towels, 0)
  }

  /** A success names the towels it used. */
  lemma {:induction false} CanBuildSound(design: string, base: string, towels: seq<string>, i: nat)
    requires NonEmpty(towels) && CanBuildFrom(design, base, towels, i)
    ensures Buildable(design, base, towels)
    decreases |design| - |base|, |towels| - i
  {
    var check := base + towels[i];
    if |check| < |design| && check == design[..|check|] && CanBuildFrom(design, check, towels, 0) {
      CanBuildSound(design, check, towels, 0);
      var parts :| |parts| >= 1 && FromTowels(parts, towels) && check + Flatten(parts) == design;
      var parts' := [towels[i]] + parts;
      assert parts'[1..] == parts;
      assert base + Flatten(parts') == design;
      assert FromTowels(parts', towels);
    } else if |check| >= |design| && check == design {
      var parts' := [towels[i]];
      assert Flatten(parts'[1..]) == [];
      assert base + Flatten(parts') == design;
      assert FromTowels(parts', towels);
    } else {
      CanBuildSound(design, base, towels, i + 1);
    }
  }

  /** The search misses nothing: a design built from `parts`, whose first
      piece is the towel at `j` or later, is found from `i` on. */
  lemma {:induction false} CanBuildComplete(design: string, base: string, towels: seq<string>, parts: seq<string>, j: nat, i: nat)
    requires NonEmpty(towels) && |parts| >= 1 && FromTowels(parts, towels) && base + Flatten(parts) == design
    requires j < |towels| && towels[j] == parts[0] && i <= j
    ensures CanBuildFrom(design, base, towels, i)
    decreases |design| - |base|, j - i
  {
    var check := base + towels[i];
    var rest := Flatten(parts[1..]);
    assert design == base + parts[0] + rest;
    if i < j {
      if !(|check| < |design| && check == design[..|check|] && CanBuildFrom(design, check, towels, 0)) &&
         !(|check| >= |design| && check == design) {
        CanBuildComplete(design, base, towels, parts, j, i + 1);
      }
    } else if |check| < |design| {
      assert design[..|check|] == check;
      assert |rest| > 0;
      assert parts[1..] != [];
      var k :| 0 <= k < |towels| && towels[k] == parts[1];
      assert parts[1..][0] == parts[1];
      CanBuildComplete(design, check, towels, parts[1..], k, 0);
    } else {
      assert |rest| == 0;
      assert check == design;
    }
  }

  /** `can_build_design` answers exactly whether the design is `base`
      followed by one or more towels. */
  lemma CanBuildIsBuildable(design: string, base: string, towels: seq<string>)
    requires NonEmpty(towels)
    ensures CanBuild(design, base, towels) <==> Buildable(design, base, towels)
  {
    if CanBuild(design, base, towels) {
      CanBuildSound(design, base, towels, 0);
    }
    if Buildable(design, base, towels) {
      var parts :| |parts| >= 1 && FromTowels(parts, towels) && base + Flatten(parts) == design;
      var j :| 0 <= j < |towels| && towels[j] == parts[0];
      CanBuildComplete(design, base, towels, parts, j, 0);
    }
  }

  /** No towels build nothing. */
  lemma NoTowels(design: string, base: string)
    ensures !CanBuild(design, base, [])
  {
  }

  /** Every towel on its own is a buildable design. */
  lemma TowelBuildable(towels: seq<string>, i: nat)
    requires NonEmpty(towels) && i < |towels|
    ensures CanBuild(towels[i], "", towels)
  {
    var parts := [towels[i]];
    assert Flatten(parts[1..]) == [];
    assert "" + Flatten(parts) == towels[i];
    assert FromTowels(parts, towels);
    CanBuildIsBuildable(towels[i], "", towels);
  }

  /** One or more non-empty towels lay down at least one character. */
  lemma FlattenNonEmpty(parts: seq<string>, towels: seq<string>)
    requires NonEmpty(towels) && |parts| >= 1 && FromTowels(parts, towels)
    ensures |Flatten(parts)| >= 1
  {
    assert parts[0] in towels;
    var j :| 0 <= j < |towels| && towels[j] == parts[0];
  }

  /** The empty design is never buildable: every candidate is at least as
      long and not equal to it. */
  lemma EmptyDesign(towels: seq<string>)
    requires NonEmpty(towels)
    ensures !CanBuild("", "", towels)
  {
    forall parts | |parts| >= 1 && FromTowels(parts, towels)
      ensures "" + Flatten(parts) != ""
    {
      FlattenNonEmpty(parts, towels);
    }
    CanBuildIsBuildable("", "", towels);
  }

  /** `calculate_p1`: the designs buildable from the empty prefix, counted. */
  function CalculateP1(towels: seq<string>, designs: seq<string>): (r: nat)
    requires NonEmpty(towels)
    ensures r <= |designs|
  {
    if designs == [] then 0
    else CalculateP1(towels, designs[..|designs| - 1]) + (if CanBuild(designs[|designs| - 1], "", towels) then 1 else 0)
  }

  /** The indices of the designs `can_build_design` accepts. */
  function AcceptedAt(towels: seq<string>, designs: seq<string>): set<nat>
    requires NonEmpty(towels)
  {
    set i: nat | i < |designs| && CanBuild(designs[i], "", towels)
  }

  /** `calculate_p1` counts the accepted designs, each once. */
  lemma {:induction false} CalculateP1Counts(towels: seq<string>, designs: seq<string>)
    requires NonEmpty(towels)
    ensures CalculateP1(towels, designs) == |AcceptedAt(towels, designs)|
  {
    if designs != [] {
      var n := |designs| - 1;
      var init := designs[..n];
      CalculateP1Counts(towels, init);
      var before := AcceptedAt(towels, init);
      assert forall i: nat :: i < n ==> init[i] == designs[i];
      if CanBuild(designs[n], "", towels) {
        assert AcceptedAt(towels, designs) == before + {n};
      } else {
        assert AcceptedAt(towels, designs) == before;
      }
    } else {
      assert AcceptedAt(towels, designs) == {};
    }
  }

  /** So `calculate_p1` is the number of designs made of one or more towels. */
  lemma CalculateP1IsBuildable(towels: seq<string>, designs: seq<string>)
    requires NonEmpty(towels)
    ensures CalculateP1(towels, designs) == |set i: nat | i < |designs| && Buildable(designs[i], "", towels)|
  {
    CalculateP1Counts(towels, designs);
    forall i: nat | i < |designs|
      ensures CanBuild(designs[i], "", towels) <==> Buildable(designs[i], "", towels)
    {
      CanBuildIsBuildable(designs[i], "", towels);
    }
    assert AcceptedAt(towels, designs) == set i: nat | i < |designs| && Buildable(designs[i], "", towels);
  }

  /** Rust's `trim` on ASCII whitespace: the leading and trailing blanks removed. */
  function Trim(s: string): (r: string)
    ensures |r| <= |s|
    ensures r != [] ==> !Parse.IsAsciiWhitespace(r[0]) && !Parse.IsAsciiWhitespace(r[|r| - 1])
  {
    TrimEnd(TrimStart(s))
  }

  /** The leading blanks removed: a suffix of `s`. */
  function TrimStart(s: string): (r: string)
    ensures r != [] ==> !Parse.IsAsciiWhitespace(r[0])
    ensures exists i :: 0 <= i <= |s| && r == s[i..]
  {
    if s != [] && Parse.IsAsciiWhitespace(s[0]) then
      var r := TrimStart(s[1..]);
      var i :| 0 <= i <= |s[1..]| && r == s[1..][i..];
      assert r == s[i + 1..];
      r
    else
      assert s == s[0..];
      s
  }

  /** The trailing blanks removed: a prefix of `s`. */
  function TrimEnd(s: string): (r: string)
    ensures r != [] ==> !Parse.IsAsciiWhitespace(r[|r| - 1])
    ensures exists j :: 0 <= j <= |s| && r == s[..j]
  {
    if s != [] && Parse.IsAsciiWhitespace(s[|s| - 1]) then
      var r := TrimEnd(s[..|s| - 1]);
      var j :| 0 <= j <= |s| - 1 && r == s[..|s| - 1][..j];
      assert r == s[..j];
      r
    else
      assert s == s[..|s|];
      s
  }

  /** `parse_input`: the first line split on ',' and trimmed gives the
      towels, the second line is skipped, the rest are the designs; fewer
      than two lines panic. */
  function ParseInput(lines: seq<string>): (r: Option<(seq<string>, seq<string>)>)
    ensures r.Some? <==> |lines| >= 2
    ensures r.Some? ==> r.value.1 == lines[2..] && |r.value.0| == |Parse.SplitOn(lines[0], ',')|
    ensures r.Some? ==> forall k :: 0 <= k < |r.value.0| ==> r.value.0[k] == Trim(Parse.SplitOn(lines[0], ',')[k])
  {
    if |lines| < 2 then None
    else
      var pieces := Parse.SplitOn(lines[0], ',');
      Some((seq(|pieces|, k requires 0 <= k < |pieces| => Trim(pieces[k])), lines[2..]))
  }
}
