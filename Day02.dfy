/** Day 2 (day02/src/main.rs): a report of levels is safe when it moves
    steadily in one direction by one to three at each step. */
module Day02 {
  import opened Wrappers
  import opened Parse
  import opened Seqs

  /** `parse_report`: every whitespace-separated word an `i32`, else `InvalidInput`. */
  function ParseReport(line: string): (r: Option<seq<int>>)
    ensures r.Some? <==> forall i :: 0 <= i < |Words(line)| ==> ParseSigned(Words(line)[i], I32_MIN, I32_MAX).Some?
    ensures r.Some? ==> (|r.value| == |Words(line)| &&
      forall i :: 0 <= i < |r.value| ==> Some(r.value[i]) == ParseSigned(Words(line)[i], I32_MIN, I32_MAX))
  {
    ParseSignedAll(Words(line), I32_MIN, I32_MAX)
  }

  function Abs(n: int): nat {
    if n < 0 then -n else n
  }

  /** `i32::signum`. */
  function Signum(n: int): int {
    if n < 0 then -1 else if n == 0 then 0 else 1
  }

  /** `calc_diffs`: one (size, sign) pair per window of two adjacent levels. */
  function CalcDiffs(report: seq<int>): (r: seq<(nat, int)>)
    ensures |report| >= 1 ==> |r| == |report| - 1
    ensures |report| == 0 ==> r == []
    ensures forall i :: 0 <= i < |r| ==>
      r[i] == (Abs(report[i + 1] - report[i]), Signum(report[i + 1] - report[i]))
  {
    if |report| < 2 then []
    else
      seq(|report| - 1, i requires 0 <= i < |report| - 1 =>
        (Abs(report[i + 1] - report[i]), Signum(report[i + 1] - report[i])))
  }

  /** The distinct signs among the differences (what `unique_by` counts). */
  function Signs(diffs: seq<(nat, int)>): set<int> {
    set i | 0 <= i < |diffs| :: diffs[i].1
  }

  /** The filter of `count_safe_reports_1`. */
  predicate IsSafe(report: seq<int>) {
    var diffs := CalcDiffs(report);
    (forall i :: 0 <= i < |diffs| ==> 1 <= diffs[i].0 <= 3) && |Signs(diffs)| == 1
  }

  predicate StepsUp(report: seq<int>) {
    forall i :: 0 <= i < |report| - 1 ==> 1 <= report[i + 1] - report[i] <= 3
  }

  predicate StepsDown(report: seq<int>) {
    forall i :: 0 <= i < |report| - 1 ==> 1 <= report[i] - report[i + 1] <= 3
  }

  /** One distinct sign means every difference carries the first one. */
  lemma OneSign(diffs: seq<(nat, int)>)
    requires |diffs| > 0
    ensures |Signs(diffs)| == 1 <==> forall i :: 0 <= i < |diffs| ==> diffs[i].1 == diffs[0].1
  {
    var s := diffs[0].1;
    assert s in Signs(diffs);
    if forall i :: 0 <= i < |diffs| ==> diffs[i].1 == s {
      assert Signs(diffs) == {s};
    }
    if |Signs(diffs)| == 1 {
      assert Signs(diffs) - {s} == {} by {
        assert |Signs(diffs) - {s}| == 0;
      }
      forall i | 0 <= i < |diffs| ensures diffs[i].1 == s {
        assert diffs[i].1 in Signs(diffs);
      }
    }
  }

  lemma SafeIsSteady(report: seq<int>)
    requires IsSafe(report) && |report| >= 2
    ensures StepsUp(report) || StepsDown(report)
  {
    var diffs := CalcDiffs(report);
    OneSign(diffs);
    if diffs[0].1 == 1 {
      SameSignUp(report);
    } else {
      SameSignDown(report);
    }
  }

  lemma SameSignUp(report: seq<int>)
    requires |report| >= 2
    requires var diffs := CalcDiffs(report);
      forall i :: 0 <= i < |diffs| ==> 1 <= diffs[i].0 <= 3 && diffs[i].1 == 1
    ensures StepsUp(report)
  {
    var diffs := CalcDiffs(report);
    forall i | 0 <= i < |report| - 1 ensures 1 <= report[i + 1] - report[i] <= 3 {
      assert diffs[i].1 == 1 && 1 <= diffs[i].0 <= 3;
    }
  }

  lemma SameSignDown(report: seq<int>)
    requires |report| >= 2
    requires var diffs := CalcDiffs(report);
      forall i :: 0 <= i < |diffs| ==> 1 <= diffs[i].0 <= 3 && diffs[i].1 == diffs[0].1 && diffs[0].1 != 1
    ensures StepsDown(report)
  {
    var diffs := CalcDiffs(report);
    forall i | 0 <= i < |report| - 1 ensures 1 <= report[i] - report[i + 1] <= 3 {
      assert diffs[i].1 == diffs[0].1 && 1 <= diffs[i].0 <= 3;
    }
  }

  /** Steps up by one to three give differences of one to three, all positive. */
  lemma StepsUpDiffs(report: seq<int>)
    requires StepsUp(report)
    ensures var diffs := CalcDiffs(report);
      forall i :: 0 <= i < |diffs| ==> 1 <= diffs[i].0 <= 3 && diffs[i].1 == 1
  {
    var diffs := CalcDiffs(report);
    forall i | 0 <= i < |diffs| ensures 1 <= diffs[i].0 <= 3 && diffs[i].1 == 1 {
      assert 1 <= report[i + 1] - report[i] <= 3;
    }
  }

  /** Steps down by one to three give differences of one to three, all negative. */
  lemma StepsDownDiffs(report: seq<int>)
    requires StepsDown(report)
    ensures var diffs := CalcDiffs(report);
      forall i :: 0 <= i < |diffs| ==> 1 <= diffs[i].0 <= 3 && diffs[i].1 == -1
  {
    var diffs := CalcDiffs(report);
    forall i | 0 <= i < |diffs| ensures 1 <= diffs[i].0 <= 3 && diffs[i].1 == -1 {
      assert 1 <= report[i] - report[i + 1] <= 3;
    }
  }

  lemma SteadyIsSafe(report: seq<int>)
    requires |report| >= 2 && (StepsUp(report) || StepsDown(report))
    ensures IsSafe(report)
  {
    if StepsUp(report) {
      StepsUpDiffs(report);
    } else {
      StepsDownDiffs(report);
    }
    OneSign(CalcDiffs(report));
  }

  /** Fewer than two levels give no signs at all, hence never exactly one. */
  lemma ShortReportsUnsafe(report: seq<int>)
    requires |report| < 2
    ensures !IsSafe(report)
  {
    assert Signs(CalcDiffs(report)) == {};
  }

  /** A report is safe exactly when it has at least two levels and climbs,
      or falls, by one to three at every step. */
  lemma SafeIffSteady(report: seq<int>)
    ensures IsSafe(report) <==> |report| >= 2 && (StepsUp(report) || StepsDown(report))
  {
    if |report| < 2 {
      ShortReportsUnsafe(report);
    } else if IsSafe(report) {
      SafeIsSteady(report);
    } else if StepsUp(report) || StepsDown(report) {
      SteadyIsSafe(report);
    }
  }

  /** Every safe report is strictly monotone. */
  lemma SafeIsMonotone(report: seq<int>, i: int, j: int)
    requires IsSafe(report) && 0 <= i < j < |report|
    ensures report[i] < report[j] || report[i] > report[j]
    ensures (report[0] < report[1]) <==> report[i] < report[j]
  {
    SafeIffSteady(report);
    if StepsUp(report) {
      StepsUpOrdered(report, i, j);
      StepsUpOrdered(report, 0, 1);
    } else {
      StepsDownOrdered(report, i, j);
      StepsDownOrdered(report, 0, 1);
    }
  }

  lemma {:induction false} StepsUpOrdered(report: seq<int>, i: int, j: int)
    requires StepsUp(report) && 0 <= i < j < |report|
    ensures report[i] < report[j]
    decreases j - i
  {
    if i + 1 < j {
      StepsUpOrdered(report, i + 1, j);
    }
  }

  lemma {:induction false} StepsDownOrdered(report: seq<int>, i: int, j: int)
    requires StepsDown(report) && 0 <= i < j < |report|
    ensures report[i] > report[j]
    decreases j - i
  {
    if i + 1 < j {
      StepsDownOrdered(report, i + 1, j);
    }
  }

  /** `count_safe_reports_1`: how many reports pass the filter. */
  function CountSafeReports(reports: seq<seq<int>>): (r: nat)
    ensures r <= |reports|
  {
    CountIf(reports, IsSafe)
  }

  /** All reports are counted exactly when all are safe, none exactly when none is,
      and the count of a concatenation is the sum of the counts. */
  lemma CountSafeReportsSpec(a: seq<seq<int>>, b: seq<seq<int>>)
    ensures CountSafeReports(a) == |a| <==> forall i :: 0 <= i < |a| ==> IsSafe(a[i])
    ensures CountSafeReports(a) == 0 <==> forall i :: 0 <= i < |a| ==> !IsSafe(a[i])
    ensures CountSafeReports(a + b) == CountSafeReports(a) + CountSafeReports(b)
  {
    CountIfExtremes(a, IsSafe);
    CountIfAppend(a, b, IsSafe);
  }
}
