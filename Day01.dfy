/** Day 1 (day01/src/main.rs): two columns of location ids, compared by
    sorted distance (part 1) and by similarity score (part 2). */
module Day01 {
  import opened Wrappers
  import opened Parse
  import opened Sorting

  /** `parse_locations`: exactly two whitespace-separated `i32` values;
      `None` is the `InvalidInput` error. */
  function ParseLocations(line: string): (r: Option<(int, int)>)
    ensures r.Some? <==> (|Words(line)| == 2 &&
      ParseSigned(Words(line)[0], I32_MIN, I32_MAX).Some? && ParseSigned(Words(line)[1], I32_MIN, I32_MAX).Some?)
    ensures r.Some? ==> (Some(r.value.0) == ParseSigned(Words(line)[0], I32_MIN, I32_MAX) &&
      Some(r.value.1) == ParseSigned(Words(line)[1], I32_MIN, I32_MAX))
  {
    match ParseSignedAll(Words(line), I32_MIN, I32_MAX)
    case None => None
    case Some(vs) => if |vs| == 2 then Some((vs[0], vs[1])) else None
  }

  lemma SignedStringIsWord(n: int)
    ensures IsWord(SignedString(n))
  {
    var s := SignedString(n);
    if n < 0 {
      assert s == "-" + DecimalString(-n);
      forall i | 0 <= i < |s|
        ensures !IsAsciiWhitespace(s[i])
      {
        if i > 0 {
          assert s[i] == DecimalString(-n)[i - 1];
        }
      }
    }
  }

  /** A line holding two printed ids separated by a space parses back to them. */
  lemma ParseLocationsRoundTrip(a: int, b: int)
    requires I32_MIN <= a <= I32_MAX && I32_MIN <= b <= I32_MAX
    ensures ParseLocations(SignedString(a) + " " + SignedString(b)) == Some((a, b))
  {
    var ws := [SignedString(a), SignedString(b)];
    SignedStringIsWord(a);
    SignedStringIsWord(b);
    assert Unwords(ws) == SignedString(a) + " " + SignedString(b) by {
      assert ws[1..] == [SignedString(b)];
    }
    WordsOfUnwords(ws);
    ParseSignedRoundTrip(a, I32_MIN, I32_MAX);
    ParseSignedRoundTrip(b, I32_MIN, I32_MAX);
  }

  function Firsts(locs: seq<(int, int)>): (r: seq<int>)
    ensures |r| == |locs| && forall i :: 0 <= i < |locs| ==> r[i] == locs[i].0
  {
    seq(|locs|, i requires 0 <= i < |locs| => locs[i].0)
  }

  function Seconds(locs: seq<(int, int)>): (r: seq<int>)
    ensures |r| == |locs| && forall i :: 0 <= i < |locs| ==> r[i] == locs[i].1
  {
    seq(|locs|, i requires 0 <= i < |locs| => locs[i].1)
  }

  function Abs(n: int): nat {
    if n < 0 then -n else n
  }

  /** The sum of the pairwise distances of two equally long lists. */
  function Distance(a: seq<int>, b: seq<int>): nat
    requires |a| == |b|
  {
    if a == [] then 0 else Abs(a[0] - b[0]) + Distance(a[1..], b[1..])
  }

  /** `match_lists_1`: both columns sorted, then the distances of the pairs summed. */
  function MatchLists1(locs: seq<(int, int)>): nat {
    Distance(Sort(Firsts(locs)), Sort(Seconds(locs)))
  }

  function Swap(locs: seq<(int, int)>): (r: seq<(int, int)>)
    ensures |r| == |locs| && forall i :: 0 <= i < |locs| ==> r[i] == (locs[i].1, locs[i].0)
  {
    seq(|locs|, i requires 0 <= i < |locs| => (locs[i].1, locs[i].0))
  }

  lemma {:induction false} DistanceSymmetric(a: seq<int>, b: seq<int>)
    requires |a| == |b|
    ensures Distance(a, b) == Distance(b, a)
  {
    if a != [] {
      DistanceSymmetric(a[1..], b[1..]);
    }
  }

  /** Part 1 does not care which column is which. */
  lemma MatchLists1Swap(locs: seq<(int, int)>)
    ensures MatchLists1(Swap(locs)) == MatchLists1(locs)
  {
    assert Firsts(Swap(locs)) == Seconds(locs);
    assert Seconds(Swap(locs)) == Firsts(locs);
    DistanceSymmetric(Sort(Firsts(locs)), Sort(Seconds(locs)));
  }

  /** Part 1 does not care about the order of either column. */
  lemma MatchLists1Reorder(l1: seq<(int, int)>, l2: seq<(int, int)>)
    requires multiset(Firsts(l1)) == multiset(Firsts(l2)) && multiset(Seconds(l1)) == multiset(Seconds(l2))
    ensures MatchLists1(l1) == MatchLists1(l2)
  {
    SortOfPermutation(Firsts(l1), Firsts(l2));
    SortOfPermutation(Seconds(l1), Seconds(l2));
  }

  lemma {:induction false} DistanceZero(a: seq<int>, b: seq<int>)
    requires |a| == |b|
    ensures Distance(a, b) == 0 <==> a == b
  {
    if a != [] {
      DistanceZero(a[1..], b[1..]);
      assert a == [a[0]] + a[1..] && b == [b[0]] + b[1..];
    }
  }

  /** Part 1 is zero exactly when the two columns hold the same ids, each as often. */
  lemma MatchLists1ZeroIff(locs: seq<(int, int)>)
    ensures MatchLists1(locs) == 0 <==> multiset(Firsts(locs)) == multiset(Seconds(locs))
  {
    var a, b := Sort(Firsts(locs)), Sort(Seconds(locs));
    assert |a| == |multiset(a)| == |locs| == |multiset(b)| == |b|;
    DistanceZero(a, b);
    if multiset(Firsts(locs)) == multiset(Seconds(locs)) {
      SortedUnique(a, b);
    }
  }

  /** How often `x` occurs in `s`. */
  function Count(s: seq<int>, x: int): nat
    decreases |s|
  {
    if s == [] then 0 else Count(s[..|s| - 1], x) + (if s[|s| - 1] == x then 1 else 0)
  }

  /** Part 2's score: each id of `a` times the number of its occurrences in `b`. */
  function Similarity(a: seq<int>, b: seq<int>): int
    decreases |a|
  {
    if a == [] then 0 else Similarity(a[..|a| - 1], b) + a[|a| - 1] * Count(b, a[|a| - 1])
  }

  /** `match_lists_2`. */
  function MatchLists2(locs: seq<(int, int)>): int {
    Similarity(Firsts(locs), Seconds(locs))
  }

  lemma CountSnoc(s: seq<int>, x: int, y: int)
    ensures Count(s + [x], y) == Count(s, y) + (if x == y then 1 else 0)
  {
    assert (s + [x])[..|s|] == s;
  }

  lemma Distribute(y: int, c: int, d: int)
    ensures y * (c + d) == y * c + y * d
  {
  }

  /** One more id in the second column adds its own matches in the first. */
  lemma {:induction false} SimilaritySnocRight(b: seq<int>, a: seq<int>, x: int)
    ensures Similarity(b, a + [x]) == Similarity(b, a) + x * Count(b, x)
    decreases |b|
  {
    if b != [] {
      var b', y := b[..|b| - 1], b[|b| - 1];
      var d := if x == y then 1 else 0;
      SimilaritySnocRight(b', a, x);
      CountSnoc(a, x, y);
      assert b == b' + [y];
      CountSnoc(b', y, x);
      Distribute(y, Count(a, y), d);
      Distribute(x, Count(b', x), d);
      assert x * d == y * d;
      calc {
        Similarity(b, a + [x]);
        Similarity(b', a + [x]) + y * Count(a + [x], y);
        Similarity(b', a) + x * Count(b', x) + y * (Count(a, y) + d);
        Similarity(b', a) + y * Count(a, y) + x * (Count(b', x) + d);
        Similarity(b, a) + x * Count(b, x);
      }
    }
  }

  lemma {:induction false} SimilarityOfEmpty(b: seq<int>)
    ensures Similarity(b, []) == 0
    decreases |b|
  {
    if b != [] {
      SimilarityOfEmpty(b[..|b| - 1]);
    }
  }

  /** Part 2 does not care which column is which. */
  lemma {:induction false} SimilaritySymmetric(a: seq<int>, b: seq<int>)
    ensures Similarity(a, b) == Similarity(b, a)
    decreases |a|
  {
    if a != [] {
      var a', x := a[..|a| - 1], a[|a| - 1];
      SimilaritySymmetric(a', b);
      assert a == a' + [x];
      SimilaritySnocRight(b, a', x);
      calc {
        Similarity(a, b);
        Similarity(a', b) + x * Count(b, x);
        Similarity(b, a') + x * Count(b, x);
        Similarity(b, a' + [x]);
        Similarity(b, a);
      }
    } else {
      SimilarityOfEmpty(b);
    }
  }

  /** Both parts score an empty list as zero. */
  lemma EmptyScoresZero()
    ensures MatchLists1([]) == 0 && MatchLists2([]) == 0
  {
    assert Sort([]) == [];
  }
}
