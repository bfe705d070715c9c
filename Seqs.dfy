/** Counting and summing over sequences, the `filter(..).count()` and
    `map(..).sum()` shapes the daily solutions are built from. */
module Seqs {
  import opened Wrappers

  /** The sum of `f` over `s`, `None` as soon as one item gives `None`: the
      shape of a loop that adds up per-item results and panics on a bad item. */
  function SumSome<T>(s: seq<T>, f: T -> Option<nat>): Option<nat>
    decreases |s|
  {
    if s == [] then Some(0)
    else
      match SumSome(s[..|s| - 1], f)
      case None => None
      case Some(n) =>
        match f(s[|s| - 1])
        case None => None
        case Some(c) => Some(n + c)
  }

  /** One more item adds its value, or makes the sum `None`. */
  lemma SumSomeSnoc<T>(s: seq<T>, i: nat, f: T -> Option<nat>)
    requires i < |s|
    ensures SumSome(s[..i + 1], f) ==
      match (SumSome(s[..i], f), f(s[i]))
      case (Some(n), Some(c)) => Some(n + c)
      case _ => None
  {
    assert s[..i + 1][..i] == s[..i];
  }

  /** The sum so far and the next item's value give the next sum. */
  lemma SumSomeStep<T>(s: seq<T>, i: nat, f: T -> Option<nat>, total: nat, c: Option<nat>)
    requires i < |s| && SumSome(s[..i], f) == Some(total) && f(s[i]) == c
    ensures SumSome(s[..i + 1], f) == if c.Some? then Some(total + c.value) else None
  {
    SumSomeSnoc(s, i, f);
  }

  /** Once a prefix gives `None`, so does the whole sequence. */
  lemma {:induction false} SumSomePrefix<T>(s: seq<T>, i: nat, f: T -> Option<nat>)
    requires i <= |s| && SumSome(s[..i], f).None?
    ensures SumSome(s, f).None?
    decreases |s|
  {
    if i < |s| {
      var p := s[..|s| - 1];
      assert p[..i] == s[..i];
      SumSomePrefix(p, i, f);
    } else {
      assert s[..i] == s;
    }
  }
  /** The sum exists exactly when every item has a value. */
  lemma {:induction false} SumSomeDefined<T>(s: seq<T>, f: T -> Option<nat>)
    ensures SumSome(s, f).Some? <==> forall i :: 0 <= i < |s| ==> f(s[i]).Some?
    decreases |s|
  {
    if s != [] {
      var p := s[..|s| - 1];
      SumSomeDefined(p, f);
      assert forall i :: 0 <= i < |p| ==> p[i] == s[i];
    }
  }

  /** The number of items satisfying `p`. */
  function CountIf<T>(s: seq<T>, p: T -> bool): (r: nat)
    ensures r <= |s|
    decreases |s|
  {
    if s == [] then 0 else CountIf(s[..|s| - 1], p) + (if p(s[|s| - 1]) then 1 else 0)
  }

  /** The first `j + 1` elements hold what the first `j` hold and `s[j]`. */
  lemma InPrefixSnoc<T>(s: seq<T>, j: nat)
    requires j < |s|
    ensures forall x :: x in s[..j + 1] <==> x in s[..j] || x == s[j]
  {
    assert s[..j + 1] == s[..j] + [s[j]];
  }

  lemma CountIfAppend<T>(s: seq<T>, t: seq<T>, p: T -> bool)
    ensures CountIf(s + t, p) == CountIf(s, p) + CountIf(t, p)
    decreases |t|
  {
    if t != [] {
      assert (s + t)[..|s + t| - 1] == s + t[..|t| - 1];
      CountIfAppend(s, t[..|t| - 1], p);
    } else {
      assert s + t == s;
    }
  }

  /** Every item is counted exactly when every item satisfies `p`, none exactly when none does. */
  lemma {:induction false} CountIfExtremes<T>(s: seq<T>, p: T -> bool)
    ensures CountIf(s, p) == |s| <==> forall i :: 0 <= i < |s| ==> p(s[i])
    ensures CountIf(s, p) == 0 <==> forall i :: 0 <= i < |s| ==> !p(s[i])
    decreases |s|
  {
    if s != [] {
      var init := s[..|s| - 1];
      CountIfExtremes(init, p);
      assert forall i :: 0 <= i < |init| ==> init[i] == s[i];
    }
  }

  /** A predicate implied by another counts at least as many items. */
  lemma {:induction false} CountIfMonotone<T>(s: seq<T>, p: T -> bool, q: T -> bool)
    requires forall i :: 0 <= i < |s| ==> p(s[i]) ==> q(s[i])
    ensures CountIf(s, p) <= CountIf(s, q)
    decreases |s|
  {
    if s != [] {
      var init := s[..|s| - 1];
      assert forall i :: 0 <= i < |init| ==> init[i] == s[i];
      CountIfMonotone(init, p, q);
    }
  }

  /** The sum of `f` over the items. */
  function SumOf<T>(s: seq<T>, f: T -> int): int
    decreases |s|
  {
    if s == [] then 0 else SumOf(s[..|s| - 1], f) + f(s[|s| - 1])
  }

  lemma SumOfAppend<T>(s: seq<T>, t: seq<T>, f: T -> int)
    ensures SumOf(s + t, f) == SumOf(s, f) + SumOf(t, f)
    decreases |t|
  {
    if t != [] {
      assert (s + t)[..|s + t| - 1] == s + t[..|t| - 1];
      SumOfAppend(s, t[..|t| - 1], f);
    } else {
      assert s + t == s;
    }
  }

  /** A sum of terms that are each at least as large is at least as large. */
  lemma {:induction false} SumOfMonotone<T>(s: seq<T>, f: T -> int, g: T -> int)
    requires forall i :: 0 <= i < |s| ==> f(s[i]) <= g(s[i])
    ensures SumOf(s, f) <= SumOf(s, g)
    decreases |s|
  {
    if s != [] {
      var init := s[..|s| - 1];
      assert forall i :: 0 <= i < |init| ==> init[i] == s[i];
      SumOfMonotone(init, f, g);
    }
  }

  /** Each item replaced by the items `f` gives for it, in order. */
  function FlatMap<T, U>(s: seq<T>, f: T -> seq<U>): seq<U>
    decreases |s|
  {
    if s == [] then [] else FlatMap(s[..|s| - 1], f) + f(s[|s| - 1])
  }

  lemma {:induction false} FlatMapAppend<T, U>(s: seq<T>, t: seq<T>, f: T -> seq<U>)
    ensures FlatMap(s + t, f) == FlatMap(s, f) + FlatMap(t, f)
    decreases |t|
  {
    if t == [] {
      assert s + t == s;
    } else {
      var init := t[..|t| - 1];
      assert (s + t)[..|s + t| - 1] == s + init;
      FlatMapAppend(s, init, f);
    }
  }

  /** When every item gives between `lo` and `hi` items, so does the whole in proportion. */
  lemma {:induction false} FlatMapLength<T, U>(s: seq<T>, f: T -> seq<U>, lo: nat, hi: nat)
    requires forall i :: 0 <= i < |s| ==> lo <= |f(s[i])| <= hi
    ensures lo * |s| <= |FlatMap(s, f)| <= hi * |s|
    decreases |s|
  {
    if s != [] {
      var init := s[..|s| - 1];
      assert forall i :: 0 <= i < |init| ==> init[i] == s[i];
      FlatMapLength(init, f, lo, hi);
      assert lo * |s| == lo * |init| + lo && hi * |s| == hi * |init| + hi;
    }
  }
}
