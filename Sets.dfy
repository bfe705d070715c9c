/** Sets built up by a loop that inserts into a `HashSet`: the union of one
    set per index of a range, in index order. */
module Sets {
  import opened Wrappers

  /** The union of `f(k)` for `lo <= k < hi`. */
  function UnionRange<T>(lo: nat, hi: nat, f: nat -> set<T>): set<T>
    decreases hi
  {
    if hi <= lo then {} else UnionRange(lo, hi - 1, f) + f(hi - 1)
  }

  /** One more index adds its set. */
  lemma UnionRangeSnoc<T>(lo: nat, hi: nat, f: nat -> set<T>, acc: set<T>, before: set<T>)
    requires lo <= hi && acc == before + UnionRange(lo, hi, f)
    ensures acc + f(hi) == before + UnionRange(lo, hi + 1, f)
  {
  }

  /** One more index adds its set, given as `step`, to the accumulator. */
  lemma UnionRangeStep<T>(lo: nat, hi: nat, f: nat -> set<T>, before: set<T>, acc: set<T>, step: set<T>, after: set<T>)
    requires lo <= hi && acc == before + UnionRange(lo, hi, f)
    requires step == f(hi) && after == acc + step
    ensures after == before + UnionRange(lo, hi + 1, f)
  {
  }

  /** The one element of a `Some`, nothing for `None`. */
  function OptSet<T>(o: Option<T>): (r: set<T>)
    ensures o.None? ==> r == {}
    ensures o.Some? ==> r == {o.value}
  {
    if o.Some? then {o.value} else {}
  }

  /** An element is in the union exactly when one of the sets holds it. */
  lemma {:induction false} UnionRangeMember<T>(lo: nat, hi: nat, f: nat -> set<T>, x: T)
    ensures x in UnionRange(lo, hi, f) <==> exists k :: lo <= k < hi && x in f(k)
    decreases hi
  {
    if hi > lo {
      UnionRangeMember(lo, hi - 1, f, x);
    }
  }

  /** Each set one holds. */
  lemma UnionRangeHas<T>(lo: nat, hi: nat, f: nat -> set<T>, k: nat, x: T)
    requires lo <= k < hi && x in f(k)
    ensures x in UnionRange(lo, hi, f)
  {
    UnionRangeMember(lo, hi, f, x);
  }

  /** Larger sets give a larger union. */
  lemma {:induction false} UnionRangeMono<T>(lo: nat, hi: nat, f: nat -> set<T>, g: nat -> set<T>)
    requires forall k :: lo <= k < hi ==> f(k) <= g(k)
    ensures UnionRange(lo, hi, f) <= UnionRange(lo, hi, g)
    decreases hi
  {
    if hi > lo {
      UnionRangeMono(lo, hi - 1, f, g);
    }
  }

  /** A subset is no larger than its superset. */
  lemma {:induction false} SubsetCard<T>(a: set<T>, b: set<T>)
    requires a <= b
    ensures |a| <= |b|
    decreases |a|
  {
    if a != {} {
      var x :| x in a;
      SubsetCard(a - {x}, b - {x});
    }
  }

  /** Taking `x` out of what is left to visit: it joins what was visited,
      and fewer are left. */
  lemma TakeOne<T>(all: set<T>, rest: set<T>, x: T)
    requires x in rest && rest <= all
    ensures all - (rest - {x}) == (all - rest) + {x}
    ensures |rest - {x}| < |rest|
  {
  }
}
