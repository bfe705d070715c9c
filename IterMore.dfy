/** Iterator adaptors (aoc_tools/src/itermore.rs). */
module IterMore {
  import opened Wrappers

  /** `try_collect_vec`: every value when every item is `Ok`, else the first error. */
  function TryCollectVec<T, E>(items: seq<Result<T, E>>): (r: Result<seq<T>, E>)
    ensures r.Ok? <==> forall i :: 0 <= i < |items| ==> items[i].Ok?
    ensures r.Ok? ==> |r.value| == |items| && forall i :: 0 <= i < |items| ==> r.value[i] == items[i].value
    ensures r.Err? ==> exists i :: 0 <= i < |items| && items[i] == Err(r.error) && forall j :: 0 <= j < i ==> items[j].Ok?
  {
    if items == [] then Ok([])
    else match items[0]
      case Err(e) => Err(e)
      case Ok(v) =>
        match TryCollectVec(items[1..])
        case Err(e) => Err(e)
        case Ok(vs) => Ok([v] + vs)
  }

  /** The map a successful `try_collect_map` builds: later pairs overwrite earlier ones. */
  function Insert<K, V>(m: map<K, V>, pairs: seq<(K, V)>): map<K, V>
    decreases |pairs|
  {
    if pairs == [] then m else Insert(m[pairs[0].0 := pairs[0].1], pairs[1..])
  }

  /** `try_collect_map`: the map of all pairs when every item is `Ok`, else the first error. */
  function TryCollectMap<K(!new), V, E>(items: seq<Result<(K, V), E>>): (r: Result<map<K, V>, E>)
    ensures r.Ok? <==> forall i :: 0 <= i < |items| ==> items[i].Ok?
    ensures r.Ok? ==> forall k :: k in r.value <==> exists i :: 0 <= i < |items| && items[i].value.0 == k
    ensures r.Ok? ==> forall k :: k in r.value ==> LastFor(Values(items), k, r.value[k])
    ensures r.Err? ==> exists i :: 0 <= i < |items| && items[i] == Err(r.error) && forall j :: 0 <= j < i ==> items[j].Ok?
  {
    match TryCollectVec(items)
    case Err(e) => Err(e)
    case Ok(pairs) =>
      InsertKeys(map[], pairs);
      InsertValues(map[], pairs);
      assert pairs == Values(items);
      Ok(Insert(map[], pairs))
  }

  /** The pairs of a list of `Ok` items. */
  function Values<T, E>(items: seq<Result<T, E>>): (vs: seq<T>)
    requires forall i :: 0 <= i < |items| ==> items[i].Ok?
    ensures |vs| == |items| && forall i :: 0 <= i < |items| ==> vs[i] == items[i].value
  {
    seq(|items|, i requires 0 <= i < |items| => items[i].value)
  }

  /** `(k, v)` is the last pair with key `k`: what a `HashMap` keeps for `k`. */
  ghost predicate LastFor<K, V>(pairs: seq<(K, V)>, k: K, v: V) {
    exists i :: 0 <= i < |pairs| && pairs[i] == (k, v) && forall j :: i < j < |pairs| ==> pairs[j].0 != k
  }

  /** A key no pair mentions keeps its value. */
  lemma {:induction false} InsertUntouched<K(!new), V>(m: map<K, V>, pairs: seq<(K, V)>, k: K)
    requires k in m && forall i :: 0 <= i < |pairs| ==> pairs[i].0 != k
    ensures k in Insert(m, pairs) && Insert(m, pairs)[k] == m[k]
    decreases |pairs|
  {
    if pairs != [] {
      InsertUntouched(m[pairs[0].0 := pairs[0].1], pairs[1..], k);
    }
  }

  /** A key some pair mentions ends with the value of its last pair. */
  lemma {:induction false} InsertValue<K(!new), V>(m: map<K, V>, pairs: seq<(K, V)>, k: K)
    requires exists i :: 0 <= i < |pairs| && pairs[i].0 == k
    ensures k in Insert(m, pairs) && LastFor(pairs, k, Insert(m, pairs)[k])
    decreases |pairs|
  {
    var m', rest := m[pairs[0].0 := pairs[0].1], pairs[1..];
    assert Insert(m, pairs) == Insert(m', rest);
    if exists i :: 0 <= i < |rest| && rest[i].0 == k {
      InsertValue(m', rest, k);
      var v := Insert(m', rest)[k];
      var i :| 0 <= i < |rest| && rest[i] == (k, v) && forall j :: i < j < |rest| ==> rest[j].0 != k;
      assert pairs[i + 1] == rest[i];
      forall j | i + 1 < j < |pairs| ensures pairs[j].0 != k {
        assert pairs[j] == rest[j - 1];
      }
    } else {
      InsertUntouched(m', rest, k);
      forall j | 0 < j < |pairs| ensures pairs[j].0 != k {
        assert pairs[j] == rest[j - 1];
      }
      assert pairs[0] == (k, Insert(m, pairs)[k]);
    }
  }

  lemma InsertValues<K(!new), V>(m: map<K, V>, pairs: seq<(K, V)>)
    ensures forall k :: (exists i :: 0 <= i < |pairs| && pairs[i].0 == k) ==> k in Insert(m, pairs) && LastFor(pairs, k, Insert(m, pairs)[k])
  {
    forall k | exists i :: 0 <= i < |pairs| && pairs[i].0 == k
      ensures k in Insert(m, pairs) && LastFor(pairs, k, Insert(m, pairs)[k])
    {
      InsertValue(m, pairs, k);
    }
  }

  lemma {:induction false} InsertKeys<K(!new), V>(m: map<K, V>, pairs: seq<(K, V)>)
    ensures forall k :: k in Insert(m, pairs) <==> k in m || exists i :: 0 <= i < |pairs| && pairs[i].0 == k
    decreases |pairs|
  {
    if pairs != [] {
      InsertKeys(m[pairs[0].0 := pairs[0].1], pairs[1..]);
      assert forall i :: 0 <= i < |pairs[1..]| ==> pairs[1..][i] == pairs[i + 1];
    }
  }

  /** The state `stateful_map` holds after consuming `items` from `state`. */
  function StateAfter<A, B, S>(f: (S, A) -> (S, B), state: S, items: seq<A>): S
    decreases |items|
  {
    if items == [] then state else StateAfter(f, f(state, items[0]).0, items[1..])
  }

  /** Everything a `stateful_map` adaptor yields: `f` threads the state (its
      first result) and produces the output (its second). */
  function StatefulMapAll<A, B, S>(f: (S, A) -> (S, B), state: S, items: seq<A>): (out: seq<B>)
    ensures |out| == |items|
    decreases |items|
  {
    if items == [] then [] else [f(state, items[0]).1] + StatefulMapAll(f, f(state, items[0]).0, items[1..])
  }

  /** Output i is `f` applied to item i in the state left by the items before it. */
  lemma {:induction false} StatefulMapThreadsState<A, B, S>(f: (S, A) -> (S, B), state: S, items: seq<A>, i: nat)
    requires i < |items|
    ensures StatefulMapAll(f, state, items)[i] == f(StateAfter(f, state, items[..i]), items[i]).1
  {
    if i > 0 {
      StatefulMapThreadsState(f, f(state, items[0]).0, items[1..], i - 1);
      assert items[1..][..i - 1] == items[..i][1..];
    }
  }

  /** `StatefulMap`: the underlying items (`items[pos..]` not yet consumed), the
      mapping function and the mutable state. */
  class StatefulMap<A, B, S> {
    const items: seq<A>
    const f: (S, A) -> (S, B)
    var pos: nat
    var state: S

    ghost predicate Valid()
      reads this
    {
      pos <= |items|
    }

    /** `stateful_map(initial_state, f)`. */
    constructor (items: seq<A>, initialState: S, f: (S, A) -> (S, B))
      ensures Valid() && this.items == items && this.f == f && pos == 0 && state == initialState
    {
      this.items := items;
      this.f := f;
      pos := 0;
      state := initialState;
    }

    /** What the adaptor still yields. */
    function Remaining(): seq<B>
      requires Valid()
      reads this
    {
      StatefulMapAll(f, state, items[pos..])
    }

    /** `Iterator::next`: map the next item through `f`, updating the state. */
    method Next() returns (r: Option<B>)
      requires Valid()
      modifies this
      ensures Valid()
      ensures old(pos) == |items| ==> r == None && pos == old(pos) && state == old(state)
      ensures old(pos) < |items| ==> r == Some(old(Remaining())[0]) && pos == old(pos) + 1
      ensures old(pos) < |items| ==> Remaining() == old(Remaining())[1..]
    {
      if pos == |items| {
        r := None;
      } else {
        var (s, out) := f(state, items[pos]);
        assert items[pos..][1..] == items[pos + 1..];
        state := s;
        pos := pos + 1;
        r := Some(out);
      }
    }
  }

  /** Draining a fresh adaptor yields `StatefulMapAll` of its items. */
  method CollectStatefulMap<A, B, S>(items: seq<A>, initialState: S, f: (S, A) -> (S, B)) returns (out: seq<B>)
    ensures out == StatefulMapAll(f, initialState, items)
  {
    var it := new StatefulMap(items, initialState, f);
    out := [];
    var next := it.Next();
    while next.Some?
      invariant it.Valid() && it.items == items && it.f == f
      invariant next.Some? ==> out + [next.value] + it.Remaining() == StatefulMapAll(f, initialState, items)
      invariant next.None? ==> out == StatefulMapAll(f, initialState, items)
      decreases |items| - it.pos, next.Some?
    {
      out := out + [next.value];
      next := it.Next();
    }
  }

  function Sum(xs: seq<int>): int {
    if xs == [] then 0 else Sum(xs[..|xs| - 1]) + xs[|xs| - 1]
  }

  /** The running-sum step of the module's own fixture: add the item to the state and yield it. */
  function RunningSum(acc: int, x: int): (int, int) {
    (acc + x, acc + x)
  }

  /** A running sum from `acc` yields `acc` plus each prefix sum. */
  lemma {:induction false} RunningSumIsPrefixSums(acc: int, items: seq<int>, i: nat)
    requires i < |items|
    ensures StatefulMapAll(RunningSum, acc, items)[i] == acc + Sum(items[..i + 1])
    decreases i
  {
    if i > 0 {
      RunningSumIsPrefixSums(acc + items[0], items[1..], i - 1);
      PrefixSumShift(items, i);
    } else {
      assert items[..1] == [items[0]];
    }
  }

  lemma {:induction false} PrefixSumShift(items: seq<int>, i: nat)
    requires 0 < i < |items|
    ensures Sum(items[..i + 1]) == items[0] + Sum(items[1..][..i])
    decreases i
  {
    if i == 1 {
      assert items[1..][..0] == [];
      assert items[..2][..1] == [items[0]];
    } else {
      PrefixSumShift(items, i - 1);
      assert items[..i + 1][..i] == items[..i];
      assert items[1..][..i][..i - 1] == items[1..][..i - 1];
    }
  }

  /** Fixture: the running sum of 1..5 from 0. */
  lemma RunningSumFixture()
    ensures StatefulMapAll(RunningSum, 0, [1, 2, 3, 4, 5]) == [1, 3, 6, 10, 15]
  {
  }

  /** `aggregate`: `None` on no items, otherwise the left fold of `aggregator`
      starting from the first item converted by `into`. */
  function Aggregate<A, B>(items: seq<A>, into: A -> B, aggregator: (B, A) -> B): (r: Option<B>)
    ensures r.None? <==> items == []
    decreases |items|
  {
    if items == [] then None
    else match Aggregate(items[..|items| - 1], into, aggregator)
      case None => Some(into(items[|items| - 1]))
      case Some(acc) => Some(aggregator(acc, items[|items| - 1]))
  }

  /** The fold as a left-to-right loop from the first item. */
  function FoldFrom<A, B>(acc: B, items: seq<A>, aggregator: (B, A) -> B): B
    decreases |items|
  {
    if items == [] then acc else FoldFrom(aggregator(acc, items[0]), items[1..], aggregator)
  }

  /** `aggregate` is the left fold starting from `into(first)` over the rest. */
  lemma {:induction false} AggregateIsFoldFromFirst<A, B>(items: seq<A>, into: A -> B, aggregator: (B, A) -> B)
    requires items != []
    ensures Aggregate(items, into, aggregator) == Some(FoldFrom(into(items[0]), items[1..], aggregator))
    decreases |items|
  {
    if |items| > 1 {
      var init := items[..|items| - 1];
      AggregateIsFoldFromFirst(init, into, aggregator);
      assert init[0] == items[0] && init[1..] == items[1..][..|items| - 2];
      FoldSnoc(into(items[0]), items[1..][..|items| - 2], items[|items| - 1], aggregator);
      assert items[1..][..|items| - 2] + [items[|items| - 1]] == items[1..];
    }
  }

  lemma {:induction false} FoldSnoc<A, B>(acc: B, items: seq<A>, x: A, aggregator: (B, A) -> B)
    ensures FoldFrom(acc, items + [x], aggregator) == aggregator(FoldFrom(acc, items, aggregator), x)
    decreases |items|
  {
    if items != [] {
      assert (items + [x])[1..] == items[1..] + [x];
      FoldSnoc(aggregator(acc, items[0]), items[1..], x, aggregator);
    }
  }
}
