/** The bookkeeping of the nested loops of `eval_key_distances`
    (day21/src/main.rs): a loop whose items each contribute a run of
    comparisons, and the running shortest length with the first item that
    reached it. */
module Comparisons {
  import opened Wrappers
  import opened Parse

  /** The items of `f(x)` for every `x` of `xs`, in order: the comparisons a
      loop over `xs` makes when item `x` contributes the comparisons `f(x)`. */
  function FlatMap<A, B>(xs: seq<A>, f: A -> seq<B>): seq<B>
    decreases |xs|
  {
    if xs == [] then [] else FlatMap(xs[..|xs| - 1], f) + f(xs[|xs| - 1])
  }

  /** One comparison: a strictly shorter length replaces `shortest` and `result`. */
  function Improve(st: (nat, Option<string>), e: (nat, string)): (nat, Option<string>) {
    if e.0 < st.0 then (e.0, Some(e.1)) else st
  }

  /** The state after a run of comparisons. */
  function Best(events: seq<(nat, string)>, st: (nat, Option<string>)): (nat, Option<string>) {
    if events == [] then st else Improve(Best(events[..|events| - 1], st), events[|events| - 1])
  }

  lemma {:induction false} BestAppend(a: seq<(nat, string)>, b: seq<(nat, string)>, st: (nat, Option<string>))
    ensures Best(a + b, st) == Best(b, Best(a, st))
    decreases |b|
  {
    if b == [] {
      assert a + b == a;
    } else {
      BestAppend(a, b[..|b| - 1], st);
      assert (a + b)[..|a + b| - 1] == a + b[..|b| - 1];
    }
  }

  /** The result after the comparisons `ev`, starting from `usize::MAX` and no candidate. */
  function Outcome(ev: seq<(nat, string)>): Option<(nat, string)> {
    var st := Best(ev, (USIZE_MAX, None));
    if st.1.None? then None else Some((st.0, st.1.value))
  }

  /** A run of comparisons ends at the smallest length seen (or the starting
      `shortest` if none is smaller), recorded by the first event reaching it. */
  lemma {:induction false} BestIsFirstMinimum(ev: seq<(nat, string)>, st: (nat, Option<string>))
    ensures Best(ev, st).0 <= st.0
    ensures forall k :: 0 <= k < |ev| ==> Best(ev, st).0 <= ev[k].0
    ensures (forall k :: 0 <= k < |ev| ==> ev[k].0 >= st.0) ==> Best(ev, st) == st
    ensures (exists k :: 0 <= k < |ev| && ev[k].0 < st.0) ==>
      exists k :: 0 <= k < |ev| && Best(ev, st) == (ev[k].0, Some(ev[k].1)) &&
        forall j :: 0 <= j < k ==> ev[j].0 > ev[k].0
    decreases |ev|
  {
    if ev != [] {
      var p, e := ev[..|ev| - 1], ev[|ev| - 1];
      BestIsFirstMinimum(p, st);
      var r := Best(p, st);
      assert forall k :: 0 <= k < |p| ==> p[k] == ev[k];
      if e.0 < r.0 {
        assert forall j :: 0 <= j < |ev| - 1 ==> ev[j].0 > e.0;
      }
    }
  }

  /** `r` is what a run over `ev` should end with: nothing when no comparison
      beats `usize::MAX`, otherwise the smallest length, recorded at its first event. */
  ghost predicate FirstShortest(ev: seq<(nat, string)>, r: Option<(nat, string)>) {
    (r.None? <==> forall k :: 0 <= k < |ev| ==> ev[k].0 >= USIZE_MAX) &&
    (r.Some? ==>
      (forall k :: 0 <= k < |ev| ==> r.value.0 <= ev[k].0) &&
      exists k :: 0 <= k < |ev| && ev[k] == r.value && forall j :: 0 <= j < k ==> ev[j].0 > r.value.0)
  }

  lemma OutcomeIsFirstShortest(ev: seq<(nat, string)>)
    ensures Outcome(ev).None? <==> forall k :: 0 <= k < |ev| ==> ev[k].0 >= USIZE_MAX
    ensures var r := Outcome(ev);
      r.Some? ==>
        (forall k :: 0 <= k < |ev| ==> r.value.0 <= ev[k].0) &&
        exists k :: 0 <= k < |ev| && ev[k] == r.value && forall j :: 0 <= j < k ==> ev[j].0 > r.value.0
  {
    BestIsFirstMinimum(ev, (USIZE_MAX, None));
  }

  lemma {:induction false} FlatMapAppend<A, B>(xs: seq<A>, ys: seq<A>, f: A -> seq<B>)
    ensures FlatMap(xs + ys, f) == FlatMap(xs, f) + FlatMap(ys, f)
    decreases |ys|
  {
    if ys == [] {
      assert xs + ys == xs;
    } else {
      FlatMapAppend(xs, ys[..|ys| - 1], f);
      assert (xs + ys)[..|xs + ys| - 1] == xs + ys[..|ys| - 1];
    }
  }

  /** One more element adds its piece at the end. */
  lemma FlatMapSnoc<A, B>(xs: seq<A>, i: nat, f: A -> seq<B>)
    requires i < |xs|
    ensures FlatMap(xs[..i + 1], f) == FlatMap(xs[..i], f) + f(xs[i])
  {
    assert xs[..i + 1][..i] == xs[..i];
  }

  /** A single comparison is `Improve`. */
  lemma BestOne(e: (nat, string), st: (nat, Option<string>))
    ensures Best([e], st) == Improve(st, e)
  {
    var ev := [e];
    assert ev[..0] == [];
  }

  lemma FlatMapSingle<A, B>(x: A, f: A -> seq<B>)
    ensures FlatMap([x], f) == f(x)
  {
    var xs := [x];
    assert xs[..0] == [];
  }

  /** An item is produced exactly when some element of `xs` produces it. */
  lemma {:induction false} FlatMapMembers<A, B>(xs: seq<A>, f: A -> seq<B>, e: B)
    ensures e in FlatMap(xs, f) <==> exists x :: x in xs && e in f(x)
    decreases |xs|
  {
    if xs != [] {
      var p, last := xs[..|xs| - 1], xs[|xs| - 1];
      FlatMapMembers(p, f, e);
      assert xs == p + [last];
      if e in FlatMap(p, f) {
        var x :| x in p && e in f(x);
        assert x in xs;
      }
      if x :| x in xs && e in f(x) {
        if x != last {
          assert x in p;
        }
      }
    }
  }

  /** Item `k` of the output comes from element `i`, at offset `k - pre` of its piece. */
  ghost predicate InPiece<A, B>(xs: seq<A>, f: A -> seq<B>, k: nat, i: nat) {
    i < |xs| && k < |FlatMap(xs, f)| &&
    var pre := |FlatMap(xs[..i], f)|;
    pre <= k < pre + |f(xs[i])| && FlatMap(xs, f)[k] == f(xs[i])[k - pre]
  }

  /** Every item of the output comes from the piece of one element. */
  lemma {:induction false} FlatMapLocate<A, B>(xs: seq<A>, f: A -> seq<B>, k: nat)
    requires k < |FlatMap(xs, f)|
    ensures exists i: nat :: InPiece(xs, f, k, i)
    decreases |xs|
  {
    var p, last := xs[..|xs| - 1], xs[|xs| - 1];
    var out, op := FlatMap(xs, f), FlatMap(p, f);
    assert out == op + f(last);
    if k < |op| {
      FlatMapLocate(p, f, k);
      var i: nat :| InPiece(p, f, k, i);
      assert p[..i] == xs[..i];
      assert out[k] == op[k];
      assert InPiece(xs, f, k, i);
    } else {
      assert xs[..|xs| - 1] == p;
      assert InPiece(xs, f, k, |xs| - 1);
    }
  }

  /** An item of the piece of element `j` comes before everything the elements
      from `i > j` on produce. */
  lemma FlatMapEarlierPiece<A, B>(xs: seq<A>, f: A -> seq<B>, j: nat, i: nat, e: B)
    requires j < i <= |xs| && e in f(xs[j])
    ensures exists m :: 0 <= m < |FlatMap(xs[..i], f)| && m < |FlatMap(xs, f)| && FlatMap(xs, f)[m] == e
  {
    assert xs == xs[..i] + xs[i..];
    FlatMapAppend(xs[..i], xs[i..], f);
    assert xs[..i][j] == xs[j];
    FlatMapMembers(xs[..i], f, e);
    var pre := FlatMap(xs[..i], f);
    var m :| 0 <= m < |pre| && pre[m] == e;
    assert FlatMap(xs, f)[m] == e;
  }

  /** No comparison is shorter than the outcome. */
  lemma OutcomeBelow<A>(xs: seq<A>, f: A -> seq<(nat, string)>, j: nat, e: (nat, string))
    requires Outcome(FlatMap(xs, f)).Some? && j < |xs| && e in f(xs[j])
    ensures Outcome(FlatMap(xs, f)).value.0 <= e.0
  {
    assert xs[..|xs|] == xs;
    FlatMapEarlierPiece(xs, f, j, |xs|, e);
    OutcomeIsFirstShortest(FlatMap(xs, f));
  }

  /** Every element before a piece that starts no later than `k` produces only
      comparisons longer than `n`, when all comparisons before `k` are. */
  lemma EarlierPiecesLonger<A>(xs: seq<A>, f: A -> seq<(nat, string)>, i: nat, k: nat, n: nat)
    requires i <= |xs| && |FlatMap(xs[..i], f)| <= k <= |FlatMap(xs, f)|
    requires forall j :: 0 <= j < k ==> FlatMap(xs, f)[j].0 > n
    ensures forall j, e :: 0 <= j < i && e in f(xs[j]) ==> n < e.0
  {
    forall j, e | 0 <= j < i && e in f(xs[j])
      ensures n < e.0
    {
      FlatMapEarlierPiece(xs, f, j, i, e);
    }
  }

  /** The outcome comes from the piece of one element, and every element
      before it produces only strictly longer comparisons. */
  lemma OutcomeFirstPiece<A>(xs: seq<A>, f: A -> seq<(nat, string)>)
    requires Outcome(FlatMap(xs, f)).Some?
    ensures var r := Outcome(FlatMap(xs, f)).value;
      exists i :: 0 <= i < |xs| && r in f(xs[i]) &&
        forall j, e :: 0 <= j < i && e in f(xs[j]) ==> r.0 < e.0
  {
    var ev := FlatMap(xs, f);
    var r := Outcome(ev).value;
    OutcomeIsFirstShortest(ev);
    var k :| 0 <= k < |ev| && ev[k] == r && forall j :: 0 <= j < k ==> ev[j].0 > r.0;
    FlatMapLocate(xs, f, k);
    var i: nat :| InPiece(xs, f, k, i);
    PieceMember(xs, f, k, i);
    EarlierPiecesLonger(xs, f, i, k, r.0);
  }

  /** The item at `k` is a member of the piece it lies in, and that piece
      starts at or before `k`. */
  lemma PieceMember<A, B>(xs: seq<A>, f: A -> seq<B>, k: nat, i: nat)
    requires InPiece(xs, f, k, i)
    ensures FlatMap(xs, f)[k] in f(xs[i]) && |FlatMap(xs[..i], f)| <= k <= |FlatMap(xs, f)|
  {
    var pre := |FlatMap(xs[..i], f)|;
    assert f(xs[i])[k - pre] == FlatMap(xs, f)[k];
  }
}
