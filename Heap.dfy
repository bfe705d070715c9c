/** The `BinaryHeap` of search states used by the path-finding days, whose
    `Ord` compares only a score and reverses it: the heap is a max-heap, so
    the "greatest" state it pops is one of least score. Entries are
    `(score, state)`; among entries of equal score the pop order is left open. */
module Heap {
  /** Rust's `std::cmp::Ordering`. */
  datatype Ordering = Less | Equal | Greater

  /** `usize::cmp`. */
  function Cmp(a: nat, b: nat): Ordering {
    if a < b then Less else if a == b then Equal else Greater
  }

  /** The search states' `Ord::cmp`: `other.score.cmp(&self.score)`. */
  function ReversedCmp(self: nat, other: nat): (o: Ordering)
    ensures o == Greater <==> self < other
    ensures o == Equal <==> self == other
    ensures o == Less <==> self > other
  {
    Cmp(other, self)
  }

  /** `q[i]` is a greatest entry under the reversed order: no entry beats it. */
  predicate Greatest<T>(q: seq<(nat, T)>, i: nat) {
    i < |q| && forall j :: 0 <= j < |q| ==> ReversedCmp(q[i].0, q[j].0) != Less
  }

  /** The first entry of least score. */
  function FirstLeast<T>(q: seq<(nat, T)>): (i: nat)
    requires q != []
    ensures i < |q| && forall j :: 0 <= j < |q| ==> q[i].0 <= q[j].0
  {
    if |q| == 1 then 0
    else
      var i := FirstLeast(q[1..]);
      if q[0].0 <= q[i + 1].0 then 0 else i + 1
  }

  /** A greatest entry of the reversed order is one of least score. */
  lemma GreatestIsLeast<T>(q: seq<(nat, T)>, i: nat)
    ensures Greatest(q, i) <==> i < |q| && forall j :: 0 <= j < |q| ==> q[i].0 <= q[j].0
  {
  }

  /** `BinaryHeap::pop` on a non-empty heap: one greatest entry under the
      reversed order, that is one of least score, taken out; the others stay. */
  function Pop<T>(q: seq<(nat, T)>): (r: ((nat, T), seq<(nat, T)>))
    requires q != []
    ensures exists i: nat :: Greatest(q, i) && q[i] == r.0 && r.1 == q[..i] + q[i + 1..]
    ensures r.0 in q && forall j :: 0 <= j < |q| ==> r.0.0 <= q[j].0
    ensures multiset(r.1) + multiset{r.0} == multiset(q)
  {
    var i := FirstLeast(q);
    GreatestIsLeast(q, i);
    (q[i], RemoveAt(q, i))
  }

  /** `q` without its entry at `i`. */
  function RemoveAt<T>(q: seq<T>, i: nat): (rest: seq<T>)
    requires i < |q|
    ensures multiset(rest) + multiset{q[i]} == multiset(q)
    ensures forall x :: x in rest ==> x in q
  {
    assert q == q[..i] + [q[i]] + q[i + 1..];
    q[..i] + q[i + 1..]
  }

  // ---------------------------------------------------------------- counting entries

  /** The states a queue holds, without their scores. */
  ghost function States<T>(q: seq<(nat, T)>): set<T> {
    set e | e in q :: e.1
  }

  /** How many entries of `q` hold a state of `seen`: entries a search
      pushed before their state was visited. */
  ghost function Stale<T>(q: seq<(nat, T)>, seen: set<T>): nat {
    if q == [] then 0 else (if q[0].1 in seen then 1 else 0) + Stale(q[1..], seen)
  }

  lemma StaleAppend<T>(a: seq<(nat, T)>, b: seq<(nat, T)>, seen: set<T>)
    ensures Stale(a + b, seen) == Stale(a, seen) + Stale(b, seen)
  {
    if a == [] {
      assert a + b == b;
    } else {
      assert (a + b)[0] == a[0] && (a + b)[1..] == a[1..] + b;
      StaleAppend(a[1..], b, seen);
    }
  }

  /** Entries whose states are all outside `seen` count nothing. */
  lemma StaleNone<T>(q: seq<(nat, T)>, seen: set<T>)
    requires forall e :: e in q ==> e.1 !in seen
    ensures Stale(q, seen) == 0
  {
    if q != [] {
      assert forall e :: e in q[1..] ==> e in q;
      StaleNone(q[1..], seen);
    }
  }

  /** Taking out entry `i` lowers the count by one exactly when its state is
      in `seen`, and every other entry's state stays queued. */
  lemma RemoveCounts<T>(q: seq<(nat, T)>, i: nat, seen: set<T>)
    requires i < |q|
    ensures Stale(q, seen) == Stale(q[..i] + q[i + 1..], seen) + (if q[i].1 in seen then 1 else 0)
    ensures States(q) <= States(q[..i] + q[i + 1..]) + {q[i].1}
  {
    var rest := q[..i] + q[i + 1..];
    assert q == q[..i] + ([q[i]] + q[i + 1..]);
    StaleAppend(q[..i], [q[i]] + q[i + 1..], seen);
    StaleAppend(q[..i], q[i + 1..], seen);
    assert ([q[i]] + q[i + 1..])[1..] == q[i + 1..];
    forall x | x in States(q)
      ensures x in States(rest) + {q[i].1}
    {
      var e :| e in q && e.1 == x;
      var k :| 0 <= k < |q| && q[k] == e;
      if k < i {
        assert rest[k] == e;
      } else if k > i {
        assert rest[k - 1] == e;
      }
    }
  }

  /** Adding a new member of `area` to `seen` leaves fewer members unseen. */
  lemma Shrinks<T>(area: set<T>, seen: set<T>, x: T)
    requires x in area && x !in seen
    ensures |area - (seen + {x})| < |area - seen|
  {
    assert area - (seen + {x}) == (area - seen) - {x};
  }
}
