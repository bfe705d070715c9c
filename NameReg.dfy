/** Interning of names as dense integer ids (aoc_tools/src/namereg.rs). */
module NameReg {

  /** `NameRegistry`: the `names` map from a name to its id. The ghost `order`
      lists the names in the order they were added, so `order[id]` is the name
      registered under `id`. */
  class NameRegistry {
    var names: map<string, nat>
    ghost var order: seq<string>

    ghost predicate Valid()
      reads this
    {
      |order| == |names| &&
      (forall i :: 0 <= i < |order| ==> order[i] in names && names[order[i]] == i) &&
      (forall n :: n in names ==> names[n] < |order| && order[names[n]] == n)
    }

    /** `NameRegistry::new`: no names yet. */
    constructor ()
      ensures Valid() && names == map[] && order == []
    {
      names := map[];
      order := [];
    }

    /** `NameRegistry::len`: the number of distinct names registered. */
    function Len(): (n: nat)
      requires Valid()
      reads this
      ensures n == |names| == |order|
    {
      |names|
    }

    /** `NameRegistry::add_or_lookup`: the id of a known name, or the next free
        id (the current length) for a new one. */
    method AddOrLookup(name: string) returns (id: nat)
      requires Valid()
      modifies this
      ensures Valid()
      ensures name in old(names) ==> id == old(names)[name] && names == old(names) && order == old(order)
      ensures name !in old(names) ==> id == old(|names|) && names == old(names)[name := id] && order == old(order) + [name]
      ensures id < |names| && order[id] == name
    {
      var nextId := |names|;
      if name in names {
        id := names[name];
      } else {
        names := names[name := nextId];
        order := order + [name];
        id := nextId;
      }
    }

    /** `From<NameRegistry> for Vec<String>`: the names sorted by id. */
    method IntoVec() returns (v: seq<string>)
      requires Valid()
      ensures |v| == |names|
      ensures forall n :: n in names ==> v[names[n]] == n
      ensures v == order
    {
      v := seq(|names|, _ => "");
      var remaining := names.Keys;
      while remaining != {}
        invariant remaining <= names.Keys && |v| == |names|
        invariant forall n :: n in names && n !in remaining ==> v[names[n]] == n
        decreases remaining
      {
        var n :| n in remaining;
        v := v[names[n] := n];
        remaining := remaining - {n};
      }
      assert forall i :: 0 <= i < |v| ==> v[i] == order[i] by {
        forall i | 0 <= i < |v|
          ensures v[i] == order[i]
        {
          assert order[i] in names && names[order[i]] == i;
        }
      }
    }
  }

  /** Ids are exactly `0..len-1`, one per distinct name. */
  lemma IdsAreDense(r: NameRegistry, id: nat)
    requires r.Valid()
    ensures id < r.Len() <==> exists n :: n in r.names && r.names[n] == id
  {
    if id < r.Len() {
      assert r.order[id] in r.names && r.names[r.order[id]] == id;
    }
  }

  /** Two names share an id only if they are the same name. */
  lemma IdsAreDistinct(r: NameRegistry, a: string, b: string)
    requires r.Valid() && a in r.names && b in r.names && r.names[a] == r.names[b]
    ensures a == b
  {
  }

  /** Registering a name twice gives the same id and does not grow the registry. */
  method AddTwice(r: NameRegistry, name: string) returns (first: nat, second: nat)
    requires r.Valid()
    modifies r
    ensures r.Valid() && first == second
    ensures r.Len() == old(r.Len()) + (if name in old(r.names) then 0 else 1)
  {
    first := r.AddOrLookup(name);
    second := r.AddOrLookup(name);
  }
}
