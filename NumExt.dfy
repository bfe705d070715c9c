/** Checked index arithmetic on `usize` (aoc_tools/src/numext.rs). */
module NumExt {
  import opened Wrappers

  /** `usize::checked_add_signed`: `None` when the sum would be negative.
      The overflow above `usize::MAX` is not modelled: every caller compares
      the sum against a `usize` limit, which rejects such a sum as well. */
  function CheckedAddSigned(self: nat, rhs: int): (r: Option<nat>)
    ensures r.Some? <==> self + rhs >= 0
    ensures r.Some? ==> r.value == self + rhs
  {
    if self + rhs < 0 then None else Some(self + rhs)
  }

  /** `clamped_add_signed`: the signed sum when it is a valid index below `limit`. */
  function ClampedAddSigned(self: nat, rhs: int, limit: nat): (r: Option<nat>)
    ensures r.Some? <==> 0 <= self + rhs < limit
    ensures r.Some? ==> r.value == self + rhs && r.value < limit
  {
    match CheckedAddSigned(self, rhs)
    case None => None
    case Some(res) => if res < limit then Some(res) else None
  }

  /** A step that goes below zero is always rejected. */
  lemma NoneBelowZero(self: nat, rhs: int, limit: nat)
    requires self + rhs < 0
    ensures ClampedAddSigned(self, rhs, limit) == None
  {
  }

  /** Adding zero keeps `self` exactly when it is already below the limit. */
  lemma ZeroOffset(self: nat, limit: nat)
    ensures ClampedAddSigned(self, 0, limit) == (if self < limit then Some(self) else None)
  {
  }
}
