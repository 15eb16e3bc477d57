/** Identifiers, the duplicate check on them, and the two result shapes every service uses. */
module Wrappers {
  type Id = nat

  datatype Option<+T> = None | Some(value: T)

  datatype Result<+T, +E> = Ok(value: T) | Err(error: E)

  predicate Distinct(ids: seq<Id>) {
    forall i, j | 0 <= i < j < |ids| :: ids[i] != ids[j]
  }

  method AllDistinct(ids: seq<Id>) returns (distinct: bool)
    ensures distinct == Distinct(ids)
  {
    var seen: set<Id> := {};
    for i := 0 to |ids|
      invariant forall x :: x in seen <==> x in ids[..i]
      invariant Distinct(ids[..i])
    {
      if ids[i] in seen {
        return false;
      }
      seen := seen + {ids[i]};
    }
    assert ids[..|ids|] == ids;
    distinct := true;
  }
}
