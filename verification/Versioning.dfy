/**
  Per-key versions of the key-value store (internal/primitives/db/raft.go): how a write's
  version follows from the key's present version, and when a compare-and-swap may write.
 */
module Versioning {
  import opened Prelude

  /** Version of the next write to a key: one more than the present one, 1 if there is none. */
  function NextVersion(current: Option<nat>): (v: nat)
    ensures v > 0
  {
    match current
    case None => 1
    case Some(v) => v + 1
  }

  /** A swap expecting `expected` goes ahead; 0 stands for an absent key. */
  predicate CasMatches(current: Option<nat>, expected: nat) {
    match current
    case None => expected == 0
    case Some(v) => v == expected
  }
}
