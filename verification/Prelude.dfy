/** Small datatypes and constants shared by every module. */
module Prelude {

  datatype Option<+T> = None | Some(value: T)

  /** Go's `uint64` ranges over `0..MaxUint64`. */
  const MaxUint64: nat := 0xFFFF_FFFF_FFFF_FFFF

  /** How an atomic file replacement ends: an error may be returned before the
      rename took effect, or after it. */
  datatype WriteOutcome = Written | FailedBeforeRename | FailedAfterRename

  /** Does the file hold the new contents once the replacement returns? */
  predicate Renamed(outcome: WriteOutcome) {
    outcome != FailedBeforeRename
  }
}
