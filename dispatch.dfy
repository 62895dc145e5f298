// Stamped dispatches, capture windows, extraction ranges and the states a capture attempt ends in.

module Dispatches {

  datatype Option<T> = None | Some(value: T)

  /// Limits of the stamp type (std::numeric_limits of the signed 32-bit stamps the library is used with).
  /// Stamps themselves are unbounded integers in this model.
  const STAMP_MIN: int := -0x8000_0000
  const STAMP_MAX: int := 0x7fff_ffff

  /// A sequencing stamp paired with a data value
  datatype Dispatch<V> = Dispatch(stamp: int, value: V)

  function GetStamp<V>(d: Dispatch<V>): int { d.stamp }

  function GetValue<V>(d: Dispatch<V>): V { d.value }

  lemma AccessorsReadBack<V>(stamp: int, value: V)
    ensures GetStamp(Dispatch(stamp, value)) == stamp
    ensures GetValue(Dispatch(stamp, value)) == value
  {}

  /// A closed stamp window [lower, upper]
  datatype CaptureRange = CaptureRange(lower: int, upper: int)
  {
    /// `valid()`: the window is non-empty
    predicate Valid() { upper >= lower }

    /// `operator bool`
    predicate AsBool() { Valid() }
  }

  /// A default-constructed window: lower at the largest stamp, upper at the smallest
  function DefaultRange(): (r: CaptureRange)
    ensures !r.Valid() && !r.AsBool()
  {
    CaptureRange(STAMP_MAX, STAMP_MIN)
  }

  /// Outcome of a capture attempt
  datatype State =
    | Retry
    | Primed
    | Abort
    | Timeout
    | ErrorDriverLowerBoundExceeded
    | SkipFrameQueuePrecondition

  /// Half-open index range [first, last) into a dispatch queue, as produced by a locate step
  datatype ExtractionRange = ExtractionRange(first: nat, last: nat)
  {
    /// `operator bool`: the range selects at least one element
    predicate NonEmpty() { first < last }

    /// The range lies inside a queue of `size` elements
    predicate Within(size: nat) { first <= last <= size }
  }

  /// A default-constructed extraction range: selects nothing
  const NO_EXTRACTION: ExtractionRange := ExtractionRange(0, 0)

  lemma NoExtractionIsEmpty(size: nat)
    ensures !NO_EXTRACTION.NonEmpty() && NO_EXTRACTION.Within(size)
  {}
}
