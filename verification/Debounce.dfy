/** Samples of an input line over time, and since when the latest value has stood. */
module Debounce {
  datatype Sample<+T> = Sample(value: T, now: int)

  /** The time of the first sample of the latest run of equal values. */
  function ChangedAt<T(==)>(h: seq<Sample<T>>): int
    requires h != []
  {
    var n := |h| - 1;
    if n == 0 || h[n].value != h[n - 1].value then h[n].now else ChangedAt(h[..n])
  }

  /** The latest value has stood for at least `delay`. */
  predicate Steady<T(==)>(h: seq<Sample<T>>, delay: int)
    requires h != []
  {
    h[|h| - 1].now - ChangedAt(h) >= delay
  }

  /** Sample `i` is steady. */
  predicate SteadyAt<T(==)>(h: seq<Sample<T>>, i: nat, delay: int)
    requires i < |h|
  {
    Steady(h[..i + 1], delay)
  }

  lemma SteadyBefore<T>(h: seq<Sample<T>>, i: nat, delay: int)
    requires i < |h| - 1
    ensures SteadyAt(h[..|h| - 1], i, delay) == SteadyAt(h, i, delay)
  {
    assert h[..|h| - 1][..i + 1] == h[..i + 1];
  }
}
