/** Half-open time intervals in milliseconds. */
module Intervals {

  datatype Interval = Interval(start: int, end: int) {
    predicate Proper() {
      start < end
    }

    predicate Contains(t: int) {
      start <= t < end
    }
  }

  /** `isIntervalOverlapping`, and the `startDate < end && endDate > start` of every query. */
  predicate Overlaps(a: Interval, b: Interval) {
    a.start < b.end && a.end > b.start
  }

  /** Two proper intervals overlap exactly when they share an instant; touching ends do not. */
  lemma OverlapIsSharedInstant(a: Interval, b: Interval)
    requires a.Proper() && b.Proper()
    ensures Overlaps(a, b) <==> exists t :: a.Contains(t) && b.Contains(t)
  {
    if Overlaps(a, b) {
      var t := if a.start >= b.start then a.start else b.start;
      assert a.Contains(t) && b.Contains(t);
    }
  }
}
