/** Quiet hours, read the same way by the scheduler and by the proactive engine. */
module QuietHours {
  import opened Options

  predicate InQuietHours(hours: Option<(int, int)>, hour: int) {
    match hours
    case None => false
    case Some((start, end)) =>
      if start == end then false
      else if start < end then start <= hour < end
      else hour >= start || hour < end
  }

  /** Quiet hours are the stretch of the clock face from start to end, also across midnight. */
  lemma QuietHoursWrap(start: int, end: int, hour: int)
    requires 0 <= start < 24 && 0 <= end < 24 && 0 <= hour < 24
    ensures InQuietHours(Some((start, end)), hour) <==> (hour - start) % 24 < (end - start) % 24
  {
  }
}
