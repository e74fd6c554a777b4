/**
 * The change-significance decision of `tick` and the last-notified state it
 * keeps (`lastData`, `lastTime`). Times are milliseconds, passed in by the
 * caller instead of read from the clock.
 */
module Significance {
  import opened Wrappers
  import opened Snapshots

  /** The NEW_LIMIT used when the environment does not set one. */
  const DefaultNewLimit := 50

  /** After four hours any change is reported, however small. */
  const MaxWaitTime := 4 * 60 * 60 * 1000

  /** Infected or dead differ between the two snapshots. */
  predicate Changed(last: Snapshot, stats: Snapshot)
  {
    last.infected != stats.infected || last.dead != stats.dead
  }

  /** Deaths changed, or the infected count rose by at least `newLimit`. */
  predicate Significant(last: Snapshot, stats: Snapshot, newLimit: int)
  {
    stats.dead != last.dead || stats.infected - last.infected >= newLimit
  }

  /**
   * Whether `tick` reports `stats`, given the last reported snapshot (None
   * before the first report) and the time of that report. The two early
   * returns of the source are checked in their order.
   */
  function ShouldNotify(last: Option<Snapshot>, lastTime: int, stats: Snapshot, now: int, newLimit: int): (r: bool)
    // the first tick always reports
    ensures last.None? ==> r
    // nothing new: never reported, however long ago the last report was
    ensures last.Some? && !Changed(last.value, stats) ==> !r
    // a death, or a rise of at least NEW_LIMIT, is reported at once
    ensures last.Some? && Changed(last.value, stats) && Significant(last.value, stats, newLimit) ==> r
    // a smaller change (a fall included) waits until four hours have passed
    ensures last.Some? && Changed(last.value, stats) && !Significant(last.value, stats, newLimit) ==>
              (r <==> now >= lastTime + MaxWaitTime)
  {
    if last.Some? && last.value.infected == stats.infected && last.value.dead == stats.dead then
      false
    else if last.Some? && stats.infected - last.value.infected < newLimit
            && stats.dead == last.value.dead && now < lastTime + MaxWaitTime then
      false
    else
      true
  }

  /** With a positive NEW_LIMIT, a rise of at least NEW_LIMIT or any change in deaths is always reported. */
  /** Under the default NEW_LIMIT, 50 new infections are reported at once, 49 wait four hours. */
  lemma DefaultLimitThreshold(last: Snapshot, lastTime: int, stats: Snapshot, now: int)
    requires stats.dead == last.dead
    ensures stats.infected - last.infected == 50 ==> ShouldNotify(Some(last), lastTime, stats, now, DefaultNewLimit)
    ensures stats.infected - last.infected == 49 ==>
              (ShouldNotify(Some(last), lastTime, stats, now, DefaultNewLimit) <==> now >= lastTime + MaxWaitTime)
  {
  }

  lemma SignificantIsReported(last: Snapshot, lastTime: int, stats: Snapshot, now: int, newLimit: int)
    requires newLimit > 0
    requires Significant(last, stats, newLimit)
    ensures ShouldNotify(Some(last), lastTime, stats, now, newLimit)
  {
  }

  /** The state of the `tick` closure. */
  class Notifier {
    const newLimit: int
    var lastData: Option<Snapshot>
    var lastTime: int

    constructor (newLimit: int)
      ensures this.newLimit == newLimit
      ensures lastData == None && lastTime == 0
    {
      this.newLimit := newLimit;
      lastData := None;
      lastTime := 0;
    }

    /**
     * The decision part of one tick: report `stats` or not, and remember it
     * as the last report when it is reported. On suppression nothing changes.
     */
    method Step(stats: Snapshot, now: int) returns (notify: bool)
      modifies this
      ensures notify == ShouldNotify(old(lastData), old(lastTime), stats, now, newLimit)
      ensures notify ==> lastData == Some(stats) && lastTime == now
      ensures !notify ==> lastData == old(lastData) && lastTime == old(lastTime)
    {
      if lastData.Some? && lastData.value.infected == stats.infected && lastData.value.dead == stats.dead {
        return false;
      }
      if lastData.Some? && stats.infected - lastData.value.infected < newLimit
         && stats.dead == lastData.value.dead && now < lastTime + MaxWaitTime {
        return false;
      }
      lastTime := now;
      lastData := Some(stats);
      return true;
    }
  }
}
