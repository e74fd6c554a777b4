/**
 * The statistics reading the bot works on: one point-in-time snapshot of the
 * cumulative and daily counts plus the population of the region.
 */
module Snapshots {

  datatype Snapshot = Snapshot(
    population: int,
    infected: int,
    newToday: int,
    newYesterday: int,
    dead: int)

  /** The all-zero snapshot the fallback cache starts with. */
  const Zero := Snapshot(0, 0, 0, 0, 0)
}
