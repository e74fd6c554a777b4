/**
 * The statistics fetcher with its one-slot fallback cache (`getCoronaStats`).
 * The HTTP request and the JSON field extraction are outside the model: only
 * their outcome is, as a `FetchOutcome`.
 */
module Fetcher {
  import opened Snapshots

  /** What the request to the statistics API produced: a snapshot, or a thrown error. */
  datatype FetchOutcome = Ok(data: Snapshot) | Error

  /** A fetched snapshot is used only when its population is truthy (non-zero). */
  predicate Usable(outcome: FetchOutcome)
  {
    outcome.Ok? && outcome.data.population != 0
  }

  /**
   * The cache content after one fetch, which is also the value the fetch
   * returns: fresh usable data replaces the cache, anything else leaves it.
   */
  function Refresh(cached: Snapshot, outcome: FetchOutcome): (r: Snapshot)
    ensures Usable(outcome) ==> r == outcome.data
    ensures outcome.Error? ==> r == cached
    ensures outcome.Ok? && outcome.data.population == 0 ==> r == cached
    ensures r == cached || (outcome.Ok? && r == outcome.data)
    ensures cached.population != 0 ==> r.population != 0
  {
    match outcome
    case Error => cached
    case Ok(data) => if data.population != 0 then data else cached
  }

  /** The cache after a sequence of fetches, starting from the all-zero snapshot. */
  function CacheAfter(outcomes: seq<FetchOutcome>): Snapshot
  {
    if outcomes == [] then Zero
    else Refresh(CacheAfter(outcomes[..|outcomes| - 1]), outcomes[|outcomes| - 1])
  }

  /** The cache holds the most recent usable fetch, whatever failed after it. */
  lemma {:induction false} CacheHoldsLatestUsable(outcomes: seq<FetchOutcome>, j: nat)
    requires j < |outcomes| && Usable(outcomes[j])
    requires forall k :: j < k < |outcomes| ==> !Usable(outcomes[k])
    ensures CacheAfter(outcomes) == outcomes[j].data
  {
    var n := |outcomes|;
    if j < n - 1 {
      CacheHoldsLatestUsable(outcomes[..n - 1], j);
    }
  }

  /**
   * The cache stays the all-zero snapshot until the first usable fetch, and
   * from then on never again holds a zero population.
   */
  lemma {:induction false} CacheEmptyUntilUsable(outcomes: seq<FetchOutcome>)
    ensures (forall k :: 0 <= k < |outcomes| ==> !Usable(outcomes[k])) ==> CacheAfter(outcomes) == Zero
    ensures CacheAfter(outcomes).population == 0 <==> forall k :: 0 <= k < |outcomes| ==> !Usable(outcomes[k])
  {
    var n := |outcomes|;
    if n > 0 {
      var prefix := outcomes[..n - 1];
      CacheEmptyUntilUsable(prefix);
      assert forall k :: 0 <= k < n - 1 ==> prefix[k] == outcomes[k];
    }
  }

  /** The closure around `cache.data`: each call fetches once and falls back to the cache. */
  class StatsCache {
    var data: Snapshot

    constructor ()
      ensures data == Zero
    {
      data := Zero;
    }

    /** One call of `getCoronaStats`; what it returns is always the new cache content. */
    method Get(outcome: FetchOutcome) returns (stats: Snapshot)
      modifies this
      ensures stats == data
      ensures data == Refresh(old(data), outcome)
    {
      match outcome {
        case Error =>
          return data;
        case Ok(fetched) =>
          if fetched.population != 0 {
            data := fetched;
            return fetched;
          }
          return data;
      }
    }
  }
}
