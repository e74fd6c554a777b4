/**
 * The polling loop: each tick fetches a snapshot (falling back to the cache),
 * decides whether it is worth reporting, and if so records it and hands it to
 * the publisher exactly once. The timer is outside the model; a run is a
 * finite sequence of ticks, each with the fetch outcome and the clock reading
 * it saw.
 */
module Bot {
  import opened Wrappers
  import opened Snapshots
  import opened Fetcher
  import opened Significance

  /** What one tick observes from the outside world. */
  datatype TickInput = TickInput(fetch: FetchOutcome, now: int)

  /** A report handed to the publisher: the snapshot and the time it was reported. */
  datatype Notice = Notice(stats: Snapshot, time: int)

  /** The two closures' state: the fallback cache and the last report. */
  datatype BotState = BotState(cache: Snapshot, lastData: Option<Snapshot>, lastTime: int)

  datatype TickResult = TickResult(state: BotState, notice: Option<Notice>)

  datatype RunResult = RunResult(state: BotState, sent: seq<Notice>)

  /** The state at process start. */
  const Initial := BotState(Zero, None, 0)

  /** One tick as a function of the state before it. */
  function TickStep(newLimit: int, st: BotState, input: TickInput): (r: TickResult)
    ensures r.notice.Some? ==> r.state.lastData == Some(r.notice.value.stats) && r.state.lastTime == input.now
    ensures r.notice.None? ==> r.state.lastData == st.lastData && r.state.lastTime == st.lastTime
    ensures st.lastData.None? ==> r.notice.Some?
    // the cache is refreshed by the fetch, and the refreshed snapshot is what is judged and reported
    ensures r.state.cache == Refresh(st.cache, input.fetch)
    ensures r.notice.Some? <==> ShouldNotify(st.lastData, st.lastTime, Refresh(st.cache, input.fetch), input.now, newLimit)
    ensures r.notice.Some? ==> r.notice.value == Notice(Refresh(st.cache, input.fetch), input.now)
  {
    var stats := Refresh(st.cache, input.fetch);
    if ShouldNotify(st.lastData, st.lastTime, stats, input.now, newLimit) then
      TickResult(BotState(stats, Some(stats), input.now), Some(Notice(stats, input.now)))
    else
      TickResult(BotState(stats, st.lastData, st.lastTime), None)
  }

  /** The ticks of `inputs` run one after another from `start`, with every report they send. */
  function Run(newLimit: int, start: BotState, inputs: seq<TickInput>): RunResult
  {
    if inputs == [] then RunResult(start, [])
    else
      var before := Run(newLimit, start, inputs[..|inputs| - 1]);
      var step := TickStep(newLimit, before.state, inputs[|inputs| - 1]);
      RunResult(step.state, before.sent + if step.notice.Some? then [step.notice.value] else [])
  }

  /** The fetch outcomes of a run, in order. */
  function Fetches(inputs: seq<TickInput>): seq<FetchOutcome>
  {
    seq(|inputs|, k requires 0 <= k < |inputs| => inputs[k].fetch)
  }

  /**
   * After any run from process start, the cache is the fold of the fetches,
   * and the remembered report is exactly the last report sent (none before
   * the first).
   */
  lemma {:induction false} RunTracksLastNotice(newLimit: int, inputs: seq<TickInput>)
    ensures var res := Run(newLimit, Initial, inputs);
      && res.state.cache == CacheAfter(Fetches(inputs))
      && (res.sent == [] <==> res.state.lastData.None?)
      && (res.sent != [] ==>
            res.state.lastData == Some(res.sent[|res.sent| - 1].stats)
            && res.state.lastTime == res.sent[|res.sent| - 1].time)
  {
    var n := |inputs|;
    if n > 0 {
      RunTracksLastNotice(newLimit, inputs[..n - 1]);
      assert Fetches(inputs)[..n - 1] == Fetches(inputs[..n - 1]);
    }
  }

  /** A run's reports extend the reports of every shorter run over a prefix of its ticks. */
  lemma {:induction false} RunExtendsPrefix(newLimit: int, start: BotState, inputs: seq<TickInput>, m: nat)
    requires m <= |inputs|
    ensures var short := Run(newLimit, start, inputs[..m]).sent;
      var long := Run(newLimit, start, inputs).sent;
      |short| <= |long| && long[..|short|] == short
  {
    var n := |inputs|;
    if m < n {
      RunExtendsPrefix(newLimit, start, inputs[..n - 1], m);
      assert inputs[..n - 1][..m] == inputs[..m];
    } else {
      assert inputs[..m] == inputs;
    }
  }

  /**
   * The first tick of the process always reports, and what it reports is the
   * cache after the first fetch: the all-zero snapshot when that fetch failed.
   */
  lemma FirstTickReports(newLimit: int, inputs: seq<TickInput>)
    requires |inputs| > 0
    ensures var sent := Run(newLimit, Initial, inputs).sent;
      |sent| > 0 && sent[0] == Notice(Refresh(Zero, inputs[0].fetch), inputs[0].now)
  {
  }

  /**
   * No two consecutive reports are spam: the second one changed something,
   * and it either is significant or came at least four hours after the first.
   */
  lemma {:induction false} ConsecutiveReportsAreWorthIt(newLimit: int, inputs: seq<TickInput>, i: nat)
    requires i + 1 < |Run(newLimit, Initial, inputs).sent|
    ensures var sent := Run(newLimit, Initial, inputs).sent;
      && Changed(sent[i].stats, sent[i + 1].stats)
      && (Significant(sent[i].stats, sent[i + 1].stats, newLimit) || sent[i + 1].time >= sent[i].time + MaxWaitTime)
  {
    var n := |inputs|;
    var before := Run(newLimit, Initial, inputs[..n - 1]);
    var sent := Run(newLimit, Initial, inputs).sent;
    if i + 1 < |before.sent| {
      ConsecutiveReportsAreWorthIt(newLimit, inputs[..n - 1], i);
      assert sent[i] == before.sent[i] && sent[i + 1] == before.sent[i + 1];
    } else {
      RunTracksLastNotice(newLimit, inputs[..n - 1]);
      assert sent[i] == before.sent[i];
    }
  }

  /** Every report carries the clock reading of some tick and the cache content right after that tick. */
  lemma {:induction false} ReportsAreFetchedSnapshots(newLimit: int, inputs: seq<TickInput>, i: nat)
    requires i < |Run(newLimit, Initial, inputs).sent|
    ensures var sent := Run(newLimit, Initial, inputs).sent;
      exists j :: 0 <= j < |inputs| && sent[i].time == inputs[j].now
                  && sent[i].stats == CacheAfter(Fetches(inputs[..j + 1]))
  {
    var n := |inputs|;
    var before := Run(newLimit, Initial, inputs[..n - 1]);
    var sent := Run(newLimit, Initial, inputs).sent;
    if i < |before.sent| {
      ReportsAreFetchedSnapshots(newLimit, inputs[..n - 1], i);
      var j :| 0 <= j < n - 1 && before.sent[i].time == inputs[..n - 1][j].now
               && before.sent[i].stats == CacheAfter(Fetches(inputs[..n - 1][..j + 1]));
      assert inputs[..n - 1][..j + 1] == inputs[..j + 1];
      assert sent[i] == before.sent[i];
    } else {
      RunTracksLastNotice(newLimit, inputs[..n - 1]);
      assert Fetches(inputs)[..n - 1] == Fetches(inputs[..n - 1]);
      assert inputs[..n] == inputs;
    }
  }

  /**
   * A report never carries data from a failed or empty fetch: it is the
   * all-zero start value or the data of a usable fetch, and a report with a
   * zero population is the all-zero start value.
   */
  lemma ReportsNeverCarryFailedFetches(newLimit: int, inputs: seq<TickInput>, i: nat)
    requires i < |Run(newLimit, Initial, inputs).sent|
    ensures var s := Run(newLimit, Initial, inputs).sent[i].stats;
      && (s == Zero || exists j :: 0 <= j < |inputs| && Usable(inputs[j].fetch) && inputs[j].fetch.data == s)
      && (s.population == 0 ==> s == Zero)
  {
    ReportsAreFetchedSnapshots(newLimit, inputs, i);
    var sent := Run(newLimit, Initial, inputs).sent;
    var j :| 0 <= j < |inputs| && sent[i].time == inputs[j].now
             && sent[i].stats == CacheAfter(Fetches(inputs[..j + 1]));
    var outcomes := Fetches(inputs[..j + 1]);
    if forall k :: 0 <= k < |outcomes| ==> !Usable(outcomes[k]) {
      CacheEmptyUntilUsable(outcomes);
    } else {
      var last := LastUsable(outcomes);
      CacheHoldsLatestUsable(outcomes, last);
      assert inputs[last].fetch == outcomes[last];
    }
  }

  /** The index of the last usable fetch, when there is one. */
  function LastUsable(outcomes: seq<FetchOutcome>): (j: nat)
    requires exists k :: 0 <= k < |outcomes| && Usable(outcomes[k])
    ensures j < |outcomes| && Usable(outcomes[j])
    ensures forall k :: j < k < |outcomes| ==> !Usable(outcomes[k])
  {
    var n := |outcomes|;
    if Usable(outcomes[n - 1]) then n - 1
    else
      var prefix := outcomes[..n - 1];
      assert forall k :: 0 <= k < n - 1 ==> prefix[k] == outcomes[k];
      LastUsable(prefix)
  }

  /** The running process: both closures and the loop that drives them. */
  class Bot {
    const cache: StatsCache
    const notifier: Notifier

    /** The abstract state of the process. */
    function State(): BotState
      reads this, cache, notifier
    {
      BotState(cache.data, notifier.lastData, notifier.lastTime)
    }

    constructor (newLimit: int)
      ensures State() == Initial && notifier.newLimit == newLimit
      ensures fresh(cache) && fresh(notifier)
    {
      cache := new StatsCache();
      notifier := new Notifier(newLimit);
    }

    /** One `tick`: fetch, decide, and on a report record it; the report is returned for publishing. */
    method Tick(input: TickInput) returns (notice: Option<Notice>)
      modifies cache, notifier
      ensures TickResult(State(), notice) == TickStep(notifier.newLimit, old(State()), input)
    {
      var stats := cache.Get(input.fetch);
      var notify := notifier.Step(stats, input.now);
      notice := if notify then Some(Notice(stats, input.now)) else None;
    }

    /** `loop` over a finite run of ticks, collecting every report handed to the publisher. */
    method Loop(inputs: seq<TickInput>) returns (sent: seq<Notice>)
      modifies cache, notifier
      ensures RunResult(State(), sent) == Run(notifier.newLimit, old(State()), inputs)
    {
      ghost var start := State();
      sent := [];
      var i := 0;
      while i < |inputs|
        invariant 0 <= i <= |inputs|
        invariant RunResult(State(), sent) == Run(notifier.newLimit, start, inputs[..i])
      {
        var notice := Tick(inputs[i]);
        if notice.Some? {
          sent := sent + [notice.value];
        }
        assert inputs[..i + 1][..i] == inputs[..i];
        i := i + 1;
      }
      assert inputs[..i] == inputs;
    }
  }
}
