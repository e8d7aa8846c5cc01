/** The read side: gap counts, derived status, and the reconciliation watch. */
module Dashboard {
  import opened Prelude
  import opened Minutes
  import opened Tables
  import opened Protocol

  const RECENT_COMPLETED_CANDLE_WINDOW: int := 60
  const STALE_EVENT_THRESHOLD_SECONDS: int := 15

  // -------------------------------------------------------------------------
  // Gaps

  /** `missing_last_hour` of `_market_summary`: absent when the symbol has no candle at all. */
  function MissingLastHour(t: Tables, symbol: string, nowMs: int): Option<nat> {
    if forall k | k in t.candles :: !(k.symbol == symbol && k.interval == INTERVAL) then None
    else
      var last := LastCompletedOpen(nowMs);
      var start := last - (RECENT_COMPLETED_CANDLE_WINDOW - 1) * 60_000;
      Some(CountMissing(ClosedOpenTimes(t, symbol, start, last), last, RECENT_COMPLETED_CANDLE_WINDOW))
  }

  /** `missing_open_times` of `build_market_detail`. */
  function DetailMissing(t: Tables, symbol: string, minutes: int, nowMs: int): seq<int> {
    var currentOpen := (nowMs / 60_000) * 60_000;
    var start := currentOpen - (minutes - 1) * 60_000;
    var last := currentOpen - 60_000;
    MissingOpenTimes(DetailClosed(t, symbol, start, currentOpen, last), start, last)
  }

  /** The closed, completed minutes among the candles the page shows. */
  function DetailClosed(t: Tables, symbol: string, start: int, currentOpen: int, last: int): set<int> {
    set k | k in t.candles && k.symbol == symbol && k.interval == INTERVAL && start <= k.openTime <= currentOpen
            && t.candles[k].isClosed && k.openTime <= last :: k.openTime
  }

  /** The minutes of a range that are stored closed. */
  ghost function StoredIn(t: Tables, symbol: string, start: int, last: int): set<int> {
    set x: int | start <= x <= last && Expected(x, start, last) && MinuteClosed(t, symbol, x)
  }

  /** The summary shows a figure exactly when the symbol has a candle: of the sixty latest elapsed minutes, how
      many are not stored closed. */
  lemma SummaryCountsMissing(t: Tables, symbol: string, nowMs: int)
    ensures MissingLastHour(t, symbol, nowMs).Some? <==>
              exists k :: k in t.candles && k.symbol == symbol && k.interval == INTERVAL
    ensures var last := LastCompletedOpen(nowMs); var start := last - 59 * 60_000;
      MissingLastHour(t, symbol, nowMs).Some? ==>
        MissingLastHour(t, symbol, nowMs).value == 60 - |StoredIn(t, symbol, start, last)|
  {
    var last := LastCompletedOpen(nowMs);
    var start := last - 59 * 60_000;
    assert Aligned(start, last);
    ClosedIsStored(t, symbol, start, last);
    CountByStored(t, symbol, start, last);
    hide ClosedOpenTimes;
    hide StoredIn;
  }

  lemma ClosedIsStored(t: Tables, symbol: string, start: int, last: int)
    ensures forall x | start <= x <= last ::
              x in ClosedOpenTimes(t, symbol, start, last) <==> MinuteClosed(t, symbol, x)
  {
    forall x | start <= x <= last && MinuteClosed(t, symbol, x) ensures x in ClosedOpenTimes(t, symbol, start, last) {
      assert CandleKey(symbol, INTERVAL, x) in t.candles;
    }
  }

  lemma CountByStored(t: Tables, symbol: string, start: int, last: int)
    requires Aligned(start, last) && start <= last
    ensures CountAbsent(ClosedOpenTimes(t, symbol, start, last), start, last) + |StoredIn(t, symbol, start, last)|
         == (last - start) / 60_000 + 1
  {
    var closed := ClosedOpenTimes(t, symbol, start, last);
    ClosedIsStored(t, symbol, start, last);
    GapsHead(closed, start, last);
    GapsPlusPresent(closed, start, last);
    forall x | Expected(x, start, last) ensures start <= x <= last {
      EndsAtLast(x, start, last);
    }
    hide ClosedOpenTimes;
    hide MinuteClosed;
    hide Expected;
    assert Present(closed, start, last) == StoredIn(t, symbol, start, last);
  }

  lemma EndsAtLast(x: int, start: int, last: int)
    requires Expected(x, start, last) && Aligned(start, last)
    ensures start <= x <= last
  {
  }

  /** The detail page lists, in ascending order, exactly the elapsed minutes of its window that are not stored
      closed. */
  lemma DetailListsMissing(t: Tables, symbol: string, minutes: int, nowMs: int)
    requires minutes >= 1
    ensures var missing := DetailMissing(t, symbol, minutes, nowMs);
      && (forall x :: x in missing <==>
            && x % 60_000 == 0 && nowMs / 60_000 - minutes < x / 60_000 < nowMs / 60_000
            && !MinuteClosed(t, symbol, x))
      && (forall i, j | 0 <= i < j < |missing| :: missing[i] < missing[j])
  {
    var currentOpen := (nowMs / 60_000) * 60_000;
    var start, last := currentOpen - (minutes - 1) * 60_000, currentOpen - 60_000;
    var closed := DetailClosed(t, symbol, start, currentOpen, last);
    forall x | start <= x <= last ensures x in closed <==> MinuteClosed(t, symbol, x) {
      if MinuteClosed(t, symbol, x) {
        assert CandleKey(symbol, INTERVAL, x) in t.candles;
      }
    }
    hide DetailClosed;
    hide MinuteClosed;
    forall x ensures Expected(x, start, last) <==>
                       x % 60_000 == 0 && nowMs / 60_000 - minutes < x / 60_000 < nowMs / 60_000
             ensures Expected(x, start, last) ==> start <= x <= last {
      DetailMinutes(nowMs / 60_000, minutes, x);
    }
    hide Expected;
  }

  lemma DetailMinutes(now: int, minutes: int, x: int)
    requires minutes >= 1
    ensures var start, last := now * 60_000 - (minutes - 1) * 60_000, now * 60_000 - 60_000;
      && (Expected(x, start, last) <==> x % 60_000 == 0 && now - minutes < x / 60_000 < now)
      && (Expected(x, start, last) ==> start <= x <= last)
  {
    var start, last := now * 60_000 - (minutes - 1) * 60_000, now * 60_000 - 60_000;
    assert start == (now - minutes + 1) * 60_000;
    assert (x - start) % 60_000 == 0 <==> x % 60_000 == 0;
  }

  lemma AbsentBounded(closed: set<int>, start: int, last: int, bound: int)
    requires Aligned(start, last) && Aligned(bound, last) && start <= last + 60_000
    requires start <= bound <= last + 60_000
    requires forall x | Expected(x, start, last) && x < bound :: x in closed
    ensures |Gaps(closed, start, last)| <= (last - bound) / 60_000 + 1
    ensures CountAbsent(closed, start, last) == |Gaps(closed, start, last)|
  {
    GapsHead(closed, start, last);
    GapsAtMost(closed, start, last, bound);
  }

  /** A minute of the recovered window is closed in every later state, as a dashboard minute. */
  lemma RecoveredMinute(h: History, symbol: string, recoveredMs: int, days: nat, x: int)
    requires Sound(h) && Occurs(h, Returned(symbol, recoveredMs, days))
    requires x % 60_000 == 0 && recoveredMs / 60_000 - 1440 * days <= x / 60_000 < recoveredMs / 60_000
    ensures MinuteClosed(Replay(h), symbol, x)
  {
    WindowMembers(recoveredMs, days, x);
    CoverageIsForever(h, symbol, recoveredMs, days);
  }

  /** What a gap list over minutes a .. m' - 1 can hold after a recovery in minute m that reaches
      back at least to minute a. */
  lemma GapsAfterRecovery(h: History, symbol: string, recoveredMs: int, days: nat, closed: set<int>, a: int, m': int)
    requires Sound(h) && Occurs(h, Returned(symbol, recoveredMs, days))
    requires recoveredMs / 60_000 <= m' && recoveredMs / 60_000 - 1440 * days <= a <= m'
    requires forall x | a * 60_000 <= x <= (m' - 1) * 60_000 && MinuteClosed(Replay(h), symbol, x) :: x in closed
    ensures var gaps := Gaps(closed, a * 60_000, (m' - 1) * 60_000);
      && |gaps| <= Min(m' - a, m' - recoveredMs / 60_000)
      && CountAbsent(closed, a * 60_000, (m' - 1) * 60_000) == |gaps|
      && forall x | x in gaps :: x >= (recoveredMs / 60_000) * 60_000
  {
    hide Sound;
    hide Occurs;
    hide Replay;
    var m := recoveredMs / 60_000;
    var start, last := a * 60_000, (m' - 1) * 60_000;
    forall x | Expected(x, start, last) && x < m * 60_000 ensures x in closed {
      assert x % 60_000 == 0;
      RecoveredMinute(h, symbol, recoveredMs, days, x);
    }
    AbsentBounded(closed, start, last, if m < a then start else m * 60_000);
  }

  lemma CountShown(t: Tables, symbol: string, nowMs: int, shown: int)
    requires MinuteClosed(t, symbol, shown)
    ensures var last := (nowMs / 60_000 - 1) * 60_000; var start := (nowMs / 60_000 - 60) * 60_000;
      && MissingLastHour(t, symbol, nowMs) == Some(CountAbsent(ClosedOpenTimes(t, symbol, start, last), start, last))
      && forall x | start <= x <= last && MinuteClosed(t, symbol, x) :: x in ClosedOpenTimes(t, symbol, start, last)
  {
    assert CandleKey(symbol, INTERVAL, shown) in t.candles;
    var last := (nowMs / 60_000 - 1) * 60_000;
    var start := (nowMs / 60_000 - 60) * 60_000;
    assert start == last - (RECENT_COMPLETED_CANDLE_WINDOW - 1) * 60_000;
    forall x | start <= x <= last && MinuteClosed(t, symbol, x) ensures x in ClosedOpenTimes(t, symbol, start, last) {
      assert CandleKey(symbol, INTERVAL, x) in t.candles;
    }
  }

  /** Recovery and the summary agree over time: after a recovery that returned normally in clock
      minute m, any later query in minute m' counts at most min(60, m' - m) minutes missing in
      the last hour, and has a count to show. */
  lemma SummaryAgreesWithRecovery(h: History, symbol: string, recoveredMs: int, days: nat, nowMs: int)
    requires days >= 1 && Sound(h) && Occurs(h, Returned(symbol, recoveredMs, days))
    requires recoveredMs / 60_000 <= nowMs / 60_000
    ensures var count := MissingLastHour(Replay(h), symbol, nowMs);
      count.Some? && count.value <= Min(60, nowMs / 60_000 - recoveredMs / 60_000)
  {
    hide Sound;
    hide Occurs;
    hide Replay;
    var t := Replay(h);
    var m, m' := recoveredMs / 60_000, nowMs / 60_000;
    RecoveredMinute(h, symbol, recoveredMs, days, (m - 1) * 60_000);
    CountShown(t, symbol, nowMs, (m - 1) * 60_000);
    var closed := ClosedOpenTimes(t, symbol, (m' - 60) * 60_000, (m' - 1) * 60_000);
    hide MissingLastHour;
    hide ClosedOpenTimes;
    hide MinuteClosed;
    GapsAfterRecovery(h, symbol, recoveredMs, days, closed, m' - 60, m');
  }

  /** The detail page agrees as well, for every window of at most 1440 * days + 1 minutes: it lists
      at most min(W - 1, m' - m) missing minutes, none of them before minute m. */
  lemma DetailAgreesWithRecovery(h: History, symbol: string, recoveredMs: int, days: nat, nowMs: int, minutes: int)
    requires Sound(h) && Occurs(h, Returned(symbol, recoveredMs, days))
    requires recoveredMs / 60_000 <= nowMs / 60_000
    requires 1 <= minutes <= 1440 * days + 1
    ensures var missing := DetailMissing(Replay(h), symbol, minutes, nowMs);
      && |missing| <= Min(minutes - 1, nowMs / 60_000 - recoveredMs / 60_000)
      && forall x | x in missing :: x >= (recoveredMs / 60_000) * 60_000
  {
    hide Sound;
    hide Occurs;
    hide Replay;
    var t := Replay(h);
    var m' := nowMs / 60_000;
    var a := m' - minutes + 1;
    var start, last := a * 60_000, (m' - 1) * 60_000;
    var closed := DetailClosed(t, symbol, start, m' * 60_000, last);
    forall x | start <= x <= last && MinuteClosed(t, symbol, x) ensures x in closed {
      assert CandleKey(symbol, INTERVAL, x) in t.candles;
    }
    GapsAfterRecovery(h, symbol, recoveredMs, days, closed, a, m');
    assert m' * 60_000 - (minutes - 1) * 60_000 == start && m' * 60_000 - 60_000 == last;
  }

  /** The bound on the window is exact: one minute more and the page lists the minute just before
      the coverage window whenever that minute is not stored, however fresh the recovery. */
  lemma LongerDetailListsOlderGap(t: Tables, symbol: string, nowMs: int, days: nat, minutes: int)
    requires minutes > 1440 * days + 1
    requires !MinuteClosed(t, symbol, CoverageStart(nowMs, days) - 60_000)
    ensures CoverageStart(nowMs, days) - 60_000 in DetailMissing(t, symbol, minutes, nowMs)
  {
    WindowIsElapsed(nowMs, days);
    var x := CoverageStart(nowMs, days) - 60_000;
    var currentOpen := (nowMs / 60_000) * 60_000;
    var start, last := currentOpen - (minutes - 1) * 60_000, currentOpen - 60_000;
    assert x == (nowMs / 60_000 - 1440 * days - 1) * 60_000;
    assert start == (nowMs / 60_000 - minutes + 1) * 60_000;
    assert x - start == (minutes - 2 - 1440 * days) * 60_000;
    assert Expected(x, start, last);
  }

  // -------------------------------------------------------------------------
  // Derived status

  function AgeSeconds(event: int, nowMs: int): int {
    if nowMs - event < 0 then 0 else (nowMs - event) / 1000
  }

  function DeriveStatus(reported: Status, lastEvent: Option<int>, nowMs: int): (Status, Option<int>) {
    match lastEvent
    case None => (Starting, None)
    case Some(event) =>
      var age := AgeSeconds(event, nowMs);
      if reported == Live && age > STALE_EVENT_THRESHOLD_SECONDS then (Stale, Some(age)) else (reported, Some(age))
  }

  /** The derived status: STARTING without an event; STALE when LIVE was reported and the last event is sixteen
      seconds old or older; otherwise as reported.  The age is in whole seconds, and zero for an event ahead of
      the clock. */
  lemma DerivedStatus(reported: Status, event: Option<int>, nowMs: int)
    ensures event.None? ==> DeriveStatus(reported, event, nowMs) == (Starting, None)
    ensures event.Some? ==>
              var (status, age) := DeriveStatus(reported, event, nowMs);
              && status == (if reported == Live && nowMs - event.value >= 16_000 then Stale else reported)
              && age.Some? && age.value >= 0
              && (if nowMs < event.value then age.value == 0
                  else age.value * 1000 <= nowMs - event.value < (age.value + 1) * 1000)
  {
  }

  // -------------------------------------------------------------------------
  // The reconciliation watch

  /** `WHERE symbol = .. AND run_type = 'RECONCILIATION' [AND status = ..]` */
  function Select(runs: seq<Run>, symbol: string, status: Option<RunStatus>): (rows: seq<Run>)
    ensures forall r :: r in rows <==> r in runs && Matches(r, symbol, status)
  {
    if runs == [] then []
    else
      var n := |runs| - 1;
      assert forall r :: r in runs <==> r == runs[n] || r in runs[..n];
      Select(runs[..n], symbol, status) + if Matches(runs[n], symbol, status) then [runs[n]] else []
  }

  predicate Matches(r: Run, symbol: string, status: Option<RunStatus>) {
    r.symbol == symbol && r.kind == Reconciliation && (status.Some? ==> r.status == status.value)
  }

  /** `ORDER BY started_at DESC LIMIT 1` */
  function Latest(rows: seq<Run>): (latest: Option<Run>)
    ensures latest.None? <==> rows == []
    ensures latest.Some? ==> latest.value in rows && forall r | r in rows :: r.startedAt <= latest.value.startedAt
  {
    if rows == [] then None
    else
      var n := |rows| - 1;
      assert forall r :: r in rows <==> r == rows[n] || r in rows[..n];
      var before := Latest(rows[..n]);
      if before.Some? && before.value.startedAt >= rows[n].startedAt then before else Some(rows[n])
  }

  /** `SELECT count(*) WHERE .. [AND started_at > since]` */
  function CountSince(rows: seq<Run>, since: Option<int>): nat {
    if rows == [] then 0
    else
      var n := |rows| - 1;
      CountSince(rows[..n], since) + if since.None? || rows[n].startedAt > since.value then 1 else 0
  }

  function FailuresSinceSuccess(runs: seq<Run>, symbol: string): nat {
    CountSince(Select(runs, symbol, Some(RunStatus.Failed)), StartOf(Latest(Select(runs, symbol, Some(Success)))))
  }

  datatype Observation = Observation(symbol: string, latestStatus: Option<RunStatus>, latestStartedAt: Option<int>,
                                     latestFinishedAt: Option<int>, lastSuccessAt: Option<int>,
                                     lastFailureAt: Option<int>, consecutiveFailures: nat)

  predicate HasFinishTime(run: Option<Run>) {
    run.Some? ==> run.value.finishedAt.Some?
  }

  /** `reconciliation_observation`.  Formatting the finish time of a run that has none raises:
      `None` stands for that exception. */
  function ReconciliationObservation(symbol: string, latest: Option<Run>, lastSuccess: Option<Run>,
                                     lastFailure: Option<Run>, failuresSinceSuccess: nat): Option<Observation>
  {
    if !HasFinishTime(latest) || !HasFinishTime(lastSuccess) || !HasFinishTime(lastFailure) then None
    else
      var status := if latest.Some? then Some(latest.value.status) else None;
      Some(Observation(symbol, status,
                       if latest.Some? then Some(latest.value.startedAt) else None,
                       if latest.Some? then latest.value.finishedAt else None,
                       if lastSuccess.Some? then lastSuccess.value.finishedAt else None,
                       if lastFailure.Some? then lastFailure.value.finishedAt else None,
                       if status == Some(RunStatus.Failed) then failuresSinceSuccess else 0))
  }

  // ---- the automaton --------------------------------------------------------

  predicate Chronological(history: seq<Run>) {
    forall i, j | 0 <= i < j < |history| :: history[i].startedAt < history[j].startedAt
  }

  /** Reset on SUCCESS, one more on FAILED, unchanged while RUNNING. */
  function Streak(history: seq<Run>): nat {
    if history == [] then 0
    else
      var n := |history| - 1;
      match history[n].status
      case Success => 0
      case Failed => Streak(history[..n]) + 1
      case Running => Streak(history[..n])
  }

  /** `history` lists the symbol's RECONCILIATION runs by start time. */
  ghost predicate HistoryOf(runs: seq<Run>, symbol: string, history: seq<Run>) {
    Chronological(history) && forall r :: r in history <==> r in runs && r.symbol == symbol && r.kind == Reconciliation
  }

  function InsertRun(history: seq<Run>, run: Run): (longer: seq<Run>)
    requires Chronological(history) && forall r | r in history :: r.startedAt != run.startedAt
    ensures Chronological(longer) && forall r :: r in longer <==> r == run || r in history
  {
    if history == [] then [run]
    else
      var n := |history| - 1;
      if history[n].startedAt < run.startedAt then
        assert forall i | 0 <= i < n :: history[i].startedAt < history[n].startedAt;
        history + [run]
      else
        assert forall r :: r in history <==> r == history[n] || r in history[..n];
        assert history[n] in history;
        var before := InsertRun(history[..n], run);
        assert forall i | 0 <= i < |before| :: before[i].startedAt < history[n].startedAt by {
          forall i | 0 <= i < |before| ensures before[i].startedAt < history[n].startedAt {
            assert before[i] in before;
          }
        }
        before + [history[n]]
  }

  /** Every run table under the unique constraint has such a history. */
  lemma {:induction false} HistoryExists(runs: seq<Run>, symbol: string) returns (history: seq<Run>)
    requires UniqueStarts(runs)
    ensures HistoryOf(runs, symbol, history)
  {
    if runs == [] {
      history := [];
    } else {
      var n := |runs| - 1;
      history := HistoryExists(runs[..n], symbol);
      assert forall r :: r in runs <==> r == runs[n] || r in runs[..n];
      if Matches(runs[n], symbol, None) {
        forall r | r in history ensures r.startedAt != runs[n].startedAt {
          assert r in runs[..n];
          var i :| 0 <= i < n && runs[..n][i] == r;
          assert runs[i] == r;
        }
        history := InsertRun(history, runs[n]);
      }
    }
  }

  // ---- counting ---------------------------------------------------------------

  predicate AfterSince(r: Run, since: Option<int>) {
    since.None? || r.startedAt > since.value
  }

  ghost function FailedSince(runs: seq<Run>, symbol: string, since: Option<int>): set<Run> {
    set r | r in runs && Matches(r, symbol, Some(RunStatus.Failed)) && AfterSince(r, since)
  }

  lemma CountStep(runs: seq<Run>, symbol: string, since: Option<int>)
    requires runs != []
    ensures var n := |runs| - 1;
      CountSince(Select(runs, symbol, Some(RunStatus.Failed)), since)
        == CountSince(Select(runs[..n], symbol, Some(RunStatus.Failed)), since)
           + if Matches(runs[n], symbol, Some(RunStatus.Failed)) && AfterSince(runs[n], since) then 1 else 0
  {
    var rows := Select(runs[..|runs| - 1], symbol, Some(RunStatus.Failed));
    assert (rows + [runs[|runs| - 1]])[..|rows|] == rows && rows + [] == rows;
  }

  lemma LastIsNew(runs: seq<Run>)
    requires runs != [] && UniqueStarts(runs)
    ensures runs[|runs| - 1] !in runs[..|runs| - 1]
    ensures forall r :: r in runs <==> r == runs[|runs| - 1] || r in runs[..|runs| - 1]
  {
  }

  lemma {:induction false} CountIsCardinality(runs: seq<Run>, symbol: string, since: Option<int>)
    requires UniqueStarts(runs)
    ensures CountSince(Select(runs, symbol, Some(RunStatus.Failed)), since) == |FailedSince(runs, symbol, since)|
  {
    if runs != [] {
      var n := |runs| - 1;
      hide Select;
      hide CountSince;
      hide FailedSince;
      CountStep(runs, symbol, since);
      CountIsCardinality(runs[..n], symbol, since);
      FailedSinceStep(runs, symbol, since);
    }
  }

  lemma FailedSinceStep(runs: seq<Run>, symbol: string, since: Option<int>)
    requires runs != [] && UniqueStarts(runs)
    ensures var n := |runs| - 1;
      |FailedSince(runs, symbol, since)| == |FailedSince(runs[..n], symbol, since)|
        + if Matches(runs[n], symbol, Some(RunStatus.Failed)) && AfterSince(runs[n], since) then 1 else 0
  {
    LastIsNew(runs);
    var n := |runs| - 1;
    var before := FailedSince(runs[..n], symbol, since);
    assert FailedSince(runs, symbol, since) ==
      if Matches(runs[n], symbol, Some(RunStatus.Failed)) && AfterSince(runs[n], since) then before + {runs[n]}
      else before;
  }

  /** The last run of a history is its newest. */
  lemma LastIsNewest(history: seq<Run>)
    requires history != [] && Chronological(history)
    ensures Chronological(history[..|history| - 1])
    ensures forall r | r in history[..|history| - 1] :: r.startedAt < history[|history| - 1].startedAt
    ensures forall r :: r in history <==> r == history[|history| - 1] || r in history[..|history| - 1]
  {
  }

  function LastSuccess(history: seq<Run>): (run: Option<Run>)
    requires Chronological(history)
    ensures run.None? ==> forall r | r in history :: r.status != Success
    ensures run.Some? ==> run.value in history && run.value.status == Success
    ensures run.Some? ==> forall r | r in history && r.status == Success :: r.startedAt <= run.value.startedAt
  {
    if history == [] then None
    else
      var n := |history| - 1;
      LastIsNewest(history);
      if history[n].status == Success then Some(history[n]) else LastSuccess(history[..n])
  }

  function StartOf(run: Option<Run>): Option<int> {
    if run.Some? then Some(run.value.startedAt) else None
  }

  ghost function FailedInStreak(history: seq<Run>): set<Run>
    requires Chronological(history)
  {
    set r | r in history && r.status == RunStatus.Failed && AfterSince(r, StartOf(LastSuccess(history)))
  }

  lemma {:induction false} StreakIsCardinality(history: seq<Run>)
    requires Chronological(history)
    ensures Streak(history) == |FailedInStreak(history)|
  {
    if history != [] {
      var n := |history| - 1;
      LastIsNewest(history);
      StreakIsCardinality(history[..n]);
      StreakStep(history);
    }
  }

  lemma StreakStep(history: seq<Run>)
    requires history != [] && Chronological(history) && Chronological(history[..|history| - 1])
    ensures var n := |history| - 1;
      && (history[n].status == Success ==> FailedInStreak(history) == {})
      && (history[n].status == RunStatus.Failed ==>
            FailedInStreak(history) == FailedInStreak(history[..n]) + {history[n]})
      && (history[n].status == Running ==> FailedInStreak(history) == FailedInStreak(history[..n]))
      && history[n] !in FailedInStreak(history[..n])
  {
    LastIsNewest(history);
    var n := |history| - 1;
    if history[n].status != Success {
      assert LastSuccess(history) == LastSuccess(history[..n]);
    }
  }

  /** The figure pieced together from queries is the streak of the symbol's history. */
  lemma FailuresSinceSuccessIsStreak(runs: seq<Run>, symbol: string, history: seq<Run>)
    requires UniqueStarts(runs) && HistoryOf(runs, symbol, history)
    ensures FailuresSinceSuccess(runs, symbol) == Streak(history)
  {
    hide Streak;
    StreakIsCardinality(history);
    var rows := Select(runs, symbol, Some(Success));
    var since := StartOf(Latest(rows));
    assert since == StartOf(LastSuccess(history)) by {
      assert forall r :: r in rows <==> r in history && r.status == Success;
      if LastSuccess(history).Some? {
        assert LastSuccess(history).value in rows;
      }
    }
    CountIsCardinality(runs, symbol, since);
    assert FailedSince(runs, symbol, since) == FailedInStreak(history);
  }

  /** The observation the queries build for one symbol. */
  function ObservationOf(runs: seq<Run>, symbol: string): Option<Observation> {
    ReconciliationObservation(symbol, Latest(Select(runs, symbol, None)),
                              Latest(Select(runs, symbol, Some(Success))),
                              Latest(Select(runs, symbol, Some(RunStatus.Failed))), FailuresSinceSuccess(runs, symbol))
  }

  /** The newest run of a status is in the history, and no newer one has that status. */
  ghost predicate NewestOf(history: seq<Run>, status: RunStatus, finishedAt: Option<int>) {
    if forall r | r in history :: r.status != status then finishedAt.None?
    else exists i :: 0 <= i < |history| && history[i].status == status && history[i].finishedAt == finishedAt
                     && forall j | i < j < |history| :: history[j].status != status
  }

  /** What the watch shows of a symbol: its last run, the finish times of its newest SUCCESS and its newest
      FAILED run, and the automaton's figure. */
  ghost predicate Describes(o: Observation, symbol: string, history: seq<Run>) {
    && o.symbol == symbol
    && (history == [] ==> o.latestStatus.None? && o.latestStartedAt.None? && o.latestFinishedAt.None?)
    && (history != [] ==>
          var last := history[|history| - 1];
          o.latestStatus == Some(last.status) && o.latestStartedAt == Some(last.startedAt)
          && o.latestFinishedAt == last.finishedAt)
    && NewestOf(history, Success, o.lastSuccessAt)
    && NewestOf(history, RunStatus.Failed, o.lastFailureAt)
    && o.consecutiveFailures
       == if history != [] && history[|history| - 1].status == RunStatus.Failed then Streak(history) else 0
  }

  lemma LatestOfStatus(runs: seq<Run>, symbol: string, history: seq<Run>, status: RunStatus)
    requires HistoryOf(runs, symbol, history)
    ensures var latest := Latest(Select(runs, symbol, Some(status)));
      && (latest.Some? ==> latest.value.status == status && latest.value in runs)
      && NewestOf(history, status, if latest.Some? then latest.value.finishedAt else None)
  {
    var rows := Select(runs, symbol, Some(status));
    assert forall r :: r in rows <==> r in history && r.status == status;
    var latest := Latest(rows);
    if latest.Some? {
      var i :| 0 <= i < |history| && history[i] == latest.value;
      forall j | i < j < |history| ensures history[j].status != status {
        assert history[j] in history && history[i].startedAt < history[j].startedAt;
      }
    }
  }

  /** The watch describes the symbol's history whenever it shows anything.  It raises exactly when
      the symbol's latest run is still RUNNING, although a running check is documented as merely
      not counting. */
  lemma WatchShowsStreak(runs: seq<Run>, symbol: string, history: seq<Run>)
    requires UniqueStarts(runs) && FinishedUnlessRunning(runs) && HistoryOf(runs, symbol, history)
    ensures var o := ObservationOf(runs, symbol);
      && (o.None? <==> history != [] && history[|history| - 1].status == Running)
      && (o.Some? ==> Describes(o.value, symbol, history))
  {
    hide UniqueStarts;
    hide Select;
    hide Latest;
    hide Chronological;
    hide Streak;
    hide FailuresSinceSuccess;
    FailuresSinceSuccessIsStreak(runs, symbol, history);
    LatestIsNewest(runs, symbol, history);
    LatestOfStatus(runs, symbol, history, Success);
    LatestOfStatus(runs, symbol, history, RunStatus.Failed);
    if history != [] {
      assert history[|history| - 1] in history;
    }
    hide NewestOf;
  }

  lemma LatestIsNewest(runs: seq<Run>, symbol: string, history: seq<Run>)
    requires HistoryOf(runs, symbol, history)
    ensures Latest(Select(runs, symbol, None)) == if history == [] then None else Some(history[|history| - 1])
  {
    var all := Select(runs, symbol, None);
    assert forall r :: r in all <==> r in history;
    if history != [] {
      LastIsNewest(history);
      assert history[|history| - 1] in all;
    }
  }

  /** The failing input at its smallest. */
  lemma RunningLatestRaises(run: Run)
    requires run.kind == Reconciliation && run.status == Running && run.finishedAt.None?
    ensures ObservationOf([run], run.symbol).None?
  {
    assert HistoryOf([run], run.symbol, [run]);
    LatestIsNewest([run], run.symbol, [run]);
  }

  /** Backfill runs never affect the watch. */
  lemma BackfillRunsInvisible(runs: seq<Run>, run: Run, symbol: string)
    requires run.kind == Backfill
    ensures ObservationOf(runs + [run], symbol) == ObservationOf(runs, symbol)
  {
    assert (runs + [run])[..|runs|] == runs;
    assert forall status :: Select(runs + [run], symbol, status) == Select(runs, symbol, status);
  }

  /** In every state of every run the table satisfies what the above asks for. */
  lemma WatchHoldsInEveryState(h: History, symbol: string, history: seq<Run>)
    requires Sound(h) && RunsConsistent(Origin(h)) && HistoryOf(Replay(h).runs, symbol, history)
    ensures var o := ObservationOf(Replay(h).runs, symbol);
      && (o.None? <==> history != [] && history[|history| - 1].status == Running)
      && (o.Some? ==> Describes(o.value, symbol, history))
  {
    RunsStayConsistent(h);
    WatchShowsStreak(Replay(h).runs, symbol, history);
  }

  /** `_reconciliation_observations`: one observation per symbol in order; one symbol whose latest
      run is RUNNING makes the whole list fail. */
  method ReconciliationObservations(runs: seq<Run>, symbols: seq<string>) returns (r: Option<seq<Observation>>)
    ensures r.None? <==> exists s :: s in symbols && ObservationOf(runs, s).None?
    ensures r.Some? ==> |r.value| == |symbols|
    ensures r.Some? ==> forall i | 0 <= i < |symbols| :: Some(r.value[i]) == ObservationOf(runs, symbols[i])
  {
    var observations: seq<Observation> := [];
    hide Select;
    hide Latest;
    hide CountSince;
    hide ReconciliationObservation;
    for i := 0 to |symbols|
      invariant |observations| == i
      invariant forall j | 0 <= j < i :: Some(observations[j]) == ObservationOf(runs, symbols[j])
    {
      var latestRun := Latest(Select(runs, symbols[i], None));
      var lastSuccess := Latest(Select(runs, symbols[i], Some(Success)));
      var lastFailure := Latest(Select(runs, symbols[i], Some(RunStatus.Failed)));
      var failures := CountSince(Select(runs, symbols[i], Some(RunStatus.Failed)), StartOf(lastSuccess));
      var observation := ReconciliationObservation(symbols[i], latestRun, lastSuccess, lastFailure, failures);
      if observation.None? {
        assert symbols[i] in symbols && ObservationOf(runs, symbols[i]).None?;
        return None;
      }
      observations := observations + [observation.value];
    }
    forall s | s in symbols ensures ObservationOf(runs, s).Some? {
      var i :| 0 <= i < |symbols| && symbols[i] == s;
      assert Some(observations[i]) == ObservationOf(runs, symbols[i]);
    }
    r := Some(observations);
  }
}
