/** The daemon as a step machine: committed transactions and other observable steps, the
    history they form, which step is allowed after which history, and what holds of every
    history of allowed steps. */
module Protocol {
  import opened Prelude
  import opened Minutes
  import opened Tables

  datatype Settings = Settings(symbols: seq<string>, days: nat, overlap: nat)

  /** The bounds pydantic enforces. */
  predicate ValidSettings(cfg: Settings) {
    |cfg.symbols| >= 1 && 1 <= cfg.days <= 90 && cfg.overlap <= 10
  }

  const MAX_BATCH: nat := 500
  const QUEUE_SIZE: nat := 20_000

  datatype MarketEvent = CandleEvent(candle: Candle) | TradeEvent(trade: Trade)

  function CandlesOf(events: seq<MarketEvent>): seq<Candle> {
    if events == [] then []
    else
      var n := |events| - 1;
      CandlesOf(events[..n]) + if events[n].CandleEvent? then [events[n].candle] else []
  }

  function TradesOf(events: seq<MarketEvent>): seq<Trade> {
    if events == [] then []
    else
      var n := |events| - 1;
      TradesOf(events[..n]) + if events[n].TradeEvent? then [events[n].trade] else []
  }

  // -------------------------------------------------------------------------
  // Transactions

  /** One constructor for each `async with session` block that commits. */
  datatype Txn =
    | CreateRun(run: Run)
    | RecordNoop(run: Run, at: int)
    | StorePage(page: seq<Candle>)
    | FinishSuccess(id: nat, symbol: string, rows: nat, last: int, at: int)
    | FinishFailed(id: nat, symbol: string, rows: nat, at: int)
    | LiveBatch(events: seq<MarketEvent>)
    | MarkLive(symbols: seq<string>)
    | MarkDisconnected(symbols: seq<string>)

  ghost function Effect(t: Tables, txn: Txn): Tables {
    match txn
    case CreateRun(run) => t.(runs := t.runs + [run])
    case RecordNoop(run, at) => t.(runs := t.runs + [Finished(run, Success, 0, at)])
    case StorePage(page) => t.(candles := Bulk(t.candles, page))
    case FinishSuccess(id, symbol, rows, last, at) =>
      t.(runs := EndRun(t.runs, id, Success, rows, at),
         checkpoints := Touch(t.checkpoints, CheckpointKey(symbol, Kline1m), Recovered, Some(last), false))
    case FinishFailed(id, symbol, rows, at) =>
      t.(runs := EndRun(t.runs, id, RunStatus.Failed, rows, at),
         checkpoints := Touch(t.checkpoints, CheckpointKey(symbol, Kline1m), Status.Failed, None, false))
    case LiveBatch(events) =>
      t.(candles := Bulk(t.candles, CandlesOf(events)),
         trades := InsertEach(t.trades, TradesOf(events)),
         checkpoints := MarkTrades(MarkCandles(t.checkpoints, CandlesOf(events)), TradesOf(events)))
    case MarkLive(symbols) => t.(checkpoints := TouchAll(t.checkpoints, symbols, Live, false))
    case MarkDisconnected(symbols) => t.(checkpoints := TouchAll(t.checkpoints, symbols, Reconnecting, true))
  }

  // -------------------------------------------------------------------------
  // Histories

  datatype Event =
    | Started(cfg: Settings)                            // a process begins, with these settings
    | Connected                                         // `_run_connected` begins
    | TimedOut                                          // no event came before the reconciliation deadline
    | Asked(symbol: string, start: int, end: int)       // a kline page is requested
    | Wrote(txn: Txn)                                   // a transaction took effect
    | Returned(symbol: string, nowMs: int, days: nat)   // a recovery of that many days returned normally
    | Backoff(delay: real)                              // the reconnect sleep

  datatype History = Genesis(tables: Tables) | After(past: History, event: Event)

  ghost function Replay(h: History): Tables {
    match h
    case Genesis(tables) => tables
    case After(past, event) => if event.Wrote? then Effect(Replay(past), event.txn) else Replay(past)
  }

  function Origin(h: History): Tables {
    match h
    case Genesis(tables) => tables
    case After(past, _) => Origin(past)
  }

  /** `later` is `h` or comes after it. */
  ghost predicate Extends(h: History, later: History) {
    h == later || (later.After? && Extends(h, later.past))
  }

  ghost predicate Occurs(h: History, event: Event) {
    h.After? && (h.event == event || Occurs(h.past, event))
  }

  // -------------------------------------------------------------------------
  // The machine

  datatype Phase = Idle | Recovering(done: set<string>) | Streaming

  function PhaseOf(h: History): Phase {
    match h
    case Genesis(_) => Idle
    case After(past, event) =>
      match event
      case Started(_) => Idle
      case Connected => Recovering({})
      case Returned(symbol, _, _) =>
        var phase := PhaseOf(past);
        if phase.Recovering? then Recovering(phase.done + {symbol}) else phase
      case Wrote(MarkLive(_)) => Streaming
      case Wrote(MarkDisconnected(_)) => Idle
      case _ => PhaseOf(past)
  }

  /** Connection failures recorded since the process began. */
  function Attempts(h: History): nat {
    match h
    case Genesis(_) => 0
    case After(past, event) =>
      match event
      case Started(_) => 0
      case Wrote(MarkDisconnected(_)) => Attempts(past) + 1
      case _ => Attempts(past)
  }

  function Pow2(n: nat): nat {
    if n == 0 then 1 else 2 * Pow2(n - 1)
  }

  /** `min(60, 2 ** min(attempt, 6)) + (attempt % 3) * 0.25` */
  function Delay(attempt: nat): real {
    Min(60, Pow2(Min(attempt, 6))) as real + (attempt % 3) as real * 0.25
  }

  ghost predicate RangeClosed(t: Tables, symbol: string, start: int, end: int) {
    forall x | Expected(x, start, end) :: MinuteClosed(t, symbol, x)
  }

  predicate NewRow(run: Run, runs: seq<Run>, symbols: seq<string>) {
    run == NewRun(run.symbol, run.kind, run.rangeStart, run.rangeEnd, run.startedAt)
    && run.symbol in symbols && FreshRun(runs, run)
  }

  predicate ClosedPage(page: seq<Candle>, symbol: string) {
    page != [] && forall c | c in page :: c.key.symbol == symbol && c.key.interval == INTERVAL && c.row.isClosed
  }

  /** The guard of every transaction. */
  ghost predicate MayWrite(cfg: Settings, h: History, txn: Txn) {
    var t, phase := Replay(h), PhaseOf(h);
    match txn
    case CreateRun(run) => !phase.Idle? && NewRow(run, t.runs, cfg.symbols)
    case RecordNoop(run, _) =>
      && phase.Streaming? && run.kind == Reconciliation
      && NewRow(run, t.runs, cfg.symbols)
      && RangeClosed(t, run.symbol, run.rangeStart, run.rangeEnd)
    case StorePage(page) => !phase.Idle? && exists s | s in cfg.symbols :: ClosedPage(page, s)
    case FinishSuccess(id, symbol, _, last, _) =>
      && !phase.Idle? && id < |t.runs| && t.runs[id].symbol == symbol && t.runs[id].status == Running
      && t.runs[id].rangeEnd == last
      && RangeClosed(t, symbol, t.runs[id].rangeStart, last)
    case FinishFailed(id, symbol, _, _) =>
      !phase.Idle? && id < |t.runs| && t.runs[id].symbol == symbol
    case LiveBatch(events) => phase.Streaming? && 1 <= |events| <= MAX_BATCH
    case MarkLive(symbols) =>
      symbols == cfg.symbols && phase.Recovering? && forall s | s in symbols :: s in phase.done
    case MarkDisconnected(symbols) => symbols == cfg.symbols && !phase.Idle?
  }

  /** The guard of every step. A process may begin after any history: the previous one is gone. */
  ghost predicate Allowed(cfg: Settings, h: History, event: Event) {
    match event
    case Started(_) => true
    case Connected => h.After? && (h.event.Started? || h.event.Backoff?)
    case TimedOut => PhaseOf(h).Streaming?
    case Asked(symbol, start, end) => !PhaseOf(h).Idle? && symbol in cfg.symbols && start <= end
    case Wrote(txn) => MayWrite(cfg, h, txn)
    case Returned(symbol, nowMs, days) =>
      && !PhaseOf(h).Idle? && symbol in cfg.symbols && days == cfg.days
      && WindowClosed(Replay(h), symbol, nowMs, days)
    case Backoff(delay) =>
      h.After? && h.event == Wrote(MarkDisconnected(cfg.symbols)) && delay == Delay(Attempts(h))
  }

  /** The settings of the process that is running. */
  function ConfigOf(h: History): Settings {
    match h
    case Genesis(_) => Settings([], 0, 0)
    case After(past, event) => if event.Started? then event.cfg else ConfigOf(past)
  }

  /** Every step was allowed under the settings of the process that took it. */
  ghost predicate Sound(h: History) {
    h.After? ==> Sound(h.past) && Allowed(ConfigOf(h.past), h.past, h.event)
  }

  ghost predicate SoundUnder(cfg: Settings, h: History) {
    Sound(h) && ConfigOf(h) == cfg
  }

  // -------------------------------------------------------------------------
  // Coverage

  /** Closed rows stay closed through any steps whatever, allowed or not. */
  lemma {:induction false} ClosedForever(h: History, later: History, k: CandleKey)
    requires Extends(h, later) && ClosedAt(Replay(h).candles, k)
    ensures ClosedAt(Replay(later).candles, k)
  {
    if h != later {
      ClosedForever(h, later.past, k);
    }
  }

  /** Once a recovery of `symbol` at `nowMs` has returned normally, its whole window is closed
      in every later state of every run: through live batches, later recoveries, failures at
      any step, reconnects, and restarts under other settings. */
  lemma {:induction false} CoverageIsForever(h: History, symbol: string, nowMs: int, days: nat)
    requires Sound(h) && Occurs(h, Returned(symbol, nowMs, days))
    ensures WindowClosed(Replay(h), symbol, nowMs, days)
  {
    if h.event != Returned(symbol, nowMs, days) {
      CoverageIsForever(h.past, symbol, nowMs, days);
      forall x | Expected(x, CoverageStart(nowMs, days), LastCompletedOpen(nowMs))
        ensures MinuteClosed(Replay(h), symbol, x)
      {
        ClosedForever(h.past, h, CandleKey(symbol, INTERVAL, x));
      }
    }
  }

  function StatusOf(table: CheckpointTable, key: CheckpointKey): Status {
    if key in table then table[key].status else Starting
  }

  /** A recovery of the symbol returned normally since the connection began. */
  ghost predicate RecoveredHere(h: History, symbol: string) {
    h.After? && !h.event.Connected? && !h.event.Started? &&
    ((h.event.Returned? && h.event.symbol == symbol) || RecoveredHere(h.past, symbol))
  }

  /** Which symbols the current connection has recovered is in the history. */
  lemma {:induction false} PhaseHasRecoveries(h: History, symbol: string)
    requires Sound(h)
    requires if PhaseOf(h).Streaming? then symbol in ConfigOf(h).symbols
             else PhaseOf(h).Recovering? && symbol in PhaseOf(h).done
    ensures RecoveredHere(h, symbol)
  {
    if !(h.event.Returned? && h.event.symbol == symbol) {
      PhaseHasRecoveries(h.past, symbol);
    }
  }

  lemma TouchBothAt(table: CheckpointTable, symbol: string, status: Status, bump: bool, key: CheckpointKey)
    ensures var after := TouchBoth(table, symbol, status, bump);
      && (key.symbol != symbol ==> (key in after <==> key in table) && (key in table ==> after[key] == table[key]))
      && (key.symbol == symbol ==> StatusOf(after, key) == status)
  {
    assert key.source == Kline1m || key.source == AggTrade;
  }

  lemma {:induction false} TouchAllOthers(table: CheckpointTable, symbols: seq<string>, status: Status, bump: bool,
                                          key: CheckpointKey)
    ensures key.symbol !in symbols ==> (key in TouchAll(table, symbols, status, bump) <==> key in table)
    ensures key.symbol !in symbols && key in table ==> TouchAll(table, symbols, status, bump)[key] == table[key]
    ensures key.symbol in symbols ==> StatusOf(TouchAll(table, symbols, status, bump), key) == status
  {
    if symbols != [] {
      var n := |symbols| - 1;
      assert key.source == Kline1m || key.source == AggTrade;
      TouchAllOthers(table, symbols[..n], status, bump, key);
      assert forall s :: s in symbols <==> s == symbols[n] || s in symbols[..n];
      TouchBothAt(TouchAll(table, symbols[..n], status, bump), symbols[n], status, bump, key);
      hide TouchBoth;
    }
  }

  /** A step that sets the symbol's one-minute checkpoint to LIVE. */
  ghost predicate WritesLive(event: Event, symbol: string) {
    event.Wrote? &&
    match event.txn
    case LiveBatch(events) => exists e :: e in events && e.CandleEvent? && e.candle.key.symbol == symbol
    case MarkLive(symbols) => symbol in symbols
    case _ => false
  }

  /** The stream delivered the symbol's candles only to processes configured for it, as the
      subscription asks. */
  ghost predicate Subscribed(h: History, symbol: string) {
    h.After? ==>
      && Subscribed(h.past, symbol)
      && (h.event.Wrote? && h.event.txn.LiveBatch? && WritesLive(h.event, symbol) ==> symbol in ConfigOf(h).symbols)
  }

  /** The checkpoint has read LIVE in every state from `write` on. */
  ghost predicate LiveSince(write: History, h: History, key: CheckpointKey) {
    && StatusOf(Replay(h).checkpoints, key) == Live
    && (h == write || (h.After? && LiveSince(write, h.past, key)))
  }

  /** The checkpoint reads LIVE since a write that came after a recovery of the same connection. */
  ghost predicate LiveAfterRecovery(write: History, h: History, symbol: string) {
    && LiveSince(write, h, CheckpointKey(symbol, Kline1m))
    && write.After? && WritesLive(write.event, symbol) && RecoveredHere(write.past, symbol)
  }

  lemma {:induction false} MarkCandlesStatus(table: CheckpointTable, cs: seq<Candle>, key: CheckpointKey)
    ensures StatusOf(MarkCandles(table, cs), key) == StatusOf(table, key)
         || (StatusOf(MarkCandles(table, cs), key) == Live
             && exists c :: c in cs && CheckpointKey(c.key.symbol, Kline1m) == key)
  {
    if cs != [] {
      var n := |cs| - 1;
      MarkCandlesStatus(table, cs[..n], key);
      assert forall c :: c in cs <==> c == cs[n] || c in cs[..n];
    }
  }

  lemma {:induction false} MarkTradesStatus(table: CheckpointTable, ts: seq<Trade>, symbol: string)
    ensures var key := CheckpointKey(symbol, Kline1m); StatusOf(MarkTrades(table, ts), key) == StatusOf(table, key)
  {
    if ts != [] {
      MarkTradesStatus(table, ts[..|ts| - 1], symbol);
    }
  }

  lemma {:induction false} CandlesComeFromEvents(events: seq<MarketEvent>)
    ensures forall c | c in CandlesOf(events) :: CandleEvent(c) in events
  {
    if events != [] {
      CandlesComeFromEvents(events[..|events| - 1]);
      assert forall e | e in events[..|events| - 1] :: e in events;
    }
  }

  /** Only those steps bring a one-minute checkpoint to LIVE. */
  lemma OnlyLiveWrites(t: Tables, txn: Txn, symbol: string)
    requires !WritesLive(Wrote(txn), symbol)
    requires StatusOf(Effect(t, txn).checkpoints, CheckpointKey(symbol, Kline1m)) == Live
    ensures StatusOf(t.checkpoints, CheckpointKey(symbol, Kline1m)) == Live
  {
    var key := CheckpointKey(symbol, Kline1m);
    match txn {
      case LiveBatch(events) =>
        CandlesComeFromEvents(events);
        MarkCandlesStatus(t.checkpoints, CandlesOf(events), key);
        MarkTradesStatus(MarkCandles(t.checkpoints, CandlesOf(events)), TradesOf(events), symbol);
      case MarkLive(symbols) => TouchAllOthers(t.checkpoints, symbols, Live, false, key);
      case MarkDisconnected(symbols) => TouchAllOthers(t.checkpoints, symbols, Reconnecting, true, key);
      case _ =>
    }
  }

  /** A one-minute checkpoint that reads LIVE has read so since a write that followed a recovery of
      the symbol, in the same connection, that returned normally. */
  lemma {:induction false} LiveHasRecovery(h: History, symbol: string) returns (write: History)
    requires Sound(h) && Subscribed(h, symbol)
    requires StatusOf(Origin(h).checkpoints, CheckpointKey(symbol, Kline1m)) != Live
    requires StatusOf(Replay(h).checkpoints, CheckpointKey(symbol, Kline1m)) == Live
    ensures LiveAfterRecovery(write, h, symbol)
  {
    if WritesLive(h.event, symbol) {
      write := h;
      PhaseHasRecoveries(h.past, symbol);
    } else {
      if h.event.Wrote? {
        OnlyLiveWrites(Replay(h.past), h.event.txn, symbol);
      }
      write := LiveHasRecovery(h.past, symbol);
    }
  }

  // -------------------------------------------------------------------------
  // Checkpoints

  function ReconnectsOf(table: CheckpointTable, key: CheckpointKey): nat {
    if key in table then table[key].reconnects else 0
  }

  function EventOf(table: CheckpointTable, key: CheckpointKey): Option<int> {
    if key in table then table[key].lastEvent else None
  }

  function Occurrences(symbols: seq<string>, symbol: string): nat {
    if symbols == [] then 0
    else Occurrences(symbols[..|symbols| - 1], symbol) + if symbols[|symbols| - 1] == symbol then 1 else 0
  }

  /** The history up to the start of the current process. */
  function ProcessStart(h: History): History {
    match h
    case Genesis(_) => h
    case After(past, event) => if event.Started? then h else ProcessStart(past)
  }

  lemma {:induction false} TouchAllReconnects(table: CheckpointTable, symbols: seq<string>, status: Status, bump: bool,
                                              key: CheckpointKey)
    ensures ReconnectsOf(TouchAll(table, symbols, status, bump), key)
         == ReconnectsOf(table, key) + if bump then Occurrences(symbols, key.symbol) else 0
  {
    if symbols != [] {
      assert key.source == Kline1m || key.source == AggTrade;
      TouchAllReconnects(table, symbols[..|symbols| - 1], status, bump, key);
    }
  }

  lemma {:induction false} MarksKeepReconnects(table: CheckpointTable, cs: seq<Candle>, ts: seq<Trade>,
                                               key: CheckpointKey)
    ensures ReconnectsOf(MarkCandles(table, cs), key) == ReconnectsOf(table, key)
    ensures ReconnectsOf(MarkTrades(table, ts), key) == ReconnectsOf(table, key)
    decreases |cs| + |ts|
  {
    if cs != [] {
      MarksKeepReconnects(table, cs[..|cs| - 1], [], key);
    }
    if ts != [] {
      MarksKeepReconnects(table, [], ts[..|ts| - 1], key);
    }
  }

  lemma EffectOnReconnects(t: Tables, txn: Txn, key: CheckpointKey)
    ensures ReconnectsOf(Effect(t, txn).checkpoints, key)
         == ReconnectsOf(t.checkpoints, key)
            + if txn.MarkDisconnected? then Occurrences(txn.symbols, key.symbol) else 0
  {
    match txn {
      case LiveBatch(events) =>
        MarksKeepReconnects(t.checkpoints, CandlesOf(events), [], key);
        MarksKeepReconnects(MarkCandles(t.checkpoints, CandlesOf(events)), [], TradesOf(events), key);
      case MarkLive(symbols) => TouchAllReconnects(t.checkpoints, symbols, Live, false, key);
      case MarkDisconnected(symbols) => TouchAllReconnects(t.checkpoints, symbols, Reconnecting, true, key);
      case _ =>
    }
  }

  lemma StepOnReconnects(h: History, key: CheckpointKey)
    requires Sound(h) && h.After?
    ensures h.event.Started? || Attempts(h) == Attempts(h.past) || Attempts(h) == Attempts(h.past) + 1
    ensures ReconnectsOf(Replay(h).checkpoints, key)
         == ReconnectsOf(Replay(h.past).checkpoints, key)
            + if h.event.Started? || Attempts(h) == Attempts(h.past) then 0
              else Occurrences(ConfigOf(h).symbols, key.symbol)
  {
    if h.event.Wrote? {
      EffectOnReconnects(Replay(h.past), h.event.txn, key);
    }
  }

  lemma OneMoreFailure(failures: nat, occurrences: nat)
    ensures (failures + 1) * occurrences == failures * occurrences + occurrences
  {
  }

  /** Every reconnect counter is its value at the start of the process plus the failures since
      then, times how often the symbol is configured (once, for distinct symbols): no other
      checkpoint write disturbs it, and it is not reset when a process starts. */
  lemma {:induction false} ReconnectsInLockstep(h: History, key: CheckpointKey)
    requires Sound(h)
    ensures ReconnectsOf(Replay(h).checkpoints, key)
         == ReconnectsOf(Replay(ProcessStart(h)).checkpoints, key)
            + Attempts(h) * Occurrences(ConfigOf(h).symbols, key.symbol)
  {
    if h.After? && !h.event.Started? {
      assert Sound(h.past) && ProcessStart(h) == ProcessStart(h.past) && ConfigOf(h) == ConfigOf(h.past);
      hide *;
      ReconnectsInLockstep(h.past, key);
      StepOnReconnects(h, key);
      OneMoreFailure(Attempts(h.past), Occurrences(ConfigOf(h).symbols, key.symbol));
    }
  }

  lemma {:induction false} ConfiguredOccurs(symbols: seq<string>, symbol: string)
    requires symbol in symbols
    ensures Occurrences(symbols, symbol) >= 1
  {
    var n := |symbols| - 1;
    if symbols[n] != symbol {
      assert forall s :: s in symbols <==> s == symbols[n] || s in symbols[..n];
      ConfiguredOccurs(symbols[..n], symbol);
    }
  }

  /** With distinct symbols each failure counts once. */
  lemma {:induction false} DistinctOccursOnce(symbols: seq<string>, symbol: string)
    requires forall i, j | 0 <= i < j < |symbols| :: symbols[i] != symbols[j]
    ensures Occurrences(symbols, symbol) == if symbol in symbols then 1 else 0
  {
    if symbols != [] {
      var n := |symbols| - 1;
      DistinctOccursOnce(symbols[..n], symbol);
      assert forall s :: s in symbols <==> s == symbols[n] || s in symbols[..n];
    }
  }

  lemma CountOfThisRun(before: nat, failures: nat, occurrences: nat)
    requires occurrences >= 1
    ensures before + failures * occurrences == failures <==> before == 0 && (failures == 0 || occurrences == 1)
  {
    if failures >= 1 && occurrences >= 2 {
      assert failures * occurrences == failures * (occurrences - 2) + 2 * failures;
    }
  }

  /** A configured symbol's counter is the number of failures of the current process exactly when
      it was zero when the process started, and no failure was counted for a symbol configured
      twice. */
  lemma ReconnectCountIsOfThisRun(h: History, key: CheckpointKey)
    requires Sound(h) && key.symbol in ConfigOf(h).symbols
    ensures ReconnectsOf(Replay(h).checkpoints, key) == Attempts(h)
       <==> && ReconnectsOf(Replay(ProcessStart(h)).checkpoints, key) == 0
            && (Attempts(h) == 0 || Occurrences(ConfigOf(h).symbols, key.symbol) == 1)
  {
    ReconnectsInLockstep(h, key);
    ConfiguredOccurs(ConfigOf(h).symbols, key.symbol);
    CountOfThisRun(ReconnectsOf(Replay(ProcessStart(h)).checkpoints, key), Attempts(h),
                   Occurrences(ConfigOf(h).symbols, key.symbol));
  }

  /** A counter that is not zero when a process starts: the process has had no failure, and the
      counter does not say so. */
  lemma ReconnectCountSurvivesRestart(t: Tables, cfg: Settings, key: CheckpointKey)
    requires ReconnectsOf(t.checkpoints, key) > 0
    ensures var h := After(Genesis(t), Started(cfg));
      Sound(h) && Attempts(h) == 0 && ReconnectsOf(Replay(h).checkpoints, key) > 0
  {
  }

  /** The delays, one by one: they double from a base of two seconds up to a minute, with a jitter of
      zero, a quarter or half a second. */
  lemma DelayValues(attempt: nat)
    requires attempt >= 1
    ensures attempt <= 5 ==> Delay(attempt) == [2.25, 4.5, 8.0, 16.25, 32.5][attempt - 1]
    ensures attempt >= 6 ==> Delay(attempt) == [60.0, 60.25, 60.5][attempt % 3]
  {
    assert Pow2(0) == 1 && Pow2(1) == 2 && Pow2(2) == 4 && Pow2(3) == 8;
    assert Pow2(4) == 16 && Pow2(5) == 32 && Pow2(6) == 64;
  }

  /** In every run a connection that is not the first of its process begins right after a failure was
      marked on the process's own symbols and the delay of the failures so far was slept. */
  lemma ReconnectsWaitOut(h: History)
    requires Sound(h) && h.After? && h.event.Connected?
    ensures var before := h.past;
      && before.After?
      && (!before.event.Started? ==>
            && before.event == Backoff(Delay(Attempts(before))) && Attempts(before) >= 1
            && before.past.After? && before.past.event == Wrote(MarkDisconnected(ConfigOf(h).symbols)))
  {
  }

  /** Every back-off lies between 2.25 and 60.5 seconds, and from the sixth failure on it is at
      least a minute. */
  lemma DelayBounds(attempt: nat)
    requires attempt >= 1
    ensures 2.25 <= Delay(attempt) <= 60.5
    ensures attempt >= 6 ==> Delay(attempt) >= 60.0
  {
    assert Pow2(0) == 1 && Pow2(1) == 2 && Pow2(2) == 4 && Pow2(3) == 8;
    assert Pow2(4) == 16 && Pow2(5) == 32 && Pow2(6) == 64;
  }

  ghost predicate HasEvent(table: CheckpointTable, key: CheckpointKey) {
    key in table && table[key].lastEvent.Some?
  }

  lemma {:induction false} MarksKeepEvents(table: CheckpointTable, cs: seq<Candle>, ts: seq<Trade>,
                                           symbols: seq<string>, status: Status, bump: bool, key: CheckpointKey)
    requires HasEvent(table, key)
    ensures HasEvent(MarkCandles(table, cs), key)
    ensures HasEvent(MarkTrades(table, ts), key)
    ensures HasEvent(TouchAll(table, symbols, status, bump), key)
    decreases |cs| + |ts| + |symbols|
  {
    if cs != [] {
      MarksKeepEvents(table, cs[..|cs| - 1], [], [], status, bump, key);
    }
    if ts != [] {
      MarksKeepEvents(table, [], ts[..|ts| - 1], [], status, bump, key);
    }
    if symbols != [] {
      MarksKeepEvents(table, [], [], symbols[..|symbols| - 1], status, bump, key);
    }
  }

  /** A checkpoint that has an event time always has one. */
  lemma {:induction false} EventTimeNeverLost(h: History, later: History, key: CheckpointKey)
    requires Extends(h, later) && HasEvent(Replay(h).checkpoints, key)
    ensures HasEvent(Replay(later).checkpoints, key)
  {
    if h != later {
      EventTimeNeverLost(h, later.past, key);
      var t := Replay(later.past).checkpoints;
      if later.event.Wrote? {
        match later.event.txn {
          case LiveBatch(events) =>
            MarksKeepEvents(t, CandlesOf(events), [], [], Live, false, key);
            MarksKeepEvents(MarkCandles(t, CandlesOf(events)), [], TradesOf(events), [], Live, false, key);
          case MarkLive(symbols) => MarksKeepEvents(t, [], [], symbols, Live, false, key);
          case MarkDisconnected(symbols) => MarksKeepEvents(t, [], [], symbols, Reconnecting, true, key);
          case _ =>
        }
      }
    }
  }

  // -------------------------------------------------------------------------
  // Runs

  /** What the run table of every reachable state satisfies: start times are distinct per symbol
      and kind, exactly the running runs have no finish time, and every minute in the range of
      a successful run is stored closed. */
  ghost predicate RunsConsistent(t: Tables) {
    && UniqueStarts(t.runs)
    && FinishedUnlessRunning(t.runs)
    && (forall r | r in t.runs && r.status == Success :: RangeClosed(t, r.symbol, r.rangeStart, r.rangeEnd))
  }

  lemma RangeStaysClosed(h: History, later: History, symbol: string, start: int, end: int)
    requires Extends(h, later) && RangeClosed(Replay(h), symbol, start, end)
    ensures RangeClosed(Replay(later), symbol, start, end)
  {
    hide Replay;
    hide Extends;
    forall x | Expected(x, start, end) ensures MinuteClosed(Replay(later), symbol, x) {
      ClosedForever(h, later, CandleKey(symbol, INTERVAL, x));
    }
  }

  /** The runs a transaction appends or rewrites. */
  ghost predicate RunsStep(t: Tables, t': Tables) {
    || t'.runs == t.runs
    || (exists run :: t'.runs == t.runs + [run] && FreshRun(t.runs, run)
          && (run.finishedAt.None? <==> run.status == Running)
          && (run.status == Success ==> RangeClosed(t, run.symbol, run.rangeStart, run.rangeEnd)))
    || (exists id: nat, status, rows, at :: id < |t.runs| && status != Running
          && t'.runs == EndRun(t.runs, id, status, rows, at)
          && (status == Success ==> RangeClosed(t, t.runs[id].symbol, t.runs[id].rangeStart, t.runs[id].rangeEnd)))
  }

  lemma AllowedRunsStep(h: History)
    requires Sound(h) && h.After?
    ensures RunsStep(Replay(h.past), Replay(h))
  {
    var t, t' := Replay(h.past), Replay(h);
    if h.event.Wrote? {
      match h.event.txn {
        case CreateRun(run) => assert t'.runs == t.runs + [run];
        case RecordNoop(run, at) =>
          var done := Finished(run, Success, 0, at);
          assert t'.runs == t.runs + [done] && FreshRun(t.runs, done);
        case FinishSuccess(id, _, rows, _, at) => assert t'.runs == EndRun(t.runs, id, Success, rows, at);
        case FinishFailed(id, _, rows, at) => assert t'.runs == EndRun(t.runs, id, RunStatus.Failed, rows, at);
        case _ =>
      }
    }
  }

  lemma RunsStepConsistent(t: Tables, t': Tables)
    requires RunsConsistent(t) && RunsStep(t, t')
    requires forall r | r in t.runs && r.status == Success :: RangeClosed(t', r.symbol, r.rangeStart, r.rangeEnd)
    requires forall r | r in t'.runs && r.status == Success && RangeClosed(t, r.symbol, r.rangeStart, r.rangeEnd) ::
               RangeClosed(t', r.symbol, r.rangeStart, r.rangeEnd)
    ensures RunsConsistent(t')
  {
    hide RangeClosed;
    if t'.runs != t.runs {
      assert forall i | 0 <= i < |t.runs| :: t.runs[i] in t.runs;
      if |t'.runs| == |t.runs| + 1 {
        assert t'.runs == t.runs + [t'.runs[|t.runs|]];
      }
    }
  }

  /** SUCCESS means no gap, forever, in every reachable state. */
  lemma {:induction false} RunsStayConsistent(h: History)
    requires Sound(h) && RunsConsistent(Origin(h))
    ensures RunsConsistent(Replay(h))
    ensures forall r, x | r in Replay(h).runs && r.status == Success && Expected(x, r.rangeStart, r.rangeEnd) ::
              MinuteClosed(Replay(h), r.symbol, x)
  {
    if h.After? {
      RunsStayConsistent(h.past);
      AllowedRunsStep(h);
      hide Replay;
      hide Allowed;
      hide RunsStep;
      hide RangeClosed;
      var t, t' := Replay(h.past), Replay(h);
      forall r: Run | RangeClosed(t, r.symbol, r.rangeStart, r.rangeEnd)
        ensures RangeClosed(t', r.symbol, r.rangeStart, r.rangeEnd)
      {
        RangeStaysClosed(h.past, h, r.symbol, r.rangeStart, r.rangeEnd);
      }
      RunsStepConsistent(t, t');
    }
  }
}
