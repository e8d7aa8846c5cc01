/** The collector as imperative code: recovery, the connection loop, and the process. */
module Collecting {
  import opened Prelude
  import opened Minutes
  import opened Tables
  import opened Storage
  import opened Protocol
  import opened Recovery
  import opened Passes
  import opened Connections
  import opened Repository

  function ExitFrom<T>(r: Outcome<T>): Exit {
    match r
    case Ok(_) => Returns
    case Raised => Raises
    case Cancelled => Cancels
  }

  // -------------------------------------------------------------------------
  // The environment

  /** One element of a kline response. */
  datatype RestItem = RestItem(openTime: int, data: CandleData)

  function CandleFromRest(symbol: string, item: RestItem): Candle {
    Candle(CandleKey(symbol, INTERVAL, item.openTime), CandleRow(item.data.(sourceEventTime := None), true))
  }

  function CandlesFromRest(symbol: string, items: seq<RestItem>): (page: seq<Candle>)
    ensures |page| == |items|
    ensures forall i | 0 <= i < |items| :: page[i] == CandleFromRest(symbol, items[i])
  {
    seq(|items|, i requires 0 <= i < |items| => CandleFromRest(symbol, items[i]))
  }

  /** The database, the exchange, Redis, the clock and the process itself.  Every await may
      succeed, raise, or be the last one: `fuel` is how many more the process lives for, which
      nothing but termination depends on. */
  class World {
    var tables: Tables
    var stopped: bool
    var fuel: nat
    ghost var history: History

    ghost predicate Valid() reads this {
      tables == Replay(history)
    }

    constructor (existing: Tables)
      ensures Valid() && history == Genesis(existing)
    {
      tables := existing;
      stopped := false;
      fuel := 0;
      history := Genesis(existing);
    }

    /** A new process: nothing but the tables survives. */
    method Boot(cfg: Settings)
      requires Valid()
      modifies this
      ensures Valid() && history == After(old(history), Started(cfg))
    {
      stopped := false;
      fuel := *;
      history := After(history, Started(cfg));
    }

    /** Any await that neither reads nor writes a table. */
    method Await() returns (r: Outcome<()>)
      requires Valid()
      modifies this
      ensures Valid() && history == old(history) && fuel <= old(fuel) && (old(stopped) ==> stopped)
      ensures r.Cancelled? || fuel < old(fuel)
    {
      if fuel == 0 {
        return Cancelled;
      }
      fuel := fuel - 1;
      var stop: bool := *;
      stopped := stopped || stop;
      r := *;
    }

    /** Records a step that touches no table. */
    ghost method Note(event: Event)
      requires Valid() && !event.Wrote?
      modifies this`history
      ensures Valid() && history == After(old(history), event)
    {
      history := After(history, event);
    }

    method Clock() returns (nowMs: int) {
      nowMs := *;
    }

    method ReadClosedOpenTimes(symbol: string, start: int, end: int) returns (r: Outcome<set<int>>)
      requires Valid()
      modifies this
      ensures Valid() && history == old(history) && fuel <= old(fuel) && (old(stopped) ==> stopped)
      ensures r.Ok? ==> r.value == ClosedOpenTimes(Replay(history), symbol, start, end)
    {
      var _ :- Await();
      r := Ok(ClosedOpenTimes(tables, symbol, start, end));
    }

    /** A commit takes effect or not, and is acknowledged or not; an acknowledged one took effect. */
    method Commit(session: Session, ghost txn: Txn) returns (r: Outcome<()>, ghost applied: bool)
      requires Valid() && session.tables == Effect(tables, txn)
      modifies this
      ensures Valid() && fuel <= old(fuel) && (old(stopped) ==> stopped)
      ensures history == WriteIf(old(history), applied, txn)
      ensures r.Ok? ==> applied
    {
      applied := false;
      if fuel == 0 {
        return Cancelled, false;
      }
      r := Await();
      var reached: bool := *;
      if r.Ok? || reached {
        tables := session.tables;
        history := After(history, Wrote(txn));
        applied := true;
      }
    }

    /** Assumed of the exchange: a non-empty page is ascending and starts at or after `start`. */
    method FetchKlines(symbol: string, start: int, end: int) returns (r: Outcome<seq<Candle>>)
      requires Valid()
      modifies this
      ensures Valid() && fuel <= old(fuel) && (old(stopped) ==> stopped)
      ensures history == After(old(history), Asked(symbol, start, end))
      ensures r.Ok? && r.value != [] ==> PageOk(symbol, start, r.value)
      ensures r.Ok? ==> forall c | c in r.value :: c.row.data.sourceEventTime.None?
    {
      history := After(history, Asked(symbol, start, end));
      var _ :- Await();
      var items: seq<RestItem> := *;
      var page := CandlesFromRest(symbol, items);
      if page != [] && !(Ascending(page) && start <= page[0].key.openTime) {
        return Raised;
      }
      r := Ok(page);
    }
  }

  // -------------------------------------------------------------------------
  // The stream

  /** Why the connection loop wakes up. */
  datatype Wakeup = Deadline | ReaderDone | EventReady

  datatype ReaderState = Reading | Ended | Broken

  /** The reader task and the bounded queue it fills. */
  class StreamBuffer {
    var queue: seq<MarketEvent>
    var blocked: Option<MarketEvent>    // the event of a reader waiting in `queue.put`
    var reader: ReaderState
    ghost var delivered: seq<MarketEvent>
    ghost var taken: seq<MarketEvent>

    ghost predicate Valid() reads this {
      && |queue| <= QUEUE_SIZE
      && delivered == taken + Pending()
      && (reader != Reading ==> blocked.None?)
    }

    ghost function Pending(): seq<MarketEvent> reads this {
      queue + if blocked.Some? then [blocked.value] else []
    }

    constructor ()
      ensures Valid() && delivered == [] && taken == []
    {
      queue, blocked, reader := [], None, Reading;
      delivered, taken := [], [];
    }

    /** A reader that has ended does nothing; one that is blocked puts its event as soon as there is room and
        does nothing else; one that is free ends, or takes one event and puts it or blocks. */
    method ReaderStep()
      requires Valid()
      modifies this
      ensures Valid() && taken == old(taken) && old(delivered) <= delivered && old(queue) <= queue
      ensures old(reader) != Reading ==> reader == old(reader) && delivered == old(delivered)
      ensures old(blocked).Some? ==> reader == old(reader) && delivered == old(delivered)
      ensures old(blocked).Some? && |old(queue)| < 20_000 ==>
                queue == old(queue) + [old(blocked).value] && blocked.None?
      ensures old(blocked).Some? && |old(queue)| == 20_000 ==> queue == old(queue) && blocked == old(blocked)
      ensures old(reader) == Reading && old(blocked).None? ==>
                if reader == Reading then |delivered| == |old(delivered)| + 1 else delivered == old(delivered)
      ensures old(blocked).None? && blocked.Some? ==> |queue| == 20_000
    {
      if reader != Reading {
        return;
      }
      if blocked.Some? {
        if |queue| < QUEUE_SIZE {
          queue := queue + [blocked.value];
          blocked := None;
        }
        return;
      }
      var next: ReaderState := *;
      if next != Reading {
        reader := next;
        return;
      }
      var event: MarketEvent := *;
      delivered := delivered + [event];
      if |queue| < QUEUE_SIZE {
        queue := queue + [event];
      } else {
        blocked := Some(event);
      }
    }

    /** The reader runs for a while, as it may at any await of the collector. */
    method RunReader()
      requires Valid()
      modifies this
      ensures Valid() && taken == old(taken) && old(delivered) <= delivered && old(queue) <= queue
    {
      var steps: nat := *;
      while steps > 0
        invariant Valid() && taken == old(taken) && old(delivered) <= delivered && old(queue) <= queue
      {
        ReaderStep();
        steps := steps - 1;
      }
    }

    method Get() returns (event: MarketEvent)
      requires Valid() && queue != []
      modifies this
      ensures Valid() && delivered == old(delivered) && taken == old(taken) + [event] && reader == old(reader)
      ensures old(queue) == [event] + queue
    {
      event := queue[0];
      queue := queue[1..];
      taken := taken + [event];
      assert old(queue) == [event] + queue;
    }
  }

  // -------------------------------------------------------------------------
  // The collector

  class Collector {
    const cfg: Settings
    const world: World

    constructor (cfg: Settings, world: World)
      ensures this.cfg == cfg && this.world == world
    {
      this.cfg := cfg;
      this.world := world;
    }

    // ---- recovery ---------------------------------------------------------

    /** The transaction that creates a run. */
    method OpenRun(symbol: string, kind: RunKind, start: int, end: int)
      returns (r: Outcome<nat>, ghost run: Run, ghost applied: bool)
      requires world.Valid()
      modifies world
      ensures world.Valid() && world.fuel <= old(world.fuel) && (old(world.stopped) ==> world.stopped)
      ensures run == NewRun(symbol, kind, start, end, run.startedAt)
      ensures applied ==> FreshRun(Replay(old(world.history)).runs, run)
      ensures world.history == WriteIf(old(world.history), applied, CreateRun(run))
      ensures r.Ok? ==> applied && r.value == |Replay(old(world.history)).runs|
    {
      var now := world.Clock();
      run := NewRun(symbol, kind, start, end, now);
      applied := false;
      var session := new Session(world.tables);
      var id := session.CreateRun(symbol, kind, start, end, now);
      if id.None? {
        return Raised, run, false;
      }
      var committed;
      committed, applied := world.Commit(session, CreateRun(run));
      r := if committed.Ok? then Ok(id.value) else committed.PropagateFailure();
    }

    method RecordSuccessfulReconciliation(symbol: string, start: int, end: int)
      returns (r: Outcome<()>, ghost run: Run, ghost at: int, ghost applied: bool)
      requires world.Valid()
      modifies world
      ensures world.Valid() && world.fuel <= old(world.fuel) && (old(world.stopped) ==> world.stopped)
      ensures run == NewRun(symbol, Reconciliation, start, end, run.startedAt)
      ensures applied ==> FreshRun(Replay(old(world.history)).runs, run)
      ensures world.history == WriteIf(old(world.history), applied, RecordNoop(run, at))
      ensures r.Ok? ==> applied
    {
      var now := world.Clock();
      var later := world.Clock();
      run, at, applied := NewRun(symbol, Reconciliation, start, end, now), later, false;
      var session := new Session(world.tables);
      var id := session.CreateRun(symbol, Reconciliation, start, end, now);
      if id.None? {
        return Raised, run, at, false;
      }
      session.FinishRun(id.value, Success, 0, later);
      r, applied := world.Commit(session, RecordNoop(run, at));
    }

    /** The paging loop: `emptied` says whether an empty page ended it, and `down` where an
        exception or cancellation did. */
    method FetchPages(req: Request, start: int)
      returns (r: Outcome<bool>, rows: nat, ghost pages: seq<seq<Candle>>, ghost down: End)
      requires world.Valid()
      modifies world
      ensures world.Valid() && world.fuel <= old(world.fuel) && (old(world.stopped) ==> world.stopped)
      ensures PagesOk(req.symbol, start, Last(req), pages) && rows == RowsOf(pages)
      ensures var stored := AfterPages(old(world.history), req.symbol, start, Last(req), pages);
        var next := NextStart(start, pages);
        var asked := After(stored, Asked(req.symbol, next, Last(req)));
        if r.Ok? then
          r.value == (next <= Last(req)) && world.history == if r.value then asked else stored
        else
          next <= Last(req) && ExitOf(down) == ExitFrom(r)
          && ((down.RestDown? && world.history == asked)
              || (down.PageDown? && PageOk(req.symbol, next, down.page)
                  && world.history == WriteIf(asked, down.applied, StorePage(down.page))))
    {
      var last := Last(req);
      rows, pages, down := 0, [], Incomplete;
      var nextStart := start;
      while nextStart <= last
        invariant world.Valid() && world.fuel <= old(world.fuel) && (old(world.stopped) ==> world.stopped)
        invariant world.history == AfterPages(old(world.history), req.symbol, start, last, pages)
        invariant PagesOk(req.symbol, start, last, pages)
        invariant nextStart == NextStart(start, pages) && rows == RowsOf(pages)
        decreases last - nextStart
      {
        var reply := world.FetchKlines(req.symbol, nextStart, last);
        if !reply.Ok? {
          down := RestDown(ExitFrom(reply));
          return reply.PropagateFailure(), rows, pages, down;
        }
        var candles := reply.value;
        if candles == [] {
          return Ok(true), rows, pages, down;
        }
        var session := new Session(world.tables);
        session.UpsertCandles(candles);
        var committed;
        ghost var applied;
        committed, applied := world.Commit(session, StorePage(candles));
        if !committed.Ok? {
          down := PageDown(candles, applied, ExitFrom(committed));
          return committed.PropagateFailure(), rows, pages, down;
        }
        rows := rows + |candles|;
        nextStart := candles[|candles| - 1].key.openTime + 60_000;
        assert candles[0].key.openTime <= candles[|candles| - 1].key.openTime;
        assert (pages + [candles])[..|pages|] == pages;
        pages := pages + [candles];
      }
      r := Ok(false);
    }

    /** Re-reads the coverage and, when nothing is missing, commits SUCCESS and publishes. */
    method CheckAndFinish(req: Request, id: nat, rows: nat) returns (r: Outcome<()>, ghost end: End)
      requires world.Valid() && id < |Replay(world.history).runs|
      modifies world
      ensures world.Valid() && world.fuel <= old(world.fuel) && (old(world.stopped) ==> world.stopped)
      ensures !end.RestDown? && !end.PageDown? && ExitFrom(r) == ExitOf(end) && (r.Ok? ==> end.Done?)
      ensures !end.RereadDown? ==> (end.Incomplete? <==> GapOf(Replay(old(world.history)), req).Some?)
      ensures world.history == Conclude(old(world.history), req, id, rows, end)
    {
      var persisted := world.ReadClosedOpenTimes(req.symbol, First(req), Last(req));
      if !persisted.Ok? {
        return persisted.PropagateFailure(), RereadDown(ExitFrom(persisted));
      }
      var remaining := FirstMissing(persisted.value, First(req), Last(req));
      if remaining.Some? {
        return Raised, Incomplete;
      }
      var at := world.Clock();
      var session := new Session(world.tables);
      session.FinishRun(id, Success, rows, at);
      session.UpdateCheckpoint(req.symbol, Kline1m, Recovered, Some(Last(req)), false);
      ghost var applied;
      r, applied := world.Commit(session, FinishSuccess(id, req.symbol, rows, Last(req), at));
      if !r.Ok? {
        end := FinishDown(at, applied, ExitFrom(r));
        return;
      }
      r := world.Await();  // publish "backfill_completed"
      end := if r.Ok? then Done(at) else PublishDown(at, ExitFrom(r));
    }

    /** The `try` block of `_recover_candles`. */
    method TryBackfill(req: Request, id: nat, start: int, ghost run: Run)
      returns (r: Outcome<()>, rows: nat, ghost path: Path)
      requires world.Valid() && id < |Replay(world.history).runs| && run.rangeStart == start
      modifies world
      ensures world.Valid() && world.fuel <= old(world.fuel) && (old(world.stopped) ==> world.stopped)
      ensures path.Backfilled? && path.run == run && path.handler == NotRun
      ensures TryShape(old(world.history), req, path)
      ensures world.history == AfterTry(old(world.history), req, id, start, path)
      ensures rows == RowsOf(path.pages) && ExitFrom(r) == ExitOf(path.end)
    {
      ghost var pages;
      ghost var end;
      var paged;
      paged, rows, pages, end := FetchPages(req, start);
      if !paged.Ok? {
        path := Backfilled(run, pages, false, end, NotRun);
        return paged.PropagateFailure(), rows, path;
      }
      PagesKeepOthers(old(world.history), req.symbol, start, Last(req), pages);
      r, end := CheckAndFinish(req, id, rows);
      path := Backfilled(run, pages, paged.value, end, NotRun);
    }

    /** `_recover_candles`. */
    method RecoverCandles(symbol: string, kind: RunKind, recordNoop: bool)
      returns (r: Outcome<bool>, ghost attempt: Attempt)
      requires world.Valid()
      modifies world
      ensures world.Valid() && world.fuel <= old(world.fuel) && (old(world.stopped) ==> world.stopped)
      ensures var req := Request(symbol, kind, recordNoop, attempt.nowMs, cfg);
        && Possible(old(world.history), req, attempt.path)
        && world.history == Steps(old(world.history), req, attempt.path)
        && r == ResultOf(attempt.path)
    {
      var nowMs := world.Clock();
      var req := Request(symbol, kind, recordNoop, nowMs, cfg);
      ghost var h := world.history;
      var existing := world.ReadClosedOpenTimes(symbol, First(req), Last(req));
      if !existing.Ok? {
        attempt := Attempt(nowMs, Unread(ExitFrom(existing)));
        return existing.PropagateFailure(), attempt;
      }
      var missingStart := FirstMissing(existing.value, First(req), Last(req));
      assert missingStart == GapOf(Replay(h), req);
      if missingStart.None? {
        attempt := Attempt(nowMs, Covered);
        if recordNoop {
          ghost var run;
          ghost var at;
          ghost var applied;
          var recorded;
          recorded, run, at, applied := RecordSuccessfulReconciliation(symbol, First(req), Last(req));
          attempt := Attempt(nowMs, Noop(run, at, applied, ExitFrom(recorded)));
          if !recorded.Ok? {
            return recorded.PropagateFailure(), attempt;
          }
        }
        world.Note(Returned(symbol, nowMs, cfg.days));
        return Ok(false), attempt;
      }
      var start := From(req, missingStart.value);
      ghost var run;
      ghost var applied;
      var created;
      created, run, applied := OpenRun(symbol, kind, start, Last(req));
      if !created.Ok? {
        attempt := Attempt(nowMs, NoRun(run, applied, ExitFrom(created)));
        return created.PropagateFailure(), attempt;
      }
      ghost var path;
      r, path := BackfillWithHandler(req, created.value, start, run);
      attempt := Attempt(nowMs, path);
      if r.Ok? {
        world.Note(Returned(symbol, nowMs, cfg.days));
      }
    }

    /** The `try` block with its `except Exception` handler. */
    method BackfillWithHandler(req: Request, id: nat, start: int, ghost run: Run)
      returns (r: Outcome<bool>, ghost path: Path)
      requires world.Valid() && id < |Replay(world.history).runs| && run.rangeStart == start
      modifies world
      ensures world.Valid() && world.fuel <= old(world.fuel) && (old(world.stopped) ==> world.stopped)
      ensures path.Backfilled? && path.run == run && TryPossible(old(world.history), req, path)
      ensures world.history == AfterHandler(AfterTry(old(world.history), req, id, start, path), req, id, path)
      ensures r == ResultOf(path)
    {
      var tried;
      var rows;
      tried, rows, path := TryBackfill(req, id, start, run);
      if tried.Ok? {
        return Ok(true), path;
      }
      if tried.Cancelled? {
        return Cancelled, path;
      }
      TryKeepsRunCount(old(world.history), req, id, start, path);
      ghost var unhandled := path;
      hide TryShape;
      hide AfterTry;
      hide RowsOf;
      var recorded;
      ghost var at, applied;
      recorded, at, applied := RecordFailure(req.symbol, id, rows);
      path := path.(handler := Handled(at, applied, ExitFrom(recorded)));
      HandlerIsApart(old(world.history), req, id, start, unhandled, path.handler);
      r := if recorded.Cancelled? then Cancelled else Raised;
    }

    /** The transaction of the handler. */
    method RecordFailure(symbol: string, id: nat, rows: nat)
      returns (r: Outcome<()>, ghost at: int, ghost applied: bool)
      requires world.Valid() && id < |Replay(world.history).runs|
      modifies world
      ensures world.Valid() && world.fuel <= old(world.fuel) && (old(world.stopped) ==> world.stopped)
      ensures world.history == WriteIf(old(world.history), applied, FinishFailed(id, symbol, rows, at))
      ensures r.Ok? ==> applied
    {
      var now := world.Clock();
      at := now;
      var session := new Session(world.tables);
      session.FinishRun(id, RunStatus.Failed, rows, now);
      session.UpdateCheckpoint(symbol, Kline1m, Status.Failed, None, false);
      r, applied := world.Commit(session, FinishFailed(id, symbol, rows, now));
    }

    /** `_recover_all_symbols`. */
    method RecoverAllSymbols(kind: RunKind, recordNoop: bool, raiseOnError: bool)
      returns (r: Outcome<()>, ghost attempts: seq<Attempt>)
      requires world.Valid()
      modifies world
      ensures world.Valid() && world.fuel <= old(world.fuel) && (old(world.stopped) ==> world.stopped)
      ensures |attempts| <= |cfg.symbols|
      ensures AttemptsPossible(old(world.history), Pass(cfg, kind, recordNoop), attempts)
      ensures world.history == AfterAttempts(old(world.history), Pass(cfg, kind, recordNoop), attempts)
      ensures r.Ok? ==> |attempts| == |cfg.symbols|
      ensures r.Ok? && raiseOnError ==> forall a | a in attempts :: ResultOf(a.path).Ok?
      ensures !r.Ok? ==> attempts != [] && ExitFrom(r) == ExitFrom(ResultOf(attempts[|attempts| - 1].path))
      ensures r.Raised? ==> raiseOnError
    {
      ghost var pass := Pass(cfg, kind, recordNoop);
      attempts := [];
      assert AttemptsPossible(world.history, pass, []) && AfterAttempts(world.history, pass, []) == world.history;
      hide AttemptsPossible;
      hide AfterAttempts;
      hide Possible;
      hide Steps;
      for i := 0 to |cfg.symbols|
        invariant |attempts| == i
        invariant world.Valid() && world.fuel <= old(world.fuel) && (old(world.stopped) ==> world.stopped)
        invariant AttemptsPossible(old(world.history), pass, attempts)
        invariant world.history == AfterAttempts(old(world.history), pass, attempts)
        invariant raiseOnError ==> forall a | a in attempts :: ResultOf(a.path).Ok?
      {
        var recovered;
        ghost var attempt;
        recovered, attempt := RecoverCandles(cfg.symbols[i], kind, recordNoop);
        AttemptsSnoc(old(world.history), pass, attempts, attempt);
        attempts := attempts + [attempt];
        if recovered.Cancelled? || (recovered.Raised? && raiseOnError) {
          return recovered.PropagateFailure(), attempts;
        }
      }
      r := Ok(());
    }

    // ---- checkpoints ------------------------------------------------------

    method TouchAllCheckpoints(session: Session, status: Status, bump: bool)
      modifies session
      ensures session.tables == old(session.tables).(checkpoints :=
                TouchAll(old(session.tables).checkpoints, cfg.symbols, status, bump))
    {
      for i := 0 to |cfg.symbols|
        invariant session.tables == old(session.tables).(checkpoints :=
                    TouchAll(old(session.tables).checkpoints, cfg.symbols[..i], status, bump))
      {
        TouchAllSnoc(old(session.tables).checkpoints, cfg.symbols, i, status, bump);
        hide TouchAll;
        session.UpdateCheckpoint(cfg.symbols[i], Kline1m, status, None, bump);
        session.UpdateCheckpoint(cfg.symbols[i], AggTrade, status, None, bump);
      }
      assert cfg.symbols[..|cfg.symbols|] == cfg.symbols;
    }

    method MarkAllLive() returns (r: Outcome<()>, ghost applied: bool)
      requires world.Valid()
      modifies world
      ensures world.Valid() && world.fuel <= old(world.fuel) && (old(world.stopped) ==> world.stopped)
      ensures world.history == WriteIf(old(world.history), applied, MarkLive(cfg.symbols)) && (r.Ok? ==> applied)
    {
      var session := new Session(world.tables);
      TouchAllCheckpoints(session, Live, false);
      r, applied := world.Commit(session, MarkLive(cfg.symbols));
    }

    method MarkAllDisconnected() returns (r: Outcome<()>, ghost applied: bool)
      requires world.Valid()
      modifies world
      ensures world.Valid() && world.fuel <= old(world.fuel) && (old(world.stopped) ==> world.stopped)
      ensures world.history == WriteIf(old(world.history), applied, MarkDisconnected(cfg.symbols))
      ensures r.Ok? ==> applied
    {
      var session := new Session(world.tables);
      TouchAllCheckpoints(session, Reconnecting, true);
      r, applied := world.Commit(session, MarkDisconnected(cfg.symbols));
    }

    // ---- live batches -----------------------------------------------------

    method PersistLiveBatch(events: seq<MarketEvent>) returns (r: Outcome<()>, ghost applied: bool)
      requires world.Valid()
      modifies world
      ensures world.Valid() && world.fuel <= old(world.fuel) && (old(world.stopped) ==> world.stopped)
      ensures world.history == WriteIf(old(world.history), applied, LiveBatch(events)) && (r.Ok? ==> applied)
    {
      var candles, trades := CandlesOf(events), TradesOf(events);
      var session := new Session(world.tables);
      session.UpsertCandles(candles);
      session.InsertTrades(trades);
      MarkLiveCheckpoints(session, candles, trades);
      r, applied := world.Commit(session, LiveBatch(events));
      if r.Ok? {
        r := Publish(candles, trades);
      }
    }

    method MarkLiveCheckpoints(session: Session, candles: seq<Candle>, trades: seq<Trade>)
      modifies session
      ensures session.tables == old(session.tables).(checkpoints :=
                MarkTrades(MarkCandles(old(session.tables).checkpoints, candles), trades))
    {
      ghost var stored := session.tables;
      for i := 0 to |candles|
        invariant session.tables == stored.(checkpoints := MarkCandles(stored.checkpoints, candles[..i]))
      {
        assert candles[..i + 1][..i] == candles[..i];
        session.UpdateCheckpoint(candles[i].key.symbol, Kline1m, Live, candles[i].row.data.sourceEventTime, false);
      }
      assert candles[..|candles|] == candles;
      ghost var marked := session.tables;
      for i := 0 to |trades|
        invariant session.tables == marked.(checkpoints := MarkTrades(marked.checkpoints, trades[..i]))
      {
        assert trades[..i + 1][..i] == trades[..i];
        session.UpdateCheckpoint(trades[i].key.symbol, AggTrade, Live, Some(trades[i].data.eventTime), false);
      }
      assert trades[..|trades|] == trades;
    }

    /** Redis, after the commit: nothing of it touches a table. */
    method Publish(candles: seq<Candle>, trades: seq<Trade>) returns (r: Outcome<()>)
      requires world.Valid()
      modifies world
      ensures world.Valid() && world.fuel <= old(world.fuel) && (old(world.stopped) ==> world.stopped)
      ensures world.history == old(world.history)
    {
      r := Ok(());
      for i := 0 to |candles|
        invariant world.Valid() && world.fuel <= old(world.fuel) && (old(world.stopped) ==> world.stopped)
        invariant world.history == old(world.history)
      {
        r := world.Await();  // cache the snapshot
        if !r.Ok? { return; }
        r := world.Await();  // publish "candle"
        if !r.Ok? { return; }
      }
      for i := 0 to |trades|
        invariant world.Valid() && world.fuel <= old(world.fuel) && (old(world.stopped) ==> world.stopped)
        invariant world.history == old(world.history)
      {
        r := world.Await();  // publish "trade"
        if !r.Ok? { return; }
      }
    }

    // ---- the connection ---------------------------------------------------

    /** Takes events without waiting until the batch is full or the queue is empty. */
    method FillBatch(buffer: StreamBuffer, first: MarketEvent) returns (batch: seq<MarketEvent>)
      requires buffer.Valid()
      modifies buffer
      ensures buffer.Valid() && buffer.delivered == old(buffer.delivered) && buffer.reader == old(buffer.reader)
      ensures 1 <= |batch| <= 500 && batch[0] == first
      ensures buffer.taken == old(buffer.taken) + batch[1..]
      ensures |batch| < 500 ==> buffer.queue == []
    {
      batch := [first];
      while |batch| < MAX_BATCH
        invariant buffer.Valid() && buffer.delivered == old(buffer.delivered) && buffer.reader == old(buffer.reader)
        invariant 1 <= |batch| <= MAX_BATCH && batch[0] == first
        invariant buffer.taken == old(buffer.taken) + batch[1..]
      {
        if buffer.queue == [] {
          break;
        }
        var event := buffer.Get();
        batch := batch + [event];
      }
    }

    /** `asyncio.wait` on the reader and the next event, with the time left to the deadline. */
    method WaitForWork(buffer: StreamBuffer) returns (r: Outcome<()>, wakeup: Wakeup)
      requires world.Valid() && buffer.Valid()
      modifies world, buffer
      ensures world.Valid() && world.fuel <= old(world.fuel) && (old(world.stopped) ==> world.stopped)
      ensures r.Cancelled? || world.fuel < old(world.fuel)
      ensures world.history ==
              if r.Ok? && wakeup.Deadline? then After(old(world.history), TimedOut) else old(world.history)
      ensures buffer.Valid() && buffer.taken == old(buffer.taken) && old(buffer.delivered) <= buffer.delivered
      ensures wakeup.Deadline? ==> buffer.queue == [] && buffer.reader == Reading
      ensures wakeup.ReaderDone? ==> buffer.reader != Reading
      ensures wakeup.EventReady? ==> buffer.queue != []
    {
      r := world.Await();
      buffer.RunReader();
      if buffer.reader != Reading {
        wakeup := ReaderDone;
      } else if buffer.queue != [] {
        wakeup := EventReady;
      } else {
        wakeup := Deadline;
        if r.Ok? {
          world.Note(TimedOut);
        }
      }
    }

    /** The loop of `_run_connected`. */
    method ConverseUntilStopped(buffer: StreamBuffer)
      returns (r: Outcome<()>, ghost acts: seq<Activity>, ghost inHand: seq<MarketEvent>)
      requires world.Valid() && buffer.Valid() && buffer.taken == []
      modifies world, buffer
      ensures world.Valid() && world.fuel <= old(world.fuel) && (old(world.stopped) ==> world.stopped)
      ensures buffer.Valid() && Talked(old(world.history), world.history, cfg, acts, buffer.taken, inHand)
      ensures r.Ok? ==> world.stopped && Ready(cfg, acts, inHand)
    {
      acts, inHand, r := [], [], Ok(());
      TalkedNothing(world.history, cfg);
      hide Talked;
      hide Ready;
      hide AttemptsPossible;
      hide AfterAttempts;
      while !world.stopped
        invariant world.Valid() && world.fuel <= old(world.fuel) && (old(world.stopped) ==> world.stopped)
        invariant buffer.Valid() && Talked(old(world.history), world.history, cfg, acts, buffer.taken, inHand)
        invariant Ready(cfg, acts, inHand) && inHand == [] && r.Ok?
        decreases world.fuel
      {
        ghost var now, taken := world.history, buffer.taken;
        var wakeup;
        r, wakeup := WaitForWork(buffer);
        if !r.Ok? { return; }
        if wakeup.Deadline? {
          ghost var attempts;
          r, attempts := RunPeriodicReconciliation();
          TalkedPass(old(world.history), now, cfg, acts, taken, attempts);
          acts := acts + [Periodic(attempts)];
          buffer.RunReader();
          if !r.Ok? { return; }
        } else if wakeup.ReaderDone? {
          var took: bool := *;
          if took && buffer.queue != [] {
            var event := buffer.Get();
            TalkedEvent(old(world.history), now, cfg, acts, taken, event);
            inHand := [event];
          }
          return Raised, acts, inHand;
        } else {
          ghost var batch;
          ghost var applied;
          r, batch, applied := TakeBatch(buffer);
          TalkedBatch(old(world.history), now, cfg, acts, taken, batch, applied);
          acts := acts + [Batch(batch, applied)];
          inHand := if applied then [] else batch;
          if !r.Ok? { return; }
        }
      }
    }

    /** One live batch: the event in hand, what else arrives shortly after, and one transaction. */
    method TakeBatch(buffer: StreamBuffer) returns (r: Outcome<()>, ghost batch: seq<MarketEvent>, ghost applied: bool)
      requires world.Valid() && buffer.Valid() && buffer.queue != []
      modifies world, buffer
      ensures world.Valid() && world.fuel <= old(world.fuel) && (old(world.stopped) ==> world.stopped)
      ensures buffer.Valid() && buffer.taken == old(buffer.taken) + batch && 1 <= |batch| <= 500
      ensures world.history == WriteIf(old(world.history), applied, LiveBatch(batch)) && (r.Ok? ==> applied)
    {
      var event := buffer.Get();
      batch, applied := [event], false;
      r := world.Await();  // sleep(0.05)
      buffer.RunReader();
      if !r.Ok? { return; }
      var events := FillBatch(buffer, event);
      batch := events;
      assert batch == [event] + batch[1..];
      r, applied := PersistLiveBatch(events);
      buffer.RunReader();
      if r.Ok? && buffer.reader == Broken {
        r := Raised;
      }
    }

    method RunPeriodicReconciliation() returns (r: Outcome<()>, ghost attempts: seq<Attempt>)
      requires world.Valid()
      modifies world
      ensures world.Valid() && world.fuel <= old(world.fuel) && (old(world.stopped) ==> world.stopped)
      ensures |attempts| <= |cfg.symbols| && AttemptsPossible(old(world.history), PeriodicPass(cfg), attempts)
      ensures world.history == AfterAttempts(old(world.history), PeriodicPass(cfg), attempts)
      ensures r.Ok? ==> |attempts| == |cfg.symbols|
      ensures !r.Raised?
    {
      r, attempts := RecoverAllSymbols(Reconciliation, true, false);
    }

    /** The `try` block of `_run_connected`. */
    method Converse(buffer: StreamBuffer)
      returns (r: Outcome<()>, ghost opening: seq<Attempt>, ghost live: bool, ghost acts: seq<Activity>,
               ghost inHand: seq<MarketEvent>)
      requires world.Valid() && buffer.Valid() && buffer.taken == []
      modifies world, buffer
      ensures world.Valid() && world.fuel <= old(world.fuel) && (old(world.stopped) ==> world.stopped)
      ensures |opening| <= |cfg.symbols| && AttemptsPossible(old(world.history), OpeningPass(cfg), opening)
      ensures live ==> |opening| == |cfg.symbols| && forall a | a in opening :: ResultOf(a.path).Ok?
      ensures acts != [] ==> live
      ensures var recovered := AfterAttempts(old(world.history), OpeningPass(cfg), opening);
        var marked := WriteIf(recovered, live, MarkLive(cfg.symbols));
        buffer.Valid() && Talked(marked, world.history, cfg, acts, buffer.taken, inHand)
      ensures r.Ok? ==> world.stopped && live && Ready(cfg, acts, inHand)
    {
      live, acts, inHand := false, [], [];
      // The reader starts first and buffers events while the symbols are recovered; recovery does
      // not look at the buffer, so running the reader after it covers every interleaving.
      r, opening := RecoverAllSymbols(Backfill, false, true);
      buffer.RunReader();
      TalkedNothing(world.history, cfg);
      if !r.Ok? { return; }
      r, live := MarkAllLive();
      buffer.RunReader();
      TalkedNothing(world.history, cfg);
      if !r.Ok? { return; }
      r, acts, inHand := ConverseUntilStopped(buffer);
    }

    /** `_run_connected`. */
    method RunConnected() returns (r: Outcome<()>, ghost c: Connection)
      requires world.Valid()
      modifies world
      ensures world.Valid() && world.fuel <= old(world.fuel) && (old(world.stopped) ==> world.stopped)
      ensures ConnectionPossible(old(world.history), cfg, c)
      ensures world.history == ConnectionSteps(old(world.history), cfg, c)
      ensures r.Ok? ==> world.stopped && c.live && c.inHand == []
    {
      world.Note(Connected);
      var buffer := new StreamBuffer();
      ghost var opening, live, acts, inHand;
      r, opening, live, acts, inHand := Converse(buffer);
      c := Connection(opening, live, acts, buffer.delivered, inHand, buffer.Pending());
      // `finally`: awaiting a reader that failed raises its exception, over a cancellation too.
      if buffer.reader == Broken {
        var masked: bool := *;
        if !r.Cancelled? || masked {
          r := Raised;
        }
      }
    }

    // ---- the process ------------------------------------------------------

    /** `run_forever`: returns normally only after a stop; otherwise an exception in the failure
        handler, a cancellation or the end of the process ends it. */
    method RunForever() returns (r: Outcome<()>)
      requires world.Valid() && SoundUnder(cfg, world.history)
      requires world.history.After? && world.history.event.Started?
      modifies world
      ensures world.Valid() && SoundUnder(cfg, world.history) && Extends(old(world.history), world.history)
      ensures r.Ok? ==> world.stopped
    {
      var attempt: nat := 0;
      hide ConnectionPossible;
      hide ConnectionSteps;
      hide SoundUnder;
      hide Replay;
      hide PhaseOf;
      while !world.stopped
        invariant world.Valid() && SoundUnder(cfg, world.history) && Extends(old(world.history), world.history)
        invariant world.stopped || MayConnect(world.history, attempt)
        decreases world.fuel, !world.stopped
      {
        ghost var before := world.history;
        ghost var c;
        r, c := RunConnected();
        ConnectionSound(before, cfg, c);
        ExtendsTransitive(old(world.history), before, world.history);
        if r.Ok? {
          attempt := 0;
        } else if r.Cancelled? {
          return;
        } else {
          attempt := attempt + 1;
          ghost var lost := world.history;
          r := BackOff(attempt);
          ExtendsTransitive(old(world.history), lost, world.history);
          if !r.Ok? { return; }
        }
      }
      r := Ok(());
    }

    /** A connection may begin: the process has just started or has slept off its last failure. */
    ghost predicate MayConnect(h: History, attempt: nat) {
      h.After? && (h.event.Started? || h.event.Backoff?) && attempt == Attempts(h)
    }

    /** What follows a failed connection: the mark on every checkpoint, and the sleep. */
    method BackOff(attempt: nat) returns (r: Outcome<()>)
      requires world.Valid() && SoundUnder(cfg, world.history) && !PhaseOf(world.history).Idle?
      requires attempt == Attempts(world.history) + 1
      modifies world
      ensures world.Valid() && world.fuel <= old(world.fuel) && (old(world.stopped) ==> world.stopped)
      ensures SoundUnder(cfg, world.history) && Extends(old(world.history), world.history)
      ensures r.Ok? ==> world.fuel < old(world.fuel) && MayConnect(world.history, attempt)
      ensures var marked := After(old(world.history), Wrote(MarkDisconnected(cfg.symbols)));
        r.Ok? ==> world.history == After(marked, Backoff(Delay(attempt)))
    {
      var delay := Min(60, Pow2(Min(attempt, 6))) as real + (attempt % 3) as real * 0.25;
      ghost var applied;
      r, applied := MarkAllDisconnected();
      if !r.Ok? { return; }
      world.Note(Backoff(delay));
      r := world.Await();  // sleep(delay)
    }
  }

  // -------------------------------------------------------------------------
  // Whole runs

  /** Any number of processes, one after another and each with its own settings, on one database with
      a consistent run table at the start.  However each of them ends: every recovery that ever
      returned normally still has its whole window closed; a one-minute checkpoint that read otherwise
      at first and now reads LIVE has done so since a write that followed a recovery in the same
      connection; SUCCESS still means no gap in the run's range; and the candle and trade tables are
      the committed stream and pages, written by their rules. */
  method Operate(configs: seq<Settings>, world: World)
    requires world.Valid() && world.history.Genesis? && RunsConsistent(world.tables)
    modifies world
    ensures world.Valid() && Sound(world.history) && Origin(world.history) == old(world.tables)
    ensures forall s, t, days: nat | Occurs(world.history, Returned(s, t, days)) ::
              WindowClosed(world.tables, s, t, days)
    ensures forall s: string | NowLive(old(world.tables), world.tables, s) && Subscribed(world.history, s) ::
              exists write :: LiveAfterRecovery(write, world.history, s)
    ensures RunsConsistent(world.tables)
    ensures world.tables.trades == InsertEach(old(world.tables).trades, TradesOf(LiveEvents(world.history)))
    ensures world.tables.candles == ApplyBatches(old(world.tables).candles, CandleBatches(world.history))
  {
    for i := 0 to |configs|
      invariant world.Valid() && Sound(world.history) && Origin(world.history) == old(world.tables)
    {
      ghost var before := world.history;
      world.Boot(configs[i]);
      var collector := new Collector(configs[i], world);
      var _ := collector.RunForever();
      OriginKept(After(before, Started(configs[i])), world.history);
    }
    RunsKeepTheirPromises(world.history);
  }

  /** The symbol's one-minute checkpoint reads LIVE, and did not at first. */
  predicate NowLive(t: Tables, t': Tables, symbol: string) {
    var key := CheckpointKey(symbol, Kline1m);
    StatusOf(t.checkpoints, key) != Live && StatusOf(t'.checkpoints, key) == Live
  }

  lemma RunsKeepTheirPromises(h: History)
    requires Sound(h) && RunsConsistent(Origin(h))
    ensures forall s, t, days: nat | Occurs(h, Returned(s, t, days)) :: WindowClosed(Replay(h), s, t, days)
    ensures forall s: string | NowLive(Origin(h), Replay(h), s) && Subscribed(h, s) ::
              exists write :: LiveAfterRecovery(write, h, s)
    ensures RunsConsistent(Replay(h))
    ensures Replay(h).trades == InsertEach(Origin(h).trades, TradesOf(LiveEvents(h)))
    ensures Replay(h).candles == ApplyBatches(Origin(h).candles, CandleBatches(h))
  {
    forall s, t, days: nat | Occurs(h, Returned(s, t, days)) ensures WindowClosed(Replay(h), s, t, days) {
      CoverageIsForever(h, s, t, days);
    }
    forall s: string | NowLive(Origin(h), Replay(h), s) && Subscribed(h, s)
      ensures exists write :: LiveAfterRecovery(write, h, s)
    {
      var write := LiveHasRecovery(h, s);
    }
    RunsStayConsistent(h);
    TradeTableIsStream(h);
    CandleTableIsBatches(h);
  }

  lemma {:induction false} OriginKept(h: History, later: History)
    requires Extends(h, later)
    ensures Origin(later) == Origin(h)
  {
    if h != later {
      OriginKept(h, later.past);
    }
  }
}
