/** The four PostgreSQL tables as maps, and what each SQL statement does to them. */
module Tables {
  import opened Prelude
  import opened Minutes

  const INTERVAL: string := "1m"

  // -------------------------------------------------------------------------
  // Rows

  datatype CandleKey = CandleKey(symbol: string, interval: string, openTime: int)

  /** Every column an upsert overwrites. */
  datatype CandleData = CandleData(closeTime: int, open: real, high: real, low: real, close: real,
                                   volume: real, quoteVolume: real, tradeCount: int,
                                   sourceEventTime: Option<int>)

  datatype CandleRow = CandleRow(data: CandleData, isClosed: bool)

  datatype Candle = Candle(key: CandleKey, row: CandleRow)

  datatype TradeKey = TradeKey(symbol: string, id: int)

  datatype TradeData = TradeData(eventTime: int, tradeTime: int, price: real, quantity: real,
                                 firstTradeId: int, lastTradeId: int, isBuyerMaker: bool)

  datatype Trade = Trade(key: TradeKey, data: TradeData)

  datatype Source = Kline1m | AggTrade

  datatype CheckpointKey = CheckpointKey(symbol: string, source: Source)

  datatype Status = Starting | Live | Recovered | Reconnecting | Failed | Stale

  datatype Checkpoint = Checkpoint(status: Status, lastEvent: Option<int>, reconnects: nat)

  datatype RunKind = Backfill | Reconciliation

  datatype RunStatus = Running | Success | Failed

  datatype Run = Run(symbol: string, kind: RunKind, status: RunStatus, rangeStart: int, rangeEnd: int,
                     rows: nat, startedAt: int, finishedAt: Option<int>)

  type CandleTable = map<CandleKey, CandleRow>
  type TradeTable = map<TradeKey, TradeData>
  type CheckpointTable = map<CheckpointKey, Checkpoint>

  /** A run's primary key is its position. */
  datatype Tables = Tables(candles: CandleTable, trades: TradeTable,
                           checkpoints: CheckpointTable, runs: seq<Run>)

  // -------------------------------------------------------------------------
  // Candles

  ghost predicate ClosedAt(table: CandleTable, k: CandleKey) {
    k in table && table[k].isClosed
  }

  function Keys(cs: seq<Candle>): set<CandleKey> {
    set c | c in cs :: c.key
  }

  predicate DistinctKeys(cs: seq<Candle>) {
    forall i, j | 0 <= i < j < |cs| :: cs[i].key != cs[j].key
  }

  /** `INSERT ... ON CONFLICT DO UPDATE` for one row: the data columns are overwritten and
      `is_closed` is the OR of old and new. */
  function Upsert(table: CandleTable, c: Candle): CandleTable {
    table[c.key := CandleRow(c.row.data, (c.key in table && table[c.key].isClosed) || c.row.isClosed)]
  }

  function UpsertEach(table: CandleTable, cs: seq<Candle>): CandleTable {
    if cs == [] then table else Upsert(UpsertEach(table, cs[..|cs| - 1]), cs[|cs| - 1])
  }

  /** The last event of the sequence for a key. */
  function LastOf(cs: seq<Candle>, k: CandleKey): (row: Option<CandleRow>)
    ensures row.Some? <==> k in Keys(cs)
  {
    if cs == [] then None
    else
      var n := |cs| - 1;
      assert forall c :: c in cs <==> c == cs[n] || c in cs[..n];
      if cs[n].key == k then Some(cs[n].row) else LastOf(cs[..n], k)
  }

  /** Some event of the sequence closes the key. */
  ghost predicate SomeClosed(cs: seq<Candle>, k: CandleKey) {
    exists c :: c in cs && c.key == k && c.row.isClosed
  }

  /** What one batch means for the table, said without deduplication: each key takes the data
      of its last event, and is closed if it was or if that last event closes it. */
  ghost function Bulk(table: CandleTable, cs: seq<Candle>): CandleTable {
    map k | k in table.Keys + Keys(cs) ::
      match LastOf(cs, k)
      case None => table[k]
      case Some(row) => CandleRow(row.data, ClosedAt(table, k) || row.isClosed)
  }

  /** Python's dict insertion: an existing key keeps its place and takes the new value. */
  function Place(cs: seq<Candle>, c: Candle): seq<Candle> {
    if cs == [] then [c]
    else if cs[0].key == c.key then [c] + cs[1..]
    else [cs[0]] + Place(cs[1..], c)
  }

  function Deduplicate(cs: seq<Candle>): seq<Candle> {
    if cs == [] then [] else Place(Deduplicate(cs[..|cs| - 1]), cs[|cs| - 1])
  }

  /** The closed open times of a symbol between two bounds, both included. */
  function ClosedOpenTimes(t: Tables, symbol: string, start: int, end: int): set<int> {
    set k | k in t.candles && k.symbol == symbol && k.interval == INTERVAL && t.candles[k].isClosed
            && start <= k.openTime <= end :: k.openTime
  }

  /** The symbol's minute is stored as a closed row. */
  ghost predicate MinuteClosed(t: Tables, symbol: string, openTime: int) {
    ClosedAt(t.candles, CandleKey(symbol, INTERVAL, openTime))
  }

  /** Every minute of the coverage window the collector computes at `nowMs` is closed. */
  ghost predicate WindowClosed(t: Tables, symbol: string, nowMs: int, days: int) {
    forall x | Expected(x, CoverageStart(nowMs, days), LastCompletedOpen(nowMs)) :: MinuteClosed(t, symbol, x)
  }

  // -------------------------------------------------------------------------
  // Trades

  function TradeKeys(ts: seq<Trade>): set<TradeKey> {
    set t | t in ts :: t.key
  }

  function InsertEach(table: TradeTable, ts: seq<Trade>): TradeTable {
    if ts == [] then table
    else
      var before := InsertEach(table, ts[..|ts| - 1]);
      var t := ts[|ts| - 1];
      if t.key in before then before else before[t.key := t.data]
  }

  // -------------------------------------------------------------------------
  // Checkpoints

  /** `last_event_time` is coalesced and `reconnect_count` starts at zero or one. */
  function Touch(table: CheckpointTable, key: CheckpointKey, status: Status, event: Option<int>,
                 reconnected: bool): CheckpointTable {
    var bump := if reconnected then 1 else 0;
    table[key :=
      if key in table then
        Checkpoint(status, if event.Some? then event else table[key].lastEvent, table[key].reconnects + bump)
      else
        Checkpoint(status, event, bump)]
  }

  function TouchBoth(table: CheckpointTable, symbol: string, status: Status, reconnected: bool): CheckpointTable {
    Touch(Touch(table, CheckpointKey(symbol, Kline1m), status, None, reconnected),
          CheckpointKey(symbol, AggTrade), status, None, reconnected)
  }

  function TouchAll(table: CheckpointTable, symbols: seq<string>, status: Status, reconnected: bool): CheckpointTable {
    if symbols == [] then table
    else TouchBoth(TouchAll(table, symbols[..|symbols| - 1], status, reconnected),
                   symbols[|symbols| - 1], status, reconnected)
  }

  lemma TouchAllSnoc(table: CheckpointTable, symbols: seq<string>, i: nat, status: Status, reconnected: bool)
    requires i < |symbols|
    ensures TouchAll(table, symbols[..i + 1], status, reconnected)
         == TouchBoth(TouchAll(table, symbols[..i], status, reconnected), symbols[i], status, reconnected)
  {
    assert symbols[..i + 1][..i] == symbols[..i];
  }

  function MarkCandles(table: CheckpointTable, cs: seq<Candle>): CheckpointTable {
    if cs == [] then table
    else
      var c := cs[|cs| - 1];
      Touch(MarkCandles(table, cs[..|cs| - 1]), CheckpointKey(c.key.symbol, Kline1m), Live,
            c.row.data.sourceEventTime, false)
  }

  function MarkTrades(table: CheckpointTable, ts: seq<Trade>): CheckpointTable {
    if ts == [] then table
    else
      var t := ts[|ts| - 1];
      Touch(MarkTrades(table, ts[..|ts| - 1]), CheckpointKey(t.key.symbol, AggTrade), Live,
            Some(t.data.eventTime), false)
  }

  // -------------------------------------------------------------------------
  // Runs

  /** The unique constraint on (symbol, run_type, started_at). */
  predicate FreshRun(runs: seq<Run>, run: Run) {
    forall r | r in runs :: !(r.symbol == run.symbol && r.kind == run.kind && r.startedAt == run.startedAt)
  }

  /** What that constraint makes of the whole table. */
  predicate UniqueStarts(runs: seq<Run>) {
    forall i, j | 0 <= i < j < |runs| ::
      !(runs[i].symbol == runs[j].symbol && runs[i].kind == runs[j].kind && runs[i].startedAt == runs[j].startedAt)
  }

  predicate FinishedUnlessRunning(runs: seq<Run>) {
    forall r | r in runs :: r.finishedAt.None? <==> r.status == Running
  }

  function NewRun(symbol: string, kind: RunKind, rangeStart: int, rangeEnd: int, startedAt: int): Run {
    Run(symbol, kind, Running, rangeStart, rangeEnd, 0, startedAt, None)
  }

  function Finished(run: Run, status: RunStatus, rows: nat, at: int): Run {
    run.(status := status, rows := rows, finishedAt := Some(at))
  }

  function EndRun(runs: seq<Run>, id: nat, status: RunStatus, rows: nat, at: int): seq<Run> {
    if id < |runs| then runs[id := Finished(runs[id], status, rows, at)] else runs
  }
}
