/** What the live batch and the two marks do to the tables, said over the events and the symbols
    themselves. */
module Effects {
  import opened Prelude
  import opened Tables
  import opened Storage
  import opened Protocol

  // -------------------------------------------------------------------------
  // Candles

  predicate CandleOf(event: MarketEvent, k: CandleKey) {
    event.CandleEvent? && event.candle.key == k
  }

  predicate LastCandleAt(events: seq<MarketEvent>, i: int, k: CandleKey) {
    0 <= i < |events| && CandleOf(events[i], k) && forall j | i < j < |events| :: !CandleOf(events[j], k)
  }

  ghost predicate Updates(events: seq<MarketEvent>, k: CandleKey) {
    exists event :: event in events && CandleOf(event, k)
  }

  lemma {:induction false} LastOfEvents(events: seq<MarketEvent>, k: CandleKey)
    ensures k in Keys(CandlesOf(events)) <==> Updates(events, k)
    ensures forall i | LastCandleAt(events, i, k) :: LastOf(CandlesOf(events), k) == Some(events[i].candle.row)
  {
    if events != [] {
      var n := |events| - 1;
      var before := CandlesOf(events[..n]);
      LastOfEvents(events[..n], k);
      assert Updates(events, k) <==> Updates(events[..n], k) || CandleOf(events[n], k) by {
        assert forall event :: event in events <==> event == events[n] || event in events[..n];
      }
      if events[n].CandleEvent? {
        var c := events[n].candle;
        assert CandlesOf(events) == before + [c];
        LastOfConcat(before, [c], k);
        assert Keys([c]) == {c.key} && LastOf([c], c.key) == Some(c.row);
      } else {
        assert CandlesOf(events) == before;
      }
      hide Updates, CandlesOf, LastOf, Keys;
      forall i | LastCandleAt(events, i, k) ensures LastOf(CandlesOf(events), k) == Some(events[i].candle.row) {
        if i < n {
          assert LastCandleAt(events[..n], i, k);
        }
      }
    }
  }

  /** A live batch leaves a minute with the data of its last update in the batch, closed if it was or
      if that update closes it; a minute without an update is as it was. */
  lemma LiveBatchKeepsLastUpdate(t: Tables, events: seq<MarketEvent>, k: CandleKey)
    ensures var table, after := t.candles, Effect(t, LiveBatch(events)).candles;
      && (forall i | LastCandleAt(events, i, k) ::
            && k in after && after[k].data == events[i].candle.row.data
            && (after[k].isClosed <==> (k in table && table[k].isClosed) || events[i].candle.row.isClosed))
      && (!Updates(events, k) ==>
            (k in after <==> k in table) && (k in table ==> after[k] == table[k]))
  {
    LastOfEvents(events, k);
    hide CandlesOf;
    hide LastOf;
  }

  // -------------------------------------------------------------------------
  // Trades

  predicate TradeOf(event: MarketEvent, k: TradeKey) {
    event.TradeEvent? && event.trade.key == k
  }

  predicate FirstTradeAt(events: seq<MarketEvent>, i: int, k: TradeKey) {
    0 <= i < |events| && TradeOf(events[i], k) && forall j | 0 <= j < i :: !TradeOf(events[j], k)
  }

  ghost predicate Reports(events: seq<MarketEvent>, k: TradeKey) {
    exists event :: event in events && TradeOf(event, k)
  }

  /** A stored trade stays as it is, a new one has the data of its first event, and none appears
      without an event. */
  ghost predicate FirstEventsAdded(table: TradeTable, after: TradeTable, events: seq<MarketEvent>, k: TradeKey) {
    && (k in after <==> k in table || Reports(events, k))
    && (k in table ==> after[k] == table[k])
    && (k in after && k !in table ==> forall i | FirstTradeAt(events, i, k) :: after[k] == events[i].trade.data)
  }

  lemma {:induction false} InsertedTrades(table: TradeTable, events: seq<MarketEvent>, k: TradeKey)
    ensures FirstEventsAdded(table, InsertEach(table, TradesOf(events)), events, k)
  {
    if events != [] {
      var n := |events| - 1;
      var ts := TradesOf(events[..n]);
      var before, after := InsertEach(table, ts), InsertEach(table, TradesOf(events));
      InsertedTrades(table, events[..n], k);
      assert Reports(events, k) <==> Reports(events[..n], k) || TradeOf(events[n], k) by {
        assert forall event :: event in events <==> event == events[n] || event in events[..n];
      }
      if events[n].TradeEvent? {
        assert TradesOf(events) == ts + [events[n].trade] && (ts + [events[n].trade])[..|ts|] == ts;
      } else {
        assert TradesOf(events) == ts;
      }
      hide InsertEach, TradesOf;
      forall i | FirstTradeAt(events, i, k) && k in after && k !in table ensures after[k] == events[i].trade.data {
        if i < n {
          assert FirstTradeAt(events[..n], i, k);
          assert events[i] in events[..n];
        } else {
          NoneBefore(events, k);
        }
      }
    }
  }

  lemma NoneBefore(events: seq<MarketEvent>, k: TradeKey)
    requires events != [] && FirstTradeAt(events, |events| - 1, k)
    ensures !Reports(events[..|events| - 1], k)
  {
    var before := events[..|events| - 1];
    assert forall j | 0 <= j < |before| :: before[j] == events[j];
  }

  /** A live batch stores, of every trade that was not stored, its first event in the batch. */
  lemma LiveBatchKeepsFirstTrade(t: Tables, events: seq<MarketEvent>, k: TradeKey)
    ensures FirstEventsAdded(t.trades, Effect(t, LiveBatch(events)).trades, events, k)
  {
    InsertedTrades(t.trades, events, k);
  }

  // -------------------------------------------------------------------------
  // Checkpoints

  ghost predicate SameAt(a: CheckpointTable, b: CheckpointTable, key: CheckpointKey) {
    (key in a <==> key in b) && (key in a ==> a[key] == b[key])
  }

  /** The checkpoint is there with that status, and its reconnect count is what it was. */
  ghost predicate Marked(a: CheckpointTable, b: CheckpointTable, key: CheckpointKey, status: Status) {
    key in b && b[key].status == status && b[key].reconnects == (if key in a then a[key].reconnects else 0)
  }

  predicate EventFor(event: MarketEvent, key: CheckpointKey) {
    match event
    case CandleEvent(candle) => key == CheckpointKey(candle.key.symbol, Kline1m)
    case TradeEvent(trade) => key == CheckpointKey(trade.key.symbol, AggTrade)
  }

  function TimeOf(event: MarketEvent): Option<int> {
    match event
    case CandleEvent(candle) => candle.row.data.sourceEventTime
    case TradeEvent(trade) => Some(trade.data.eventTime)
  }

  predicate LastTimeAt(events: seq<MarketEvent>, i: int, key: CheckpointKey) {
    && 0 <= i < |events| && EventFor(events[i], key) && TimeOf(events[i]).Some?
    && forall j | i < j < |events| :: !(EventFor(events[j], key) && TimeOf(events[j]).Some?)
  }

  /** The checkpoint reads LIVE with the time of the last event that has one, if there was an event for
      it, and is as it was otherwise. */
  ghost predicate Reported(a: CheckpointTable, b: CheckpointTable, events: seq<MarketEvent>, key: CheckpointKey) {
    && ((exists event :: event in events && EventFor(event, key)) ==> Marked(a, b, key, Live))
    && ((forall event | event in events :: !EventFor(event, key)) ==> SameAt(a, b, key))
    && (forall i | LastTimeAt(events, i, key) :: EventOf(b, key) == TimeOf(events[i]))
    && ((forall event | event in events :: !(EventFor(event, key) && TimeOf(event).Some?)) ==>
          EventOf(b, key) == EventOf(a, key))
  }

  /** The marks of one source, over the events. */
  function MarkSource(table: CheckpointTable, events: seq<MarketEvent>, source: Source): CheckpointTable {
    match source
    case Kline1m => MarkCandles(table, CandlesOf(events))
    case AggTrade => MarkTrades(table, TradesOf(events))
  }

  lemma MarkSourceSnoc(table: CheckpointTable, events: seq<MarketEvent>, source: Source)
    requires events != []
    ensures var n := |events| - 1; var before := MarkSource(table, events[..n], source);
      MarkSource(table, events, source) ==
        match events[n]
        case CandleEvent(c) =>
          if source == Kline1m
          then Touch(before, CheckpointKey(c.key.symbol, Kline1m), Live, c.row.data.sourceEventTime, false) else before
        case TradeEvent(t) =>
          if source == AggTrade
          then Touch(before, CheckpointKey(t.key.symbol, AggTrade), Live, Some(t.data.eventTime), false) else before
  {
    var n := |events| - 1;
    match events[n] {
      case CandleEvent(c) =>
        assert (CandlesOf(events[..n]) + [c])[..|CandlesOf(events[..n])|] == CandlesOf(events[..n]);
        assert TradesOf(events) == TradesOf(events[..n]);
      case TradeEvent(t) =>
        assert (TradesOf(events[..n]) + [t])[..|TradesOf(events[..n])|] == TradesOf(events[..n]);
        assert CandlesOf(events) == CandlesOf(events[..n]);
    }
  }

  lemma {:induction false} SourceReported(table: CheckpointTable, events: seq<MarketEvent>, source: Source,
                                          key: CheckpointKey)
    ensures key.source != source ==> SameAt(table, MarkSource(table, events, source), key)
    ensures key.source == source ==> Reported(table, MarkSource(table, events, source), events, key)
  {
    if events != [] {
      var n := |events| - 1;
      SourceReported(table, events[..n], source, key);
      MarkSourceSnoc(table, events, source);
      assert forall event :: event in events <==> event == events[n] || event in events[..n];
      hide MarkSource;
      if key.source == source {
        ReportedSnoc(table, MarkSource(table, events[..n], source), MarkSource(table, events, source), events, key);
      }
    }
  }

  lemma ReportedSnoc(a: CheckpointTable, b: CheckpointTable, c: CheckpointTable, events: seq<MarketEvent>,
                     key: CheckpointKey)
    requires events != [] && Reported(a, b, events[..|events| - 1], key)
    requires var event := events[|events| - 1];
      if EventFor(event, key) then c == Touch(b, key, Live, TimeOf(event), false) else SameAt(b, c, key)
    ensures Reported(a, c, events, key)
  {
    var n := |events| - 1;
    assert forall event :: event in events <==> event == events[n] || event in events[..n];
    forall i | LastTimeAt(events, i, key) ensures EventOf(c, key) == TimeOf(events[i]) {
      if i < n {
        assert LastTimeAt(events[..n], i, key);
      }
    }
    if !(exists event :: event in events[..n] && EventFor(event, key)) {
      assert SameAt(a, b, key);
    }
  }

  /** A committed live batch leaves every checkpoint it has an event for LIVE, with the time of its last
      event, and no other one changed. */
  lemma LiveBatchReports(t: Tables, events: seq<MarketEvent>, key: CheckpointKey)
    ensures Reported(t.checkpoints, Effect(t, LiveBatch(events)).checkpoints, events, key)
  {
    var middle := MarkSource(t.checkpoints, events, Kline1m);
    SourceReported(t.checkpoints, events, Kline1m, key);
    SourceReported(middle, events, AggTrade, key);
    hide CandlesOf;
    hide TradesOf;
    hide MarkCandles;
    hide MarkTrades;
  }

  // -------------------------------------------------------------------------
  // Marks

  lemma {:induction false} TouchAllAt(table: CheckpointTable, symbols: seq<string>, status: Status, bump: bool,
                                      key: CheckpointKey)
    ensures var after := TouchAll(table, symbols, status, bump);
      && (key.symbol in symbols ==> key in after && after[key].status == status)
      && (key.symbol !in symbols ==> SameAt(table, after, key))
      && EventOf(after, key) == EventOf(table, key)
  {
    if symbols != [] {
      var n := |symbols| - 1;
      TouchAllAt(table, symbols[..n], status, bump, key);
      assert forall s :: s in symbols <==> s == symbols[n] || s in symbols[..n];
      TouchBothEvents(TouchAll(table, symbols[..n], status, bump), symbols[n], status, bump, key);
      hide TouchBoth;
    }
  }

  lemma TouchBothEvents(table: CheckpointTable, symbol: string, status: Status, bump: bool, key: CheckpointKey)
    ensures var after := TouchBoth(table, symbol, status, bump);
      && (key.symbol == symbol ==> key in after && after[key].status == status)
      && (key.symbol != symbol ==> SameAt(table, after, key))
      && EventOf(after, key) == EventOf(table, key)
  {
    assert key.source == Kline1m || key.source == AggTrade;
  }

  /** The two marks reach both sources of every symbol and nothing else: LIVE with the reconnect count it
      had, or RECONNECTING with the count raised once each time the symbol is configured; the event time
      stays. */
  lemma MarksReachEveryPair(t: Tables, symbols: seq<string>, key: CheckpointKey)
    ensures var live := Effect(t, MarkLive(symbols)).checkpoints;
      var lost := Effect(t, MarkDisconnected(symbols)).checkpoints;
      && (key.symbol in symbols ==>
            && Marked(t.checkpoints, live, key, Live)
            && key in lost && lost[key].status == Reconnecting
            && lost[key].reconnects
               == (if key in t.checkpoints then t.checkpoints[key].reconnects else 0)
                  + Occurrences(symbols, key.symbol))
      && (key.symbol !in symbols ==> SameAt(t.checkpoints, live, key) && SameAt(t.checkpoints, lost, key))
      && EventOf(live, key) == EventOf(t.checkpoints, key) && EventOf(lost, key) == EventOf(t.checkpoints, key)
  {
    TouchAllAt(t.checkpoints, symbols, Live, false, key);
    TouchAllAt(t.checkpoints, symbols, Reconnecting, true, key);
    EffectOnReconnects(t, MarkLive(symbols), key);
    EffectOnReconnects(t, MarkDisconnected(symbols), key);
    hide TouchAll;
    hide Occurrences;
  }
}
