/** `MarketRepository` on a session: statements change the session's view of the tables, which a
    commit publishes. */
module Repository {
  import opened Prelude
  import opened Tables
  import opened Storage

  class Session {
    var tables: Tables

    constructor (committed: Tables)
      ensures tables == committed
    {
      tables := committed;
    }

    /** `INSERT ... ON CONFLICT DO UPDATE`.  PostgreSQL rejects a statement that names a conflict
        target twice, so the rows must have distinct keys. */
    method ExecuteUpsert(rows: seq<Candle>)
      requires DistinctKeys(rows)
      modifies this
      ensures tables == old(tables).(candles := UpsertEach(old(tables).candles, rows))
    {
      for i := 0 to |rows|
        invariant tables == old(tables).(candles := UpsertEach(old(tables).candles, rows[..i]))
      {
        assert rows[..i + 1][..i] == rows[..i];
        tables := tables.(candles := Upsert(tables.candles, rows[i]));
      }
      assert rows[..|rows|] == rows;
    }

    method UpsertCandles(candles: seq<Candle>)
      modifies this
      ensures tables == old(tables).(candles := Bulk(old(tables).candles, candles))
    {
      UpsertDeduplicatedIsBulk(tables.candles, candles);
      var rows := Deduplicate(candles);
      if rows == [] {
        return;
      }
      ExecuteUpsert(rows);
    }

    /** `INSERT ... ON CONFLICT DO NOTHING`: the rows in order, skipping one whose key is stored. */
    method ExecuteInsert(rows: seq<Trade>)
      modifies this
      ensures tables == old(tables).(trades := InsertEach(old(tables).trades, rows))
    {
      for i := 0 to |rows|
        invariant tables == old(tables).(trades := InsertEach(old(tables).trades, rows[..i]))
      {
        assert rows[..i + 1][..i] == rows[..i];
        if rows[i].key !in tables.trades {
          tables := tables.(trades := tables.trades[rows[i].key := rows[i].data]);
        }
      }
      assert rows[..|rows|] == rows;
    }

    /** First write wins: stored trades stay as they are, and each new key takes its first trade. */
    method InsertTrades(trades: seq<Trade>)
      modifies this
      ensures tables == old(tables).(trades := InsertEach(old(tables).trades, trades))
      ensures tables.trades.Keys == old(tables).trades.Keys + TradeKeys(trades)
      ensures forall k | k in old(tables).trades :: tables.trades[k] == old(tables).trades[k]
      ensures forall i | 0 <= i < |trades| && trades[i].key !in old(tables).trades
                         && (forall j | 0 <= j < i :: trades[j].key != trades[i].key) ::
                tables.trades[trades[i].key] == trades[i].data
    {
      if trades != [] {
        ExecuteInsert(trades);
      }
      var before := old(tables).trades;
      forall k ensures k in tables.trades <==> k in before || k in TradeKeys(trades)
               ensures k in before ==> tables.trades[k] == before[k] {
        FirstTradeWins(before, trades, k);
      }
      forall i | 0 <= i < |trades| && trades[i].key !in before
                 && (forall j | 0 <= j < i :: trades[j].key != trades[i].key)
        ensures tables.trades[trades[i].key] == trades[i].data
      {
        FirstTradeWins(before, trades, trades[i].key);
      }
    }

    method UpdateCheckpoint(symbol: string, source: Source, status: Status, lastEvent: Option<int>,
                            incrementReconnect: bool)
      modifies this
      ensures tables == old(tables).(checkpoints :=
                Touch(old(tables).checkpoints, CheckpointKey(symbol, source), status, lastEvent, incrementReconnect))
    {
      var key := CheckpointKey(symbol, source);
      var inserted := Checkpoint(status, lastEvent, if incrementReconnect then 1 else 0);
      if key in tables.checkpoints {
        var row := tables.checkpoints[key];
        var count := if incrementReconnect then row.reconnects + 1 else row.reconnects;
        var event := if inserted.lastEvent.Some? then inserted.lastEvent else row.lastEvent;
        tables := tables.(checkpoints := tables.checkpoints[key := Checkpoint(inserted.status, event, count)]);
      } else {
        tables := tables.(checkpoints := tables.checkpoints[key := inserted]);
      }
    }

    /** The flush fails when the unique constraint is violated. */
    method CreateRun(symbol: string, kind: RunKind, rangeStart: int, rangeEnd: int, now: int) returns (id: Option<nat>)
      modifies this
      ensures id.Some? <==> FreshRun(old(tables).runs, NewRun(symbol, kind, rangeStart, rangeEnd, now))
      ensures id.Some? ==> id.value == |old(tables).runs|
                           && tables == old(tables).(runs :=
                                old(tables).runs + [NewRun(symbol, kind, rangeStart, rangeEnd, now)])
      ensures id.None? ==> tables == old(tables)
    {
      var run := NewRun(symbol, kind, rangeStart, rangeEnd, now);
      if !FreshRun(tables.runs, run) {
        return None;
      }
      id := Some(|tables.runs|);
      tables := tables.(runs := tables.runs + [run]);
    }

    method FinishRun(id: nat, status: RunStatus, rows: nat, now: int)
      requires id < |tables.runs|
      modifies this
      ensures tables == old(tables).(runs := EndRun(old(tables).runs, id, status, rows, now))
    {
      var managed := tables.runs[id];
      managed := managed.(status := status);
      managed := managed.(rows := rows);
      managed := managed.(finishedAt := Some(now));
      tables := tables.(runs := tables.runs[id := managed]);
    }
  }
}
