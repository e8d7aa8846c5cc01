/** One connection: the opening recovery, LIVE, and then live batches and periodic passes; and
    the stream whose events the batches carry. */
module Connections {
  import opened Prelude
  import opened Minutes
  import opened Tables
  import opened Storage
  import opened Protocol
  import opened Recovery
  import opened Passes
  import opened Effects

  /** What an iteration of the connection loop does with the database. */
  datatype Activity =
    | Batch(events: seq<MarketEvent>, applied: bool)
    | Periodic(attempts: seq<Attempt>)

  /** A connection's database activity, and what became of the events its stream delivered. */
  datatype Connection = Connection(opening: seq<Attempt>, live: bool, acts: seq<Activity>,
                                   delivered: seq<MarketEvent>, inHand: seq<MarketEvent>, pending: seq<MarketEvent>)

  function OpeningPass(cfg: Settings): Pass {
    Pass(cfg, Backfill, false)
  }

  function PeriodicPass(cfg: Settings): Pass {
    Pass(cfg, Reconciliation, true)
  }

  predicate Sized(act: Activity, cfg: Settings) {
    match act
    case Batch(events, _) => 1 <= |events| <= MAX_BATCH
    case Periodic(attempts) => |attempts| <= |cfg.symbols|
  }

  ghost function AfterActivity(h: History, cfg: Settings, act: Activity): History
    requires Sized(act, cfg)
  {
    match act
    case Batch(events, applied) => WriteIf(h, applied, LiveBatch(events))
    case Periodic(attempts) => AfterAttempts(After(h, TimedOut), PeriodicPass(cfg), attempts)
  }

  ghost function AfterActivities(h: History, cfg: Settings, acts: seq<Activity>): History
    requires forall act | act in acts :: Sized(act, cfg)
  {
    if acts == [] then h
    else
      var n := |acts| - 1;
      assert acts[n] in acts && Sized(acts[n], cfg);
      AfterActivity(AfterActivities(h, cfg, acts[..n]), cfg, acts[n])
  }

  /** Only an activity that went through is followed by another one: a batch that took effect, or
      a pass that attempted every symbol. */
  predicate WentThrough(act: Activity, cfg: Settings) {
    match act
    case Batch(_, applied) => applied
    case Periodic(attempts) => |attempts| == |cfg.symbols|
  }

  ghost predicate ActivitiesPossible(h: History, cfg: Settings, acts: seq<Activity>) {
    acts == [] ||
    var n := |acts| - 1;
    && (forall act | act in acts :: Sized(act, cfg))
    && ActivitiesPossible(h, cfg, acts[..n])
    && (n > 0 ==> WentThrough(acts[n - 1], cfg))
    && (acts[n].Periodic? ==>
          assert acts[n] in acts;
          AttemptsPossible(After(AfterActivities(h, cfg, acts[..n]), TimedOut), PeriodicPass(cfg), acts[n].attempts))
  }

  function CommittedBy(act: Activity): seq<MarketEvent> {
    if act.Batch? && act.applied then act.events else []
  }

  /** The events of the batches that took effect, in order. */
  function Committed(acts: seq<Activity>): seq<MarketEvent> {
    if acts == [] then [] else Committed(acts[..|acts| - 1]) + CommittedBy(acts[|acts| - 1])
  }

  ghost function ConnectionSteps(h: History, cfg: Settings, c: Connection): History
    requires |c.opening| <= |cfg.symbols| && forall act | act in c.acts :: Sized(act, cfg)
  {
    var entered := AfterAttempts(After(h, Connected), OpeningPass(cfg), c.opening);
    AfterActivities(WriteIf(entered, c.live, MarkLive(cfg.symbols)), cfg, c.acts)
  }

  /** No event is lost, invented, repeated or reordered: what the stream delivered is what was
      committed, then the batch in hand, then what still waits in the queue or in the reader. */
  ghost predicate Conserved(c: Connection) {
    && c.delivered == Committed(c.acts) + c.inHand + c.pending
    && |c.inHand| <= MAX_BATCH && |c.pending| <= QUEUE_SIZE + 1
  }

  ghost predicate ConnectionPossible(h: History, cfg: Settings, c: Connection) {
    && |c.opening| <= |cfg.symbols|
    && AttemptsPossible(After(h, Connected), OpeningPass(cfg), c.opening)
    && (forall act | act in c.acts :: Sized(act, cfg))
    && (c.live ==> |c.opening| == |cfg.symbols| && forall a | a in c.opening :: ResultOf(a.path).Ok?)
    && (c.acts != [] ==> c.live)
    && ActivitiesPossible(WriteIf(AfterAttempts(After(h, Connected), OpeningPass(cfg), c.opening), c.live,
                                  MarkLive(cfg.symbols)), cfg, c.acts)
    && Conserved(c)
  }

  // -------------------------------------------------------------------------
  // The loop, one activity at a time

  /** The loop of a connection got from history `h` to `now` by `acts`, with `taken` taken from the
      queue and `inHand` of that not committed. */
  ghost predicate Talked(h: History, now: History, cfg: Settings, acts: seq<Activity>,
                         taken: seq<MarketEvent>, inHand: seq<MarketEvent>)
  {
    && (forall act | act in acts :: Sized(act, cfg)) && ActivitiesPossible(h, cfg, acts)
    && now == AfterActivities(h, cfg, acts)
    && taken == Committed(acts) + inHand && |inHand| <= MAX_BATCH
  }

  /** Another activity may follow: nothing is in hand and the last one went through. */
  ghost predicate Ready(cfg: Settings, acts: seq<Activity>, inHand: seq<MarketEvent>) {
    inHand == [] && (acts != [] ==> WentThrough(acts[|acts| - 1], cfg))
  }

  lemma TalkedNothing(h: History, cfg: Settings)
    ensures Talked(h, h, cfg, [], [], []) && Ready(cfg, [], [])
  {
  }

  lemma TalkedEvent(h: History, now: History, cfg: Settings, acts: seq<Activity>, taken: seq<MarketEvent>,
                    event: MarketEvent)
    requires Talked(h, now, cfg, acts, taken, [])
    ensures Talked(h, now, cfg, acts, taken + [event], [event])
  {
  }

  lemma OneMore(h: History, cfg: Settings, acts: seq<Activity>, act: Activity)
    requires (forall each | each in acts :: Sized(each, cfg)) && Sized(act, cfg)
    ensures var more := acts + [act];
      && (forall each | each in more :: Sized(each, cfg))
      && AfterActivities(h, cfg, more) == AfterActivity(AfterActivities(h, cfg, acts), cfg, act)
      && Committed(more) == Committed(acts) + CommittedBy(act)
  {
    hide AfterActivity;
    assert (acts + [act])[..|acts|] == acts;
  }

  lemma OneMorePossible(h: History, cfg: Settings, acts: seq<Activity>, act: Activity)
    requires (forall each | each in acts :: Sized(each, cfg)) && ActivitiesPossible(h, cfg, acts)
    requires Ready(cfg, acts, []) && Sized(act, cfg)
    requires act.Periodic? ==>
               AttemptsPossible(After(AfterActivities(h, cfg, acts), TimedOut), PeriodicPass(cfg), act.attempts)
    ensures ActivitiesPossible(h, cfg, acts + [act])
  {
    hide AttemptsPossible;
    hide AfterActivities;
    assert (acts + [act])[..|acts|] == acts;
  }

  lemma TalkedBatch(h: History, now: History, cfg: Settings, acts: seq<Activity>, taken: seq<MarketEvent>,
                    batch: seq<MarketEvent>, applied: bool)
    requires Talked(h, now, cfg, acts, taken, []) && Ready(cfg, acts, []) && 1 <= |batch| <= MAX_BATCH
    ensures var inHand := if applied then [] else batch;
      && Talked(h, WriteIf(now, applied, LiveBatch(batch)), cfg, acts + [Batch(batch, applied)], taken + batch, inHand)
      && (applied ==> Ready(cfg, acts + [Batch(batch, applied)], inHand))
  {
    hide WriteIf;
    hide AfterActivities;
    hide ActivitiesPossible;
    hide Committed;
    OneMore(h, cfg, acts, Batch(batch, applied));
    OneMorePossible(h, cfg, acts, Batch(batch, applied));
  }

  lemma TalkedPass(h: History, now: History, cfg: Settings, acts: seq<Activity>, taken: seq<MarketEvent>,
                   attempts: seq<Attempt>)
    requires Talked(h, now, cfg, acts, taken, []) && Ready(cfg, acts, [])
    requires |attempts| <= |cfg.symbols| && AttemptsPossible(After(now, TimedOut), PeriodicPass(cfg), attempts)
    ensures var later := AfterAttempts(After(now, TimedOut), PeriodicPass(cfg), attempts);
      Talked(h, later, cfg, acts + [Periodic(attempts)], taken, [])
    ensures |attempts| == |cfg.symbols| ==> Ready(cfg, acts + [Periodic(attempts)], [])
  {
    hide AttemptsPossible;
    hide AfterAttempts;
    hide AfterActivities;
    hide ActivitiesPossible;
    hide Committed;
    OneMore(h, cfg, acts, Periodic(attempts));
    OneMorePossible(h, cfg, acts, Periodic(attempts));
  }

  // -------------------------------------------------------------------------
  // Soundness

  lemma {:induction false} ActivitiesSound(h: History, cfg: Settings, acts: seq<Activity>)
    requires ActivitiesPossible(h, cfg, acts) && forall act | act in acts :: Sized(act, cfg)
    requires SoundUnder(cfg, h) && PhaseOf(h).Streaming?
    ensures var h' := AfterActivities(h, cfg, acts);
      SoundUnder(cfg, h') && PhaseOf(h').Streaming? && Attempts(h') == Attempts(h) && Extends(h, h')
  {
    if acts != [] {
      var n := |acts| - 1;
      assert acts[n] in acts;
      ActivitiesSound(h, cfg, acts[..n]);
      var before := AfterActivities(h, cfg, acts[..n]);
      match acts[n] {
        case Batch(events, applied) => WriteSound(cfg, before, applied, LiveBatch(events));
        case Periodic(attempts) =>
          PassSound(After(before, TimedOut), PeriodicPass(cfg), attempts);
          ExtendsTransitive(before, After(before, TimedOut), AfterActivities(h, cfg, acts));
      }
      ExtendsTransitive(h, before, AfterActivities(h, cfg, acts));
    }
  }

  /** Every possible connection is made of allowed steps: in particular nothing is marked LIVE and
      no batch is written before every configured symbol has been recovered. */
  lemma ConnectionSound(h: History, cfg: Settings, c: Connection)
    requires ConnectionPossible(h, cfg, c) && SoundUnder(cfg, h)
    requires h.After? && (h.event.Started? || h.event.Backoff?)
    ensures var h' := ConnectionSteps(h, cfg, c);
      SoundUnder(cfg, h') && !PhaseOf(h').Idle? && Attempts(h') == Attempts(h) && Extends(h, h')
  {
    var start := After(h, Connected);
    var entered := AfterAttempts(start, OpeningPass(cfg), c.opening);
    PassSound(start, OpeningPass(cfg), c.opening);
    ExtendsTransitive(h, start, entered);
    if c.live {
      var live := After(entered, Wrote(MarkLive(cfg.symbols)));
      forall s | s in cfg.symbols ensures s in PhaseOf(entered).done {
        var i :| 0 <= i < |cfg.symbols| && cfg.symbols[i] == s;
        assert c.opening[i] in c.opening;
      }
      ActivitiesSound(live, cfg, c.acts);
      ExtendsTransitive(entered, live, ConnectionSteps(h, cfg, c));
      ExtendsTransitive(h, entered, ConnectionSteps(h, cfg, c));
    }
  }

  /** Only the last activity of a connection may have failed: every batch before it took effect, and every
      pass before it attempted all symbols. */
  lemma {:induction false} OnlyLastFails(h: History, cfg: Settings, acts: seq<Activity>, i: nat)
    requires ActivitiesPossible(h, cfg, acts) && i < |acts| - 1
    ensures acts[i].Batch? ==> acts[i].applied
    ensures acts[i].Periodic? ==> |acts[i].attempts| == |cfg.symbols|
  {
    var n := |acts| - 1;
    if i < n - 1 {
      OnlyLastFails(h, cfg, acts[..n], i);
    }
  }

  // -------------------------------------------------------------------------
  // The runs of a connection

  /** A periodic pass whose bookkeeping works adds one finished RECONCILIATION run for each symbol it
      attempts, in order, whatever subset of them fails. */
  lemma PeriodicPassLeavesRuns(h: History, cfg: Settings, acts: seq<Activity>)
    requires (forall act | act in acts :: Sized(act, cfg)) && ActivitiesPossible(h, cfg, acts)
    requires acts != [] && acts[|acts| - 1].Periodic?
    requires forall a | a in acts[|acts| - 1].attempts :: BookkeepingWorked(a.path)
    ensures (forall act | act in acts[..|acts| - 1] :: Sized(act, cfg)) && Sized(acts[|acts| - 1], cfg)
    ensures var before, after := AfterActivities(h, cfg, acts[..|acts| - 1]), AfterActivities(h, cfg, acts);
      OneRunEach(Replay(before).runs, Replay(after).runs, cfg.symbols, acts[|acts| - 1].attempts)
  {
    var n := |acts| - 1;
    hide Replay;
    hide BookkeepingWorked;
    hide AttemptsPossible;
    hide AfterAttempts;
    assert acts[n] in acts;
    var before := AfterActivities(h, cfg, acts[..n]);
    assert AfterActivities(h, cfg, acts) == AfterAttempts(After(before, TimedOut), PeriodicPass(cfg), acts[n].attempts);
    hide AfterActivities;
    hide OneRunEach;
    PeriodicLeavesRuns(before, cfg, acts[n].attempts);
    hide ActivitiesPossible;
  }

  lemma PeriodicLeavesRuns(h: History, cfg: Settings, attempts: seq<Attempt>)
    requires |attempts| <= |cfg.symbols| && AttemptsPossible(After(h, TimedOut), PeriodicPass(cfg), attempts)
    requires forall a | a in attempts :: BookkeepingWorked(a.path)
    ensures var later := AfterAttempts(After(h, TimedOut), PeriodicPass(cfg), attempts);
      OneRunEach(Replay(h).runs, Replay(later).runs, cfg.symbols, attempts)
  {
    assert Replay(After(h, TimedOut)) == Replay(h);
    hide OneRunEach;
    hide BookkeepingWorked;
    hide AttemptsPossible;
    hide AfterAttempts;
    hide Replay;
    PassAppendsOneRunPerSymbol(After(h, TimedOut), PeriodicPass(cfg), attempts);
  }

  lemma ActivityAddsOnly(h: History, cfg: Settings, act: Activity)
    requires Sized(act, cfg)
    requires act.Periodic? ==> AttemptsPossible(After(h, TimedOut), PeriodicPass(cfg), act.attempts)
    ensures AddsOnly(Replay(h).runs, Replay(AfterActivity(h, cfg, act)).runs, Reconciliation)
  {
    hide AttemptsPossible;
    hide AfterAttempts;
    if act.Periodic? {
      assert Replay(After(h, TimedOut)) == Replay(h);
      PassAddsOnly(After(h, TimedOut), PeriodicPass(cfg), act.attempts);
    }
  }

  lemma {:induction false} ActivitiesAddOnly(h: History, cfg: Settings, acts: seq<Activity>)
    requires (forall act | act in acts :: Sized(act, cfg)) && ActivitiesPossible(h, cfg, acts)
    ensures AddsOnly(Replay(h).runs, Replay(AfterActivities(h, cfg, acts)).runs, Reconciliation)
  {
    if acts != [] {
      hide AddsOnly;
      hide AttemptsPossible;
      hide AfterActivity;
      hide Replay;
      var n := |acts| - 1;
      assert acts[n] in acts;
      ActivitiesAddOnly(h, cfg, acts[..n]);
      var before := AfterActivities(h, cfg, acts[..n]);
      ActivityAddsOnly(before, cfg, acts[n]);
      AddsOnlyTwice(Replay(h).runs, Replay(before).runs, Replay(AfterActivities(h, cfg, acts)).runs, Reconciliation);
    } else {
      assert AddsOnly(Replay(h).runs, Replay(h).runs, Reconciliation);
    }
  }

  /** The runs a possible connection adds: first BACKFILL runs, of its opening, and then RECONCILIATION runs
      only; and a connection that was never marked LIVE adds BACKFILL runs only. */
  lemma ConnectionRuns(h: History, cfg: Settings, c: Connection) returns (after: nat)
    requires ConnectionPossible(h, cfg, c)
    ensures var runs, runs' := Replay(h).runs, Replay(ConnectionSteps(h, cfg, c)).runs;
      && |runs| <= after <= |runs'| && runs'[..|runs|] == runs
      && (forall i | |runs| <= i < after :: runs'[i].kind == Backfill)
      && (forall i | after <= i < |runs'| :: runs'[i].kind == Reconciliation)
      && (!c.live ==> after == |runs'|)
  {
    var start := After(h, Connected);
    var entered := AfterAttempts(start, OpeningPass(cfg), c.opening);
    var live := WriteIf(entered, c.live, MarkLive(cfg.symbols));
    assert Replay(start) == Replay(h) && Replay(live).runs == Replay(entered).runs;
    PassAddsOnly(start, OpeningPass(cfg), c.opening);
    hide AttemptsPossible;
    hide AfterAttempts;
    ActivitiesAddOnly(live, cfg, c.acts);
    after := |Replay(entered).runs|;
    AppendedRunsStay(Replay(h).runs, Replay(entered).runs, Replay(ConnectionSteps(h, cfg, c)).runs);
    hide Replay;
    hide ActivitiesPossible;
  }

  // -------------------------------------------------------------------------
  // The stream and the tables

  /** Every event whose batch took effect, in order. */
  function LiveEvents(h: History): seq<MarketEvent> {
    match h
    case Genesis(_) => []
    case After(past, event) =>
      LiveEvents(past) + if event.Wrote? && event.txn.LiveBatch? then event.txn.events else []
  }

  lemma {:induction false} PagesCarryNoEvents(h: History, symbol: string, from: int, last: int, pages: seq<seq<Candle>>)
    ensures LiveEvents(AfterPages(h, symbol, from, last, pages)) == LiveEvents(h)
  {
    if pages != [] {
      PagesCarryNoEvents(h, symbol, from, last, pages[..|pages| - 1]);
    }
  }

  lemma TryCarriesNoEvents(h: History, req: Request, id: nat, from: int, path: Path)
    requires path.Backfilled?
    ensures LiveEvents(AfterTry(h, req, id, from, path)) == LiveEvents(h)
    ensures LiveEvents(AfterHandler(AfterTry(h, req, id, from, path), req, id, path)) == LiveEvents(h)
  {
    PagesCarryNoEvents(h, req.symbol, from, Last(req), path.pages);
  }

  lemma RecoveryCarriesNoEvents(h: History, req: Request, path: Path)
    ensures LiveEvents(Steps(h, req, path)) == LiveEvents(h)
  {
    if path.Backfilled? {
      TryCarriesNoEvents(After(h, Wrote(CreateRun(path.run))), req, |Replay(h).runs|, path.run.rangeStart, path);
    }
    assert LiveEvents(Body(h, req, path)) == LiveEvents(h);
  }

  lemma {:induction false} PassCarriesNoEvents(h: History, pass: Pass, attempts: seq<Attempt>)
    requires |attempts| <= |pass.cfg.symbols|
    ensures LiveEvents(AfterAttempts(h, pass, attempts)) == LiveEvents(h)
  {
    if attempts != [] {
      var n := |attempts| - 1;
      PassCarriesNoEvents(h, pass, attempts[..n]);
      var req := RequestOf(pass, n, attempts[n].nowMs);
      RecoveryCarriesNoEvents(AfterAttempts(h, pass, attempts[..n]), req, attempts[n].path);
    }
  }

  lemma ActivityCarries(h: History, cfg: Settings, act: Activity)
    requires Sized(act, cfg)
    ensures LiveEvents(AfterActivity(h, cfg, act)) == LiveEvents(h) + CommittedBy(act)
  {
    hide AfterAttempts;
    if act.Periodic? {
      PassCarriesNoEvents(After(h, TimedOut), PeriodicPass(cfg), act.attempts);
    }
  }

  lemma ConcatThrice<T>(a: seq<T>, b: seq<T>, c: seq<T>)
    ensures (a + b) + c == a + (b + c)
  {
  }

  lemma {:induction false} ActivitiesCarryCommitted(h: History, cfg: Settings, acts: seq<Activity>)
    requires forall act | act in acts :: Sized(act, cfg)
    ensures LiveEvents(AfterActivities(h, cfg, acts)) == LiveEvents(h) + Committed(acts)
  {
    if acts == [] {
      assert LiveEvents(h) + [] == LiveEvents(h);
    } else {
      var n := |acts| - 1;
      assert acts[n] in acts;
      var before := AfterActivities(h, cfg, acts[..n]);
      assert AfterActivities(h, cfg, acts) == AfterActivity(before, cfg, acts[n]);
      assert Committed(acts) == Committed(acts[..n]) + CommittedBy(acts[n]);
      hide *;
      ActivitiesCarryCommitted(h, cfg, acts[..n]);
      ActivityCarries(before, cfg, acts[n]);
      ConcatThrice(LiveEvents(h), Committed(acts[..n]), CommittedBy(acts[n]));
    }
  }

  /** Through a whole connection, whatever fails, the events that reach the database are a prefix
      of the events the stream delivered, in order, and all but the last 20,501 delivered events
      reach it. */
  lemma PersistedIsPrefixOfStream(h: History, cfg: Settings, c: Connection)
    requires ConnectionPossible(h, cfg, c)
    ensures var before, after := LiveEvents(h), LiveEvents(ConnectionSteps(h, cfg, c));
      && before <= after
      && after[|before|..] <= c.delivered
      && |c.delivered| - |after[|before|..]| <= 20_501
  {
    var entered := AfterAttempts(After(h, Connected), OpeningPass(cfg), c.opening);
    PassCarriesNoEvents(After(h, Connected), OpeningPass(cfg), c.opening);
    hide AttemptsPossible;
    hide ActivitiesPossible;
    hide AfterAttempts;
    var live := WriteIf(entered, c.live, MarkLive(cfg.symbols));
    assert LiveEvents(live) == LiveEvents(h);
    ActivitiesCarryCommitted(live, cfg, c.acts);
    hide AfterActivities;
    hide LiveEvents;
    hide Committed;
    var after := LiveEvents(ConnectionSteps(h, cfg, c));
    assert after == LiveEvents(h) + Committed(c.acts);
    assert after[|LiveEvents(h)|..] == Committed(c.acts);
  }

  lemma {:induction false} TradesOfConcat(a: seq<MarketEvent>, b: seq<MarketEvent>)
    ensures TradesOf(a + b) == TradesOf(a) + TradesOf(b)
  {
    if b == [] {
      assert a + b == a;
    } else {
      TradesOfConcat(a, b[..|b| - 1]);
      assert (a + b)[..|a + b| - 1] == a + b[..|b| - 1];
    }
  }

  /** The candles of every transaction that took effect and writes candles, in order. */
  function CandleBatches(h: History): seq<seq<Candle>> {
    match h
    case Genesis(_) => []
    case After(past, event) =>
      CandleBatches(past) +
      match event
      case Wrote(StorePage(page)) => [page]
      case Wrote(LiveBatch(events)) => [CandlesOf(events)]
      case _ => []
  }

  lemma ApplyBatchesSnoc(table: CandleTable, batches: seq<seq<Candle>>, batch: seq<Candle>)
    ensures ApplyBatches(table, batches + [batch]) == Bulk(ApplyBatches(table, batches), batch)
  {
    assert (batches + [batch])[..|batches|] == batches;
  }

  lemma EffectOnCandles(t: Tables, txn: Txn)
    ensures Effect(t, txn).candles ==
              match txn
              case StorePage(page) => Bulk(t.candles, page)
              case LiveBatch(events) => Bulk(t.candles, CandlesOf(events))
              case _ => t.candles
  {
  }

  /** In every state of every run the candle table is the original one with the pages and the live
      batches written in the order they were committed. */
  lemma {:induction false} CandleTableIsBatches(h: History)
    ensures Replay(h).candles == ApplyBatches(Origin(h).candles, CandleBatches(h))
  {
    if h.After? {
      CandleTableIsBatches(h.past);
      if h.event.Wrote? {
        EffectOnCandles(Replay(h.past), h.event.txn);
      }
      hide Effect;
      hide Bulk;
      hide CandlesOf;
      var table, past := Origin(h).candles, CandleBatches(h.past);
      if h.event.Wrote? && h.event.txn.StorePage? {
        ApplyBatchesSnoc(table, past, h.event.txn.page);
      } else if h.event.Wrote? && h.event.txn.LiveBatch? {
        ApplyBatchesSnoc(table, past, CandlesOf(h.event.txn.events));
      } else {
        assert CandleBatches(h) == past;
      }
    }
  }

  /** In every state of every run, over everything ever committed for a minute by pages and live
      batches: its row has the data of the last event; it is closed exactly when it was at first or one
      transaction ended with a closing event; and it has the prices of a closing event unless the last
      event is an open one whose prices differ from those of every closing one. */
  lemma StoredPricesAreFinal(h: History, k: CandleKey)
    requires k in Keys(EverWritten(Origin(h).candles, CandleBatches(h), k))
    ensures var table, all := Replay(h).candles, EverWritten(Origin(h).candles, CandleBatches(h), k);
      && k in table
      && table[k].data == LastOf(all, k).value.data
      && (table[k].isClosed <==> ClosedAt(Origin(h).candles, k) || ClosedByBatch(CandleBatches(h), k))
      && (FromClosingEvent(all, k, Ohlcv(table[k].data)) <==> !EndsStale(all, k))
  {
    CandleTableIsBatches(h);
    FinalPricesNeedFinalEventLast(Origin(h).candles, CandleBatches(h), k);
  }

  /** In every state of every run: batching has left no trace in the candle table exactly when every
      key that the committed events close was closed at first or is closed at the end of some
      transaction. */
  lemma BatchingLeavesNoTrace(h: History)
    ensures var origin, batches := Origin(h).candles, CandleBatches(h);
      Replay(h).candles == UpsertEach(origin, Flatten(batches))
      <==> forall k | k in Keys(Flatten(batches)) ::
             ClosedAt(origin, k) || !SomeClosed(Flatten(batches), k) || ClosedByBatch(batches, k)
  {
    hide *;
    CandleTableIsBatches(h);
    CutAgrees(Origin(h).candles, CandleBatches(h));
  }

  function OpenUpdate(symbol: string, x: int, data: CandleData): MarketEvent {
    CandleEvent(Candle(CandleKey(symbol, INTERVAL, x), CandleRow(data, false)))
  }

  /** A connection that finds its one symbol covered, is marked LIVE, and commits one event. */
  function QuietConnection(nowMs: int, event: MarketEvent): Connection {
    Connection([Attempt(nowMs, Covered)], true, [Batch([event], true)], [event], [], [])
  }

  lemma OneEventBatch(table: CandleTable, event: MarketEvent)
    requires event.CandleEvent?
    ensures CandlesOf([event]) == [event.candle]
    ensures Bulk(table, [event.candle])
         == table[event.candle.key := CandleRow(event.candle.row.data,
                                                ClosedAt(table, event.candle.key) || event.candle.row.isClosed)]
  {
    assert [event][..0] == [];
    var batch := [event.candle];
    assert Keys(batch) == {event.candle.key} && LastOf(batch, event.candle.key) == Some(event.candle.row);
  }

  /** Such a connection is possible over a complete window; its steps, one by one. */
  lemma QuietSteps(t: Tables, cfg: Settings, symbol: string, nowMs: int, event: MarketEvent)
    requires cfg.symbols == [symbol] && WindowClosed(t, symbol, nowMs, cfg.days) && event.CandleEvent?
    ensures var h, c := After(Genesis(t), Started(cfg)), QuietConnection(nowMs, event);
      && ConnectionPossible(h, cfg, c)
      && ConnectionSteps(h, cfg, c)
         == After(After(After(After(h, Connected), Returned(symbol, nowMs, cfg.days)),
                        Wrote(MarkLive(cfg.symbols))), Wrote(LiveBatch([event])))
  {
    var h := After(Genesis(t), Started(cfg));
    var start := After(h, Connected);
    var pass, attempt := OpeningPass(cfg), Attempt(nowMs, Covered);
    NoGapIsWindowClosed(t, RequestOf(pass, 0, nowMs));
    assert Replay(Genesis(t)) == t && Replay(h) == t && Replay(start) == t;
    AttemptsSnoc(start, pass, [], attempt);
    assert [] + [attempt] == [attempt];
    var live := After(After(start, Returned(symbol, nowMs, cfg.days)), Wrote(MarkLive(cfg.symbols)));
    TalkedNothing(live, cfg);
    TalkedBatch(live, live, cfg, [], [], [event], true);
    assert [] + [Batch([event], true)] == [Batch([event], true)];
  }

  lemma QuietTables(t: Tables, cfg: Settings, symbol: string, nowMs: int, event: MarketEvent)
    requires event.CandleEvent?
    ensures var h := After(After(After(After(After(Genesis(t), Started(cfg)), Connected),
                                       Returned(symbol, nowMs, cfg.days)),
                                 Wrote(MarkLive(cfg.symbols))), Wrote(LiveBatch([event])));
      && Replay(h).candles == Bulk(t.candles, [event.candle])
      && CandleBatches(h) == [[event.candle]]
  {
    OneEventBatch(t.candles, event);
    hide Bulk;
    hide CandlesOf;
    var start := After(After(Genesis(t), Started(cfg)), Connected);
    assert Replay(Genesis(t)) == t && Replay(start.past) == t && Replay(start) == t;
    assert CandleBatches(Genesis(t)) == [] && CandleBatches(start.past) == [] && CandleBatches(start) == [];
    var recovered := After(start, Returned(symbol, nowMs, cfg.days));
    var live := After(recovered, Wrote(MarkLive(cfg.symbols)));
    assert Replay(recovered) == t && CandleBatches(recovered) == [];
    assert Replay(live).candles == t.candles && CandleBatches(live) == [];
  }

  /** A closed row loses its prices in a run of the daemon: over any complete window, a connection that
      buffered an open update of one of its minutes stores that update in the closed row. */
  lemma ClosedRowLosesItsPrices(t: Tables, cfg: Settings, symbol: string, nowMs: int, x: int, stale: CandleData)
    requires cfg.symbols == [symbol] && WindowClosed(t, symbol, nowMs, cfg.days)
    requires Expected(x, CoverageStart(nowMs, cfg.days), LastCompletedOpen(nowMs))
    requires Ohlcv(t.candles[CandleKey(symbol, INTERVAL, x)].data) != Ohlcv(stale)
    ensures var k, c := CandleKey(symbol, INTERVAL, x), QuietConnection(nowMs, OpenUpdate(symbol, x, stale));
      var h := After(Genesis(t), Started(cfg));
      && ConnectionPossible(h, cfg, c)
      && (forall act | act in c.acts :: Sized(act, cfg))
      && var h' := ConnectionSteps(h, cfg, c);
      && Sound(h') && k in Replay(h').candles && Replay(h').candles[k] == CandleRow(stale, true)
      && !FromClosingEvent(EverWritten(t.candles, CandleBatches(h'), k), k, Ohlcv(stale))
  {
    var event := OpenUpdate(symbol, x, stale);
    var c := QuietConnection(nowMs, event);
    var h := After(Genesis(t), Started(cfg));
    assert Sound(Genesis(t)) && SoundUnder(cfg, h);
    var k := event.candle.key;
    assert MinuteClosed(t, symbol, x);
    hide ConnectionPossible;
    hide ConnectionSteps;
    hide AfterAttempts;
    hide Bulk;
    hide Replay;
    hide CandleBatches;
    hide WindowClosed;
    QuietSteps(t, cfg, symbol, nowMs, event);
    QuietTables(t, cfg, symbol, nowMs, event);
    ConnectionSound(h, cfg, c);
    OneEventBatch(t.candles, event);
    assert Flatten([[event.candle]]) == [event.candle] by { OneBatch(t.candles, [event.candle]); }
    assert EverWritten(t.candles, [[event.candle]], k) == [Candle(k, t.candles[k]), event.candle];
  }

  lemma EffectOnTrades(t: Tables, txn: Txn)
    ensures Effect(t, txn).trades == if txn.LiveBatch? then InsertEach(t.trades, TradesOf(txn.events)) else t.trades
  {
  }

  /** In every state of every run the trade table is the original one with the committed stream
      inserted one trade at a time, first write winning: batching, retries, recoveries and
      restarts leave no trace in it. */
  lemma {:induction false} TradeTableIsStream(h: History)
    ensures Replay(h).trades == InsertEach(Origin(h).trades, TradesOf(LiveEvents(h)))
  {
    if h.After? {
      TradeTableIsStream(h.past);
      if h.event.Wrote? {
        EffectOnTrades(Replay(h.past), h.event.txn);
      }
      hide Effect;
      hide TradesOf;
      hide InsertEach;
      if h.event.Wrote? && h.event.txn.LiveBatch? {
        var past, batch := LiveEvents(h.past), h.event.txn.events;
        TradesOfConcat(past, batch);
        InsertEachConcat(Origin(h).trades, TradesOf(past), TradesOf(batch));
      } else {
        assert LiveEvents(h) == LiveEvents(h.past);
      }
    } else {
      assert TradesOf([]) == [];
    }
  }

  /** So in every state a trade that was there at first is unchanged, and any other has the data of the first
      event for it that was ever committed, and there is one. */
  lemma StoredTradeIsFirst(h: History, k: TradeKey)
    ensures FirstEventsAdded(Origin(h).trades, Replay(h).trades, LiveEvents(h), k)
  {
    TradeTableIsStream(h);
    InsertedTrades(Origin(h).trades, LiveEvents(h), k);
  }
}
