/** What one call of `_recover_candles` may do, step by step, for every behaviour of the
    database, the exchange and Redis; and what follows from it. */
module Recovery {
  import opened Prelude
  import opened Minutes
  import opened Tables
  import opened Storage
  import opened Protocol

  datatype Request = Request(symbol: string, kind: RunKind, recordNoop: bool, nowMs: int, cfg: Settings)

  function First(req: Request): int {
    CoverageStart(req.nowMs, req.cfg.days)
  }

  function Last(req: Request): int {
    LastCompletedOpen(req.nowMs)
  }

  /** The first gap of the whole coverage window. */
  function GapOf(t: Tables, req: Request): Option<int> {
    FirstMissing(ClosedOpenTimes(t, req.symbol, First(req), Last(req)), First(req), Last(req))
  }

  function Max(a: int, b: int): int {
    if a < b then b else a
  }

  /** Where the backfill starts: the overlap before the gap, but not before the window. */
  function From(req: Request, gap: int): int {
    Max(First(req), gap - req.cfg.overlap * 60_000)
  }

  // -------------------------------------------------------------------------
  // Pages

  predicate Ascending(page: seq<Candle>) {
    forall i, j | 0 <= i < j < |page| :: page[i].key.openTime < page[j].key.openTime
  }

  /** The contract of the exchange: a non-empty page is ascending and starts at or after the
      requested time.  `_candle_from_rest` makes every candle closed and keyed by the request. */
  predicate PageOk(symbol: string, start: int, page: seq<Candle>) {
    ClosedPage(page, symbol) && Ascending(page) && start <= page[0].key.openTime
  }

  function NextStart(from: int, pages: seq<seq<Candle>>): int {
    if pages == [] || pages[|pages| - 1] == [] then from
    else
      var page := pages[|pages| - 1];
      page[|page| - 1].key.openTime + 60_000
  }

  /** Each page answers a request at the place where the previous page ended. */
  predicate PagesOk(symbol: string, from: int, last: int, pages: seq<seq<Candle>>) {
    pages == [] ||
    var n := |pages| - 1;
    && PagesOk(symbol, from, last, pages[..n])
    && NextStart(from, pages[..n]) <= last
    && PageOk(symbol, NextStart(from, pages[..n]), pages[n])
  }

  function RowsOf(pages: seq<seq<Candle>>): nat {
    if pages == [] then 0 else RowsOf(pages[..|pages| - 1]) + |pages[|pages| - 1]|
  }

  function AfterPages(h: History, symbol: string, from: int, last: int, pages: seq<seq<Candle>>): History {
    if pages == [] then h
    else
      var n := |pages| - 1;
      After(After(AfterPages(h, symbol, from, last, pages[..n]), Asked(symbol, NextStart(from, pages[..n]), last)),
            Wrote(StorePage(pages[n])))
  }

  // -------------------------------------------------------------------------
  // Paths

  /** How an await or a block ended. */
  datatype Exit = Returns | Raises | Cancels

  function Result<T>(exit: Exit, value: T): Outcome<T> {
    match exit
    case Returns => Ok(value)
    case Raises => Raised
    case Cancels => Cancelled
  }

  /** Where the `try` block of the backfill ended.  `applied` says whether a commit that was
      not acknowledged took effect all the same. */
  datatype End =
    | Done(at: int)
    | RestDown(exit: Exit)
    | PageDown(page: seq<Candle>, applied: bool, exit: Exit)
    | RereadDown(exit: Exit)
    | Incomplete
    | FinishDown(at: int, applied: bool, exit: Exit)
    | PublishDown(at: int, exit: Exit)

  function ExitOf(end: End): Exit {
    match end
    case Done(_) => Returns
    case Incomplete => Raises
    case RestDown(exit) => exit
    case PageDown(_, _, exit) => exit
    case RereadDown(exit) => exit
    case FinishDown(_, _, exit) => exit
    case PublishDown(_, exit) => exit
  }

  /** The `except Exception` block. */
  datatype Handler = NotRun | Handled(at: int, applied: bool, exit: Exit)

  datatype Path =
    | Unread(exit: Exit)
    | Covered
    | Noop(run: Run, at: int, applied: bool, exit: Exit)
    | NoRun(run: Run, applied: bool, exit: Exit)
    | Backfilled(run: Run, pages: seq<seq<Candle>>, emptied: bool, end: End, handler: Handler)

  function ResultOf(path: Path): Outcome<bool> {
    match path
    case Unread(exit) => Result(exit, false)
    case Covered => Ok(false)
    case Noop(_, _, _, exit) => Result(exit, false)
    case NoRun(_, _, exit) => Result(exit, false)
    case Backfilled(_, _, _, end, handler) =>
      match ExitOf(end)
      case Returns => Ok(true)
      case Cancels => Cancelled
      case Raises => if handler.Handled? && handler.exit == Cancels then Cancelled else Raised
  }

  /** The loop asks once more than it stores when a request fails, is answered by an empty
      page, or is answered by a page that is not acknowledged. */
  predicate AsksOnceMore(emptied: bool, end: End) {
    emptied || end.RestDown? || end.PageDown?
  }

  function AfterLoop(h: History, req: Request, from: int, path: Path): History
    requires path.Backfilled?
  {
    var stored := AfterPages(h, req.symbol, from, Last(req), path.pages);
    if AsksOnceMore(path.emptied, path.end) then
      After(stored, Asked(req.symbol, NextStart(from, path.pages), Last(req)))
    else stored
  }

  /** One unacknowledged or acknowledged write. */
  function WriteIf(h: History, applied: bool, txn: Txn): History {
    if applied then After(h, Wrote(txn)) else h
  }

  /** What the `try` block writes where it ended. */
  function Conclude(h: History, req: Request, id: nat, rows: nat, end: End): History {
    match end
    case Done(at) => After(h, Wrote(FinishSuccess(id, req.symbol, rows, Last(req), at)))
    case PageDown(page, applied, _) => WriteIf(h, applied, StorePage(page))
    case FinishDown(at, applied, _) => WriteIf(h, applied, FinishSuccess(id, req.symbol, rows, Last(req), at))
    case PublishDown(at, _) => After(h, Wrote(FinishSuccess(id, req.symbol, rows, Last(req), at)))
    case _ => h
  }

  function AfterTry(h: History, req: Request, id: nat, from: int, path: Path): History
    requires path.Backfilled?
  {
    Conclude(AfterLoop(h, req, from, path), req, id, RowsOf(path.pages), path.end)
  }

  function AfterHandler(h: History, req: Request, id: nat, path: Path): History
    requires path.Backfilled?
  {
    if path.handler.Handled? then
      WriteIf(h, path.handler.applied, FinishFailed(id, req.symbol, RowsOf(path.pages), path.handler.at))
    else h
  }

  /** The steps of the call before it returns. */
  ghost function Body(h: History, req: Request, path: Path): History {
    match path
    case Unread(_) => h
    case Covered => h
    case Noop(run, at, applied, _) => WriteIf(h, applied, RecordNoop(run, at))
    case NoRun(run, applied, _) => WriteIf(h, applied, CreateRun(run))
    case Backfilled(run, _, _, _, _) =>
      var id := |Replay(h).runs|;
      var tried := AfterTry(After(h, Wrote(CreateRun(run))), req, id, run.rangeStart, path);
      AfterHandler(tried, req, id, path)
  }

  ghost function Steps(h: History, req: Request, path: Path): History {
    if ResultOf(path).Ok? then After(Body(h, req, path), Returned(req.symbol, req.nowMs, req.cfg.days))
    else Body(h, req, path)
  }

  /** Conditions on the steps of the `try` block, `h` being the history with the run created. */
  ghost predicate TryShape(h: History, req: Request, path: Path)
    requires path.Backfilled?
  {
    var from, last := path.run.rangeStart, Last(req);
    var stored := AfterPages(h, req.symbol, from, last, path.pages);
    var next := NextStart(from, path.pages);
    var whole := GapOf(Replay(stored), req).None?;
    && PagesOk(req.symbol, from, last, path.pages)
    && (path.end.Done? || path.end.Incomplete? || ExitOf(path.end) != Returns)
    && (match path.end
        case RestDown(_) => !path.emptied && next <= last
        case PageDown(page, _, _) => !path.emptied && next <= last && PageOk(req.symbol, next, page)
        case RereadDown(_) => path.emptied == (next <= last)
        case Incomplete => path.emptied == (next <= last) && !whole
        case _ => path.emptied == (next <= last) && whole)
  }

  /** What the `try` block did does not depend on the handler. */
  lemma HandlerIsApart(h: History, req: Request, id: nat, from: int, path: Path, handler: Handler)
    requires path.Backfilled?
    ensures TryShape(h, req, path) ==> TryShape(h, req, path.(handler := handler))
    ensures AfterTry(h, req, id, from, path.(handler := handler)) == AfterTry(h, req, id, from, path)
  {
  }

  /** The handler runs exactly when the `try` block raised. */
  ghost predicate TryPossible(h: History, req: Request, path: Path)
    requires path.Backfilled?
  {
    && TryShape(h, req, path)
    && (path.handler.NotRun? <==> ExitOf(path.end) != Raises)
    && (path.handler.Handled? && path.handler.exit == Returns ==> path.handler.applied)
  }

  /** The paths a call can take from the history `h`. */
  ghost predicate Possible(h: History, req: Request, path: Path) {
    var t := Replay(h);
    var gap := GapOf(t, req);
    match path
    case Unread(exit) => exit != Returns
    case Covered => gap.None? && !req.recordNoop
    case Noop(run, _, applied, exit) =>
      && gap.None? && req.recordNoop
      && run == NewRun(req.symbol, Reconciliation, First(req), Last(req), run.startedAt)
      && (applied ==> FreshRun(t.runs, run))
      && (exit == Returns ==> applied)
    case NoRun(run, applied, exit) =>
      && gap.Some? && exit != Returns
      && run == NewRun(req.symbol, req.kind, From(req, gap.value), Last(req), run.startedAt)
      && (applied ==> FreshRun(t.runs, run))
    case Backfilled(run, _, _, _, _) =>
      && gap.Some?
      && run == NewRun(req.symbol, req.kind, From(req, gap.value), Last(req), run.startedAt)
      && FreshRun(t.runs, run)
      && TryPossible(After(h, Wrote(CreateRun(run))), req, path)
  }

  // -------------------------------------------------------------------------
  // The window

  lemma NoGapIsWindowClosed(t: Tables, req: Request)
    ensures GapOf(t, req).None? <==> WindowClosed(t, req.symbol, req.nowMs, req.cfg.days)
  {
    WindowIsElapsed(req.nowMs, req.cfg.days);
    var closed := ClosedOpenTimes(t, req.symbol, First(req), Last(req));
    forall x | Expected(x, First(req), Last(req)) ensures x in closed <==> MinuteClosed(t, req.symbol, x) {
      assert x <= Last(req);
      ClosedTimesMember(t, req.symbol, First(req), Last(req), x);
    }
  }

  lemma ClosedTimesMember(t: Tables, symbol: string, start: int, end: int, x: int)
    ensures x in ClosedOpenTimes(t, symbol, start, end) <==> start <= x <= end && MinuteClosed(t, symbol, x)
  {
    if MinuteClosed(t, symbol, x) {
      assert CandleKey(symbol, INTERVAL, x) in t.candles;
    }
  }

  lemma ExpectedBetween(x: int, start: int, last: int)
    requires Expected(x, start, last) && start % 60_000 == 0 && last % 60_000 == 0
    ensures start <= x <= last
  {
  }

  lemma GapFacts(t: Tables, req: Request)
    requires GapOf(t, req).Some?
    ensures var gap := GapOf(t, req).value;
      && Expected(gap, First(req), Last(req)) && !MinuteClosed(t, req.symbol, gap)
      && forall x | Expected(x, First(req), Last(req)) && x < gap :: MinuteClosed(t, req.symbol, x)
  {
    var gap := GapOf(t, req).value;
    WindowIsElapsed(req.nowMs, req.cfg.days);
    ExpectedBetween(gap, First(req), Last(req));
    hide ClosedOpenTimes;
    hide Expected;
    hide MinuteClosed;
    ClosedTimesMember(t, req.symbol, First(req), Last(req), gap);
    forall x | Expected(x, First(req), Last(req)) && x < gap ensures MinuteClosed(t, req.symbol, x) {
      ClosedTimesMember(t, req.symbol, First(req), Last(req), x);
    }
  }

  lemma FromFacts(req: Request, gap: int)
    requires Expected(gap, First(req), Last(req))
    ensures First(req) <= From(req, gap) <= gap <= Last(req)
    ensures gap - From(req, gap) <= req.cfg.overlap * 60_000
    ensures From(req, gap) == First(req) || gap - From(req, gap) == req.cfg.overlap * 60_000
    ensures From(req, gap) % 60_000 == 0 && gap % 60_000 == 0
  {
    WindowIsElapsed(req.nowMs, req.cfg.days);
    assert (gap - First(req)) % 60_000 == 0;
  }

  /** Backfilling a suffix is enough: the start lies between the start of the window and the
      gap, within the overlap of the gap, on a minute boundary, and every window minute before
      it is stored closed. */
  lemma SuffixIsEnough(t: Tables, req: Request)
    requires GapOf(t, req).Some?
    ensures var gap := GapOf(t, req).value; var from := From(req, gap);
      && First(req) <= from <= gap <= Last(req)
      && (from == First(req) || gap - from == req.cfg.overlap * 60_000)
      && gap - from <= req.cfg.overlap * 60_000
      && from % 60_000 == 0 && gap % 60_000 == 0
      && (forall x | Expected(x, First(req), Last(req)) && x < from :: MinuteClosed(t, req.symbol, x))
      && !MinuteClosed(t, req.symbol, gap)
  {
    hide *;
    GapFacts(t, req);
    FromFacts(req, GapOf(t, req).value);
  }

  /** The range of every possible backfill: it ends at the latest elapsed minute, and the minutes of the
      window it covers are those from the overlap before the first missing one on. */
  lemma BackfillRange(h: History, req: Request, path: Path, gap: int)
    requires Possible(h, req, path) && path.Backfilled?
    requires Expected(gap, CoverageStart(req.nowMs, req.cfg.days), LastCompletedOpen(req.nowMs))
    requires !MinuteClosed(Replay(h), req.symbol, gap)
    requires forall x | Expected(x, CoverageStart(req.nowMs, req.cfg.days), LastCompletedOpen(req.nowMs)) && x < gap ::
               MinuteClosed(Replay(h), req.symbol, x)
    ensures path.run.rangeEnd == LastCompletedOpen(req.nowMs)
    ensures Expected(path.run.rangeStart, CoverageStart(req.nowMs, req.cfg.days), LastCompletedOpen(req.nowMs))
    ensures forall x | Expected(x, CoverageStart(req.nowMs, req.cfg.days), LastCompletedOpen(req.nowMs)) ::
              path.run.rangeStart <= x <==> gap - req.cfg.overlap * 60_000 <= x
  {
    assert GapOf(Replay(h), req).Some? && path.run.rangeStart == From(req, GapOf(Replay(h), req).value);
    GapFacts(Replay(h), req);
    hide Possible;
    hide GapOf;
    hide MinuteClosed;
    assert gap == GapOf(Replay(h), req).value;
    FromFacts(req, gap);
    FromInWindow(req, gap);
    hide From;
  }

  lemma FromInWindow(req: Request, gap: int)
    requires Expected(gap, First(req), Last(req))
    ensures Expected(From(req, gap), First(req), Last(req))
  {
    FromFacts(req, gap);
    WindowIsElapsed(req.nowMs, req.cfg.days);
  }

  // -------------------------------------------------------------------------
  // The paging loop

  lemma {:induction false} StartsAdvance(symbol: string, from: int, last: int, pages: seq<seq<Candle>>)
    requires PagesOk(symbol, from, last, pages)
    ensures NextStart(from, pages) >= from + |pages| * 60_000
    ensures pages != [] ==> from + (|pages| - 1) * 60_000 <= last
  {
    if pages != [] {
      var n := |pages| - 1;
      StartsAdvance(symbol, from, last, pages[..n]);
      var page := pages[n];
      assert page[0].key.openTime <= page[|page| - 1].key.openTime;
    }
  }

  lemma {:induction false} PagesBelowNext(symbol: string, from: int, last: int, pages: seq<seq<Candle>>, c: Candle)
    requires PagesOk(symbol, from, last, pages) && exists page :: page in pages && c in page
    ensures from <= c.key.openTime && c.key.openTime + 60_000 <= NextStart(from, pages)
  {
    var n := |pages| - 1;
    var page := pages[n];
    assert page[0].key.openTime <= page[|page| - 1].key.openTime;
    StartsAdvance(symbol, from, last, pages[..n]);
    if c in page {
      var i :| 0 <= i < |page| && page[i] == c;
      assert page[0].key.openTime <= page[i].key.openTime <= page[|page| - 1].key.openTime;
    } else {
      assert forall each :: each in pages <==> each == page || each in pages[..n];
      PagesBelowNext(symbol, from, last, pages[..n], c);
    }
  }

  /** Against any exchange, no minute once fetched is fetched again: open times strictly ascend from page
      to page. */
  lemma {:induction false} PagesAscend(symbol: string, from: int, last: int, pages: seq<seq<Candle>>, i: nat, j: nat)
    requires PagesOk(symbol, from, last, pages) && i < j < |pages|
    ensures forall c, d | c in pages[i] && d in pages[j] :: c.key.openTime + 60_000 <= d.key.openTime
  {
    var n := |pages| - 1;
    if j < n {
      PagesAscend(symbol, from, last, pages[..n], i, j);
    } else {
      forall c, d | c in pages[i] && d in pages[n] ensures c.key.openTime + 60_000 <= d.key.openTime {
        assert pages[..n][i] in pages[..n];
        PagesBelowNext(symbol, from, last, pages[..n], c);
        var k :| 0 <= k < |pages[n]| && pages[n][k] == d;
        assert pages[n][0].key.openTime <= pages[n][k].key.openTime;
      }
    }
  }

  function Requests(path: Path): nat
    requires path.Backfilled?
  {
    |path.pages| + if AsksOnceMore(path.emptied, path.end) then 1 else 0
  }

  /** The kline requests of a history. */
  function RequestsMade(h: History): nat {
    match h
    case Genesis(_) => 0
    case After(past, event) => RequestsMade(past) + if event.Asked? then 1 else 0
  }

  lemma {:induction false} PagesAsked(h: History, symbol: string, from: int, last: int, pages: seq<seq<Candle>>)
    ensures RequestsMade(AfterPages(h, symbol, from, last, pages)) == RequestsMade(h) + |pages|
  {
    if pages != [] {
      PagesAsked(h, symbol, from, last, pages[..|pages| - 1]);
    }
  }

  lemma RequestsAreMade(h: History, req: Request, path: Path)
    requires path.Backfilled?
    ensures RequestsMade(Steps(h, req, path)) == RequestsMade(h) + Requests(path)
  {
    var created := After(h, Wrote(CreateRun(path.run)));
    var id, from := |Replay(h).runs|, path.run.rangeStart;
    PagesAsked(created, req.symbol, from, Last(req), path.pages);
    hide AfterPages;
    var looped := AfterLoop(created, req, from, path);
    var tried := AfterTry(created, req, id, from, path);
    assert RequestsMade(created) == RequestsMade(h);
    assert RequestsMade(looped) == RequestsMade(h) + Requests(path);
    assert RequestsMade(tried) == RequestsMade(looped);
    assert RequestsMade(Body(h, req, path)) == RequestsMade(tried);
  }

  /** The requests made since `h` are all for one symbol, up to one minute, and from `from` at the earliest. */
  ghost predicate AsksOnly(h: History, h': History, symbol: string, from: int, last: int) {
    h' == h || (
      && h'.After? && AsksOnly(h, h'.past, symbol, from, last)
      && (h'.event.Asked? ==> h'.event.symbol == symbol && h'.event.end == last && from <= h'.event.start <= last))
  }

  lemma {:induction false} PagesAskOnly(h: History, symbol: string, from: int, last: int, pages: seq<seq<Candle>>)
    requires PagesOk(symbol, from, last, pages)
    ensures AsksOnly(h, AfterPages(h, symbol, from, last, pages), symbol, from, last)
  {
    if pages != [] {
      var n := |pages| - 1;
      PagesAskOnly(h, symbol, from, last, pages[..n]);
      StartsAdvance(symbol, from, last, pages[..n]);
    }
  }

  lemma {:induction false} AsksOnlyTwice(a: History, b: History, c: History, symbol: string, from: int, last: int)
    requires AsksOnly(a, b, symbol, from, last) && AsksOnly(b, c, symbol, from, last)
    ensures AsksOnly(a, c, symbol, from, last)
  {
    if b != c {
      AsksOnlyTwice(a, b, c.past, symbol, from, last);
    }
  }

  /** Every request of a backfill is for its symbol, up to the latest elapsed minute, and not before the start of the
      range: it never asks for a minute that has not elapsed. */
  lemma BackfillAsksOnly(h: History, req: Request, path: Path)
    requires Possible(h, req, path) && path.Backfilled?
    ensures AsksOnly(h, Steps(h, req, path), req.symbol, path.run.rangeStart, LastCompletedOpen(req.nowMs))
  {
    var created := After(h, Wrote(CreateRun(path.run)));
    var symbol, from, last, id := req.symbol, path.run.rangeStart, Last(req), |Replay(h).runs|;
    var stored := AfterPages(created, symbol, from, last, path.pages);
    assert PagesOk(symbol, from, last, path.pages)
        && (AsksOnceMore(path.emptied, path.end) ==> NextStart(from, path.pages) <= last) by {
      hide GapOf;
    }
    hide Possible;
    hide Replay;
    hide PagesOk;
    hide AfterPages;
    PagesAskOnly(created, symbol, from, last, path.pages);
    StartsAdvance(symbol, from, last, path.pages);
    var looped := AfterLoop(created, req, from, path);
    var tried := AfterTry(created, req, id, from, path);
    var body := Body(h, req, path);
    assert AsksOnly(h, created, symbol, from, last);
    assert AsksOnly(stored, looped, symbol, from, last);
    assert AsksOnly(looped, tried, symbol, from, last);
    assert AsksOnly(tried, body, symbol, from, last);
    assert AsksOnly(body, Steps(h, req, path), symbol, from, last);
    assert last == LastCompletedOpen(req.nowMs);
    hide *;
    AsksOnlyTwice(h, created, stored, symbol, from, last);
    AsksOnlyTwice(h, stored, looped, symbol, from, last);
    AsksOnlyTwice(h, looped, tried, symbol, from, last);
    AsksOnlyTwice(h, tried, body, symbol, from, last);
    AsksOnlyTwice(h, body, Steps(h, req, path), symbol, from, last);
  }

  /** Against any exchange that keeps the page contract, the loop makes at most as many requests
      as there are minutes to fetch, however short or gappy the pages are. */
  lemma RequestsBounded(h: History, req: Request, path: Path)
    requires Possible(h, req, path) && path.Backfilled?
    ensures Requests(path) <= (Last(req) - path.run.rangeStart) / 60_000 + 1
    ensures RequestsMade(Steps(h, req, path)) == RequestsMade(h) + Requests(path)
  {
    StartsAdvance(req.symbol, path.run.rangeStart, Last(req), path.pages);
    SuffixIsEnough(Replay(h), req);
    RequestsAreMade(h, req, path);
  }

  lemma {:induction false} PagesKeepOthers(h: History, symbol: string, from: int, last: int, pages: seq<seq<Candle>>)
    ensures var t, t' := Replay(h), Replay(AfterPages(h, symbol, from, last, pages));
      t'.runs == t.runs && t'.trades == t.trades && t'.checkpoints == t.checkpoints
    ensures Extends(h, AfterPages(h, symbol, from, last, pages))
  {
    if pages != [] {
      PagesKeepOthers(h, symbol, from, last, pages[..|pages| - 1]);
    }
  }

  lemma TryKeepsCandles(h: History, req: Request, id: nat, from: int, path: Path)
    requires path.Backfilled? && !path.end.PageDown?
    ensures Replay(AfterTry(h, req, id, from, path)).candles
         == Replay(AfterPages(h, req.symbol, from, Last(req), path.pages)).candles
  {
  }

  lemma CompleteBeforeVerdict(h: History, req: Request, path: Path)
    requires Possible(h, req, path) && path.Backfilled?
    requires path.end.Done? || path.end.FinishDown? || path.end.PublishDown?
    ensures WindowClosed(Replay(AfterPages(After(h, Wrote(CreateRun(path.run))), req.symbol, path.run.rangeStart,
                                           Last(req), path.pages)), req.symbol, req.nowMs, req.cfg.days)
  {
    var created := After(h, Wrote(CreateRun(path.run)));
    var stored := AfterPages(created, req.symbol, path.run.rangeStart, Last(req), path.pages);
    NoGapIsWindowClosed(Replay(stored), req);
  }

  /** A recovery returns normally only when no minute of the whole window is missing. */
  lemma NormalReturnMeansComplete(h: History, req: Request, path: Path)
    requires Possible(h, req, path) && ResultOf(path).Ok?
    ensures WindowClosed(Replay(Steps(h, req, path)), req.symbol, req.nowMs, req.cfg.days)
  {
    if path.Backfilled? {
      CompleteBeforeVerdict(h, req, path);
      var created := After(h, Wrote(CreateRun(path.run)));
      TryKeepsCandles(created, req, |Replay(h).runs|, path.run.rangeStart, path);
    } else {
      NoGapIsWindowClosed(Replay(h), req);
      assert Replay(Steps(h, req, path)).candles == Replay(h).candles;
    }
  }

  /** What a possible backfill says of its range, its pages and its verdict. */
  lemma BackfillFacts(h: History, req: Request, path: Path)
    requires Possible(h, req, path) && path.Backfilled?
    ensures var from, last := path.run.rangeStart, Last(req);
      var stored := AfterPages(After(h, Wrote(CreateRun(path.run))), req.symbol, from, last, path.pages);
      && GapOf(Replay(h), req).Some?
      && from == From(req, GapOf(Replay(h), req).value)
      && PagesOk(req.symbol, from, last, path.pages)
      && (path.end.Done? || path.end.Incomplete? ==> path.emptied == (NextStart(from, path.pages) <= last))
      && (path.end.Incomplete? ==> !WindowClosed(Replay(stored), req.symbol, req.nowMs, req.cfg.days))
  {
    var created := After(h, Wrote(CreateRun(path.run)));
    var stored := AfterPages(created, req.symbol, path.run.rangeStart, Last(req), path.pages);
    NoGapIsWindowClosed(Replay(stored), req);
  }

  // -------------------------------------------------------------------------
  // The run ledger

  /** Rows of all pages whose commit took effect. */
  function CommittedRows(h: History): nat {
    match h
    case Genesis(_) => 0
    case After(past, event) =>
      CommittedRows(past) + if event.Wrote? && event.txn.StorePage? then |event.txn.page| else 0
  }

  lemma {:induction false} PagesCommitted(h: History, symbol: string, from: int, last: int, pages: seq<seq<Candle>>)
    ensures CommittedRows(AfterPages(h, symbol, from, last, pages)) == CommittedRows(h) + RowsOf(pages)
  {
    if pages != [] {
      PagesCommitted(h, symbol, from, last, pages[..|pages| - 1]);
    }
  }

  function LostRows(path: Path): nat
    requires path.Backfilled?
  {
    if path.end.PageDown? && path.end.applied then |path.end.page| else 0
  }

  /** The run table after the `try` block: SUCCESS is written when the verdict's transaction
      takes effect, and nothing otherwise. */
  function AfterVerdict(runs: seq<Run>, id: nat, path: Path): seq<Run>
    requires path.Backfilled?
  {
    match path.end
    case Done(at) => EndRun(runs, id, Success, RowsOf(path.pages), at)
    case PublishDown(at, _) => EndRun(runs, id, Success, RowsOf(path.pages), at)
    case FinishDown(at, applied, _) => if applied then EndRun(runs, id, Success, RowsOf(path.pages), at) else runs
    case _ => runs
  }

  lemma ConcludeLedger(h: History, req: Request, id: nat, path: Path)
    requires path.Backfilled?
    ensures var h' := Conclude(h, req, id, RowsOf(path.pages), path.end);
      && CommittedRows(h') == CommittedRows(h) + LostRows(path)
      && Replay(h').runs == AfterVerdict(Replay(h).runs, id, path)
  {
  }

  lemma LoopLedger(h: History, req: Request, from: int, path: Path)
    requires path.Backfilled?
    ensures var h' := AfterLoop(h, req, from, path);
      CommittedRows(h') == CommittedRows(h) + RowsOf(path.pages) && Replay(h').runs == Replay(h).runs
  {
    PagesKeepOthers(h, req.symbol, from, Last(req), path.pages);
    PagesCommitted(h, req.symbol, from, Last(req), path.pages);
  }

  lemma TryLedger(h: History, req: Request, id: nat, from: int, path: Path)
    requires path.Backfilled?
    ensures CommittedRows(AfterTry(h, req, id, from, path)) == CommittedRows(h) + RowsOf(path.pages) + LostRows(path)
    ensures Replay(AfterTry(h, req, id, from, path)).runs == AfterVerdict(Replay(h).runs, id, path)
  {
    hide Conclude;
    hide AfterLoop;
    LoopLedger(h, req, from, path);
    ConcludeLedger(AfterLoop(h, req, from, path), req, id, path);
  }

  lemma TryKeepsRunCount(h: History, req: Request, id: nat, from: int, path: Path)
    requires path.Backfilled?
    ensures |Replay(AfterTry(h, req, id, from, path)).runs| == |Replay(h).runs|
  {
    hide AfterTry;
    TryLedger(h, req, id, from, path);
  }

  /** A run whose recovery was neither cancelled nor failed in its error handler ends in exactly
      one terminal status: SUCCESS when the recovery returned, and then the window is complete;
      FAILED when it raised.  `rows_processed` counts the acknowledged pages; that is every
      committed row exactly when no page took effect without being acknowledged. */
  lemma LedgerIsTruthful(h: History, req: Request, path: Path)
    requires Possible(h, req, path) && path.Backfilled? && !ResultOf(path).Cancelled?
    requires path.handler.Handled? ==> path.handler.exit == Returns
    ensures var t, t' := Replay(h), Replay(Steps(h, req, path)); var id := |t.runs|;
      && |t'.runs| == id + 1 && t'.runs[..id] == t.runs
      && t'.runs[id].status == (if ResultOf(path).Ok? then Success else RunStatus.Failed)
      && t'.runs[id].finishedAt.Some?
      && t'.runs[id].rows == RowsOf(path.pages)
      && (t'.runs[id].status == Success ==> WindowClosed(t', req.symbol, req.nowMs, req.cfg.days))
      && (!(path.end.PageDown? && path.end.applied) <==>
            t'.runs[id].rows == CommittedRows(Steps(h, req, path)) - CommittedRows(h))
  {
    var created := After(h, Wrote(CreateRun(path.run)));
    TryLedger(created, req, |Replay(h).runs|, path.run.rangeStart, path);
    LedgerOfHandler(h, req, path);
    if ResultOf(path).Ok? {
      NormalReturnMeansComplete(h, req, path);
    }
    if path.end.PageDown? {
      assert path.end.page != [];
    }
  }

  lemma HandlerLedger(h: History, req: Request, id: nat, path: Path)
    requires path.Backfilled?
    ensures CommittedRows(AfterHandler(h, req, id, path)) == CommittedRows(h)
    ensures Replay(AfterHandler(h, req, id, path)).runs ==
              if path.handler.Handled? && path.handler.applied
              then EndRun(Replay(h).runs, id, RunStatus.Failed, RowsOf(path.pages), path.handler.at)
              else Replay(h).runs
  {
  }

  /** A normal return adds a step that touches no table. */
  lemma StepsEndInHandler(h: History, req: Request, path: Path)
    requires path.Backfilled?
    ensures var id := |Replay(h).runs|;
      var tried := AfterTry(After(h, Wrote(CreateRun(path.run))), req, id, path.run.rangeStart, path);
      && Replay(Steps(h, req, path)) == Replay(AfterHandler(tried, req, id, path))
      && CommittedRows(Steps(h, req, path)) == CommittedRows(AfterHandler(tried, req, id, path))
  {
    hide AfterTry;
    hide AfterHandler;
  }

  lemma LedgerOfHandler(h: History, req: Request, path: Path)
    requires path.Backfilled?
    ensures var id := |Replay(h).runs|;
      var tried := AfterTry(After(h, Wrote(CreateRun(path.run))), req, id, path.run.rangeStart, path);
      && CommittedRows(Steps(h, req, path)) == CommittedRows(tried)
      && Replay(Steps(h, req, path)).runs ==
           if path.handler.Handled? && path.handler.applied
           then EndRun(Replay(tried).runs, id, RunStatus.Failed, RowsOf(path.pages), path.handler.at)
           else Replay(tried).runs
  {
    hide AfterTry;
    hide AfterHandler;
    hide Steps;
    var id := |Replay(h).runs|;
    StepsEndInHandler(h, req, path);
    HandlerLedger(AfterTry(After(h, Wrote(CreateRun(path.run))), req, id, path.run.rangeStart, path), req, id, path);
  }

  lemma EndOfLast(runs: seq<Run>, run: Run, status: RunStatus, rows: nat, at: int)
    ensures EndRun(runs + [run], |runs|, status, rows, at) == runs + [Finished(run, status, rows, at)]
  {
  }

  lemma VerdictThenFailure(runs: seq<Run>, run: Run, path: Path)
    requires path.Backfilled?
    ensures path.end.Done? ==>
              AfterVerdict(runs + [run], |runs|, path)
              == runs + [Finished(run, Success, RowsOf(path.pages), path.end.at)]
    ensures path.handler.Handled? ==>
              EndRun(AfterVerdict(runs + [run], |runs|, path), |runs|, RunStatus.Failed, RowsOf(path.pages),
                     path.handler.at)
              == runs + [Finished(run, RunStatus.Failed, RowsOf(path.pages), path.handler.at)]
  {
    var rows := RowsOf(path.pages);
    match path.end {
      case Done(at) => EndOfLast(runs, run, Success, rows, at);
      case FinishDown(at, _, _) => EndOfLast(runs, run, Success, rows, at);
      case PublishDown(at, _) => EndOfLast(runs, run, Success, rows, at);
      case _ =>
    }
    if path.handler.Handled? {
      var at := path.handler.at;
      EndOfLast(runs, run, RunStatus.Failed, rows, at);
      if VerdictApplied(path) {
        EndOfLast(runs, Finished(run, Success, rows, path.end.at), RunStatus.Failed, rows, at);
      }
    }
    hide EndRun;
    hide RowsOf;
  }

  /** The run that is left says what was asked for, whether SUCCESS or FAILED, and when it ended. */
  lemma RunSaysWhatRan(h: History, req: Request, path: Path)
    requires Possible(h, req, path) && path.Backfilled? && !ResultOf(path).Cancelled?
    requires path.handler.Handled? ==> path.handler.exit == Returns
    ensures Replay(Steps(h, req, path)).runs == Replay(h).runs + [
              Run(req.symbol, req.kind, if path.end.Done? then Success else RunStatus.Failed,
                  path.run.rangeStart, LastCompletedOpen(req.nowMs), RowsOf(path.pages), path.run.startedAt,
                  Some(if path.end.Done? then path.end.at else path.handler.at))]
  {
    hide TryShape;
    hide GapOf;
    hide AfterTry;
    hide Steps;
    hide RowsOf;
    hide AfterVerdict;
    hide EndRun;
    var created := After(h, Wrote(CreateRun(path.run)));
    assert path.run == NewRun(req.symbol, req.kind, path.run.rangeStart, Last(req), path.run.startedAt);
    assert path.end.Done? <==> path.handler.NotRun? by { DoneIsNotHandled(h, req, path); }
    TryLedger(created, req, |Replay(h).runs|, path.run.rangeStart, path);
    LedgerOfHandler(h, req, path);
    assert Replay(created).runs == Replay(h).runs + [path.run];
    VerdictThenFailure(Replay(h).runs, path.run, path);
    hide Replay;
    hide Possible;
  }

  lemma DoneIsNotHandled(h: History, req: Request, path: Path)
    requires Possible(h, req, path) && path.Backfilled? && !ResultOf(path).Cancelled?
    ensures path.end.Done? <==> path.handler.NotRun?
    ensures path.handler.Handled? && path.handler.exit == Returns ==> path.handler.applied
  {
    hide GapOf;
  }

  /** A check that finds nothing to do and is recorded adds one run and nothing else: SUCCESS with zero rows
      over the whole window. */
  lemma NoopSaysWhatRan(h: History, req: Request, path: Path)
    requires Possible(h, req, path) && path.Noop? && path.applied
    ensures var t := Replay(h);
      Replay(Steps(h, req, path)) == t.(runs := t.runs + [
        Run(req.symbol, Reconciliation, Success, CoverageStart(req.nowMs, req.cfg.days),
            LastCompletedOpen(req.nowMs), 0, path.run.startedAt, Some(path.at))])
  {
    ReturnTouchesNothing(h, req, path);
    hide GapOf;
    hide Steps;
  }

  /** What a recovery returns: true exactly when its window was not complete before it. */
  lemma ReturnSaysWhatWasMissing(h: History, req: Request, path: Path)
    requires Possible(h, req, path) && ResultOf(path).Ok?
    ensures ResultOf(path).value <==> !WindowClosed(Replay(h), req.symbol, req.nowMs, req.cfg.days)
  {
    NoGapIsWindowClosed(Replay(h), req);
    hide GapOf;
    hide WindowClosed;
  }

  // -------------------------------------------------------------------------
  // Kinds of runs

  /** The runs that were there are as they were, and those that were added are of one kind. */
  ghost predicate AddsOnly(runs: seq<Run>, runs': seq<Run>, kind: RunKind) {
    |runs| <= |runs'| && runs'[..|runs|] == runs && forall i | |runs| <= i < |runs'| :: runs'[i].kind == kind
  }

  lemma VerdictAddsOnly(runs: seq<Run>, run: Run, path: Path)
    requires path.Backfilled?
    ensures AddsOnly(runs, AfterVerdict(runs + [run], |runs|, path), run.kind)
    ensures |AfterVerdict(runs + [run], |runs|, path)| == |runs| + 1
  {
  }

  /** A recovery adds runs of the kind it was asked for only. */
  lemma StepsAddOnly(h: History, req: Request, path: Path)
    requires Possible(h, req, path) && (req.recordNoop ==> req.kind == Reconciliation)
    ensures AddsOnly(Replay(h).runs, Replay(Steps(h, req, path)).runs, req.kind)
  {
    if path.Backfilled? {
      var created := After(h, Wrote(CreateRun(path.run)));
      assert path.run.kind == req.kind && Replay(created).runs == Replay(h).runs + [path.run];
      hide TryShape;
      hide GapOf;
      hide AfterTry;
      TryLedger(created, req, |Replay(h).runs|, path.run.rangeStart, path);
      LedgerOfHandler(h, req, path);
      hide Steps;
      VerdictAddsOnly(Replay(h).runs, path.run, path);
      hide AfterVerdict;
      hide Replay;
    } else {
      hide GapOf;
    }
  }

  /** The transaction that records SUCCESS took effect. */
  predicate VerdictApplied(path: Path)
    requires path.Backfilled?
  {
    path.end.Done? || path.end.PublishDown? || (path.end.FinishDown? && path.end.applied)
  }

  /** A run stays RUNNING exactly when neither the verdict nor the error handler took effect, as
      after a cancellation. */
  lemma RunLeftRunning(h: History, req: Request, path: Path)
    requires Possible(h, req, path) && path.Backfilled?
    ensures var runs, id := Replay(Steps(h, req, path)).runs, |Replay(h).runs|;
      && |runs| == id + 1
      && (runs[id].status == Running <==> !VerdictApplied(path) && !(path.handler.Handled? && path.handler.applied))
      && (runs[id].status == Running ==>
            runs[id] == Run(req.symbol, req.kind, Running, path.run.rangeStart, LastCompletedOpen(req.nowMs), 0,
                            path.run.startedAt, None))
  {
    var created := After(h, Wrote(CreateRun(path.run)));
    assert path.run.status == Running;
    hide TryShape;
    hide GapOf;
    hide AfterTry;
    TryLedger(created, req, |Replay(h).runs|, path.run.rangeStart, path);
    LedgerOfHandler(h, req, path);
    hide Steps;
  }

  lemma TryCheckpoints(h: History, req: Request, id: nat, from: int, path: Path)
    requires path.Backfilled?
    ensures Replay(AfterTry(h, req, id, from, path)).checkpoints ==
              if VerdictApplied(path)
              then Touch(Replay(h).checkpoints, CheckpointKey(req.symbol, Kline1m), Recovered, Some(Last(req)), false)
              else Replay(h).checkpoints
  {
    PagesKeepOthers(h, req.symbol, from, Last(req), path.pages);
  }

  lemma HandlerCheckpoints(h: History, req: Request, id: nat, path: Path)
    requires path.Backfilled?
    ensures Replay(AfterHandler(h, req, id, path)).checkpoints ==
              if path.handler.Handled? && path.handler.applied
              then Touch(Replay(h).checkpoints, CheckpointKey(req.symbol, Kline1m), Status.Failed, None, false)
              else Replay(h).checkpoints
  {
  }

  /** The checkpoint tells the same story as the run: RECOVERED with the last completed minute, or
      FAILED with the event time it had unless SUCCESS had been committed first; and the
      reconnect count is not touched. */
  lemma CheckpointTellsOutcome(h: History, req: Request, path: Path)
    requires Possible(h, req, path) && path.Backfilled? && !ResultOf(path).Cancelled?
    requires path.handler.Handled? ==> path.handler.exit == Returns
    ensures var c, c' := Replay(h).checkpoints, Replay(Steps(h, req, path)).checkpoints;
      var key := CheckpointKey(req.symbol, Kline1m);
      && StatusOf(c', key) == (if ResultOf(path).Ok? then Recovered else Status.Failed)
      && EventOf(c', key) == (if VerdictApplied(path) then Some(Last(req)) else EventOf(c, key))
      && ReconnectsOf(c', key) == ReconnectsOf(c, key)
  {
    var created := After(h, Wrote(CreateRun(path.run)));
    var id := |Replay(h).runs|;
    var tried := AfterTry(created, req, id, path.run.rangeStart, path);
    assert ResultOf(path).Ok? ==> path.end.Done?;
    hide TryShape;
    hide GapOf;
    hide AfterTry;
    hide AfterHandler;
    TryCheckpoints(created, req, id, path.run.rangeStart, path);
    HandlerCheckpoints(tried, req, id, path);
    StepsEndInHandler(h, req, path);
    assert Replay(created).checkpoints == Replay(h).checkpoints;
  }

  /** A recovery sets the event time back exactly when its SUCCESS took effect and the stored event
      was newer than the last completed minute, as it is after a live event of the current one. */
  lemma RecoverySetsEventTimeBack(h: History, req: Request, path: Path, event: int)
    requires Possible(h, req, path) && path.Backfilled? && !ResultOf(path).Cancelled?
    requires path.handler.Handled? ==> path.handler.exit == Returns
    requires EventOf(Replay(h).checkpoints, CheckpointKey(req.symbol, Kline1m)) == Some(event)
    ensures var after := EventOf(Replay(Steps(h, req, path)).checkpoints, CheckpointKey(req.symbol, Kline1m));
      after.Some? && (after.value < event <==> VerdictApplied(path) && Last(req) < event)
  {
    CheckpointTellsOutcome(h, req, path);
    hide Possible;
    hide Steps;
  }

  // -------------------------------------------------------------------------
  // What a backfill closes

  /** A page that took effect holds the minute. */
  ghost predicate Fetched(path: Path, k: CandleKey)
    requires path.Backfilled?
  {
    || InSome(path.pages, k)
    || (path.end.PageDown? && path.end.applied && k in Keys(path.end.page))
  }

  ghost predicate InSome(pages: seq<seq<Candle>>, k: CandleKey) {
    exists page :: page in pages && k in Keys(page)
  }

  /** Every minute of the window that was missing is in a page that took effect. */
  ghost predicate FetchedAllMissing(t: Tables, req: Request, path: Path)
    requires path.Backfilled?
  {
    forall x | Expected(x, First(req), Last(req)) && !MinuteClosed(t, req.symbol, x) ::
      Fetched(path, CandleKey(req.symbol, INTERVAL, x))
  }

  lemma PageCloses(table: CandleTable, page: seq<Candle>, symbol: string, k: CandleKey)
    requires ClosedPage(page, symbol)
    ensures ClosedAt(Bulk(table, page), k) <==> ClosedAt(table, k) || k in Keys(page)
  {
    if k in Keys(page) {
      LastClosed(page, k);
    }
  }

  lemma {:induction false} PagesClose(h: History, symbol: string, from: int, last: int, pages: seq<seq<Candle>>,
                                      k: CandleKey)
    requires PagesOk(symbol, from, last, pages)
    ensures ClosedAt(Replay(AfterPages(h, symbol, from, last, pages)).candles, k)
       <==> ClosedAt(Replay(h).candles, k) || InSome(pages, k)
  {
    if pages != [] {
      var n := |pages| - 1;
      PagesClose(h, symbol, from, last, pages[..n], k);
      PageCloses(Replay(AfterPages(h, symbol, from, last, pages[..n])).candles, pages[n], symbol, k);
      assert forall page :: page in pages <==> page == pages[n] || page in pages[..n];
      hide Keys;
      hide Bulk;
      hide ClosedAt;
    }
  }

  lemma TryCloses(h: History, req: Request, id: nat, path: Path, k: CandleKey)
    requires path.Backfilled? && TryShape(h, req, path)
    ensures ClosedAt(Replay(AfterTry(h, req, id, path.run.rangeStart, path)).candles, k)
       <==> ClosedAt(Replay(h).candles, k) || Fetched(path, k)
  {
    hide AfterTry;
    hide GapOf;
    hide AfterPages;
    hide Bulk;
    hide Keys;
    hide ClosedAt;
    var from := path.run.rangeStart;
    PagesClose(h, req.symbol, from, Last(req), path.pages, k);
    TryOthers(h, req, id, from, path);
    if path.end.PageDown? {
      PageCloses(Replay(AfterPages(h, req.symbol, from, Last(req), path.pages)).candles, path.end.page, req.symbol, k);
    }
  }

  /** After any backfill, however it ends, a minute is closed exactly when it was closed before or
      is in a page that took effect. */
  lemma BackfillCloses(h: History, req: Request, path: Path, k: CandleKey)
    requires Possible(h, req, path) && path.Backfilled?
    ensures ClosedAt(Replay(Steps(h, req, path)).candles, k) <==> ClosedAt(Replay(h).candles, k) || Fetched(path, k)
  {
    var created := After(h, Wrote(CreateRun(path.run)));
    var id := |Replay(h).runs|;
    hide TryShape;
    hide GapOf;
    hide AfterTry;
    hide AfterHandler;
    hide Steps;
    hide Fetched;
    hide ClosedAt;
    TryCloses(created, req, id, path, k);
    HandlerOthers(AfterTry(created, req, id, path.run.rangeStart, path), req, id, path);
    StepsEndInHandler(h, req, path);
    assert Replay(created).candles == Replay(h).candles;
  }

  /** After any backfill, however it ends, the window is complete exactly when every minute that was
      missing is in a page that took effect. */
  lemma WindowClosedExactly(h: History, req: Request, path: Path)
    requires Possible(h, req, path) && path.Backfilled?
    ensures WindowClosed(Replay(Steps(h, req, path)), req.symbol, req.nowMs, req.cfg.days)
       <==> FetchedAllMissing(Replay(h), req, path)
  {
    hide Possible;
    hide Steps;
    hide Fetched;
    hide ClosedAt;
    forall x ensures MinuteClosed(Replay(Steps(h, req, path)), req.symbol, x)
                <==> MinuteClosed(Replay(h), req.symbol, x) || Fetched(path, CandleKey(req.symbol, INTERVAL, x))
    {
      BackfillCloses(h, req, path, CandleKey(req.symbol, INTERVAL, x));
    }
    hide Replay;
    hide Expected;
  }

  /** What the re-read said is what the call leaves behind. */
  lemma VerdictOnWindow(h: History, req: Request, path: Path)
    requires Possible(h, req, path) && path.Backfilled?
    requires path.end.Done? || path.end.Incomplete? || path.end.FinishDown? || path.end.PublishDown?
    ensures !path.end.Incomplete? <==> WindowClosed(Replay(Steps(h, req, path)), req.symbol, req.nowMs, req.cfg.days)
  {
    var created := After(h, Wrote(CreateRun(path.run)));
    var id, from := |Replay(h).runs|, path.run.rangeStart;
    NoGapIsWindowClosed(Replay(AfterPages(created, req.symbol, from, Last(req), path.pages)), req);
    hide GapOf;
    hide AfterTry;
    hide AfterHandler;
    hide Steps;
    hide AfterPages;
    TryOthers(created, req, id, from, path);
    HandlerOthers(AfterTry(created, req, id, from, path), req, id, path);
    StepsEndInHandler(h, req, path);
  }

  /** Against any exchange, a backfill in which neither the exchange, the database nor Redis fails
      ends SUCCESS exactly when every minute that was missing came in some page. */
  lemma SuccessIsExactlyCoverage(h: History, req: Request, path: Path)
    requires Possible(h, req, path) && path.Backfilled?
    requires path.end.Done? || path.end.Incomplete?
    ensures path.end.Done? <==>
            forall x | Expected(x, First(req), Last(req)) && !MinuteClosed(Replay(h), req.symbol, x) ::
              InSome(path.pages, CandleKey(req.symbol, INTERVAL, x))
  {
    hide Possible;
    hide Steps;
    VerdictOnWindow(h, req, path);
    WindowClosedExactly(h, req, path);
    hide Replay;
    hide InSome;
  }

  /** When a FAILED run leaves a complete window: exactly when the call did not go through although
      every minute that was missing is in a page that took effect.  That is so whenever the verdict
      was reached, before or after its SUCCESS took effect, and never when a gap was found. */
  lemma FailedRunOverCompleteWindow(h: History, req: Request, path: Path)
    requires Possible(h, req, path) && path.Backfilled? && !ResultOf(path).Cancelled?
    requires path.handler.Handled? ==> path.handler.exit == Returns
    ensures var t' := Replay(Steps(h, req, path)); var id := |Replay(h).runs|;
      && |t'.runs| == id + 1
      && (t'.runs[id].status == RunStatus.Failed && WindowClosed(t', req.symbol, req.nowMs, req.cfg.days)
          <==> !path.end.Done? && FetchedAllMissing(Replay(h), req, path))
    ensures path.end.FinishDown? || path.end.PublishDown? ==> FetchedAllMissing(Replay(h), req, path)
    ensures path.end.Incomplete? ==> !FetchedAllMissing(Replay(h), req, path)
  {
    LedgerIsTruthful(h, req, path);
    assert ResultOf(path).Ok? <==> path.end.Done?;
    hide Possible;
    hide Steps;
    WindowClosedExactly(h, req, path);
    if path.end.FinishDown? || path.end.PublishDown? || path.end.Incomplete? {
      VerdictOnWindow(h, req, path);
    }
    hide FetchedAllMissing;
    hide Replay;
    hide WindowClosed;
  }

  // -------------------------------------------------------------------------
  // Isolation

  ghost predicate CandlesOnlyFor(c: CandleTable, c': CandleTable, symbol: string) {
    && (forall k: CandleKey | k.symbol != symbol :: k in c' <==> k in c)
    && (forall k: CandleKey | k.symbol != symbol && k in c :: c'[k] == c[k])
  }

  ghost predicate CheckpointsOnlyFor(c: CheckpointTable, c': CheckpointTable, key: CheckpointKey) {
    && (forall k: CheckpointKey | k != key :: k in c' <==> k in c)
    && (forall k: CheckpointKey | k != key && k in c :: c'[k] == c[k])
  }

  ghost predicate RunsOnlyFor(runs: seq<Run>, runs': seq<Run>, symbol: string) {
    runs' == runs || (|runs'| == |runs| + 1 && runs'[..|runs|] == runs && runs'[|runs|].symbol == symbol)
  }

  /** The only rows that differ between two table states belong to one symbol: its candles, its
      one-minute checkpoint, and at most one run appended for it. */
  ghost predicate OnlyFor(t: Tables, t': Tables, symbol: string) {
    && CandlesOnlyFor(t.candles, t'.candles, symbol)
    && t'.trades == t.trades
    && CheckpointsOnlyFor(t.checkpoints, t'.checkpoints, CheckpointKey(symbol, Kline1m))
    && RunsOnlyFor(t.runs, t'.runs, symbol)
  }

  lemma PageOnlyFor(table: CandleTable, page: seq<Candle>, symbol: string)
    requires ClosedPage(page, symbol)
    ensures CandlesOnlyFor(table, Bulk(table, page), symbol)
  {
    forall k: CandleKey | k.symbol != symbol ensures k !in Keys(page) {
    }
  }

  lemma {:induction false} PagesOnlyFor(h: History, symbol: string, from: int, last: int, pages: seq<seq<Candle>>)
    requires PagesOk(symbol, from, last, pages)
    ensures CandlesOnlyFor(Replay(h).candles, Replay(AfterPages(h, symbol, from, last, pages)).candles, symbol)
  {
    if pages != [] {
      var n := |pages| - 1;
      PagesOnlyFor(h, symbol, from, last, pages[..n]);
      PageOnlyFor(Replay(AfterPages(h, symbol, from, last, pages[..n])).candles, pages[n], symbol);
    }
  }

  lemma VerdictTouchesLastRun(runs: seq<Run>, run: Run, path: Path)
    requires path.Backfilled?
    ensures var runs' := AfterVerdict(runs + [run], |runs|, path);
      |runs'| == |runs| + 1 && runs'[..|runs|] == runs && runs'[|runs|].symbol == run.symbol
  {
  }

  lemma CandlesOnlyForTwice(a: CandleTable, b: CandleTable, c: CandleTable, symbol: string)
    requires CandlesOnlyFor(a, b, symbol) && CandlesOnlyFor(b, c, symbol)
    ensures CandlesOnlyFor(a, c, symbol)
  {
  }

  lemma TryCandlesOnlyFor(h: History, req: Request, id: nat, path: Path)
    requires path.Backfilled? && TryShape(h, req, path)
    ensures var tried := AfterTry(h, req, id, path.run.rangeStart, path);
      CandlesOnlyFor(Replay(h).candles, Replay(tried).candles, req.symbol)
  {
    hide AfterTry;
    hide GapOf;
    var stored := Replay(AfterPages(h, req.symbol, path.run.rangeStart, Last(req), path.pages)).candles;
    PagesOnlyFor(h, req.symbol, path.run.rangeStart, Last(req), path.pages);
    TryOthers(h, req, id, path.run.rangeStart, path);
    if path.end.PageDown? && path.end.applied {
      PageOnlyFor(stored, path.end.page, req.symbol);
      CandlesOnlyForTwice(Replay(h).candles, stored, Bulk(stored, path.end.page), req.symbol);
    }
  }

  lemma TryOnlyFor(h: History, req: Request, path: Path)
    requires Possible(h, req, path) && path.Backfilled?
    ensures var id := |Replay(h).runs|;
      var tried := AfterTry(After(h, Wrote(CreateRun(path.run))), req, id, path.run.rangeStart, path);
      && OnlyFor(Replay(h), Replay(tried), req.symbol)
      && |Replay(tried).runs| == id + 1
  {
    var created := After(h, Wrote(CreateRun(path.run)));
    var id := |Replay(h).runs|;
    assert path.run.symbol == req.symbol;
    hide GapOf;
    hide AfterTry;
    hide TryShape;
    TryCandlesOnlyFor(created, req, id, path);
    TryLedger(created, req, id, path.run.rangeStart, path);
    TryOthers(created, req, id, path.run.rangeStart, path);
    VerdictTouchesLastRun(Replay(h).runs, path.run, path);
    hide AfterVerdict;
    hide AfterPages;
  }

  lemma HandlerOnlyFor(t: Tables, h: History, req: Request, path: Path)
    requires path.Backfilled? && OnlyFor(t, Replay(h), req.symbol) && |Replay(h).runs| == |t.runs| + 1
    ensures OnlyFor(t, Replay(AfterHandler(h, req, |t.runs|, path)), req.symbol)
  {
    hide AfterHandler;
    HandlerOthers(h, req, |t.runs|, path);
    HandlerLedger(h, req, |t.runs|, path);
  }

  /** Whatever becomes of a recovery, it changes no row, run or checkpoint of another symbol. */
  lemma StepsOnlyFor(h: History, req: Request, path: Path)
    requires Possible(h, req, path)
    ensures OnlyFor(Replay(h), Replay(Steps(h, req, path)), req.symbol)
  {
    if path.Backfilled? {
      hide *;
      var id := |Replay(h).runs|;
      var tried := AfterTry(After(h, Wrote(CreateRun(path.run))), req, id, path.run.rangeStart, path);
      TryOnlyFor(h, req, path);
      HandlerOnlyFor(Replay(h), tried, req, path);
      StepsEndInHandler(h, req, path);
    } else {
      ShortStepsOnlyFor(h, req, path);
    }
  }

  lemma ShortStepsOnlyFor(h: History, req: Request, path: Path)
    requires Possible(h, req, path) && !path.Backfilled?
    ensures OnlyFor(Replay(h), Replay(Steps(h, req, path)), req.symbol)
  {
    hide GapOf;
  }

  lemma TryOthers(h: History, req: Request, id: nat, from: int, path: Path)
    requires path.Backfilled?
    ensures var t, t' := Replay(h), Replay(AfterTry(h, req, id, from, path));
      var stored := Replay(AfterPages(h, req.symbol, from, Last(req), path.pages)).candles;
      && t'.candles == (if path.end.PageDown? && path.end.applied then Bulk(stored, path.end.page) else stored)
      && t'.trades == t.trades
      && CheckpointsOnlyFor(t.checkpoints, t'.checkpoints, CheckpointKey(req.symbol, Kline1m))
  {
    PagesKeepOthers(h, req.symbol, from, Last(req), path.pages);
    hide Conclude;
    hide AfterPages;
    hide CheckpointsOnlyFor;
    ConcludeOthers(AfterLoop(h, req, from, path), req, id, path);
  }

  lemma ConcludeOthers(h: History, req: Request, id: nat, path: Path)
    requires path.Backfilled?
    ensures var t, t' := Replay(h), Replay(Conclude(h, req, id, RowsOf(path.pages), path.end));
      && t'.candles == (if path.end.PageDown? && path.end.applied then Bulk(t.candles, path.end.page) else t.candles)
      && t'.trades == t.trades
      && CheckpointsOnlyFor(t.checkpoints, t'.checkpoints, CheckpointKey(req.symbol, Kline1m))
  {
    TouchOnlyFor(Replay(h).checkpoints, CheckpointKey(req.symbol, Kline1m), Recovered, Some(Last(req)));
    hide Touch;
    hide CheckpointsOnlyFor;
    hide Bulk;
    hide EndRun;
  }

  lemma TouchOnlyFor(table: CheckpointTable, key: CheckpointKey, status: Status, event: Option<int>)
    ensures CheckpointsOnlyFor(table, Touch(table, key, status, event, false), key)
    ensures CheckpointsOnlyFor(table, table, key)
  {
  }

  lemma HandlerOthers(h: History, req: Request, id: nat, path: Path)
    requires path.Backfilled?
    ensures var t, t' := Replay(h), Replay(AfterHandler(h, req, id, path));
      && t'.candles == t.candles && t'.trades == t.trades
      && CheckpointsOnlyFor(t.checkpoints, t'.checkpoints, CheckpointKey(req.symbol, Kline1m))
  {
    TouchOnlyFor(Replay(h).checkpoints, CheckpointKey(req.symbol, Kline1m), Status.Failed, None);
    hide Touch;
    hide CheckpointsOnlyFor;
    hide Bulk;
    hide EndRun;
  }

  // -------------------------------------------------------------------------
  // Soundness

  lemma {:induction false} PagesSound(h: History, cfg: Settings, symbol: string, from: int, last: int,
                                      pages: seq<seq<Candle>>)
    requires SoundUnder(cfg, h) && !PhaseOf(h).Idle? && symbol in cfg.symbols
    requires PagesOk(symbol, from, last, pages)
    ensures var h' := AfterPages(h, symbol, from, last, pages);
      SoundUnder(cfg, h') && PhaseOf(h') == PhaseOf(h) && Attempts(h') == Attempts(h)
  {
    if pages != [] {
      PagesSound(h, cfg, symbol, from, last, pages[..|pages| - 1]);
    }
  }

  ghost predicate Keeps(cfg: Settings, h: History, h': History) {
    SoundUnder(cfg, h') && PhaseOf(h') == PhaseOf(h) && Attempts(h') == Attempts(h) && Extends(h, h')
  }

  lemma {:induction false} ExtendsTransitive(a: History, b: History, c: History)
    requires Extends(a, b) && Extends(b, c)
    ensures Extends(a, c)
  {
    if b != c {
      ExtendsTransitive(a, b, c.past);
    }
  }

  lemma BackfillExtends(h: History, req: Request, path: Path)
    requires path.Backfilled?
    ensures Extends(h, Steps(h, req, path))
  {
    var created := After(h, Wrote(CreateRun(path.run)));
    var stored := AfterPages(created, req.symbol, path.run.rangeStart, Last(req), path.pages);
    PagesKeepOthers(created, req.symbol, path.run.rangeStart, Last(req), path.pages);
    hide AfterPages;
    hide Replay;
    var looped := AfterLoop(created, req, path.run.rangeStart, path);
    var tried := AfterTry(created, req, |Replay(h).runs|, path.run.rangeStart, path);
    var body := Body(h, req, path);
    assert Extends(h, created);
    assert Extends(stored, looped);
    assert Extends(looped, tried);
    assert Extends(tried, body);
    assert Extends(body, Steps(h, req, path));
    ExtendsTransitive(h, created, stored);
    ExtendsTransitive(h, stored, looped);
    ExtendsTransitive(h, looped, tried);
    ExtendsTransitive(h, tried, body);
    ExtendsTransitive(h, body, Steps(h, req, path));
  }

  lemma LoopSound(h: History, req: Request, from: int, path: Path)
    requires path.Backfilled? && SoundUnder(req.cfg, h) && !PhaseOf(h).Idle? && req.symbol in req.cfg.symbols
    requires PagesOk(req.symbol, from, Last(req), path.pages)
    requires AsksOnceMore(path.emptied, path.end) ==> NextStart(from, path.pages) <= Last(req)
    ensures Keeps(req.cfg, h, AfterLoop(h, req, from, path))
    ensures Replay(AfterLoop(h, req, from, path)) == Replay(AfterPages(h, req.symbol, from, Last(req), path.pages))
  {
    PagesSound(h, req.cfg, req.symbol, from, Last(req), path.pages);
    PagesKeepOthers(h, req.symbol, from, Last(req), path.pages);
  }

  lemma WriteSound(cfg: Settings, h: History, applied: bool, txn: Txn)
    requires SoundUnder(cfg, h) && (applied ==> MayWrite(cfg, h, txn))
    requires !txn.MarkLive? && !txn.MarkDisconnected?
    ensures Keeps(cfg, h, WriteIf(h, applied, txn))
  {
  }

  /** A suffix of the window is closed when the window is. */
  lemma WindowClosesRange(t: Tables, req: Request, from: int)
    requires WindowClosed(t, req.symbol, req.nowMs, req.cfg.days)
    requires First(req) <= from && from % 60_000 == 0
    ensures RangeClosed(t, req.symbol, from, Last(req))
  {
    WindowIsElapsed(req.nowMs, req.cfg.days);
    hide Expected;
    forall x | Expected(x, from, Last(req)) ensures MinuteClosed(t, req.symbol, x) {
      ExpectedShift(x, from, First(req), Last(req));
    }
  }

  lemma TrySound(h: History, req: Request, id: nat, path: Path)
    requires path.Backfilled? && SoundUnder(req.cfg, h) && !PhaseOf(h).Idle? && req.symbol in req.cfg.symbols
    requires TryPossible(h, req, path)
    requires First(req) <= path.run.rangeStart && path.run.rangeStart % 60_000 == 0
    requires id < |Replay(h).runs| && Replay(h).runs[id] == path.run
    requires path.run == NewRun(req.symbol, req.kind, path.run.rangeStart, Last(req), path.run.startedAt)
    ensures Keeps(req.cfg, h, AfterTry(h, req, id, path.run.rangeStart, path))
  {
    var from := path.run.rangeStart;
    LoopSound(h, req, from, path);
    PagesKeepOthers(h, req.symbol, from, Last(req), path.pages);
    var looped := AfterLoop(h, req, from, path);
    match path.end {
      case PageDown(page, applied, _) =>
        WriteSound(req.cfg, looped, applied, StorePage(page));
      case Done(at) =>
        VerdictSound(h, req, id, path, at, true);
      case FinishDown(at, applied, _) =>
        VerdictSound(h, req, id, path, at, applied);
      case PublishDown(at, _) =>
        VerdictSound(h, req, id, path, at, true);
      case _ =>
    }
    ExtendsTransitive(h, looped, AfterTry(h, req, id, from, path));
  }

  lemma VerdictSound(h: History, req: Request, id: nat, path: Path, at: int, applied: bool)
    requires path.Backfilled? && TryPossible(h, req, path)
    requires path.end.Done? || path.end.FinishDown? || path.end.PublishDown?
    requires First(req) <= path.run.rangeStart && path.run.rangeStart % 60_000 == 0
    requires id < |Replay(h).runs| && Replay(h).runs[id] == path.run
    requires path.run == NewRun(req.symbol, req.kind, path.run.rangeStart, Last(req), path.run.startedAt)
    requires var looped := AfterLoop(h, req, path.run.rangeStart, path);
      && SoundUnder(req.cfg, looped) && !PhaseOf(looped).Idle?
      && Replay(looped) == Replay(AfterPages(h, req.symbol, path.run.rangeStart, Last(req), path.pages))
      && Replay(looped).runs == Replay(h).runs
    ensures var looped := AfterLoop(h, req, path.run.rangeStart, path);
      Keeps(req.cfg, looped, WriteIf(looped, applied, FinishSuccess(id, req.symbol, RowsOf(path.pages), Last(req), at)))
  {
    var looped := AfterLoop(h, req, path.run.rangeStart, path);
    NoGapIsWindowClosed(Replay(looped), req);
    WindowClosesRange(Replay(looped), req, path.run.rangeStart);
    WriteSound(req.cfg, looped, applied, FinishSuccess(id, req.symbol, RowsOf(path.pages), Last(req), at));
  }

  lemma BackfillSound(h: History, req: Request, path: Path)
    requires path.Backfilled? && Possible(h, req, path) && SoundUnder(req.cfg, h) && req.symbol in req.cfg.symbols
    requires !PhaseOf(h).Idle?
    ensures Keeps(req.cfg, h, Body(h, req, path))
  {
    var id, start := |Replay(h).runs|, path.run.rangeStart;
    var created := After(h, Wrote(CreateRun(path.run)));
    SuffixIsEnough(Replay(h), req);
    TrySound(created, req, id, path);
    TryLedger(created, req, id, start, path);
    hide TryPossible;
    hide AfterTry;
    hide GapOf;
    var tried := AfterTry(created, req, id, start, path);
    WriteSound(req.cfg, tried, path.handler.Handled? && path.handler.applied,
               FinishFailed(id, req.symbol, RowsOf(path.pages), if path.handler.Handled? then path.handler.at else 0));
    ExtendsTransitive(created, tried, Body(h, req, path));
    ExtendsTransitive(h, created, Body(h, req, path));
  }

  lemma BodySound(h: History, req: Request, path: Path)
    requires Possible(h, req, path) && SoundUnder(req.cfg, h) && req.symbol in req.cfg.symbols
    requires !PhaseOf(h).Idle? && (req.recordNoop ==> PhaseOf(h).Streaming?)
    ensures Keeps(req.cfg, h, Body(h, req, path))
  {
    match path {
      case Backfilled(_, _, _, _, _) =>
        BackfillSound(h, req, path);
      case Noop(run, at, applied, _) =>
        NoGapIsWindowClosed(Replay(h), req);
        WindowIsElapsed(req.nowMs, req.cfg.days);
        WindowClosesRange(Replay(h), req, First(req));
        WriteSound(req.cfg, h, applied, RecordNoop(run, at));
      case NoRun(run, applied, _) =>
        WriteSound(req.cfg, h, applied, CreateRun(run));
      case _ =>
    }
  }

  /** Every possible path of a recovery is made of allowed steps. */
  lemma StepsSound(h: History, req: Request, path: Path)
    requires Possible(h, req, path) && SoundUnder(req.cfg, h) && req.symbol in req.cfg.symbols
    requires !PhaseOf(h).Idle? && (req.recordNoop ==> PhaseOf(h).Streaming?)
    ensures var h' := Steps(h, req, path);
      && SoundUnder(req.cfg, h') && Attempts(h') == Attempts(h) && Extends(h, h')
      && PhaseOf(h') == if PhaseOf(h).Recovering? && ResultOf(path).Ok? then Recovering(PhaseOf(h).done + {req.symbol})
                        else PhaseOf(h)
  {
    BodySound(h, req, path);
    var body := Body(h, req, path);
    if ResultOf(path).Ok? {
      NormalReturnMeansComplete(h, req, path);
      ReturnTouchesNothing(h, req, path);
      assert Steps(h, req, path) == After(body, Returned(req.symbol, req.nowMs, req.cfg.days));
      hide *;
      ReturnSound(req.cfg, h, body, req.symbol, req.nowMs);
    } else {
      assert Steps(h, req, path) == body;
    }
  }

  lemma ReturnSound(cfg: Settings, h: History, body: History, symbol: string, nowMs: int)
    requires SoundUnder(cfg, h) && Keeps(cfg, h, body) && !PhaseOf(h).Idle? && symbol in cfg.symbols
    requires WindowClosed(Replay(body), symbol, nowMs, cfg.days)
    ensures var h' := After(body, Returned(symbol, nowMs, cfg.days));
      && SoundUnder(cfg, h') && Attempts(h') == Attempts(h) && Extends(h, h')
      && PhaseOf(h') == if PhaseOf(h).Recovering? then Recovering(PhaseOf(h).done + {symbol}) else PhaseOf(h)
  {
    hide WindowClosed;
    hide Replay;
  }

  lemma ReturnTouchesNothing(h: History, req: Request, path: Path)
    ensures Replay(Steps(h, req, path)) == Replay(Body(h, req, path))
  {
    hide Body;
  }
}
