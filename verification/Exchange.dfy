/** Recovery against particular exchanges, and across repeated attempts. */
module Exchange {
  import opened Prelude
  import opened Minutes
  import opened Tables
  import opened Protocol
  import opened Recovery

  // -------------------------------------------------------------------------
  // An exchange that answers in full

  function Span(start: int, last: int): int {
    (last - start) / 60_000 + 1
  }

  /** The first `min(1000, remaining)` minutes of the requested range. */
  predicate FullPage(start: int, last: int, page: seq<Candle>) {
    && |page| == Min(1000, Span(start, last))
    && forall j | 0 <= j < |page| :: page[j].key.openTime == start + j * 60_000
  }

  predicate FullPages(from: int, last: int, pages: seq<seq<Candle>>) {
    pages == [] ||
    var n := |pages| - 1;
    FullPages(from, last, pages[..n]) && FullPage(NextStart(from, pages[..n]), last, pages[n])
  }

  /** Full pages march through the range a thousand minutes at a time. */
  lemma {:induction false} FullPagesMarch(symbol: string, from: int, last: int, pages: seq<seq<Candle>>)
    requires PagesOk(symbol, from, last, pages) && FullPages(from, last, pages)
    requires from <= last && (last - from) % 60_000 == 0
    ensures RowsOf(pages) == Min(Span(from, last), 1000 * |pages|)
    ensures NextStart(from, pages) == from + RowsOf(pages) * 60_000
    ensures pages != [] ==> 1000 * (|pages| - 1) < Span(from, last)
  {
    if pages != [] {
      var n := |pages| - 1;
      FullPagesMarch(symbol, from, last, pages[..n]);
      var start := NextStart(from, pages[..n]);
      assert Span(start, last) == Span(from, last) - RowsOf(pages[..n]);
      assert pages[n][|pages[n]| - 1].key.openTime == start + (|pages[n]| - 1) * 60_000;
    }
  }

  lemma FullPageHas(symbol: string, start: int, last: int, page: seq<Candle>, x: int)
    requires ClosedPage(page, symbol) && FullPage(start, last, page)
    requires start <= x < start + |page| * 60_000 && (x - start) % 60_000 == 0
    ensures CandleKey(symbol, INTERVAL, x) in Keys(page)
  {
    var j := (x - start) / 60_000;
    assert page[j] in page && page[j].key == CandleKey(symbol, INTERVAL, x);
  }

  lemma SameGrid(from: int, rows: nat, x: int)
    requires (x - from) % 60_000 == 0
    ensures (x - (from + rows * 60_000)) % 60_000 == 0
  {
  }

  /** Every minute the full pages march over is in one of them. */
  lemma {:induction false} FullPagesHave(symbol: string, from: int, last: int, pages: seq<seq<Candle>>, x: int)
    requires PagesOk(symbol, from, last, pages) && FullPages(from, last, pages)
    requires from <= last && (last - from) % 60_000 == 0
    requires from <= x < NextStart(from, pages) && (x - from) % 60_000 == 0
    ensures InSome(pages, CandleKey(symbol, INTERVAL, x))
  {
    if pages == [] {
      assert false;
    }
    var n := |pages| - 1;
    var start := NextStart(from, pages[..n]);
    FullPagesMarch(symbol, from, last, pages);
    FullPagesMarch(symbol, from, last, pages[..n]);
    assert forall page | page in pages[..n] :: page in pages;
    hide NextStart;
    hide FullPage;
    hide Keys;
    if x < start {
      FullPagesHave(symbol, from, last, pages[..n], x);
    } else {
      SameGrid(from, RowsOf(pages[..n]), x);
      FullPageHas(symbol, start, last, pages[n], x);
    }
  }

  /** With an exchange that answers in full, and no database or Redis failure, a backfill of N
      minutes makes exactly `ceil(N / 1000)` requests, processes N rows and ends SUCCESS. */
  lemma FullExchangeSucceeds(h: History, req: Request, path: Path)
    requires Possible(h, req, path) && path.Backfilled?
    requires FullPages(path.run.rangeStart, Last(req), path.pages)
    requires path.emptied ==> FullPage(NextStart(path.run.rangeStart, path.pages), Last(req), [])
    requires path.end.Done? || path.end.Incomplete?
    ensures var n := Span(path.run.rangeStart, Last(req));
      && path.end.Done? && ResultOf(path) == Ok(true)
      && Requests(path) == (n + 999) / 1000
      && RowsOf(path.pages) == n
      && WindowClosed(Replay(Steps(h, req, path)), req.symbol, req.nowMs, req.cfg.days)
  {
    hide Possible;
    hide Steps;
    hide Replay;
    hide GapOf;
    hide PagesOk;
    hide FullPages;
    hide First;
    BackfillFacts(h, req, path);
    SuffixIsEnough(Replay(h), req);
    var from := path.run.rangeStart;
    RangeOnGrid(req, from);
    FullPagesCount(req.symbol, from, Last(req), path.pages, path.emptied);
    forall x | Expected(x, First(req), Last(req)) && !MinuteClosed(Replay(h), req.symbol, x)
      ensures InSome(path.pages, CandleKey(req.symbol, INTERVAL, x))
    {
      OnGrid(req, from, x);
      FullPagesHave(req.symbol, from, Last(req), path.pages, x);
    }
    SuccessIsExactlyCoverage(h, req, path);
    VerdictOnWindow(h, req, path);
  }

  lemma FullPagesCount(symbol: string, from: int, last: int, pages: seq<seq<Candle>>, emptied: bool)
    requires PagesOk(symbol, from, last, pages) && FullPages(from, last, pages)
    requires from <= last && (last - from) % 60_000 == 0
    requires emptied == (NextStart(from, pages) <= last)
    requires emptied ==> FullPage(NextStart(from, pages), last, [])
    ensures !emptied && |pages| == (Span(from, last) + 999) / 1000 && RowsOf(pages) == Span(from, last)
  {
    FullPagesMarch(symbol, from, last, pages);
  }

  lemma RangeOnGrid(req: Request, from: int)
    requires from % 60_000 == 0
    ensures (Last(req) - from) % 60_000 == 0
  {
  }

  lemma OnGrid(req: Request, from: int, x: int)
    requires Expected(x, First(req), Last(req)) && from % 60_000 == 0
    ensures (x - from) % 60_000 == 0 && x <= Last(req)
  {
    WindowIsElapsed(req.nowMs, req.cfg.days);
  }

  /** With no closed row in the window the backfill covers all `1440 * days` minutes. */
  lemma EmptyWindowIsWholeBackfill(t: Tables, req: Request)
    requires ValidSettings(req.cfg)
    requires forall x | Expected(x, First(req), Last(req)) :: !MinuteClosed(t, req.symbol, x)
    ensures GapOf(t, req) == Some(First(req))
    ensures From(req, First(req)) == First(req) && Span(First(req), Last(req)) == 1440 * req.cfg.days
  {
    WindowIsElapsed(req.nowMs, req.cfg.days);
    assert Expected(First(req), First(req), Last(req));
    ClosedTimesMember(t, req.symbol, First(req), Last(req), First(req));
  }

  // -------------------------------------------------------------------------
  // An exchange that honours endTime

  predicate HonoursEnd(page: seq<Candle>, last: int) {
    forall c | c in page :: c.key.openTime <= last
  }

  ghost predicate NewRowsElapsed(c: CandleTable, c': CandleTable, nowMs: int) {
    forall k | k in c' && (k !in c || c'[k] != c[k]) :: k.openTime + 60_000 <= nowMs
  }

  lemma PageElapsed(c: CandleTable, page: seq<Candle>, req: Request)
    requires HonoursEnd(page, Last(req))
    ensures NewRowsElapsed(c, Bulk(c, page), req.nowMs)
  {
    WindowIsElapsed(req.nowMs, req.cfg.days);
    forall k | k in Keys(page) ensures k.openTime <= Last(req) {
    }
  }

  lemma {:induction false} PagesElapsed(h: History, req: Request, from: int, pages: seq<seq<Candle>>)
    requires forall page | page in pages :: HonoursEnd(page, Last(req))
    ensures var after := AfterPages(h, req.symbol, from, Last(req), pages);
      NewRowsElapsed(Replay(h).candles, Replay(after).candles, req.nowMs)
  {
    if pages != [] {
      var n := |pages| - 1;
      PagesElapsed(h, req, from, pages[..n]);
      PageElapsed(Replay(AfterPages(h, req.symbol, from, Last(req), pages[..n])).candles, pages[n], req);
    }
  }

  /** Although every REST candle is stored as closed, a backfill answered within `endTime` adds
      or changes only rows of minutes that have fully elapsed. */
  lemma BackfillStoresOnlyElapsed(h: History, req: Request, path: Path)
    requires Possible(h, req, path) && path.Backfilled?
    requires forall page | page in path.pages :: HonoursEnd(page, Last(req))
    requires path.end.PageDown? ==> HonoursEnd(path.end.page, Last(req))
    ensures NewRowsElapsed(Replay(h).candles, Replay(Steps(h, req, path)).candles, req.nowMs)
  {
    var from := path.run.rangeStart;
    var created := After(h, Wrote(CreateRun(path.run)));
    var id := |Replay(h).runs|;
    PagesElapsed(created, req, from, path.pages);
    TryOthers(created, req, id, from, path);
    HandlerOthers(AfterTry(created, req, id, from, path), req, id, path);
    assert Replay(Steps(h, req, path)) == Replay(Body(h, req, path));
    if path.end.PageDown? {
      PageElapsed(Replay(AfterPages(created, req.symbol, from, Last(req), path.pages)).candles, path.end.page, req);
    }
  }

  // -------------------------------------------------------------------------
  // Attempts on one window

  ghost function MissingMinutes(t: Tables, req: Request): set<int> {
    set x: int | First(req) <= x <= Last(req) && Expected(x, First(req), Last(req)) && !MinuteClosed(t, req.symbol, x)
  }

  /** Across any later steps the missing minutes of a window only become fewer and the first gap
      never moves back: every committed page survives. */
  lemma GapsOnlyShrink(h: History, later: History, req: Request)
    requires Extends(h, later)
    ensures MissingMinutes(Replay(later), req) <= MissingMinutes(Replay(h), req)
    ensures var gap, gap' := GapOf(Replay(h), req), GapOf(Replay(later), req);
      gap'.Some? ==> gap.Some? && gap.value <= gap'.value
  {
    WindowIsElapsed(req.nowMs, req.cfg.days);
    forall x | Expected(x, First(req), Last(req)) && MinuteClosed(Replay(h), req.symbol, x)
      ensures MinuteClosed(Replay(later), req.symbol, x)
    {
      ClosedForever(h, later, CandleKey(req.symbol, INTERVAL, x));
    }
    var gap, gap' := GapOf(Replay(h), req), GapOf(Replay(later), req);
    if gap'.Some? {
      ClosedTimesMember(Replay(later), req.symbol, First(req), Last(req), gap'.value);
      ClosedTimesMember(Replay(h), req.symbol, First(req), Last(req), gap'.value);
    }
  }

  lemma StrictlySmaller(a: set<int>, b: set<int>, x: int)
    requires a <= b && x in b && x !in a
    ensures |a| < |b|
  {
    assert b == a + (b - a);
    assert x in b - a;
  }

  /** Storing a missing minute of a window leaves strictly fewer missing. */
  lemma StoredMinuteIsProgress(h: History, later: History, req: Request, x: int)
    requires Extends(h, later) && x in MissingMinutes(Replay(h), req) && MinuteClosed(Replay(later), req.symbol, x)
    ensures |MissingMinutes(Replay(later), req)| < |MissingMinutes(Replay(h), req)|
  {
    assert x !in MissingMinutes(Replay(later), req);
    hide *;
    GapsOnlyShrink(h, later, req);
    StrictlySmaller(MissingMinutes(Replay(later), req), MissingMinutes(Replay(h), req), x);
  }

  lemma {:induction false} FirstPageOk(symbol: string, from: int, last: int, pages: seq<seq<Candle>>)
    requires PagesOk(symbol, from, last, pages) && pages != []
    ensures PageOk(symbol, from, pages[0])
  {
    if |pages| > 1 {
      FirstPageOk(symbol, from, last, pages[..|pages| - 1]);
    }
  }

  lemma FullPageReaches(from: int, gap: int, last: int, page: seq<Candle>)
    requires FullPage(from, last, page)
    requires from <= gap <= last && gap - from <= 600_000 && from % 60_000 == 0 && gap % 60_000 == 0
    ensures gap < from + |page| * 60_000 && (gap - from) % 60_000 == 0
  {
  }

  /** One acknowledged full page is enough to fetch and so to close the first gap, whatever comes
      after it: the overlap is shorter than a page. */
  lemma FirstFullPageClosesGap(h: History, req: Request, path: Path)
    requires Possible(h, req, path) && path.Backfilled? && ValidSettings(req.cfg)
    requires path.pages != [] && FullPage(path.run.rangeStart, Last(req), path.pages[0])
    ensures FetchesGap(h, req, path)
    ensures MinuteClosed(Replay(Steps(h, req, path)), req.symbol, GapOf(Replay(h), req).value)
  {
    hide Possible;
    hide Steps;
    hide GapOf;
    hide Replay;
    hide PagesOk;
    hide First;
    hide Last;
    BackfillFacts(h, req, path);
    SuffixIsEnough(Replay(h), req);
    var from, gap := path.run.rangeStart, GapOf(Replay(h), req).value;
    var page := path.pages[0];
    FirstPageOk(req.symbol, from, Last(req), path.pages);
    FullPageReaches(from, gap, Last(req), page);
    FullPageHas(req.symbol, from, Last(req), page, gap);
    BackfillCloses(h, req, path, CandleKey(req.symbol, INTERVAL, gap));
  }

  /** A page that took effect holds the first gap. */
  ghost predicate FetchesGap(h: History, req: Request, path: Path)
    requires path.Backfilled?
  {
    var gap := GapOf(Replay(h), req);
    gap.Some? && Fetched(path, CandleKey(req.symbol, INTERVAL, gap.value))
  }

  /** A backfill attempt, from the history it starts in. */
  datatype Retry = Retry(h: History, req: Request, path: Path)

  ghost function HistoryAfter(r: Retry): History {
    Steps(r.h, r.req, r.path)
  }

  /** The attempt was possible and, however it ended, the page with its first gap took effect. */
  ghost predicate Progresses(r: Retry) {
    Possible(r.h, r.req, r.path) && r.path.Backfilled? && FetchesGap(r.h, r.req, r.path)
  }

  /** The attempt's window has moved with the clock, or has become shorter, since `base`. */
  predicate Later(base: Request, req: Request) {
    base.symbol == req.symbol && base.nowMs <= req.nowMs && req.cfg.days <= base.cfg.days
  }

  /** The attempt still has a gap in the window of `base`. */
  ghost predicate Behind(base: Request, r: Retry) {
    var gap := GapOf(Replay(r.h), r.req);
    Later(base, r.req) && gap.Some? && gap.value <= Last(base)
  }

  lemma LaterStarts(base: Request, req: Request)
    requires Later(base, req)
    ensures First(base) <= First(req)
  {
    WindowIsElapsed(base.nowMs, base.cfg.days);
    WindowIsElapsed(req.nowMs, req.cfg.days);
  }

  lemma SameGridAs(start: int, x: int)
    requires start % 60_000 == 0 && x % 60_000 == 0
    ensures (x - start) % 60_000 == 0
  {
  }

  lemma BehindIsMissing(base: Request, r: Retry)
    requires Behind(base, r)
    ensures GapOf(Replay(r.h), r.req).value in MissingMinutes(Replay(r.h), base)
  {
    hide Replay;
    var gap := GapOf(Replay(r.h), r.req).value;
    SuffixIsEnough(Replay(r.h), r.req);
    LaterStarts(base, r.req);
    hide GapOf;
    hide MinuteClosed;
    WindowIsElapsed(base.nowMs, base.cfg.days);
    SameGridAs(First(base), gap);
    hide First;
    hide Last;
  }

  lemma RetryProgresses(base: Request, r: Retry, next: History)
    requires Progresses(r) && Behind(base, r) && Extends(HistoryAfter(r), next)
    ensures |MissingMinutes(Replay(next), base)| < |MissingMinutes(Replay(r.h), base)|
  {
    hide Possible;
    hide Steps;
    hide Replay;
    hide GapOf;
    hide Fetched;
    hide Extends;
    hide ClosedAt;
    hide MissingMinutes;
    var gap := GapOf(Replay(r.h), r.req).value;
    var k := CandleKey(base.symbol, INTERVAL, gap);
    BackfillCloses(r.h, r.req, r.path, k);
    BackfillExtends(r.h, r.req, r.path);
    ExtendsTransitive(r.h, HistoryAfter(r), next);
    ClosedForever(HistoryAfter(r), next, k);
    BehindIsMissing(base, r);
    StoredMinuteIsProgress(r.h, next, base, gap);
  }

  /** However many attempts there are, one after another with anything between them and each at its own
      time: those that start with a gap in the window of `base` and get the page with their first gap
      stored number at most the minutes of that window missing before the first of them.  After so many
      the gaps have left that window, whatever stopped each attempt. */
  lemma {:induction false} RetriesFinish(base: Request, retries: seq<Retry>)
    requires forall r | r in retries :: Progresses(r) && Behind(base, r)
    requires forall i | 0 < i < |retries| :: Extends(HistoryAfter(retries[i - 1]), retries[i].h)
    ensures retries != [] ==> |retries| <= |MissingMinutes(Replay(retries[0].h), base)|
  {
    if retries != [] {
      hide *;
      var r, rest := retries[0], retries[1..];
      var next := if |retries| > 1 then retries[1].h else HistoryAfter(r);
      assert Extends(HistoryAfter(r), next) by {
        if |retries| <= 1 {
          ExtendsItself(next);
        }
      }
      RetryProgresses(base, r, next);
      RetriesFinish(base, rest);
    }
  }

  lemma ExtendsItself(h: History)
    ensures Extends(h, h)
  {
  }
}
