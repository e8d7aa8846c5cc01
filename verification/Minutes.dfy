/** Minute arithmetic: the coverage window of the collector and the three gap
    detectors of the collector and the dashboard. */
module Minutes {
  import opened Prelude

  /** The open time of the latest minute that has fully elapsed. */
  function LastCompletedOpen(nowMs: int): int {
    (nowMs / 60_000 - 1) * 60_000
  }

  function CoverageStart(nowMs: int, days: int): int {
    ((nowMs - days * 86_400_000) / 60_000) * 60_000
  }

  /** The members of Python's `range(start, last + ONE_MINUTE_MS, ONE_MINUTE_MS)`. */
  predicate Expected(x: int, start: int, last: int) {
    start <= x < last + 60_000 && (x - start) % 60_000 == 0
  }

  lemma ExpectedShift(x: int, from: int, start: int, last: int)
    requires Expected(x, from, last) && start <= from && start % 60_000 == 0 && from % 60_000 == 0
    ensures Expected(x, start, last)
  {
  }

  predicate Aligned(start: int, last: int) {
    (last - start) % 60_000 == 0
  }

  // -------------------------------------------------------------------------
  // The detectors

  /** The collector's search: the earliest expected minute absent from `closed`. */
  function FirstMissing(closed: set<int>, start: int, last: int): (gap: Option<int>)
    ensures gap.None? <==> forall x | Expected(x, start, last) :: x in closed
    ensures gap.Some? ==> Expected(gap.value, start, last) && gap.value !in closed
    ensures gap.Some? ==> forall x | Expected(x, start, last) && x < gap.value :: x in closed
    decreases last + 60_000 - start
  {
    if start >= last + 60_000 then None
    else if start !in closed then assert Expected(start, start, last); Some(start)
    else
      assert forall x :: Expected(x, start, last) <==> x == start || Expected(x, start + 60_000, last);
      FirstMissing(closed, start + 60_000, last)
  }

  /** The dashboard's list of gaps, before its guard on empty ranges. */
  function Gaps(closed: set<int>, start: int, last: int): (gaps: seq<int>)
    ensures forall x :: x in gaps <==> Expected(x, start, last) && x !in closed
    ensures forall i, j | 0 <= i < j < |gaps| :: gaps[i] < gaps[j]
    decreases last + 60_000 - start
  {
    if start >= last + 60_000 then []
    else
      assert forall x :: Expected(x, start, last) <==> x == start || Expected(x, start + 60_000, last);
      var later := Gaps(closed, start + 60_000, last);
      assert forall x | x in later :: start < x;
      assert forall i | 0 <= i < |later| :: start < later[i] by {
        forall i | 0 <= i < |later| ensures start < later[i] { assert later[i] in later; }
      }
      (if start in closed then [] else [start]) + later
  }

  function MissingOpenTimes(closed: set<int>, start: int, last: int): seq<int> {
    if start > last then [] else Gaps(closed, start, last)
  }

  /** The sum over `range(start, last + ONE_MINUTE_MS, ONE_MINUTE_MS)` of "absent". */
  function CountAbsent(closed: set<int>, start: int, last: int): nat
    decreases last + 60_000 - start
  {
    if start >= last + 60_000 then 0
    else (if start in closed then 0 else 1) + CountAbsent(closed, start + 60_000, last)
  }

  function CountMissing(closed: set<int>, last: int, window: int): nat {
    CountAbsent(closed, last - (window - 1) * 60_000, last)
  }

  // -------------------------------------------------------------------------
  // One meaning

  function Head(gaps: seq<int>): Option<int> {
    if gaps == [] then None else Some(gaps[0])
  }

  lemma {:induction false} GapsHead(closed: set<int>, start: int, last: int)
    ensures FirstMissing(closed, start, last) == Head(Gaps(closed, start, last))
    ensures CountAbsent(closed, start, last) == |Gaps(closed, start, last)|
    decreases last + 60_000 - start
  {
    if start < last + 60_000 {
      GapsHead(closed, start + 60_000, last);
    }
  }

  /** On every integer range the search and the list agree exactly when the list's guard
      does not hide a gap: an unaligned start inside the minute that follows `last`. */
  lemma FirstMissingIsHeadOfList(closed: set<int>, start: int, last: int)
    ensures FirstMissing(closed, start, last) == Head(MissingOpenTimes(closed, start, last))
       <==> !(last < start < last + 60_000 && start !in closed)
  {
    GapsHead(closed, start, last);
  }

  lemma AlignedSpan(start: int, last: int)
    requires Aligned(start, last)
    ensures last - ((last - start) / 60_000) * 60_000 == start
    ensures start > last ==> start >= last + 60_000
  {
  }

  /** On an aligned range the three detectors have one meaning. */
  lemma DetectorsAgree(closed: set<int>, start: int, last: int)
    requires Aligned(start, last)
    ensures var gaps := MissingOpenTimes(closed, start, last);
      && FirstMissing(closed, start, last) == Head(gaps)
      && CountMissing(closed, last, (last - start) / 60_000 + 1) == |gaps|
      && (forall i, j | 0 <= i < j < |gaps| :: gaps[i] < gaps[j])
      && (forall x :: x in gaps <==> Expected(x, start, last) && x !in closed)
  {
    AlignedSpan(start, last);
    GapsHead(closed, start, last);
    hide Expected;
    hide Aligned;
    var window := (last - start) / 60_000 + 1;
    assert (window - 1) * 60_000 == last - start;
  }

  /** The smallest case where they differ: a search from half a minute past `last` reports a gap
      where the list is empty. */
  lemma UnalignedDetectorsDiffer()
    ensures FirstMissing({}, 30_000, 0) == Some(30_000)
    ensures MissingOpenTimes({}, 30_000, 0) == []
  {
  }

  function Present(closed: set<int>, start: int, last: int): set<int> {
    set x | x in closed && Expected(x, start, last)
  }

  lemma PresentStep(closed: set<int>, start: int, last: int)
    requires start < last + 60_000
    ensures start !in Present(closed, start + 60_000, last)
    ensures Present(closed, start, last)
         == Present(closed, start + 60_000, last) + if start in closed then {start} else {}
  {
    assert forall x :: Expected(x, start, last) <==> x == start || Expected(x, start + 60_000, last);
  }

  lemma GapsStep(closed: set<int>, start: int, last: int)
    requires start < last + 60_000
    ensures |Gaps(closed, start, last)| == |Gaps(closed, start + 60_000, last)| + if start in closed then 0 else 1
  {
  }

  lemma OneMinuteLess(start: int, last: int)
    requires Aligned(start, last)
    ensures Aligned(start + 60_000, last) && (last - (start + 60_000)) / 60_000 == (last - start) / 60_000 - 1
    ensures start < last + 60_000 ==> start + 60_000 <= last + 60_000
  {
  }

  /** Expected minutes = missing + present, for any aligned range of at least zero minutes. */
  lemma {:induction false} GapsPlusPresent(closed: set<int>, start: int, last: int)
    requires Aligned(start, last) && start <= last + 60_000
    ensures |Gaps(closed, start, last)| + |Present(closed, start, last)| == (last - start) / 60_000 + 1
    decreases last + 60_000 - start
  {
    if start >= last + 60_000 {
      assert Present(closed, start, last) == {};
    } else {
      OneMinuteLess(start, last);
      GapsStep(closed, start, last);
      PresentStep(closed, start, last);
      hide *;
      GapsPlusPresent(closed, start + 60_000, last);
    }
  }

  /** A gap list is no longer than the number of minutes from any bound below all its members. */
  lemma {:induction false} GapsAtMost(closed: set<int>, start: int, last: int, bound: int)
    requires forall x | Expected(x, start, last) && x < bound :: x in closed
    requires Aligned(start, last) && Aligned(bound, last) && bound <= last + 60_000
    ensures |Gaps(closed, start, last)| <= (last - bound) / 60_000 + 1
    decreases last + 60_000 - start
  {
    if start < last + 60_000 {
      var next := start + 60_000;
      assert forall x :: Expected(x, start, last) <==> x == start || Expected(x, next, last);
      if start < bound {
        assert Expected(start, start, last);
        GapsAtMost(closed, next, last, bound);
      } else {
        GapsAtMost(closed, next, last, if bound == start then next else bound);
        if bound < start {
          GapsPlusPresent(closed, start, last);
        }
      }
    }
  }

  // -------------------------------------------------------------------------
  // The coverage window

  /** For every clock reading the window is exactly `1440 * days` aligned minutes, each of
      them fully elapsed, and the minute after its last one has not elapsed. */
  lemma WindowIsElapsed(nowMs: int, days: int)
    ensures CoverageStart(nowMs, days) % 60_000 == 0
    ensures LastCompletedOpen(nowMs) % 60_000 == 0
    ensures LastCompletedOpen(nowMs) - CoverageStart(nowMs, days) == (1440 * days - 1) * 60_000
    ensures LastCompletedOpen(nowMs) + 60_000 <= nowMs < LastCompletedOpen(nowMs) + 2 * 60_000
    ensures Aligned(CoverageStart(nowMs, days), LastCompletedOpen(nowMs))
  {
    assert nowMs - days * 86_400_000 == nowMs - (1440 * days) * 60_000;
    assert (nowMs - (1440 * days) * 60_000) / 60_000 == nowMs / 60_000 - 1440 * days;
  }

  /** A minute is in the window exactly when it opens on a minute boundary, has elapsed, and
      opened no more than `1440 * days` minutes before the current one. */
  lemma WindowMembers(nowMs: int, days: int, x: int)
    ensures Expected(x, CoverageStart(nowMs, days), LastCompletedOpen(nowMs))
       <==> x % 60_000 == 0 && x + 60_000 <= nowMs && x / 60_000 >= nowMs / 60_000 - 1440 * days
  {
    WindowIsElapsed(nowMs, days);
    var start, last := CoverageStart(nowMs, days), LastCompletedOpen(nowMs);
    assert start == (nowMs / 60_000 - 1440 * days) * 60_000;
    assert (x - start) % 60_000 == 0 <==> x % 60_000 == 0;
  }
}
